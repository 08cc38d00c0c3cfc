/**
 The registry of log hubs as a step model: Subscribe calls, reader releases, the
 pump of every hub and every teardown interleave freely, one critical section at a
 time. A teardown may begin at any moment, which covers the linger, a cancelled
 context, a failed follow and an upstream that ended.
 */
module AppLogRegistry {
  import H = AppLogHub

  /** Where one Subscribe call stands; `tried` are the hubs that refused it. */
  datatype Call =
    | Looking(instance: string, lastID: nat, tried: set<nat>)
    | Holding(instance: string, lastID: nat, tried: set<nat>, hub: nat)
    | Refused(instance: string, lastID: nat, tried: set<nat>, hub: nat)
    | Served(instance: string, hub: nat, sub: nat)

  /** Where a hub's run goroutine stands. */
  datatype Phase = Pumping | Closing | Removing | Gone

  datatype Entry = Entry(instance: string, phase: Phase, hub: H.State)

  datatype State = State(maxBytes: int, hubs: map<string, nat>, table: seq<Entry>, calls: seq<Call>)

  function Init(maxBytes: int): State { State(maxBytes, map[], [], []) }

  datatype Event =
    | Arrive(instance: string, lastID: nat)
    | Lookup(call: nat)
    | Enter(call: nat)
    | Drop(call: nat)
    | Release(hub: nat, sub: nat)
    | Receive(hub: nat, sub: nat)
    | Pump(hub: nat, data: H.JournalLine)
    | Stop(hub: nat)
    | CloseOne(hub: nat, sub: nat)
    | AllClosed(hub: nat)
    | Remove(hub: nat)

  /** `if r.hubs[instanceID] == h { delete }` */
  function Unmap(hubs: map<string, nat>, instance: string, hub: nat): map<string, nat> {
    if instance in hubs && hubs[instance] == hub then hubs - {instance} else hubs
  }

  function OnHub(s: State, hub: nat, e: H.Event): State
    requires hub < |s.table|
  {
    s.(table := s.table[hub := s.table[hub].(hub := H.Step(s.table[hub].hub, e))])
  }

  function LookupStep(s: State, call: nat): State
    requires call < |s.calls| && s.calls[call].Looking?
  {
    var c := s.calls[call];
    if c.instance in s.hubs then
      s.(calls := s.calls[call := Holding(c.instance, c.lastID, c.tried, s.hubs[c.instance])])
    else
      s.(calls := s.calls[call := Holding(c.instance, c.lastID, c.tried, |s.table|)],
         hubs := s.hubs[c.instance := |s.table|],
         table := s.table + [Entry(c.instance, Pumping, H.Init(s.maxBytes))])
  }

  function EnterStep(s: State, call: nat): State
    requires call < |s.calls| && s.calls[call].Holding? && s.calls[call].hub < |s.table|
  {
    var c := s.calls[call];
    var h := s.table[c.hub].hub;
    OnHub(s, c.hub, H.DoSubscribe(c.lastID)).(
      calls := s.calls[call := if h.stopped then Refused(c.instance, c.lastID, c.tried, c.hub)
                               else Served(c.instance, c.hub, h.nextSub)])
  }

  function DropStep(s: State, call: nat): State
    requires call < |s.calls| && s.calls[call].Refused?
  {
    var c := s.calls[call];
    s.(hubs := Unmap(s.hubs, c.instance, c.hub),
       calls := s.calls[call := Looking(c.instance, c.lastID, c.tried + {c.hub})])
  }

  /** One critical section; an event that is not enabled changes nothing. */
  function Step(s: State, e: Event): State {
    match e
    case Arrive(instance, lastID) => s.(calls := s.calls + [Looking(instance, lastID, {})])
    case Lookup(c) => if c < |s.calls| && s.calls[c].Looking? then LookupStep(s, c) else s
    case Enter(c) =>
      if c < |s.calls| && s.calls[c].Holding? && s.calls[c].hub < |s.table| then EnterStep(s, c) else s
    case Drop(c) => if c < |s.calls| && s.calls[c].Refused? then DropStep(s, c) else s
    case Release(h, sub) => if h < |s.table| then OnHub(s, h, H.DoUnsubscribe(sub)) else s
    case Receive(h, sub) => if h < |s.table| then OnHub(s, h, H.DoReceive(sub)) else s
    case Pump(h, data) =>
      if h < |s.table| && s.table[h].phase.Pumping? then OnHub(s, h, H.DoAppend(data)) else s
    case Stop(h) =>
      if h < |s.table| && s.table[h].phase.Pumping?
      then SetPhase(OnHub(s, h, H.DoDetach), h, Closing) else s
    case CloseOne(h, sub) =>
      if h < |s.table| && s.table[h].phase.Closing? then OnHub(s, h, H.DoCloseDetached(sub)) else s
    case AllClosed(h) =>
      if h < |s.table| && s.table[h].phase.Closing? && s.table[h].hub.detached == {}
      then SetPhase(s, h, Removing) else s
    case Remove(h) =>
      if h < |s.table| && s.table[h].phase.Removing?
      then SetPhase(s.(hubs := Unmap(s.hubs, s.table[h].instance, h)), h, Gone) else s
  }

  function SetPhase(s: State, hub: nat, phase: Phase): State
    requires hub < |s.table|
  {
    s.(table := s.table[hub := s.table[hub].(phase := phase)])
  }

  function Run(s: State, events: seq<Event>): State {
    if events == [] then s else Step(Run(s, events[..|events| - 1]), events[|events| - 1])
  }

  // ----- What every run keeps -----

  /** A hub of the table: some run of one hub leads to it, and its phase says what it still owes. */
  ghost predicate EntryOk(maxBytes: int, x: Entry) {
    && H.Reachable(x.hub) && x.hub.maxBytes == maxBytes
    && (x.hub.stopped <==> !x.phase.Pumping?)
    && (!x.phase.Closing? ==> x.hub.detached == {})
  }

  ghost predicate Mapped(s: State, hub: nat) {
    hub < |s.table| && s.table[hub].instance in s.hubs && s.hubs[s.table[hub].instance] == hub
  }

  ghost predicate Live(s: State, hub: nat) {
    hub < |s.table| && !s.table[hub].hub.stopped
  }

  ghost predicate CallOk(s: State, c: Call) {
    match c
    case Looking(_, _, tried) => forall h :: h in tried ==> h < |s.table| && !Mapped(s, h)
    case Holding(i, _, tried, hub) =>
      && hub < |s.table| && s.table[hub].instance == i && hub !in tried
      && (forall h :: h in tried ==> h < |s.table| && !Mapped(s, h))
    case Refused(i, _, tried, hub) =>
      && hub < |s.table| && s.table[hub].instance == i && hub !in tried && s.table[hub].hub.stopped
      && (forall h :: h in tried ==> h < |s.table| && !Mapped(s, h))
    case Served(i, hub, sub) =>
      hub < |s.table| && s.table[hub].instance == i && sub in s.table[hub].hub.log
  }

  ghost predicate MapOk(s: State) {
    && (forall i :: i in s.hubs ==> s.hubs[i] < |s.table| && s.table[s.hubs[i]].instance == i)
    && (forall h :: 0 <= h < |s.table| && !s.table[h].hub.stopped ==> Mapped(s, h))
    && (forall h :: 0 <= h < |s.table| && s.table[h].phase.Gone? ==> !Mapped(s, h))
  }

  ghost predicate Inv(s: State) {
    && (forall h :: 0 <= h < |s.table| ==> EntryOk(s.maxBytes, s.table[h]))
    && MapOk(s)
    && (forall c :: 0 <= c < |s.calls| ==> CallOk(s, s.calls[c]))
  }

  /** The table only grows, hubs keep their instance, stay stopped, keep their log, and are never mapped again. */
  ghost predicate Advances(s: State, t: State) {
    && |s.table| <= |t.table|
    && (forall h :: 0 <= h < |s.table| ==>
          && t.table[h].instance == s.table[h].instance
          && (s.table[h].hub.stopped ==> t.table[h].hub.stopped)
          && s.table[h].hub.log.Keys <= t.table[h].hub.log.Keys
          && (Mapped(t, h) ==> Mapped(s, h)))
  }

  lemma CallsAdvance(s: State, t: State, c: Call)
    requires Advances(s, t) && CallOk(s, c)
    ensures CallOk(t, c)
  {
  }

  lemma HubStepKeepsEntry(maxBytes: int, x: Entry, e: H.Event)
    requires EntryOk(maxBytes, x)
    requires e.DoDetach? ==> x.phase.Pumping?
    ensures H.Reachable(H.Step(x.hub, e)) && H.Step(x.hub, e).maxBytes == maxBytes
    ensures x.hub.log.Keys <= H.Step(x.hub, e).log.Keys
    ensures H.Step(x.hub, e).stopped <==> x.hub.stopped || e.DoDetach?
    ensures !e.DoDetach? ==> H.Step(x.hub, e).detached <= x.hub.detached
  {
    H.StepReaches(x.hub, e);
  }

  /** A step on one hub, other than the start of its teardown, keeps everything. */
  lemma OnHubKeepsInv(s: State, hub: nat, e: H.Event)
    requires Inv(s) && hub < |s.table| && !e.DoDetach?
    ensures Inv(OnHub(s, hub, e)) && Advances(s, OnHub(s, hub, e))
  {
    HubStepKeepsEntry(s.maxBytes, s.table[hub], e);
    var t := OnHub(s, hub, e);
    assert forall h :: 0 <= h < |s.table| ==> (Mapped(t, h) <==> Mapped(s, h));
    forall c | 0 <= c < |t.calls| ensures CallOk(t, t.calls[c]) { CallsAdvance(s, t, s.calls[c]); }
  }

  lemma SetPhaseKeepsInv(s: State, t: State, hub: nat)
    requires Inv(s) && hub < |s.table|
    requires s.table[hub].phase.Closing? && s.table[hub].hub.detached == {} && t == SetPhase(s, hub, Removing)
    ensures Inv(t)
  {
    assert forall h :: 0 <= h < |s.table| ==> (Mapped(t, h) <==> Mapped(s, h));
    forall c | 0 <= c < |t.calls| ensures CallOk(t, t.calls[c]) { CallsAdvance(s, t, s.calls[c]); }
  }

  lemma StopKeepsInv(s: State, hub: nat)
    requires Inv(s) && hub < |s.table| && s.table[hub].phase.Pumping?
    ensures Inv(SetPhase(OnHub(s, hub, H.DoDetach), hub, Closing))
  {
    HubStepKeepsEntry(s.maxBytes, s.table[hub], H.DoDetach);
    var t := SetPhase(OnHub(s, hub, H.DoDetach), hub, Closing);
    assert forall h :: 0 <= h < |s.table| ==> (Mapped(t, h) <==> Mapped(s, h));
    forall c | 0 <= c < |t.calls| ensures CallOk(t, t.calls[c]) { CallsAdvance(s, t, s.calls[c]); }
  }

  /** Unmapping a stopped hub keeps the map sound. */
  lemma UnmapKeepsMap(s: State, t: State, hub: nat)
    requires Inv(s) && hub < |s.table| && s.table[hub].hub.stopped
    requires t.table == s.table && t.hubs == Unmap(s.hubs, s.table[hub].instance, hub)
    ensures MapOk(t) && Advances(s, t) && !Mapped(t, hub)
  {
    assert forall h :: 0 <= h < |s.table| ==> (Mapped(t, h) <==> Mapped(s, h) && h != hub);
  }

  lemma DropKeepsInv(s: State, call: nat)
    requires Inv(s) && call < |s.calls| && s.calls[call].Refused?
    ensures Inv(DropStep(s, call))
  {
    var t, c := DropStep(s, call), s.calls[call];
    UnmapKeepsMap(s, t, c.hub);
    forall k | 0 <= k < |t.calls| ensures CallOk(t, t.calls[k]) {
      CallsAdvance(s, t, s.calls[k]);
    }
  }

  lemma RemoveKeepsInv(s: State, hub: nat)
    requires Inv(s) && hub < |s.table| && s.table[hub].phase.Removing?
    ensures Inv(Step(s, Remove(hub)))
  {
    var u := s.(hubs := Unmap(s.hubs, s.table[hub].instance, hub));
    var t := Step(s, Remove(hub));
    assert EntryOk(s.maxBytes, s.table[hub]);
    UnmapKeepsMap(s, u, hub);
    assert forall h :: 0 <= h < |s.table| ==> (Mapped(t, h) <==> Mapped(u, h));
    assert Advances(s, t);
    forall k | 0 <= k < |t.calls| ensures CallOk(t, t.calls[k]) { CallsAdvance(s, t, s.calls[k]); }
    assert MapOk(t);
  }

  lemma LookupKeepsInv(s: State, call: nat)
    requires Inv(s) && call < |s.calls| && s.calls[call].Looking?
    ensures Inv(LookupStep(s, call))
  {
    var t, c := LookupStep(s, call), s.calls[call];
    assert CallOk(s, c);
    assert H.Reachable(H.Init(s.maxBytes)) by { assert H.Init(s.maxBytes) == H.Run(H.Init(s.maxBytes), []); }
    assert forall h :: 0 <= h < |s.table| ==> (Mapped(t, h) <==> Mapped(s, h));
    forall k | 0 <= k < |t.calls| ensures CallOk(t, t.calls[k]) {
      CallsAdvance(s, t, s.calls[k]);
      if k == call && c.instance in s.hubs {
        assert Mapped(s, s.hubs[c.instance]);
      }
    }
  }

  lemma EnterKeepsInv(s: State, call: nat)
    requires Inv(s) && call < |s.calls| && s.calls[call].Holding?
    ensures Inv(EnterStep(s, call))
  {
    var c := s.calls[call];
    assert CallOk(s, c);
    var u, t := OnHub(s, c.hub, H.DoSubscribe(c.lastID)), EnterStep(s, call);
    OnHubKeepsInv(s, c.hub, H.DoSubscribe(c.lastID));
    forall k | 0 <= k < |t.calls| ensures CallOk(t, t.calls[k]) {
      assert CallOk(u, s.calls[k]);
      CallsAdvance(u, t, s.calls[k]);
    }
  }

  lemma StepKeepsInv(s: State, e: Event)
    requires Inv(s)
    ensures Inv(Step(s, e)) && Step(s, e).maxBytes == s.maxBytes
  {
    match e
    case Arrive(_, _) =>
      var t := Step(s, e);
      forall c | 0 <= c < |s.calls| ensures CallOk(t, t.calls[c]) { CallsAdvance(s, t, s.calls[c]); }
    case Lookup(c) => if c < |s.calls| && s.calls[c].Looking? { LookupKeepsInv(s, c); }
    case Enter(c) => if c < |s.calls| && s.calls[c].Holding? { assert CallOk(s, s.calls[c]); EnterKeepsInv(s, c); }
    case Drop(c) => if c < |s.calls| && s.calls[c].Refused? { DropKeepsInv(s, c); }
    case Release(h, sub) => if h < |s.table| { OnHubKeepsInv(s, h, H.DoUnsubscribe(sub)); }
    case Receive(h, sub) => if h < |s.table| { OnHubKeepsInv(s, h, H.DoReceive(sub)); }
    case Pump(h, data) => if h < |s.table| { OnHubKeepsInv(s, h, H.DoAppend(data)); }
    case Stop(h) => if h < |s.table| && s.table[h].phase.Pumping? { StopKeepsInv(s, h); }
    case CloseOne(h, sub) => if h < |s.table| { OnHubKeepsInv(s, h, H.DoCloseDetached(sub)); }
    case AllClosed(h) =>
      if h < |s.table| && s.table[h].phase.Closing? && s.table[h].hub.detached == {} {
        SetPhaseKeepsInv(s, Step(s, e), h);
      }
    case Remove(h) => if h < |s.table| && s.table[h].phase.Removing? { RemoveKeepsInv(s, h); }
  }

  lemma {:induction false} RunKeepsInv(maxBytes: int, events: seq<Event>)
    ensures Inv(Run(Init(maxBytes), events)) && Run(Init(maxBytes), events).maxBytes == maxBytes
  {
    if events != [] {
      RunKeepsInv(maxBytes, events[..|events| - 1]);
      StepKeepsInv(Run(Init(maxBytes), events[..|events| - 1]), events[|events| - 1]);
    }
  }

  /**
   However calls, releases, pumps and teardowns interleave: a hub that has not stopped is
   the one mapped for its instance, so an instance never has two of them; a call that is
   about to enter a hub has not been refused by it before; and a hub whose teardown has
   finished is mapped nowhere.
   */
  lemma OneLiveHubPerInstance(maxBytes: int, events: seq<Event>)
    ensures var s := Run(Init(maxBytes), events);
            && (forall h: nat :: Live(s, h) ==> Mapped(s, h))
            && (forall g: nat, h: nat :: Live(s, g) && Live(s, h) && s.table[g].instance == s.table[h].instance ==> g == h)
            && (forall c :: 0 <= c < |s.calls| && s.calls[c].Holding? ==> s.calls[c].hub !in s.calls[c].tried)
            && (forall h :: 0 <= h < |s.table| && s.table[h].phase.Gone? ==> !Mapped(s, h))
  {
    RunKeepsInv(maxBytes, events);
    var s := Run(Init(maxBytes), events);
    forall c | 0 <= c < |s.calls| && s.calls[c].Holding? ensures s.calls[c].hub !in s.calls[c].tried {
      assert CallOk(s, s.calls[c]);
    }
  }

  /**
   In every run no channel of any hub is ever closed twice or sent to after its close, a
   pending linger means there is no reader, the ring is the longest stretch of the history
   that fits (or the last line), and a hub past its teardown has closed every channel.
   */
  lemma EveryHubIsSound(maxBytes: int, events: seq<Event>, h: nat)
    requires h < |Run(Init(maxBytes), events).table|
    ensures var x := Run(Init(maxBytes), events).table[h];
            && H.Inv(x.hub) && x.hub.maxBytes == maxBytes
            && (forall id :: id in x.hub.chans ==> !x.hub.chans[id].panicked)
            && (x.hub.lingerArmed ==> x.hub.subs == {})
            && (|x.hub.buf| > 1 ==> x.hub.bufBytes <= maxBytes)
            && (x.phase.Removing? || x.phase.Gone? ==> forall id :: id in x.hub.chans ==> x.hub.chans[id].closed)
  {
    RunKeepsInv(maxBytes, events);
    var x := Run(Init(maxBytes), events).table[h];
    assert EntryOk(maxBytes, x);
    H.ReachableKeepsInv(x.hub);
    HubFacts(x.hub);
  }

  lemma HubFacts(s: H.State)
    requires H.Inv(s)
    ensures forall id :: id in s.chans ==> !s.chans[id].panicked && (s.chans[id].closed <==> id !in s.subs + s.detached)
    ensures s.stopped ==> s.subs == {}
    ensures s.lingerArmed ==> s.subs == {}
    ensures |s.buf| > 1 ==> s.bufBytes <= s.maxBytes
  {
    forall id | id in s.chans ensures !s.chans[id].panicked && (s.chans[id].closed <==> id !in s.subs + s.detached) {
      assert H.ChanOk(s.chans[id], s.log[id], id in s.subs + s.detached);
    }
  }

  // ----- A reconnect to a hub that took another's place -----

  /**
   In every run of the registry, a reader that brings a position to a hub, its own or one that
   took its hub's place, is told of a loss, or lacks exactly the hub's lines at or below that
   position. In a hub it comes to for the first time it saw none of these, so it is silently
   short of a line exactly when the hub's first line was there and not above the position.
   */
  lemma ReconnectLacks(maxBytes: int, events: seq<Event>, h: nat, sub: nat) returns (first: nat, from: nat)
    requires h < |Run(Init(maxBytes), events).table|
    requires var hub := Run(Init(maxBytes), events).table[h].hub; sub in hub.log && hub.log[sub].lastID != 0
    ensures var hub := Run(Init(maxBytes), events).table[h].hub;
            var e := hub.log[sub];
            if e.marked then e.replay != [] && e.replay[0] == H.Line(e.issued + 1, H.LOST)
            else H.Lacks(hub.history, e, first, from)
  {
    RunKeepsInv(maxBytes, events);
    var x := Run(Init(maxBytes), events).table[h];
    assert EntryOk(maxBytes, x);
    H.ReachableKeepsInv(x.hub);
    first, from := 0, 0;
    if x.hub.log[sub].marked {
      H.MarkedOpensWithMarker(x.hub, sub);
    } else {
      first, from := H.UnmarkedLacksUpToPosition(x.hub, sub);
    }
  }

  lemma OneMore(s: State, events: seq<Event>, e: Event)
    ensures Run(s, events + [e]) == Step(Run(s, events), e)
  {
    assert (events + [e])[..|events|] == events;
  }

  /** A hub that gave its one reader two lines. */
  function OldHub(maxBytes: int, d: H.JournalLine): H.State {
    H.Append(H.Append(H.Subscribe(H.Init(maxBytes), 0), d), d)
  }

  /** A hub that had a line before its reader came, with the position 2 of another hub. */
  function NewHub(maxBytes: int, d: H.JournalLine): H.State {
    H.Subscribe(H.Append(H.Init(maxBytes), d), 2)
  }

  lemma OldHubServed(maxBytes: int, d: H.JournalLine)
    ensures var h := OldHub(maxBytes, d);
            !h.stopped && 0 in h.log && h.log[0].Frames() == [H.Line(1, d), H.Line(2, d)]
  {
    var h1 := H.Subscribe(H.Init(maxBytes), 0);
    var h2 := H.Append(h1, d);
    assert h1.subs == {0} && h1.log == map[0 := H.Session(0, 0, false, [], [])];
    assert H.Accepting(h1.chans, h1.subs) == {0};
    assert h2.log[0] == H.Session(0, 0, false, [], [H.Line(1, d)]);
    assert H.Accepting(h2.chans, h2.subs) == {0};
  }

  lemma NewHubSkips(maxBytes: int, d: H.JournalLine)
    ensures var h := NewHub(maxBytes, d);
            && h.history == [H.Line(1, d)] && 0 in h.log && h.log[0] == H.Session(2, 1, false, [], [])
  {
    var h1 := H.Append(H.Init(maxBytes), d);
    assert h1.buf == [H.Line(1, d)];
    assert H.After(h1.buf, 2) == [] by { assert h1.buf[1..] == []; }
  }

  /** One instance, one hub, one reader. */
  function Alone(maxBytes: int, i: string, phase: Phase, h: H.State): State {
    State(maxBytes, map[i := 0], [Entry(i, phase, h)], [Served(i, 0, 0)])
  }

  lemma PumpAlone(maxBytes: int, i: string, h: H.State, d: H.JournalLine)
    requires !h.stopped
    ensures Step(Alone(maxBytes, i, Pumping, h), Pump(0, d)) == Alone(maxBytes, i, Pumping, H.Append(h, d))
    ensures Step(Alone(maxBytes, i, Pumping, h), Stop(0)) == Alone(maxBytes, i, Closing, H.Detach(h))
  {
  }

  lemma FirstReaderRun(maxBytes: int, i: string) returns (events: seq<Event>)
    ensures Run(Init(maxBytes), events) == Alone(maxBytes, i, Pumping, H.Subscribe(H.Init(maxBytes), 0))
  {
    var s0, h0 := Init(maxBytes), H.Init(maxBytes);
    OneMore(s0, [], Arrive(i, 0));
    var es := [] + [Arrive(i, 0)];
    assert Run(s0, es) == State(maxBytes, map[], [], [Looking(i, 0, {})]);
    OneMore(s0, es, Lookup(0));
    es := es + [Lookup(0)];
    assert Run(s0, es) == State(maxBytes, map[i := 0], [Entry(i, Pumping, h0)], [Holding(i, 0, {}, 0)]);
    OneMore(s0, es, Enter(0));
    events := es + [Enter(0)];
  }

  /** A run in which the old hub serves its reader and stops. */
  lemma OldHubRun(maxBytes: int, i: string, d: H.JournalLine) returns (events: seq<Event>)
    ensures Run(Init(maxBytes), events) == Alone(maxBytes, i, Closing, H.Detach(OldHub(maxBytes, d)))
  {
    var s0 := Init(maxBytes);
    var h1 := H.Subscribe(H.Init(maxBytes), 0);
    var h2 := H.Append(h1, d);
    var es := FirstReaderRun(maxBytes, i);
    OneMore(s0, es, Pump(0, d));
    PumpAlone(maxBytes, i, h1, d);
    es := es + [Pump(0, d)];
    OneMore(s0, es, Pump(0, d));
    PumpAlone(maxBytes, i, h2, d);
    es := es + [Pump(0, d)];
    OneMore(s0, es, Stop(0));
    PumpAlone(maxBytes, i, OldHub(maxBytes, d), d);
    events := es + [Stop(0)];
  }

  /** The reconnect finds the old hub still mapped, is refused, and unmaps it. */
  lemma RefusedRun(maxBytes: int, i: string, d: H.JournalLine) returns (events: seq<Event>)
    ensures Run(Init(maxBytes), events) ==
            State(maxBytes, map[], [Entry(i, Closing, H.Detach(OldHub(maxBytes, d)))], [Served(i, 0, 0), Looking(i, 2, {0})])
  {
    var s0, x, c := Init(maxBytes), Entry(i, Closing, H.Detach(OldHub(maxBytes, d))), Served(i, 0, 0);
    var es := OldHubRun(maxBytes, i, d);
    OneMore(s0, es, Arrive(i, 2));
    es := es + [Arrive(i, 2)];
    assert Run(s0, es) == State(maxBytes, map[i := 0], [x], [c, Looking(i, 2, {})]);
    OneMore(s0, es, Lookup(1));
    es := es + [Lookup(1)];
    assert Run(s0, es) == State(maxBytes, map[i := 0], [x], [c, Holding(i, 2, {}, 0)]);
    OneMore(s0, es, Enter(1));
    es := es + [Enter(1)];
    assert Run(s0, es) == State(maxBytes, map[i := 0], [x], [c, Refused(i, 2, {}, 0)]);
    OneMore(s0, es, Drop(1));
    events := es + [Drop(1)];
    DropUnmaps(maxBytes, i, x, c);
  }

  lemma DropUnmaps(maxBytes: int, i: string, x: Entry, c: Call)
    ensures Step(State(maxBytes, map[i := 0], [x], [c, Refused(i, 2, {}, 0)]), Drop(1)) ==
            State(maxBytes, map[], [x], [c, Looking(i, 2, {0})])
  {
    assert map[i := 0] - {i} == map[];
    assert {} + {0} == {0};
    assert [c, Refused(i, 2, {}, 0)][1 := Looking(i, 2, {0})] == [c, Looking(i, 2, {0})];
  }

  /**
   The position a reader brings to a replacing hub need not draw a marker: a reader has seen
   the old hub's two lines, that hub stops, and its reconnect is refused by it, starts a new
   one, and enters it when that has a line already. It is served without a marker and never
   gets the line.
   */
  lemma ReplacedHubSkipsUnmarked(maxBytes: int, i: string, d: H.JournalLine) returns (events: seq<Event>)
    ensures var s := Run(Init(maxBytes), events);
            && |s.table| == 2 && s.calls == [Served(i, 0, 0), Served(i, 1, 0)]
            && 0 in s.table[0].hub.log && s.table[0].hub.log[0].Frames() == [H.Line(1, d), H.Line(2, d)]
            && s.table[1].hub.history == [H.Line(1, d)] && 0 in s.table[1].hub.log
            && s.table[1].hub.log[0] == H.Session(2, 1, false, [], [])
  {
    var s0, g0 := Init(maxBytes), H.Init(maxBytes);
    var x, c := Entry(i, Closing, H.Detach(OldHub(maxBytes, d))), Served(i, 0, 0);
    var es := RefusedRun(maxBytes, i, d);
    OneMore(s0, es, Lookup(1));
    es := es + [Lookup(1)];
    assert Run(s0, es) == State(maxBytes, map[i := 1], [x, Entry(i, Pumping, g0)], [c, Holding(i, 2, {0}, 1)]);
    OneMore(s0, es, Pump(1, d));
    es := es + [Pump(1, d)];
    assert Run(s0, es) ==
           State(maxBytes, map[i := 1], [x, Entry(i, Pumping, H.Append(g0, d))], [c, Holding(i, 2, {0}, 1)]);
    OneMore(s0, es, Enter(1));
    events := es + [Enter(1)];
    assert Run(s0, events) ==
           State(maxBytes, map[i := 1], [x, Entry(i, Pumping, NewHub(maxBytes, d))], [c, Served(i, 1, 0)]);
    OldHubServed(maxBytes, d);
    NewHubSkips(maxBytes, d);
  }
}
