/**
 The per-app log hub: a byte-bounded ring of id-stamped lines, fanned out to
 bounded reader channels, with replay from a reader's Last-Event-ID.

 The first half is the hub as a value: a state, one step per critical section of
 the hub's lock, and what every run of those steps keeps. The class `Hub` at the
 end is the hub as the program has it, each method proved against its step.
 */
module AppLogHub {
  import Text


  datatype JournalLine = JournalLine(ts: string, stream: string, text: string, lost: bool)

  datatype Line = Line(id: nat, data: JournalLine)

  const SUB_BUFFER: nat := 256
  const LOST := JournalLine("", "", "", true)

  /** A reader's channel. `panicked` records a send on, or a close of, a closed channel. */
  datatype Channel = Channel(taken: seq<Line>, pending: seq<Line>, closed: bool, panicked: bool)

  /** What one subscription asked for and was given; `issued` is the hub's last id on entry. */
  datatype Session = Session(lastID: nat, issued: nat, marked: bool, replay: seq<Line>, sent: seq<Line>)
  {
    function Frames(): seq<Line> { replay + sent }
  }

  /** The hub's fields, together with the history of everything it ever did. */
  datatype State = State(
    maxBytes: int,
    buf: seq<Line>,
    bufBytes: int,
    nextID: nat,
    nextSub: nat,
    subs: set<nat>,
    chans: map<nat, Channel>,
    lingerArmed: bool,
    stopped: bool,
    detached: set<nat>,
    history: seq<Line>,
    markers: set<nat>,
    log: map<nat, Session>)

  function Init(maxBytes: int): State {
    State(maxBytes, [], 0, 0, 0, {}, map[], false, false, {}, [], {}, map[])
  }

  function SizeOf(d: JournalLine): nat {
    |d.text| + |d.ts| + |d.stream| + 32
  }

  function Bytes(s: seq<Line>): nat {
    if s == [] then 0 else SizeOf(s[0].data) + Bytes(s[1..])
  }

  /** The ring after the eviction loop: drop the oldest while over budget, keep one. */
  function Evict(s: seq<Line>, maxBytes: int): seq<Line> {
    if |s| > 1 && Bytes(s) > maxBytes then Evict(s[1..], maxBytes) else s
  }

  function Put(c: Channel, ln: Line): Channel {
    if c.closed then c.(panicked := true) else c.(pending := c.pending + [ln])
  }

  function Close(c: Channel): Channel {
    if c.closed then c.(panicked := true) else c.(closed := true)
  }

  predicate HasRoom(c: Channel) { |c.pending| < SUB_BUFFER }

  function CloseAll(chans: map<nat, Channel>, ids: set<nat>): map<nat, Channel> {
    map id | id in chans :: if id in ids then Close(chans[id]) else chans[id]
  }

  /** `select { case sub <- ln: default: delete; close }` on every registered reader. */
  function Offer(chans: map<nat, Channel>, subs: set<nat>, ln: Line): map<nat, Channel> {
    map id | id in chans ::
      if id !in subs then chans[id]
      else if HasRoom(chans[id]) then Put(chans[id], ln) else Close(chans[id])
  }

  function Accepting(chans: map<nat, Channel>, subs: set<nat>): set<nat> {
    set id | id in subs && id in chans && HasRoom(chans[id])
  }

  function LogSent(log: map<nat, Session>, ids: set<nat>, ln: Line): map<nat, Session> {
    map id | id in log :: if id in ids then log[id].(sent := log[id].sent + [ln]) else log[id]
  }

  function Append(s: State, data: JournalLine): State {
    var ln := Line(s.nextID + 1, data);
    var buf := Evict(s.buf + [ln], s.maxBytes);
    var accepting := Accepting(s.chans, s.subs);
    s.(nextID := s.nextID + 1,
       buf := buf, bufBytes := Bytes(buf),
       chans := Offer(s.chans, s.subs, ln), subs := accepting,
       history := s.history + [ln], log := LogSent(s.log, accepting, ln))
  }

  /** buildReplay's decision to mint a {lost} marker. */
  predicate Marked(buf: seq<Line>, lastID: nat) {
    lastID != 0 && (buf == [] || lastID + 1 < buf[0].id)
  }

  function After(buf: seq<Line>, lastID: nat): seq<Line> {
    if buf == [] then []
    else (if buf[0].id > lastID then [buf[0]] else []) + After(buf[1..], lastID)
  }

  function Replay(buf: seq<Line>, lastID: nat, marker: Line): seq<Line> {
    if Marked(buf, lastID) then [marker] + buf else After(buf, lastID)
  }

  /** A new reader, with an open channel and the replay it starts from. */
  function Registered(s: State, lastID: nat, marked: bool, replay: seq<Line>): State {
    s.(nextID := if marked then s.nextID + 1 else s.nextID,
       markers := if marked then s.markers + {s.nextID + 1} else s.markers,
       nextSub := s.nextSub + 1,
       subs := s.subs + {s.nextSub},
       chans := s.chans[s.nextSub := Channel([], [], false, false)],
       lingerArmed := false,
       log := s.log[s.nextSub := Session(lastID, s.nextID, marked, replay, [])])
  }

  function Subscribe(s: State, lastID: nat): State {
    if s.stopped then s
    else Registered(s, lastID, Marked(s.buf, lastID), Replay(s.buf, lastID, Line(s.nextID + 1, LOST)))
  }

  function Unsubscribe(s: State, id: nat): State {
    if id !in s.subs then s else
    var subs := s.subs - {id};
    s.(subs := subs, chans := CloseAll(s.chans, {id}),
       lingerArmed := s.lingerArmed || (subs == {} && !s.stopped))
  }

  /** The locked half of teardown: stop, and take the readers away. */
  function Detach(s: State): State {
    s.(stopped := true, detached := s.detached + s.subs, subs := {}, lingerArmed := false)
  }

  /** The unlocked half of teardown closes the detached channels one by one. */
  function CloseDetached(s: State, id: nat): State {
    if id !in s.detached then s else
    s.(detached := s.detached - {id}, chans := CloseAll(s.chans, {id}))
  }

  function Drained(c: Channel): Channel
    requires c.pending != []
  {
    c.(taken := c.taken + [c.pending[0]], pending := c.pending[1..])
  }

  /** A reader takes one line off its channel. */
  function Receive(s: State, id: nat): State {
    if id in s.chans && s.chans[id].pending != []
    then s.(chans := s.chans[id := Drained(s.chans[id])])
    else s
  }

  datatype Event =
    | DoAppend(data: JournalLine)
    | DoSubscribe(lastID: nat)
    | DoUnsubscribe(sub: nat)
    | DoDetach
    | DoCloseDetached(sub: nat)
    | DoReceive(sub: nat)

  /** One critical section. The upstream pump ends before teardown begins, so a stopped hub gets no line. */
  function Step(s: State, e: Event): State {
    match e
    case DoAppend(data) => if s.stopped then s else Append(s, data)
    case DoSubscribe(lastID) => Subscribe(s, lastID)
    case DoUnsubscribe(id) => Unsubscribe(s, id)
    case DoDetach => Detach(s)
    case DoCloseDetached(id) => CloseDetached(s, id)
    case DoReceive(id) => Receive(s, id)
  }

  function Run(s: State, events: seq<Event>): State {
    if events == [] then s else Step(Run(s, events[..|events| - 1]), events[|events| - 1])
  }

  // ----- What every run keeps -----

  ghost predicate Increasing(h: seq<Line>) {
    forall i, j :: 0 <= i < j < |h| ==> h[i].id < h[j].id
  }

  /** `start` cuts off the longest suffix of `h` that fits the budget, or the last line alone. */
  ghost predicate IsWindow(h: seq<Line>, start: nat, maxBytes: int) {
    && start <= |h|
    && (h != [] ==> start < |h|)
    && (start + 1 < |h| ==> Bytes(h[start..]) <= maxBytes)
    && (start > 0 ==> Bytes(h[start - 1..]) > maxBytes)
  }

  ghost predicate RingInv(s: State) {
    && |s.buf| <= |s.history|
    && s.buf == s.history[|s.history| - |s.buf|..]
    && s.bufBytes == Bytes(s.buf)
    && IsWindow(s.history, |s.history| - |s.buf|, s.maxBytes)
  }

  ghost predicate IdInv(s: State) {
    && Increasing(s.history)
    && (forall i :: 0 <= i < |s.history| ==> 1 <= s.history[i].id <= s.nextID && s.history[i].id !in s.markers)
    && (forall m :: m in s.markers ==> 1 <= m <= s.nextID)
    && (forall id :: id in s.log ==> s.log[id].issued <= s.nextID)
  }

  /** One channel: never misused, open exactly while somebody is to close it; its reader took what was put on it in order, and it holds the rest. */
  ghost predicate ChanOk(c: Channel, e: Session, open: bool) {
    && !c.panicked
    && (c.closed <==> !open)
    && |c.pending| <= SUB_BUFFER
    && e.sent == c.taken + c.pending
  }

  ghost predicate AllChansOk(chans: map<nat, Channel>, log: map<nat, Session>, open: set<nat>)
    requires chans.Keys == log.Keys
  {
    forall id :: id in chans ==> ChanOk(chans[id], log[id], id in open)
  }

  /** Every channel ever made, with what was put on it; the open ones are the readers' and those a teardown has yet to close. */
  ghost predicate ChansOk(chans: map<nat, Channel>, log: map<nat, Session>, subs: set<nat>, detached: set<nat>, nextSub: nat) {
    && chans.Keys == log.Keys
    && subs !! detached
    && subs + detached <= chans.Keys
    && (forall id :: id in chans ==> id < nextSub)
    && AllChansOk(chans, log, subs + detached)
  }

  ghost predicate ChanInv(s: State) {
    && ChansOk(s.chans, s.log, s.subs, s.detached, s.nextSub)
    && (s.stopped ==> s.subs == {})
    && (s.lingerArmed ==> s.subs == {} && !s.stopped)
  }

  /**
   The frames of a session against the history: from position `first` on, without a
   gap, led by a marker exactly when it is marked. `from` is the history's length
   when the reader subscribed and `upto` its length when it last took a line.
   */
  ghost predicate SessionSpec(h: seq<Line>, markers: set<nat>, e: Session, first: nat, from: nat, upto: nat) {
    && first <= from <= upto <= |h|
    && e.sent == h[from..upto]
    && e.replay == (if e.marked then [Line(e.issued + 1, LOST)] else []) + h[first..from]
    && (e.marked ==> e.lastID != 0 && e.issued + 1 in markers)
    && (forall i :: 0 <= i < from ==> h[i].id <= e.issued)
    && (forall i :: from <= i < |h| ==> h[i].id > e.issued)
    && (e.lastID <= e.issued ==> forall i :: first <= i < |h| ==> h[i].id > e.lastID)
    && (!e.marked && e.lastID != 0 ==> forall i :: 0 <= i < from ==> (i < first <==> h[i].id <= e.lastID))
  }

  /** Some cut of the history explains the session; a live one has been given every line so far. */
  ghost predicate SessionOk(h: seq<Line>, markers: set<nat>, e: Session, live: bool) {
    exists first: nat, from: nat, upto: nat ::
      SessionSpec(h, markers, e, first, from, upto) && (live ==> upto == |h|)
  }

  ghost predicate LogInv(s: State) {
    forall id :: id in s.log ==> SessionOk(s.history, s.markers, s.log[id], id in s.subs)
  }

  ghost predicate Inv(s: State) {
    && RingInv(s)
    && IdInv(s)
    && ChanInv(s)
    && LogInv(s)
  }

  lemma {:induction false} BytesAppend(s: seq<Line>, ln: Line)
    ensures Bytes(s + [ln]) == Bytes(s) + SizeOf(ln.data)
  {
    if s == [] {
      assert s + [ln] == [ln];
    } else {
      assert (s + [ln])[1..] == s[1..] + [ln];
      BytesAppend(s[1..], ln);
    }
  }

  /** The characters of a line's fields. */
  function Characters(s: seq<Line>): nat {
    if s == [] then 0
    else |s[0].data.text| + |s[0].data.ts| + |s[0].data.stream| + Characters(s[1..])
  }

  /** What counts against the budget: every character of every field, and 32 for each line. */
  lemma {:induction false} BytesAreCharacters(s: seq<Line>)
    ensures Bytes(s) == Characters(s) + 32 * |s|
  {
    if s != [] { BytesAreCharacters(s[1..]); }
  }

  /** Eviction from any suffix that starts early enough finds the window. */
  lemma {:induction false} EvictFindsWindow(h: seq<Line>, start: nat, maxBytes: int)
    requires start < |h|
    requires start > 0 ==> Bytes(h[start - 1..]) > maxBytes
    ensures var r := Evict(h[start..], maxBytes);
            |r| <= |h| && r == h[|h| - |r|..] && IsWindow(h, |h| - |r|, maxBytes)
    decreases |h| - start
  {
    if |h[start..]| > 1 && Bytes(h[start..]) > maxBytes {
      assert h[start..][1..] == h[start + 1..];
      EvictFindsWindow(h, start + 1, maxBytes);
    }
  }

  lemma WindowMoves(h: seq<Line>, buf: seq<Line>, maxBytes: int, ln: Line)
    requires |buf| <= |h| && buf == h[|h| - |buf|..] && IsWindow(h, |h| - |buf|, maxBytes)
    ensures var r, h' := Evict(buf + [ln], maxBytes), h + [ln];
            |r| <= |h'| && r == h'[|h'| - |r|..] && IsWindow(h', |h'| - |r|, maxBytes)
  {
    var h', start := h + [ln], |h| - |buf|;
    assert buf + [ln] == h'[start..];
    if start > 0 {
      assert h'[start - 1..] == h[start - 1..] + [ln];
      BytesAppend(h[start - 1..], ln);
    }
    EvictFindsWindow(h', start, maxBytes);
  }

  lemma AppendKeepsRing(s: State, data: JournalLine)
    requires RingInv(s)
    ensures RingInv(Append(s, data))
  {
    WindowMoves(s.history, s.buf, s.maxBytes, Line(s.nextID + 1, data));
  }

  lemma {:induction false} AfterSplits(buf: seq<Line>, lastID: nat) returns (k: nat)
    requires Increasing(buf)
    ensures k <= |buf| && After(buf, lastID) == buf[k..]
    ensures forall i :: 0 <= i < k ==> buf[i].id <= lastID
    ensures forall i :: k <= i < |buf| ==> buf[i].id > lastID
  {
    if buf == [] {
      k := 0;
    } else {
      var k' := AfterSplits(buf[1..], lastID);
      if buf[0].id > lastID {
        k := 0;
        assert buf == [buf[0]] + buf[1..];
        forall i | 0 <= i < |buf| ensures buf[i].id > lastID {
          if i > 0 { assert buf[1..][i - 1] == buf[i]; }
        }
      } else {
        k := k' + 1;
        assert buf[1..][k'..] == buf[k..];
        forall i | 0 <= i < k ensures buf[i].id <= lastID {
          if i > 0 { assert buf[1..][i - 1] == buf[i]; }
        }
        forall i | k <= i < |buf| ensures buf[i].id > lastID {
          assert buf[1..][i - 1] == buf[i];
        }
      }
    }
  }

  lemma SpecGrows(h: seq<Line>, markers: set<nat>, e: Session, first: nat, from: nat, upto: nat, ln: Line)
    requires SessionSpec(h, markers, e, first, from, upto) && ln.id > e.issued
    ensures SessionSpec(h + [ln], markers, e, first, from, upto)
  {
    assert (h + [ln])[first..from] == h[first..from];
    assert (h + [ln])[from..upto] == h[from..upto];
  }

  lemma SpecTakes(h: seq<Line>, markers: set<nat>, e: Session, first: nat, from: nat, upto: nat)
    requires SessionSpec(h, markers, e, first, from, upto) && upto < |h|
    ensures SessionSpec(h, markers, e.(sent := e.sent + [h[upto]]), first, from, upto + 1)
  {
    assert h[from..upto + 1] == h[from..upto] + [h[upto]];
  }

  /** One more line in the history keeps a session, whether its reader took the line or not. */
  lemma SessionExtends(h: seq<Line>, markers: set<nat>, e: Session, live: bool, ln: Line, took: bool)
    requires SessionOk(h, markers, e, live)
    requires took ==> live
    requires ln.id > e.issued
    ensures SessionOk(h + [ln], markers, if took then e.(sent := e.sent + [ln]) else e, took)
  {
    var first: nat, from: nat, upto: nat :|
      SessionSpec(h, markers, e, first, from, upto) && (live ==> upto == |h|);
    SpecGrows(h, markers, e, first, from, upto, ln);
    if took { SpecTakes(h + [ln], markers, e, first, from, upto); }
  }

  lemma AppendKeepsLog(s: State, data: JournalLine)
    requires LogInv(s)
    requires forall id :: id in s.log ==> s.log[id].issued <= s.nextID
    ensures LogInv(Append(s, data))
  {
    var t, ln := Append(s, data), Line(s.nextID + 1, data);
    forall id | id in t.log ensures SessionOk(t.history, t.markers, t.log[id], id in t.subs) {
      SessionExtends(s.history, s.markers, s.log[id], id in s.subs, ln, id in t.subs);
    }
  }

  lemma AppendKeepsChans(s: State, data: JournalLine)
    requires ChanInv(s)
    ensures ChanInv(Append(s, data))
  {
    var t, ln := Append(s, data), Line(s.nextID + 1, data);
    forall id | id in t.chans
      ensures ChanOk(t.chans[id], t.log[id], id in t.subs + t.detached)
    {
      assert ChanOk(s.chans[id], s.log[id], id in s.subs + s.detached);
      Text.Reassociate(s.chans[id].taken, s.chans[id].pending, [ln]);
    }
  }

  /** A {lost} marker followed by the whole ring is a sound start for a reader that fell behind it. */
  lemma MarkedReplayStartsSession(h: seq<Line>, start: nat, lastID: nat, issued: nat, markers: set<nat>)
    requires start <= |h| && Marked(h[start..], lastID)
    requires Increasing(h) && forall i :: 0 <= i < |h| ==> h[i].id <= issued
    ensures SessionOk(h, markers + {issued + 1},
                      Session(lastID, issued, true, [Line(issued + 1, LOST)] + h[start..], []), true)
  {
    var e := Session(lastID, issued, true, [Line(issued + 1, LOST)] + h[start..], []);
    assert h[start..|h|] == h[start..];
    assert h[|h|..|h|] == [];
    assert SessionSpec(h, markers + {issued + 1}, e, start, |h|, |h|);
  }

  /** The ring's tail past `lastID` is a sound start when nothing newer was evicted. */
  lemma TailReplayStartsSession(h: seq<Line>, start: nat, lastID: nat, issued: nat, markers: set<nat>)
    requires start <= |h| && !Marked(h[start..], lastID)
    requires Increasing(h) && forall i :: 0 <= i < |h| ==> h[i].id <= issued
    ensures SessionOk(h, markers, Session(lastID, issued, false, After(h[start..], lastID), []), true)
  {
    var e := Session(lastID, issued, false, After(h[start..], lastID), []);
    var first := TailStarts(h, start, lastID);
    assert h[first..|h|] == h[first..];
    assert h[|h|..|h|] == [];
    assert SessionSpec(h, markers, e, first, |h|, |h|);
  }

  /** Where the lines past a position begin, when none of them is before `start`. */
  lemma TailStarts(h: seq<Line>, start: nat, lastID: nat) returns (first: nat)
    requires start <= |h| && !Marked(h[start..], lastID) && Increasing(h)
    ensures start <= first <= |h| && After(h[start..], lastID) == h[first..]
    ensures forall i :: first <= i < |h| ==> h[i].id > lastID
    ensures lastID != 0 ==> forall i :: 0 <= i < first ==> h[i].id <= lastID
  {
    var k := AfterSplits(h[start..], lastID);
    first := start + k;
    assert h[start..][k..] == h[first..];
    forall i | first <= i < |h| ensures h[i].id > lastID { assert h[i] == h[start..][i - start]; }
    forall i | lastID != 0 && 0 <= i < first ensures h[i].id <= lastID {
      if i >= start { assert h[i] == h[start..][i - start]; } else { assert h[i].id < h[start].id; }
    }
  }

  /** More markers, and fewer live readers, leave a session as it is. */
  lemma SessionWeakens(h: seq<Line>, m: set<nat>, m': set<nat>, e: Session, live: bool, live': bool)
    requires SessionOk(h, m, e, live) && m <= m' && (live' ==> live)
    ensures SessionOk(h, m', e, live')
  {
    var first: nat, from: nat, upto: nat :| SessionSpec(h, m, e, first, from, upto) && (live ==> upto == |h|);
    assert SessionSpec(h, m', e, first, from, upto);
  }

  lemma NewSessionIsOk(s: State, lastID: nat)
    requires RingInv(s) && IdInv(s) && !s.stopped
    ensures var t := Subscribe(s, lastID); SessionOk(t.history, t.markers, t.log[s.nextSub], true)
  {
    var start := |s.history| - |s.buf|;
    if Marked(s.buf, lastID) {
      MarkedReplayStartsSession(s.history, start, lastID, s.nextID, s.markers);
    } else {
      TailReplayStartsSession(s.history, start, lastID, s.nextID, s.markers);
    }
  }

  lemma SubscribeKeepsLog(s: State, lastID: nat)
    requires LogInv(s) && RingInv(s) && IdInv(s) && !s.stopped
    ensures LogInv(Subscribe(s, lastID))
  {
    var t := Subscribe(s, lastID);
    NewSessionIsOk(s, lastID);
    forall id | id in t.log ensures SessionOk(t.history, t.markers, t.log[id], id in t.subs) {
      if id != s.nextSub {
        SessionWeakens(s.history, s.markers, t.markers, s.log[id], id in s.subs, id in t.subs);
      }
    }
  }

  lemma NewChanIsOk(chans: map<nat, Channel>, log: map<nat, Session>, open: set<nat>, n: nat, e: Session)
    requires chans.Keys == log.Keys && n !in chans && e.sent == [] && AllChansOk(chans, log, open)
    ensures AllChansOk(chans[n := Channel([], [], false, false)], log[n := e], open + {n})
  {
  }

  lemma NewReaderIsOk(chans: map<nat, Channel>, log: map<nat, Session>, subs: set<nat>, detached: set<nat>, n: nat, e: Session)
    requires ChansOk(chans, log, subs, detached, n) && e.sent == []
    ensures ChansOk(chans[n := Channel([], [], false, false)], log[n := e], subs + {n}, detached, n + 1)
  {
    NewChanIsOk(chans, log, subs + detached, n, e);
    assert subs + {n} + detached == subs + detached + {n};
  }

  lemma RegisteredKeepsChans(s: State, lastID: nat, marked: bool, replay: seq<Line>)
    requires ChanInv(s) && !s.stopped
    ensures ChanInv(Registered(s, lastID, marked, replay))
  {
    NewReaderIsOk(s.chans, s.log, s.subs, s.detached, s.nextSub, Session(lastID, s.nextID, marked, replay, []));
  }

  lemma SubscribeKeepsChans(s: State, lastID: nat)
    requires ChanInv(s) && !s.stopped
    ensures ChanInv(Subscribe(s, lastID))
  {
    var marked, replay := Marked(s.buf, lastID), Replay(s.buf, lastID, Line(s.nextID + 1, LOST));
    assert Subscribe(s, lastID) == Registered(s, lastID, marked, replay);
    RegisteredKeepsChans(s, lastID, marked, replay);
  }

  /** Steps that leave the history and the log alone, and register nobody, keep every session. */
  lemma SameLogKeepsSessions(s: State, t: State)
    requires LogInv(s)
    requires t.history == s.history && t.markers == s.markers && t.log == s.log && t.subs <= s.subs
    ensures LogInv(t)
  {
    forall id | id in t.log ensures SessionOk(t.history, t.markers, t.log[id], id in t.subs) {
      SessionWeakens(s.history, s.markers, t.markers, s.log[id], id in s.subs, id in t.subs);
    }
  }

  /** Closing one channel that is still somebody's to close, and giving up that duty, keeps the rest. */
  lemma CloseKeepsChans(s: State, t: State, id: nat)
    requires ChanInv(s) && id in s.subs + s.detached
    requires t == s.(subs := s.subs - {id}, detached := s.detached - {id}, chans := CloseAll(s.chans, {id}),
                     lingerArmed := t.lingerArmed)
    requires t.lingerArmed ==> t.subs == {} && !t.stopped
    ensures ChanInv(t)
  {
    forall k | k in t.chans ensures ChanOk(t.chans[k], t.log[k], k in t.subs + t.detached) {
      assert ChanOk(s.chans[k], s.log[k], k in s.subs + s.detached);
    }
  }

  lemma DetachKeepsChans(s: State)
    requires ChanInv(s)
    ensures ChanInv(Detach(s))
  {
    var t := Detach(s);
    assert t.subs + t.detached == s.subs + s.detached;
    forall k | k in t.chans ensures ChanOk(t.chans[k], t.log[k], k in t.subs + t.detached) {
      assert ChanOk(s.chans[k], s.log[k], k in s.subs + s.detached);
    }
  }

  lemma DrainKeepsChan(c: Channel, e: Session, open: bool)
    requires ChanOk(c, e, open)
    ensures c.pending != [] ==> ChanOk(Drained(c), e, open)
  {
    if c.pending != [] { assert c.pending == [c.pending[0]] + c.pending[1..]; }
  }

  lemma ReceiveKeepsChans(s: State, id: nat)
    requires ChanInv(s)
    ensures ChanInv(Receive(s, id))
  {
    var t := Receive(s, id);
    forall k | k in t.chans ensures ChanOk(t.chans[k], t.log[k], k in t.subs + t.detached) {
      DrainKeepsChan(s.chans[k], s.log[k], k in s.subs + s.detached);
    }
  }

  lemma StepKeepsChans(s: State, e: Event)
    requires ChanInv(s)
    ensures ChanInv(Step(s, e))
  {
    match e
    case DoAppend(data) => if !s.stopped { AppendKeepsChans(s, data); }
    case DoSubscribe(lastID) => if !s.stopped { SubscribeKeepsChans(s, lastID); }
    case DoUnsubscribe(id) =>
      if id in s.subs {
        assert s.detached - {id} == s.detached;
        CloseKeepsChans(s, Step(s, e), id);
      }
    case DoDetach => DetachKeepsChans(s);
    case DoCloseDetached(id) =>
      if id in s.detached {
        assert s.subs - {id} == s.subs;
        CloseKeepsChans(s, Step(s, e), id);
      }
    case DoReceive(id) => ReceiveKeepsChans(s, id);
  }

  lemma StepKeepsLog(s: State, e: Event)
    requires LogInv(s) && RingInv(s) && IdInv(s)
    ensures LogInv(Step(s, e))
  {
    match e
    case DoAppend(data) => if !s.stopped { AppendKeepsLog(s, data); }
    case DoSubscribe(lastID) => if !s.stopped { SubscribeKeepsLog(s, lastID); }
    case _ => SameLogKeepsSessions(s, Step(s, e));
  }

  lemma StepKeepsIds(s: State, e: Event)
    requires IdInv(s)
    ensures IdInv(Step(s, e))
  {
  }

  lemma StepKeepsRing(s: State, e: Event)
    requires RingInv(s)
    ensures RingInv(Step(s, e))
    ensures Step(s, e).maxBytes == s.maxBytes
  {
    if e.DoAppend? && !s.stopped {
      AppendKeepsRing(s, e.data);
    } else {
      SameRing(s, Step(s, e));
    }
  }

  lemma SameRing(s: State, t: State)
    requires RingInv(s)
    requires t.history == s.history && t.buf == s.buf && t.bufBytes == s.bufBytes && t.maxBytes == s.maxBytes
    ensures RingInv(t)
  {
  }

  lemma StepKeepsInv(s: State, e: Event)
    requires Inv(s)
    ensures Inv(Step(s, e)) && Step(s, e).maxBytes == s.maxBytes
  {
    StepKeepsRing(s, e);
    StepKeepsIds(s, e);
    StepKeepsChans(s, e);
    StepKeepsLog(s, e);
  }

  /** Every run of a hub keeps the invariant: exact ring, unique ids, sound channels, gapless sessions. */
  lemma {:induction false} RunKeepsInv(maxBytes: int, events: seq<Event>)
    ensures Inv(Run(Init(maxBytes), events))
    ensures Run(Init(maxBytes), events).maxBytes == maxBytes
  {
    if events != [] {
      RunKeepsInv(maxBytes, events[..|events| - 1]);
      StepKeepsInv(Run(Init(maxBytes), events[..|events| - 1]), events[|events| - 1]);
    }
  }

  // ----- What one reader gets -----

  lemma {:induction false} AfterOfSplit(h: seq<Line>, first: nat, lastID: nat)
    requires first <= |h|
    requires forall i :: 0 <= i < first ==> h[i].id <= lastID
    requires forall i :: first <= i < |h| ==> h[i].id > lastID
    ensures After(h, lastID) == h[first..]
  {
    if h != [] {
      var first' := if first > 0 then first - 1 else 0;
      forall i | 0 <= i < first' ensures h[1..][i].id <= lastID { assert h[1..][i] == h[i + 1]; }
      forall i | first' <= i < |h| - 1 ensures h[1..][i].id > lastID { assert h[1..][i] == h[i + 1]; }
      AfterOfSplit(h[1..], first', lastID);
      assert first > 0 ==> h[1..][first'..] == h[first..];
      assert first == 0 ==> h == [h[0]] + h[1..];
    }
  }

  /** A session's frames, position by position: a marker if it is marked, then the history from `first`. */
  lemma FramesAt(h: seq<Line>, markers: set<nat>, e: Session, live: bool) returns (first: nat, upto: nat)
    requires SessionOk(h, markers, e, live)
    ensures first <= upto <= |h| && (live ==> upto == |h|)
    ensures e.Frames() == (if e.marked then [Line(e.issued + 1, LOST)] else []) + h[first..upto]
    ensures e.marked ==> e.lastID != 0 && e.issued + 1 in markers
    ensures e.lastID <= e.issued ==> forall i :: first <= i < |h| ==> h[i].id > e.lastID
    ensures !e.marked && e.lastID != 0 ==> forall i :: 0 <= i < first ==> h[i].id <= e.lastID
  {
    var a: nat, b: nat, c: nat :| SessionSpec(h, markers, e, a, b, c) && (live ==> c == |h|);
    first, upto := a, c;
    JoinFrames(if e.marked then [Line(e.issued + 1, LOST)] else [], h, a, b, c);
  }

  lemma JoinFrames(lead: seq<Line>, h: seq<Line>, a: nat, b: nat, c: nat)
    requires a <= b <= c <= |h|
    ensures (lead + h[a..b]) + h[b..c] == lead + h[a..c]
  {
  }

  /**
   What a session has been given, as lines of the history: everything past `lastID` up
   to position `upto` when it resumes from an id handed out and is told of no loss; in
   any case a stretch without gaps, led by a marker exactly when it is marked.
   */
  ghost predicate Served(h: seq<Line>, e: Session, first: nat, upto: nat) {
    && first <= upto <= |h|
    && (!e.marked ==> e.Frames() == h[first..upto])
    && (!e.marked && 0 < e.lastID <= e.issued ==> e.Frames() == After(h[..upto], e.lastID))
    && (e.marked ==> e.lastID != 0 && e.Frames() == [Line(e.issued + 1, LOST)] + h[first..upto])
  }

  lemma SessionIsServed(h: seq<Line>, markers: set<nat>, e: Session, live: bool) returns (first: nat, upto: nat)
    requires SessionOk(h, markers, e, live)
    ensures Served(h, e, first, upto) && (live ==> upto == |h|)
  {
    first, upto := FramesAt(h, markers, e, live);
    if !e.marked && 0 < e.lastID <= e.issued {
      AfterOfSplit(h[..upto], first, e.lastID);
      assert h[..upto][first..] == h[first..upto];
    }
  }

  /**
   In every run, every reader has been served without a gap; one still registered has
   been given everything appended so far.
   */
  lemma ReaderGetsExactly(maxBytes: int, events: seq<Event>, id: nat) returns (first: nat, upto: nat)
    requires id in Run(Init(maxBytes), events).log
    ensures var s := Run(Init(maxBytes), events);
            Served(s.history, s.log[id], first, upto) && (id in s.subs ==> upto == |s.history|)
  {
    RunKeepsInv(maxBytes, events);
    var s := Run(Init(maxBytes), events);
    first, upto := SessionIsServed(s.history, s.markers, s.log[id], id in s.subs);
  }

  // ----- How much of the ring a reader is handed -----

  /**
   What a subscription got on entry, told by the history alone: `from` is its length then and
   `w` where the ring began, the longest suffix within the budget. A reader is told of a loss
   exactly when it brings a position and the ring is empty or begins past the next id. A
   fresh one gets the whole ring, one told of a loss a marker and then the whole ring.
   */
  ghost predicate HandedOver(h: seq<Line>, e: Session, maxBytes: int, w: nat, from: nat) {
    && w <= from <= |h| && IsWindow(h[..from], w, maxBytes)
    && (forall i :: 0 <= i < |h| ==> (i < from <==> h[i].id <= e.issued))
    && (e.marked <==> e.lastID != 0 && (from == 0 || e.lastID + 1 < h[w].id))
    && (e.lastID == 0 ==> e.replay == h[w..from])
    && (e.marked ==> e.replay == [Line(e.issued + 1, LOST)] + h[w..from])
  }

  lemma EntryHandsOverRing(s: State, lastID: nat)
    requires RingInv(s) && IdInv(s) && !s.stopped
    ensures var e := Subscribe(s, lastID).log[s.nextSub];
            HandedOver(s.history, e, s.maxBytes, |s.history| - |s.buf|, |s.history|)
  {
    var h, w := s.history, |s.history| - |s.buf|;
    assert h[..|h|] == h && h[w..|h|] == s.buf;
    assert s.buf != [] ==> s.buf[0] == h[w];
    if lastID == 0 {
      forall i | 0 <= i < |s.buf| ensures s.buf[i].id > 0 { assert s.buf[i] == h[w + i]; }
      AfterOfSplit(s.buf, 0, 0);
    }
  }

  lemma HandedOverStays(h: seq<Line>, e: Session, e': Session, maxBytes: int, w: nat, from: nat, ln: Line)
    requires HandedOver(h, e, maxBytes, w, from) && ln.id > e.issued
    requires e'.lastID == e.lastID && e'.issued == e.issued && e'.marked == e.marked && e'.replay == e.replay
    ensures HandedOver(h, e', maxBytes, w, from) && HandedOver(h + [ln], e', maxBytes, w, from)
  {
    assert (h + [ln])[..from] == h[..from] && (h + [ln])[w..from] == h[w..from];
  }

  /** A step leaves what an earlier subscription got. */
  lemma StepKeepsEntry(s: State, e: Event, id: nat)
    requires id in s.log && id < s.nextSub
    ensures var t := Step(s, e);
            && id in t.log && t.log[id].lastID == s.log[id].lastID && t.log[id].issued == s.log[id].issued
            && t.log[id].marked == s.log[id].marked && t.log[id].replay == s.log[id].replay
            && (t.history == s.history || (e.DoAppend? && t.history == s.history + [Line(s.nextID + 1, e.data)]))
  {
  }

  lemma StepKeepsHandedOver(s: State, e: Event, id: nat, w: nat, from: nat)
    requires id in s.log && id < s.nextSub && s.log[id].issued <= s.nextID
    requires HandedOver(s.history, s.log[id], s.maxBytes, w, from)
    ensures id in Step(s, e).log && HandedOver(Step(s, e).history, Step(s, e).log[id], s.maxBytes, w, from)
  {
    StepKeepsEntry(s, e, id);
    HandedOverStays(s.history, s.log[id], Step(s, e).log[id], s.maxBytes, w, from,
                    Line(s.nextID + 1, if e.DoAppend? then e.data else LOST));
  }

  lemma OnlySubscribeLogs(s: State, e: Event, id: nat)
    requires id in Step(s, e).log && id !in s.log
    ensures e.DoSubscribe? && !s.stopped && id == s.nextSub && Step(s, e).history == s.history
  {
  }

  lemma LogIsNumbered(s: State, id: nat)
    requires Inv(s) && id in s.log
    ensures id < s.nextSub && s.log[id].issued <= s.nextID
  {
    assert id in s.chans;
  }

  lemma StepHandsOver(s: State, e: Event, id: nat, w: nat, from: nat) returns (w': nat, from': nat)
    requires Inv(s) && id in Step(s, e).log
    requires id in s.log ==> HandedOver(s.history, s.log[id], s.maxBytes, w, from)
    ensures HandedOver(Step(s, e).history, Step(s, e).log[id], s.maxBytes, w', from')
  {
    if id in s.log {
      LogIsNumbered(s, id);
      StepKeepsHandedOver(s, e, id, w, from);
      w', from' := w, from;
    } else {
      OnlySubscribeLogs(s, e, id);
      EntryHandsOverRing(s, e.lastID);
      w', from' := |s.history| - |s.buf|, |s.history|;
    }
  }

  /** In every run, every subscription was handed the ring as it was. */
  lemma {:induction false} RunHandsOverRing(maxBytes: int, events: seq<Event>, id: nat) returns (w: nat, from: nat)
    requires id in Run(Init(maxBytes), events).log
    ensures var s := Run(Init(maxBytes), events); HandedOver(s.history, s.log[id], maxBytes, w, from)
  {
    var before := events[..|events| - 1];
    w, from := 0, 0;
    if id in Run(Init(maxBytes), before).log {
      w, from := RunHandsOverRing(maxBytes, before, id);
    }
    RunKeepsInv(maxBytes, before);
    w, from := StepHandsOver(Run(Init(maxBytes), before), events[|events| - 1], id, w, from);
  }

  // ----- When a reader is told of a loss -----

  /** Every id the hub ever handed out went to a line or to a marker. */
  ghost predicate IdsUsed(s: State) {
    forall k :: 1 <= k <= s.nextID ==> k in s.markers || HasLine(s.history, k)
  }

  ghost predicate HasLine(h: seq<Line>, k: nat) {
    exists i :: 0 <= i < |h| && h[i].id == k
  }

  lemma AppendUsesIds(s: State, data: JournalLine)
    requires IdsUsed(s)
    ensures IdsUsed(Append(s, data))
  {
    var h := s.history + [Line(s.nextID + 1, data)];
    assert h[|s.history|].id == s.nextID + 1;
    forall k | HasLine(s.history, k) ensures HasLine(h, k) {
      var i :| 0 <= i < |s.history| && s.history[i].id == k;
      assert h[i].id == k;
    }
  }

  lemma {:induction false} RunUsesEveryId(maxBytes: int, events: seq<Event>)
    ensures IdsUsed(Run(Init(maxBytes), events))
  {
    if events != [] {
      var s, e := Run(Init(maxBytes), events[..|events| - 1]), events[|events| - 1];
      RunUsesEveryId(maxBytes, events[..|events| - 1]);
      if e.DoAppend? && !s.stopped { AppendUsesIds(s, e.data); }
    }
  }

  /** A line past `lastID` has left the ring. */
  ghost predicate Lost(s: State, lastID: nat) {
    exists i :: 0 <= i < |s.history| - |s.buf| && s.history[i].id > lastID
  }

  /** The id the ring starts at, or the next one to be handed out. */
  function Oldest(s: State): nat { if s.buf == [] then s.nextID + 1 else s.buf[0].id }

  /** An id between the reader's position and the ring that no marker took. */
  ghost predicate MissingId(s: State, lastID: nat) {
    exists k :: lastID < k < Oldest(s) && k !in s.markers
  }

  /** The lines out of the ring are exactly those with an id below the ring's. */
  lemma EvictedIsOlder(s: State, i: nat)
    requires RingInv(s) && IdInv(s) && i < |s.history|
    ensures i < |s.history| - |s.buf| <==> s.history[i].id < Oldest(s)
  {
    var start := |s.history| - |s.buf|;
    if s.buf != [] { assert s.buf[0] == s.history[start]; }
  }

  lemma LostIffMissingId(s: State, lastID: nat)
    requires RingInv(s) && IdInv(s) && IdsUsed(s)
    ensures Lost(s, lastID) <==> MissingId(s, lastID)
  {
    if Lost(s, lastID) {
      var i :| 0 <= i < |s.history| - |s.buf| && s.history[i].id > lastID;
      EvictedIsOlder(s, i);
      assert lastID < s.history[i].id < Oldest(s) && s.history[i].id !in s.markers;
    }
    if MissingId(s, lastID) {
      var k :| lastID < k < Oldest(s) && k !in s.markers;
      assert s.buf != [] ==> Oldest(s) == s.history[|s.history| - |s.buf|].id;
      assert HasLine(s.history, k);
      var i :| 0 <= i < |s.history| && s.history[i].id == k;
      EvictedIsOlder(s, i);
    }
  }

  /**
   In every run: a reader that resumes from `lastID` and past whose position a line has left
   the ring is always told so. A reader that is told so has lost a line exactly when some id
   between its position and the ring went to no marker; otherwise the marker is spurious.
   */
  lemma MarkerIsTrueIffIdMissing(maxBytes: int, events: seq<Event>, lastID: nat)
    requires lastID != 0
    ensures var s := Run(Init(maxBytes), events);
            && (Lost(s, lastID) ==> Marked(s.buf, lastID))
            && (Marked(s.buf, lastID) ==> (Lost(s, lastID) <==> MissingId(s, lastID)))
  {
    var s := Run(Init(maxBytes), events);
    RunKeepsInv(maxBytes, events);
    RunUsesEveryId(maxBytes, events);
    LostIffMissingId(s, lastID);
  }

  /** A marker that no lost line stands behind, at any budget that two lines exceed: the skipped id was itself a marker's. */
  lemma SpuriousMarker(maxBytes: int, d: JournalLine) returns (s: State)
    requires maxBytes < 2 * SizeOf(d)
    ensures s == Append(Subscribe(Append(Append(Append(Init(maxBytes), d), d), d), 1), d)
    ensures 3 <= s.nextID && Marked(s.buf, 3) && !Lost(s, 3)
  {
    var s1 := Append(Init(maxBytes), d);
    var s2 := Append(s1, d);
    var s3 := Append(s2, d);
    var s4 := Subscribe(s3, 1);
    s := Append(s4, d);
    assert s1.buf == [Line(1, d)];
    OnlyTheLast(s1, d);
    OnlyTheLast(s2, d);
    OnlyTheLast(s4, d);
    assert s.history == [Line(1, d), Line(2, d), Line(3, d), Line(5, d)];
  }

  lemma OnlyTheLast(s: State, d: JournalLine)
    requires s.maxBytes < 2 * SizeOf(d) && |s.buf| == 1 && s.buf[0].data == d
    ensures Append(s, d).buf == [Line(s.nextID + 1, d)]
  {
    var b := s.buf + [Line(s.nextID + 1, d)];
    assert b[1..] == [Line(s.nextID + 1, d)];
    assert Bytes(b) == SizeOf(d) + Bytes(b[1..]) == SizeOf(d) + (SizeOf(d) + Bytes(b[1..][1..]));
    assert Evict(b, s.maxBytes) == Evict(b[1..], s.maxBytes);
  }

  // ----- A position from another hub -----

  /**
   What a reader is silently left without, whatever its position is: of the lines there were
   when it subscribed, one that is told of no loss lacks exactly those at or below its
   position. A reader that saw those lines lacks nothing. One whose position is of another
   hub's making saw none of them, so a line is skipped without a marker exactly when the
   hub's first line was there and not above the position.
   */
  lemma UnmarkedLacksUpToPosition(s: State, id: nat) returns (first: nat, from: nat)
    requires Inv(s) && id in s.log && !s.log[id].marked && s.log[id].lastID != 0
    ensures Lacks(s.history, s.log[id], first, from)
  {
    var e := s.log[id];
    assert SessionOk(s.history, s.markers, e, id in s.subs);
    var a: nat, b: nat, c: nat :| SessionSpec(s.history, s.markers, e, a, b, c) && (id in s.subs ==> c == |s.history|);
    first, from := a, b;
    SpecLacks(s.history, s.markers, e, a, b, c);
  }

  lemma SpecLacks(h: seq<Line>, markers: set<nat>, e: Session, first: nat, from: nat, upto: nat)
    requires SessionSpec(h, markers, e, first, from, upto) && !e.marked && e.lastID != 0
    ensures Lacks(h, e, first, from)
  {
    assert [] + h[first..from] == h[first..from];
  }

  /** Of the first `from` lines, those there were at the time, the replay has all from `first` on, and those before are at or below the position. */
  ghost predicate Lacks(h: seq<Line>, e: Session, first: nat, from: nat) {
    && first <= from <= |h|
    && (forall i :: 0 <= i < |h| ==> (i < from <==> h[i].id <= e.issued))
    && (forall i :: 0 <= i < from ==> (i < first <==> h[i].id <= e.lastID))
    && e.replay == h[first..from]
    && (first > 0 <==> h != [] && h[0].id <= e.issued && h[0].id <= e.lastID)
  }

  lemma MarkedOpensWithMarker(s: State, id: nat)
    requires Inv(s) && id in s.log && s.log[id].marked
    ensures s.log[id].replay != [] && s.log[id].replay[0] == Line(s.log[id].issued + 1, LOST)
  {
    var e := s.log[id];
    assert SessionOk(s.history, s.markers, e, id in s.subs);
    var a: nat, b: nat, c: nat :| SessionSpec(s.history, s.markers, e, a, b, c) && (id in s.subs ==> c == |s.history|);
  }

  /** Such a position gets a marker exactly when the ring is empty or starts past the next id, so one past every id of the hub gets none once there is a line. */
  lemma ForeignPositionMarked(s: State, lastID: nat)
    requires RingInv(s) && IdInv(s) && lastID > s.nextID
    ensures Marked(s.buf, lastID) <==> s.history == []
    ensures s.history != [] ==> Replay(s.buf, lastID, Line(s.nextID + 1, LOST)) == []
  {
    assert forall i :: 0 <= i < |s.buf| ==> s.buf[i] == s.history[|s.history| - |s.buf| + i];
    AfterOfSplit(s.buf, |s.buf|, lastID);
  }

  // ----- What a reader gets over a chain of reconnects -----

  /** A reader saw the first `seen` frames of subscription `sub` before it lost that connection. */
  datatype Visit = Visit(sub: nat, seen: nat)

  ghost function Stream(s: State, chain: seq<Visit>): seq<Line>
    requires forall i :: 0 <= i < |chain| ==> chain[i].sub in s.log && chain[i].seen <= |s.log[chain[i].sub].Frames()|
  {
    if chain == [] then []
    else
      var v := chain[|chain| - 1];
      Stream(s, chain[..|chain| - 1]) + s.log[v.sub].Frames()[..v.seen]
  }

  /** The Last-Event-ID a browser sends: the id of the last frame it saw, 0 before the first. */
  ghost function LastSeen(frames: seq<Line>): nat {
    if frames == [] then 0 else frames[|frames| - 1].id
  }

  /** Each visit resumes from the last frame seen so far, an id the hub had handed out by then. */
  ghost predicate IsChain(s: State, chain: seq<Visit>) {
    && (forall i :: 0 <= i < |chain| ==> chain[i].sub in s.log && chain[i].seen <= |s.log[chain[i].sub].Frames()|)
    && (forall i :: 0 <= i < |chain| ==>
          && s.log[chain[i].sub].lastID == LastSeen(Stream(s, chain[..i]))
          && s.log[chain[i].sub].lastID <= s.log[chain[i].sub].issued)
  }

  ghost predicate Consecutive(h: seq<Line>, a: Line, b: Line) {
    exists k :: 0 <= k < |h| - 1 && h[k] == a && h[k + 1] == b
  }

  /** Two frames in a row are consecutive lines of the history, unless one of them is a marker. */
  ghost predicate NoUnmarkedGap(h: seq<Line>, markers: set<nat>, frames: seq<Line>) {
    forall i :: 0 <= i < |frames| - 1 ==>
      frames[i].id in markers || frames[i + 1].id in markers || Consecutive(h, frames[i], frames[i + 1])
  }

  /** Every line is seen at most once and in order. */
  ghost predicate LinesRise(markers: set<nat>, frames: seq<Line>) {
    forall i, j :: 0 <= i < j < |frames| && frames[i].id !in markers && frames[j].id !in markers ==>
      frames[i].id < frames[j].id
  }

  ghost predicate Good(h: seq<Line>, markers: set<nat>, frames: seq<Line>) {
    && (forall i :: 0 <= i < |frames| ==> frames[i].id in markers || frames[i] in h)
    && NoUnmarkedGap(h, markers, frames)
    && LinesRise(markers, frames)
    && (forall i :: 0 <= i < |frames| && frames[i].id !in markers ==> frames[i].id <= LastSeen(frames))
  }

  lemma StretchIsGood(h: seq<Line>, markers: set<nat>, d: nat, first: nat, f: seq<Line>)
    requires Increasing(h) && forall i :: 0 <= i < |h| ==> h[i].id !in markers
    requires d <= 1 && first + |f| <= |h| + d
    requires forall i :: 0 <= i < |f| ==> if i < d then f[i].id in markers else f[i] == h[first + i - d]
    ensures Good(h, markers, f)
  {
    forall i | d <= i < |f| - 1 ensures Consecutive(h, f[i], f[i + 1]) {
      assert h[first + i - d] == f[i] && h[first + i - d + 1] == f[i + 1];
    }
  }

  /** One session on its own is good, and all it shows is newer than where it resumed. */
  lemma VisitIsGood(h: seq<Line>, markers: set<nat>, e: Session, n: nat)
    requires Increasing(h) && forall i :: 0 <= i < |h| ==> h[i].id !in markers
    requires SessionOk(h, markers, e, false)
    requires e.lastID <= e.issued && n <= |e.Frames()|
    ensures Good(h, markers, e.Frames()[..n])
    ensures forall i :: 0 <= i < n ==> e.Frames()[i].id > e.lastID
  {
    var first, upto := FramesAt(h, markers, e, false);
    var lead := if e.marked then [Line(e.issued + 1, LOST)] else [];
    NewerThanResume(h, markers, e);
    PrefixIsGood(h, markers, lead, first, upto, e.Frames(), n);
  }

  lemma PrefixIsGood(h: seq<Line>, markers: set<nat>, lead: seq<Line>, first: nat, upto: nat, f: seq<Line>, n: nat)
    requires Increasing(h) && forall i :: 0 <= i < |h| ==> h[i].id !in markers
    requires |lead| <= 1 && forall i :: 0 <= i < |lead| ==> lead[i].id in markers
    requires first <= upto <= |h| && f == lead + h[first..upto] && n <= |f|
    ensures Good(h, markers, f[..n])
  {
    FrameAt(h, lead, first, upto, f);
    StretchIsGood(h, markers, |lead|, first, f[..n]);
  }

  lemma NewerThanResume(h: seq<Line>, markers: set<nat>, e: Session)
    requires Increasing(h) && SessionOk(h, markers, e, false) && e.lastID <= e.issued
    ensures forall i :: 0 <= i < |e.Frames()| ==> e.Frames()[i].id > e.lastID
  {
    var first, upto := FramesAt(h, markers, e, false);
    var lead := if e.marked then [Line(e.issued + 1, LOST)] else [];
    FrameAt(h, lead, first, upto, e.Frames());
  }

  lemma FrameAt(h: seq<Line>, lead: seq<Line>, first: nat, upto: nat, f: seq<Line>)
    requires first <= upto <= |h| && f == lead + h[first..upto]
    ensures |f| == |lead| + upto - first
    ensures forall i :: 0 <= i < |f| ==> f[i] == if i < |lead| then lead[i] else h[first + i - |lead|]
  {
  }

  /** The first frame of a session follows the last line seen before it, or is a marker. */
  lemma VisitResumes(h: seq<Line>, markers: set<nat>, e: Session, a: Line)
    requires Increasing(h) && SessionOk(h, markers, e, false)
    requires e.lastID != 0 && e.lastID <= e.issued && e.Frames() != []
    requires a in h && a.id == e.lastID
    ensures e.Frames()[0].id in markers || Consecutive(h, a, e.Frames()[0])
  {
    var first, upto := FramesAt(h, markers, e, false);
    if !e.marked {
      assert e.Frames()[0] == h[first];
      NextAfter(h, a, first);
    }
  }

  /** The first line past the position of a line of the history is the one after it. */
  lemma NextAfter(h: seq<Line>, a: Line, first: nat)
    requires Increasing(h) && a in h && first < |h|
    requires forall i :: 0 <= i < first ==> h[i].id <= a.id
    requires forall i :: first <= i < |h| ==> h[i].id > a.id
    ensures Consecutive(h, a, h[first])
  {
    var k :| 0 <= k < |h| && h[k] == a;
    assert k + 1 < |h| ==> h[k].id < h[k + 1].id;
    assert k < first <= k + 1;
    assert h[k] == a && h[k + 1] == h[first];
  }

  lemma GoodConcat(h: seq<Line>, markers: set<nat>, a: seq<Line>, b: seq<Line>)
    requires Good(h, markers, a) && Good(h, markers, b)
    requires forall i :: 0 <= i < |b| ==> b[i].id > LastSeen(a)
    requires a != [] && b != [] ==>
               || a[|a| - 1].id in markers || b[0].id in markers
               || Consecutive(h, a[|a| - 1], b[0])
    ensures Good(h, markers, a + b)
  {
    var f := a + b;
    assert forall i :: 0 <= i < |f| ==> f[i] == if i < |a| then a[i] else b[i - |a|];
    if b == [] { assert f == a; }
  }

  lemma PrefixIsChain(s: State, chain: seq<Visit>)
    requires chain != [] && IsChain(s, chain)
    ensures IsChain(s, chain[..|chain| - 1])
  {
    var rest := chain[..|chain| - 1];
    assert forall i :: 0 <= i <= |rest| ==> rest[..i] == chain[..i];
  }

  lemma {:induction false} ChainIsGood(s: State, chain: seq<Visit>)
    requires IdInv(s) && LogInv(s) && IsChain(s, chain)
    ensures Good(s.history, s.markers, Stream(s, chain))
  {
    if chain != [] {
      var n := |chain| - 1;
      var v, rest := chain[n], chain[..n];
      PrefixIsChain(s, chain);
      ChainIsGood(s, rest);
      VisitExtends(s, Stream(s, rest), v);
    }
  }

  lemma VisitExtends(s: State, seen: seq<Line>, v: Visit)
    requires IdInv(s) && LogInv(s) && v.sub in s.log && v.seen <= |s.log[v.sub].Frames()|
    requires Good(s.history, s.markers, seen)
    requires s.log[v.sub].lastID == LastSeen(seen) <= s.log[v.sub].issued
    ensures Good(s.history, s.markers, seen + s.log[v.sub].Frames()[..v.seen])
  {
    var h, markers, e := s.history, s.markers, s.log[v.sub];
    SessionWeakens(h, markers, markers, e, v.sub in s.subs, false);
    VisitIsGood(h, markers, e, v.seen);
    if seen != [] && v.seen > 0 && seen[|seen| - 1].id !in markers {
      VisitResumes(h, markers, e, seen[|seen| - 1]);
    }
    GoodConcat(h, markers, seen, e.Frames()[..v.seen]);
  }

  /**
   The reconnect contract, over every run of a hub and every chain of reconnects to it:
   two frames seen in a row are consecutive lines of the history unless a {lost} marker
   is one of them, and no line is seen twice or out of order.
   */
  lemma NoGapWithoutMarker(maxBytes: int, events: seq<Event>, chain: seq<Visit>)
    requires IsChain(Run(Init(maxBytes), events), chain)
    ensures var s := Run(Init(maxBytes), events);
            && NoUnmarkedGap(s.history, s.markers, Stream(s, chain))
            && LinesRise(s.markers, Stream(s, chain))
  {
    RunKeepsInv(maxBytes, events);
    ChainIsGood(Run(Init(maxBytes), events), chain);
  }

  // ----- The hub itself -----

  /** Some run of critical sections leads here, so everything proved of runs holds here. */
  ghost predicate Reachable(s: State) {
    exists events :: s == Run(Init(s.maxBytes), events)
  }

  lemma StepReaches(s: State, e: Event)
    requires Reachable(s)
    ensures Reachable(Step(s, e)) && Step(s, e).maxBytes == s.maxBytes
  {
    var events :| s == Run(Init(s.maxBytes), events);
    assert (events + [e])[..|events|] == events;
    assert Step(s, e) == Run(Init(s.maxBytes), events + [e]);
  }

  /** What the methods below rely on, in every reachable state. */
  lemma ReachableIsReady(s: State)
    requires Reachable(s)
    ensures s.subs + s.detached <= s.chans.Keys && s.bufBytes == Bytes(s.buf)
  {
    var events :| s == Run(Init(s.maxBytes), events);
    RunKeepsInv(s.maxBytes, events);
  }

  lemma ReachableChansAreOk(s: State)
    requires Reachable(s)
    ensures s.subs <= s.chans.Keys && s.subs !! s.detached
    ensures forall id :: id in s.chans ==> (s.chans[id].closed <==> id !in s.subs && id !in s.detached)
  {
    ReachableKeepsInv(s);
    forall id | id in s.chans ensures s.chans[id].closed <==> id !in s.subs && id !in s.detached {
      assert ChanOk(s.chans[id], s.log[id], id in s.subs + s.detached);
    }
  }

  /** An append drops and closes a reader exactly when 256 lines wait on its channel, and gives the line to every other. */
  lemma AppendDropsOnlyFull(s: State, data: JournalLine, id: nat)
    requires Reachable(s) && id in s.subs
    ensures var t := Append(s, data);
            && id in s.chans && id in t.chans
            && (id in t.subs <==> |s.chans[id].pending| < 256)
            && (id in t.subs ==> t.chans[id].pending == s.chans[id].pending + [Line(s.nextID + 1, data)])
            && (id !in t.subs ==> t.chans[id].closed && t.chans[id].pending == s.chans[id].pending)
  {
    ReachableChansAreOk(s);
  }

  lemma ReachableHandsOver(s: State, lastID: nat)
    requires Reachable(s)
    ensures !s.stopped ==>
              var replay := Subscribe(s, lastID).log[s.nextSub].replay;
              && (lastID == 0 ==> replay == s.buf)
              && (lastID != 0 && (s.buf == [] || lastID + 1 < s.buf[0].id) ==>
                    replay == [Line(s.nextID + 1, LOST)] + s.buf)
  {
    if !s.stopped {
      ReachableKeepsInv(s);
      EntryHandsOverRing(s, lastID);
      assert s.history[|s.history| - |s.buf|..|s.history|] == s.buf;
      assert s.history[..|s.history|] == s.history;
    }
  }

  lemma ReachableKeepsInv(s: State)
    requires Reachable(s)
    ensures Inv(s)
  {
    var events :| s == Run(Init(s.maxBytes), events);
    RunKeepsInv(s.maxBytes, events);
  }

  lemma ReachableRingRises(s: State)
    requires Reachable(s)
    ensures Increasing(s.buf) && forall i :: 0 <= i < |s.buf| ==> s.buf[i].id > 0
  {
    var events :| s == Run(Init(s.maxBytes), events);
    RunKeepsInv(s.maxBytes, events);
    assert forall i :: 0 <= i < |s.buf| ==> s.buf[i] == s.history[|s.history| - |s.buf| + i];
  }

  class Hub {
    const maxBytes: int
    var buf: seq<Line>
    var bufBytes: int
    var nextID: nat
    var nextSub: nat
    var subs: set<nat>
    var chans: map<nat, Channel>
    var lingerArmed: bool
    var stopped: bool
    var detached: set<nat>
    ghost var history: seq<Line>
    ghost var markers: set<nat>
    ghost var log: map<nat, Session>

    ghost function View(): State
      reads this
    {
      State(maxBytes, buf, bufBytes, nextID, nextSub, subs, chans, lingerArmed, stopped, detached, history, markers, log)
    }

    constructor (maxBytes: int)
      ensures this.maxBytes == maxBytes && View() == Init(maxBytes) && Reachable(View())
    {
      this.maxBytes := maxBytes;
      buf, bufBytes, nextID, nextSub := [], 0, 0, 0;
      subs, chans, detached := {}, map[], {};
      lingerArmed, stopped := false, false;
      history, markers, log := [], {}, map[];
      new;
      assert View() == Run(Init(maxBytes), []);
    }

    /** Stamps a line, pushes it into the ring, evicts while over budget, and offers it to every reader. */
    method AppendLine(data: JournalLine)
      requires Reachable(View()) && !stopped
      modifies this
      ensures View() == Append(old(View()), data) && Reachable(View())
    {
      ReachableIsReady(View());
      StepReaches(View(), DoAppend(data));
      nextID := nextID + 1;
      var ln := Line(nextID, data);
      Push(ln);
      FanOut(ln);
      history := history + [ln];
      log := LogSent(log, subs, ln);
    }

    /** The ring's half of append, with the eviction loop. */
    method Push(ln: Line)
      requires bufBytes == Bytes(buf)
      modifies this`buf, this`bufBytes
      ensures buf == Evict(old(buf) + [ln], maxBytes) && bufBytes == Bytes(buf)
    {
      BytesAppend(buf, ln);
      buf := buf + [ln];
      bufBytes := bufBytes + SizeOf(ln.data);
      while |buf| > 1 && bufBytes > maxBytes
        invariant bufBytes == Bytes(buf)
        invariant Evict(buf, maxBytes) == Evict(old(buf) + [ln], maxBytes)
        decreases |buf|
      {
        bufBytes := bufBytes - SizeOf(buf[0].data);
        buf := buf[1..];
      }
    }

    /** The fan-out loop: a reader whose buffer is full is dropped and closed, never skipped. */
    method FanOut(ln: Line)
      requires subs <= chans.Keys
      modifies this`subs, this`chans
      ensures chans == Offer(old(chans), old(subs), ln)
      ensures subs == Accepting(old(chans), old(subs))
    {
      ghost var chans0, subs0 := chans, subs;
      var todo := subs;
      while todo != {}
        invariant todo <= subs0
        invariant chans == Offer(chans0, subs0 - todo, ln)
        invariant subs == Accepting(chans0, subs0 - todo) + todo
        decreases todo
      {
        var id :| id in todo;
        ghost var done := subs0 - todo;
        todo := todo - {id};
        assert subs0 - todo == done + {id};
        if |chans[id].pending| < SUB_BUFFER {
          chans := chans[id := Put(chans[id], ln)];
        } else {
          subs := subs - {id};
          chans := chans[id := Close(chans[id])];
        }
      }
      assert subs0 - todo == subs0;
    }

    /** Registers a reader and computes its replay in the same critical section. */
    method SubscribeReader(lastID: nat) returns (replay: seq<Line>, id: nat, ok: bool)
      requires Reachable(View())
      modifies this
      ensures View() == Subscribe(old(View()), lastID) && Reachable(View())
      ensures ok == !old(stopped)
      ensures ok ==> id == old(nextSub) && id in subs && id in log && replay == log[id].replay
      ensures ok && lastID == 0 ==> replay == old(buf)
      ensures ok && lastID != 0 && (old(buf) == [] || lastID + 1 < old(buf)[0].id) ==>
                replay == [Line(old(nextID) + 1, LOST)] + old(buf)
    {
      ReachableHandsOver(View(), lastID);
      ReachableRingRises(View());
      StepReaches(View(), DoSubscribe(lastID));
      if stopped {
        replay, id, ok := [], 0, false;
      } else {
        replay, id := Register(lastID);
        ok := true;
      }
    }

    method Register(lastID: nat) returns (replay: seq<Line>, id: nat)
      requires Increasing(buf) && (forall i :: 0 <= i < |buf| ==> buf[i].id > 0) && !stopped
      modifies this
      ensures View() == Subscribe(old(View()), lastID)
      ensures id == old(nextSub) && id in subs && id in log && replay == log[id].replay
    {
      lingerArmed := false;
      ghost var issued, marked := nextID, Marked(buf, lastID);
      replay := BuildReplay(lastID);
      id := Enter(lastID, issued, marked, replay);
    }

    method Enter(ghost lastID: nat, ghost issued: nat, ghost marked: bool, ghost replay: seq<Line>) returns (id: nat)
      modifies this`nextSub, this`chans, this`subs, this`markers, this`log
      ensures id == old(nextSub) && nextSub == old(nextSub) + 1
      ensures chans == old(chans)[id := Channel([], [], false, false)] && subs == old(subs) + {id}
      ensures markers == if marked then old(markers) + {issued + 1} else old(markers)
      ensures log == old(log)[id := Session(lastID, issued, marked, replay, [])]
    {
      id := nextSub;
      nextSub := nextSub + 1;
      chans := chans[id := Channel([], [], false, false)];
      subs := subs + {id};
      markers := if marked then markers + {issued + 1} else markers;
      log := log[id := Session(lastID, issued, marked, replay, [])];
    }

    method BuildReplay(lastID: nat) returns (replay: seq<Line>)
      requires Increasing(buf) && forall i :: 0 <= i < |buf| ==> buf[i].id > 0
      modifies this`nextID
      ensures replay == Replay(buf, lastID, Line(old(nextID) + 1, LOST))
      ensures nextID == if Marked(buf, lastID) then old(nextID) + 1 else old(nextID)
    {
      if lastID == 0 {
        AfterOfSplit(buf, 0, 0);
        return buf;
      }
      if |buf| == 0 {
        nextID := nextID + 1;
        return [Line(nextID, LOST)];
      }
      var oldest, newest := buf[0].id, buf[|buf| - 1].id;
      if lastID >= newest {
        AfterOfSplit(buf, |buf|, lastID);
        return [];
      }
      if lastID + 1 >= oldest {
        replay := TailAfter(buf, lastID);
        return;
      }
      nextID := nextID + 1;
      return [Line(nextID, LOST)] + buf;
    }

    /** The reader's release: close its channel, and arm the linger when it was the last one. */
    method UnsubscribeReader(id: nat)
      requires Reachable(View())
      modifies this
      ensures View() == Unsubscribe(old(View()), id) && Reachable(View())
      ensures id !in subs && (id in chans ==> chans[id].closed || id in detached)
      ensures old(subs) == {id} && !stopped ==> lingerArmed
    {
      ReachableIsReady(View());
      ReachableChansAreOk(View());
      StepReaches(View(), DoUnsubscribe(id));
      if id !in subs { return; }
      subs := subs - {id};
      chans := chans[id := Close(chans[id])];
      assert chans == CloseAll(old(chans), {id});
      if subs == {} && !stopped { lingerArmed := true; }
    }

    /** The linger callback's test: the upstream follow is cancelled exactly when no reader is left to lose by it. */
    method MaybeStop() returns (cancel: bool)
      requires Reachable(View())
      ensures cancel <==> forall id :: id in chans ==> chans[id].closed || id in detached
    {
      ReachableChansAreOk(View());
      cancel := |subs| == 0;
    }

    /** teardown: stop and detach under the lock, then close every detached channel, one close each. */
    method Teardown()
      requires Reachable(View()) && detached == {}
      modifies this
      ensures Reachable(View())
      ensures stopped && !lingerArmed && subs == {} && detached == {}
      ensures chans == CloseAll(old(chans), old(subs))
      ensures buf == old(buf) && nextID == old(nextID) && nextSub == old(nextSub)
      ensures history == old(history) && log == old(log) && markers == old(markers)
    {
      StepReaches(View(), DoDetach);
      stopped, detached, subs, lingerArmed := true, subs, {}, false;
      assert old(detached) + old(subs) == old(subs);
      CloseDetachedChannels();
    }

    /** The closing loop, outside the lock. */
    method CloseDetachedChannels()
      requires Reachable(View())
      modifies this`chans, this`detached
      ensures Reachable(View()) && detached == {} && chans == CloseAll(old(chans), old(detached))
    {
      while detached != {}
        invariant Reachable(View()) && detached <= old(detached)
        invariant chans == CloseAll(old(chans), old(detached) - detached)
        decreases detached
      {
        var id :| id in detached;
        ghost var done := old(detached) - detached;
        CloseOne(id);
        assert old(detached) - detached == done + {id};
      }
      assert old(detached) - detached == old(detached);
    }

    method CloseOne(id: nat)
      requires Reachable(View()) && id in detached
      modifies this`chans, this`detached
      ensures View() == CloseDetached(old(View()), id) && Reachable(View())
    {
      ReachableIsReady(View());
      StepReaches(View(), DoCloseDetached(id));
      chans := chans[id := Close(chans[id])];
      assert chans == CloseAll(old(chans), {id});
      detached := detached - {id};
    }
  }

  method TailAfter(buf: seq<Line>, lastID: nat) returns (out: seq<Line>)
    ensures out == After(buf, lastID)
  {
    out := [];
    for i := 0 to |buf|
      invariant After(buf, lastID) == out + After(buf[i..], lastID)
    {
      AfterFrom(buf, i, lastID);
      if buf[i].id > lastID { out := out + [buf[i]]; }
    }
    assert buf[|buf|..] == [];
  }

  lemma AfterFrom(buf: seq<Line>, i: nat, lastID: nat)
    requires i < |buf|
    ensures After(buf[i..], lastID) == (if buf[i].id > lastID then [buf[i]] else []) + After(buf[i + 1..], lastID)
  {
    assert buf[i..][0] == buf[i] && buf[i..][1..] == buf[i + 1..];
  }
}
