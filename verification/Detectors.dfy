/**
 The two app-runtime detectors that drive the health registry from one poll loop: a
 sliding window over restart counters, and a consecutive-failure counter over probes.
 */
module Detectors {
  import Maps
  import opened Health

  const RESTART_LOOP := "container-restart-loop"
  const UNRESPONSIVE := "app-unresponsive"

  // ----- What raising and clearing do to the other issues -----

  lemma RaiseReaches(defs: Definitions, s: State, k: Key, details: string, now: int, ok: bool, err: string)
    requires k.id in defs && k != STORE_WRITE_FAILED
    ensures var t := Raise(defs, s, k, details, now, ok, err);
            forall l :: l != STORE_WRITE_FAILED ==> (l in t.active <==> l in s.active || l == k)
  {
  }

  lemma ClearReaches(defs: Definitions, s: State, k: Key, now: int, ok: bool, err: string)
    requires k != STORE_WRITE_FAILED
    ensures var t := Clear(defs, s, k, now, ok, err);
            forall l :: l != STORE_WRITE_FAILED ==> (l in t.active <==> l in s.active && l != k)
  {
  }

  /** The instances that hold the issue `id`. */
  function Flagged(active: map<Key, Issue>, id: string): set<string> {
    set k | k in active && k.id == id :: k.instance
  }

  lemma FlaggedIff(active: map<Key, Issue>, id: string, i: string)
    ensures i in Flagged(active, id) <==> Key(id, i) in active
  {
    assert Key(id, i).id == id;
  }

  /** Everything but the issues `id`, and the internal store-failure one, is as it was. */
  ghost predicate OthersKept(id: string, before: map<Key, Issue>, after: map<Key, Issue>) {
    forall k: Key :: k.id != id && k != STORE_WRITE_FAILED ==> (k in after <==> k in before)
  }

  /** Raises one issue and leaves the rest, for any result of the store write. */
  method RaiseOne(m: Manager, id: string, i: string, now: int, ok: bool, err: string)
    requires id in m.defs && id != STORE_WRITE_FAILED.id
    modifies m
    ensures Flagged(m.active, id) == Flagged(old(m.active), id) + {i}
    ensures OthersKept(id, old(m.active), m.active)
  {
    RaiseReaches(m.defs, m.View(), Key(id, i), "", now, ok, err);
    var t := m.RaiseIssue(Key(id, i), "", now, ok, err);
    forall j ensures j in Flagged(m.active, id) <==> j in Flagged(old(m.active), id) + {i} {
      FlaggedIff(m.active, id, j);
      FlaggedIff(old(m.active), id, j);
    }
  }

  method ClearOne(m: Manager, id: string, i: string, now: int, ok: bool, err: string)
    requires id != STORE_WRITE_FAILED.id
    modifies m
    ensures Flagged(m.active, id) == Flagged(old(m.active), id) - {i}
    ensures OthersKept(id, old(m.active), m.active)
  {
    ClearReaches(m.defs, m.View(), Key(id, i), now, ok, err);
    var t := m.ClearIssue(Key(id, i), now, ok, err);
    forall j ensures j in Flagged(m.active, id) <==> j in Flagged(old(m.active), id) - {i} {
      FlaggedIff(m.active, id, j);
      FlaggedIff(old(m.active), id, j);
    }
  }

  /** The closing sweep of both detectors: clear every `id` whose instance is not held. */
  method ClearAllBut(m: Manager, id: string, held: set<string>, now: int, writes: string -> bool, err: string)
    requires id != STORE_WRITE_FAILED.id
    modifies m
    ensures Flagged(m.active, id) == Flagged(old(m.active), id) * held
    ensures OthersKept(id, old(m.active), m.active)
  {
    var todo := Flagged(m.active, id) - held;
    while todo != {}
      invariant todo !! held
      invariant Flagged(m.active, id) == Flagged(old(m.active), id) * held + todo
      invariant OthersKept(id, old(m.active), m.active)
      decreases todo
    {
      var i :| i in todo;
      ClearOne(m, id, i, now, writes(i), err);
      todo := todo - {i};
    }
  }

  /** Raises the issue for every instance held and clears it for every other one. */
  method Reconcile(m: Manager, id: string, held: set<string>, now: int, writes: string -> bool, err: string)
    requires id in m.defs && id != STORE_WRITE_FAILED.id
    modifies m
    ensures Flagged(m.active, id) == held
    ensures OthersKept(id, old(m.active), m.active)
  {
    var todo := held;
    while todo != {}
      invariant todo <= held
      invariant Flagged(m.active, id) == Flagged(old(m.active), id) + (held - todo)
      invariant OthersKept(id, old(m.active), m.active)
      decreases todo
    {
      var i :| i in todo;
      RaiseOne(m, id, i, now, writes(i), err);
      todo := todo - {i};
    }
    ClearAllBut(m, id, held, now, writes, err);
  }

  // ----- container-restart-loop -----

  datatype Sample = Sample(t: int, count: int)

  /** The samples not older than the cutoff. */
  function Prune(s: seq<Sample>, cutoff: int): seq<Sample> {
    if s == [] then []
    else (if s[0].t >= cutoff then [s[0]] else []) + Prune(s[1..], cutoff)
  }

  function Last(s: seq<Sample>): Sample
    requires s != []
  {
    s[|s| - 1]
  }

  /** A count below the last sample means a new container: its samples start over. */
  function Carried(prev: seq<Sample>, count: int): seq<Sample> {
    if prev != [] && count < Last(prev).count then [] else prev
  }

  function SamplesOf(m: map<string, seq<Sample>>, id: string): seq<Sample> {
    if id in m then m[id] else []
  }

  /** Every sample of the container that is running now, since it was created or last went missing. */
  function FullLog(logs: map<string, seq<Sample>>, counts: map<string, int>, now: int): map<string, seq<Sample>> {
    map id | id in counts :: Carried(SamplesOf(logs, id), counts[id]) + [Sample(now, counts[id])]
  }

  /** What the detector keeps instead: the part of that log inside the window. */
  function Windowed(history: map<string, seq<Sample>>, counts: map<string, int>, now: int, window: int): map<string, seq<Sample>> {
    map id | id in counts :: Next(SamplesOf(history, id), counts[id], now, window)
  }

  function Next(prev: seq<Sample>, count: int, now: int, window: int): (samples: seq<Sample>)
    ensures samples != [] && Last(samples) == Sample(now, count)
  {
    Prune(Carried(prev, count), now - window) + [Sample(now, count)]
  }

  /** More restarts since the oldest of these samples than the threshold allows. */
  predicate TooMany(kept: seq<Sample>, threshold: int) {
    kept != [] && Last(kept).count - kept[0].count > threshold
  }

  /** By definition: too many restarts since the oldest in-window sample of the full log. */
  ghost predicate Looping(log: seq<Sample>, now: int, window: int, threshold: int) {
    TooMany(Prune(log, now - window), threshold)
  }

  lemma {:induction false} PruneAppend(s: seq<Sample>, x: Sample, cutoff: int)
    ensures Prune(s + [x], cutoff) == Prune(s, cutoff) + if x.t >= cutoff then [x] else []
  {
    if s == [] {
      assert s + [x] == [x];
    } else {
      assert (s + [x])[1..] == s[1..] + [x] && (s + [x])[0] == s[0];
      PruneAppend(s[1..], x, cutoff);
      var first, rest := if s[0].t >= cutoff then [s[0]] else [], Prune(s[1..], cutoff);
      var last := if x.t >= cutoff then [x] else [];
      assert first + (rest + last) == first + rest + last;
    }
  }

  lemma {:induction false} PrunePrune(s: seq<Sample>, c: int, d: int)
    requires c <= d
    ensures Prune(Prune(s, c), d) == Prune(s, d)
  {
    if s != [] {
      PrunePrune(s[1..], c, d);
      var p := Prune(s[1..], c);
      assert [] + p == p;
      if s[0].t >= c {
        assert Prune(s, c) == [s[0]] + p;
        assert ([s[0]] + p)[1..] == p;
      }
    }
  }

  /** The pruned history of an instance against its full log, as of the last completed check. */
  ghost predicate KeepsWindow(log: seq<Sample>, kept: seq<Sample>, last: int, window: int) {
    && log != [] && Last(log).t == last
    && kept == Prune(log, last - window)
  }

  /** Pruning loses nothing: after the next check the history is again the window of the full log. */
  lemma WindowStaysExact(log: seq<Sample>, kept: seq<Sample>, last: int, count: int, now: int, window: int)
    requires window >= 0 && last <= now
    requires (log == [] && kept == []) || KeepsWindow(log, kept, last, window)
    ensures var log' := Carried(log, count) + [Sample(now, count)];
            KeepsWindow(log', Next(kept, count, now, window), now, window)
  {
    if log != [] { LastIsKept(log, last - window); }
    PrunePrune(Carried(log, count), last - window, now - window);
    PruneAppend(Carried(log, count), Sample(now, count), now - window);
  }

  lemma LastIsKept(log: seq<Sample>, cutoff: int)
    requires log != [] && Last(log).t >= cutoff
    ensures Prune(log, cutoff) != [] && Last(Prune(log, cutoff)) == Last(log)
  {
    var n := |log| - 1;
    assert log == log[..n] + [Last(log)];
    PruneAppend(log[..n], Last(log), cutoff);
  }

  lemma HistoryStaysExact(logs: map<string, seq<Sample>>, history: map<string, seq<Sample>>, last: int, counts: map<string, int>, now: int, window: int)
    requires window >= 0 && (logs != map[] ==> last <= now) && history.Keys == logs.Keys
    requires forall id :: id in logs ==> KeepsWindow(logs[id], history[id], last, window)
    ensures forall id :: id in counts ==>
              KeepsWindow(FullLog(logs, counts, now)[id], Windowed(history, counts, now, window)[id], now, window)
  {
    forall id | id in counts
      ensures KeepsWindow(FullLog(logs, counts, now)[id], Windowed(history, counts, now, window)[id], now, window)
    {
      WindowStaysExact(SamplesOf(logs, id), SamplesOf(history, id), if logs == map[] then now else last,
                       counts[id], now, window);
    }
  }

  /** The filter loop over one instance's earlier samples. */
  method Sampled(prev: seq<Sample>, count: int, now: int, window: int) returns (samples: seq<Sample>)
    ensures samples == Next(prev, count, now, window)
  {
    var kept := Carried(prev, count);
    samples := [];
    for i := 0 to |kept|
      invariant samples == Prune(kept[..i], now - window)
    {
      assert kept[..i + 1] == kept[..i] + [kept[i]];
      PruneAppend(kept[..i], kept[i], now - window);
      if kept[i].t >= now - window { samples := samples + [kept[i]]; }
    }
    assert kept[..|kept|] == kept;
    samples := samples + [Sample(now, count)];
  }

  /** The instances a set of histories flags. */
  function Loopers(history: map<string, seq<Sample>>, threshold: int): set<string> {
    set id | id in history && TooMany(history[id], threshold)
  }

  // ----- What the restart check means, over all checks -----

  /** One completed check: the restart counts it saw, and when. */
  datatype Poll = Poll(counts: map<string, int>, at: int)

  ghost predicate InOrder(checks: seq<Poll>) {
    forall i, j :: 0 <= i < j < |checks| ==> checks[i].at <= checks[j].at
  }

  /** From the b-th check on the instance was there every time, and its count never fell. */
  ghost predicate Unbroken(checks: seq<Poll>, id: string, b: nat) {
    && b < |checks|
    && (forall j :: b <= j < |checks| ==> id in checks[j].counts)
    && (forall j :: b < j < |checks| ==> checks[j].counts[id] >= checks[j - 1].counts[id])
  }

  /** The container that runs now was created, or came back, at the b-th check. */
  ghost predicate Since(checks: seq<Poll>, id: string, b: nat) {
    Unbroken(checks, id, b) && forall a: nat :: a < b ==> !Unbroken(checks, id, a)
  }

  /** The first check from the b-th on that is not older than the cutoff. */
  ghost predicate FirstIn(checks: seq<Poll>, b: nat, cutoff: int, o: nat) {
    b <= o < |checks| && checks[o].at >= cutoff && forall j :: b <= j < o ==> checks[j].at < cutoff
  }

  /**
   In a restart loop: the count of the last check exceeds by more than the threshold that of
   the oldest check in the window since the container was created or came back.
   */
  ghost predicate InLoop(checks: seq<Poll>, id: string, window: int, threshold: int) {
    exists b: nat, o: nat ::
      && Since(checks, id, b) && FirstIn(checks, b, LastAt(checks) - window, o)
      && checks[|checks| - 1].counts[id] - checks[o].counts[id] > threshold
  }

  ghost function LastAt(checks: seq<Poll>): int { if checks == [] then 0 else checks[|checks| - 1].at }

  /** The full logs after a run of checks. */
  ghost function Logs(checks: seq<Poll>): map<string, seq<Sample>> {
    if checks == [] then map[]
    else FullLog(Logs(checks[..|checks| - 1]), checks[|checks| - 1].counts, checks[|checks| - 1].at)
  }

  /** One instance's samples from the b-th check on. */
  ghost predicate IsLogFrom(checks: seq<Poll>, id: string, b: nat, log: seq<Sample>) {
    && Unbroken(checks, id, b) && |log| == |checks| - b
    && forall i :: 0 <= i < |log| ==> log[i] == Sample(checks[b + i].at, checks[b + i].counts[id])
  }

  lemma BrokenStays(before: seq<Poll>, p: Poll, id: string, a: nat)
    requires a < |before| && !Unbroken(before, id, a)
    ensures !Unbroken(before + [p], id, a)
  {
    assert forall j :: 0 <= j < |before| ==> (before + [p])[j] == before[j];
  }

  /** A check without a break carries the log on, one with a break starts it over. */
  lemma LogGoesOn(before: seq<Poll>, p: Poll, id: string, b: nat, log: seq<Sample>) returns (b': nat)
    requires id in p.counts && before != [] && Since(before, id, b) && IsLogFrom(before, id, b, log)
    ensures Since(before + [p], id, b')
    ensures IsLogFrom(before + [p], id, b', Carried(log, p.counts[id]) + [Sample(p.at, p.counts[id])])
  {
    var n, checks := |before|, before + [p];
    assert checks[n] == p && forall j :: 0 <= j < n ==> checks[j] == before[j];
    assert Last(log).count == before[n - 1].counts[id];
    if p.counts[id] < before[n - 1].counts[id] {
      b' := n;
      assert checks[n].counts[id] < checks[n - 1].counts[id];
    } else {
      b' := b;
      forall a: nat | a < b ensures !Unbroken(checks, id, a) { BrokenStays(before, p, id, a); }
    }
  }

  /** An instance that was not there the last time starts a log. */
  lemma LogStarts(before: seq<Poll>, p: Poll, id: string)
    requires id in p.counts && (before != [] ==> id !in before[|before| - 1].counts)
    ensures Since(before + [p], id, |before|)
    ensures IsLogFrom(before + [p], id, |before|, [Sample(p.at, p.counts[id])])
  {
    var n, checks := |before|, before + [p];
    assert checks[n] == p && (n > 0 ==> checks[n - 1] == before[n - 1]);
  }

  lemma {:induction false} LogsAreSince(checks: seq<Poll>, id: string) returns (b: nat)
    ensures id in Logs(checks) <==> checks != [] && id in checks[|checks| - 1].counts
    ensures id in Logs(checks) ==> Since(checks, id, b) && IsLogFrom(checks, id, b, Logs(checks)[id])
  {
    b := 0;
    if checks != [] && id in checks[|checks| - 1].counts {
      var before, p := checks[..|checks| - 1], checks[|checks| - 1];
      assert checks == before + [p];
      b := LogsAreSince(before, id);
      if id in Logs(before) {
        b := LogGoesOn(before, p, id, b, Logs(before)[id]);
      } else {
        LogStarts(before, p, id);
        b := |before|;
      }
    }
  }

  /** Of samples in order, pruning keeps those from the first one that is not older. */
  lemma {:induction false} PruneIsSuffix(log: seq<Sample>, cutoff: int) returns (m: nat)
    requires forall i, j :: 0 <= i < j < |log| ==> log[i].t <= log[j].t
    ensures m <= |log| && Prune(log, cutoff) == log[m..]
    ensures (forall i :: 0 <= i < m ==> log[i].t < cutoff) && (m < |log| ==> log[m].t >= cutoff)
  {
    if log == [] {
      m := 0;
    } else {
      var m' := PruneIsSuffix(log[1..], cutoff);
      if log[0].t >= cutoff {
        m := 0;
        assert m' == 0 by { assert |log| > 1 ==> log[1..][0] == log[1]; }
        assert log == [log[0]] + log[1..];
      } else {
        m := m' + 1;
        assert log[1..][m'..] == log[m..];
        forall i | 0 <= i < m ensures log[i].t < cutoff { if i > 0 { assert log[i] == log[1..][i - 1]; } }
      }
    }
  }

  lemma SinceIsUnique(checks: seq<Poll>, id: string, b: nat, c: nat)
    requires Since(checks, id, b) && Since(checks, id, c)
    ensures b == c
  {
  }

  /** The oldest sample pruning keeps is that of the first check in the window. */
  lemma OldestKept(checks: seq<Poll>, id: string, b: nat, log: seq<Sample>, cutoff: int) returns (m: nat)
    requires InOrder(checks) && IsLogFrom(checks, id, b, log) && LastAt(checks) >= cutoff
    ensures m < |log| && Prune(log, cutoff) == log[m..] && FirstIn(checks, b, cutoff, b + m)
  {
    forall i, j | 0 <= i < j < |log| ensures log[i].t <= log[j].t {
      assert checks[b + i].at <= checks[b + j].at;
    }
    m := PruneIsSuffix(log, cutoff);
    var n := |log| - 1;
    assert log[n].t == checks[b + n].at == LastAt(checks);
    forall j | b <= j < b + m ensures checks[j].at < cutoff { assert log[j - b].t < cutoff; }
  }

  lemma InLoopIff(checks: seq<Poll>, id: string, b: nat, o: nat, window: int, threshold: int)
    requires Since(checks, id, b) && FirstIn(checks, b, LastAt(checks) - window, o)
    ensures InLoop(checks, id, window, threshold) <==>
            checks[|checks| - 1].counts[id] - checks[o].counts[id] > threshold
  {
    if InLoop(checks, id, window, threshold) {
      var c: nat, p: nat :|
        && Since(checks, id, c) && FirstIn(checks, c, LastAt(checks) - window, p)
        && checks[|checks| - 1].counts[id] - checks[p].counts[id] > threshold;
      SinceIsUnique(checks, id, b, c);
      assert p == o;
    }
  }

  /** The log's verdict is the definition's. */
  lemma LoopingIsInLoop(checks: seq<Poll>, id: string, b: nat, log: seq<Sample>, window: int, threshold: int)
    requires InOrder(checks) && window >= 0 && Since(checks, id, b) && IsLogFrom(checks, id, b, log)
    ensures Looping(log, LastAt(checks), window, threshold) <==> InLoop(checks, id, window, threshold)
  {
    var m := OldestKept(checks, id, b, log, LastAt(checks) - window);
    InLoopIff(checks, id, b, b + m, window, threshold);
    TooManyFrom(log, m, threshold);
    LogShowsCounts(checks, id, b, log, m);
  }

  lemma TooManyFrom(log: seq<Sample>, m: nat, threshold: int)
    requires m < |log|
    ensures TooMany(log[m..], threshold) <==> log[|log| - 1].count - log[m].count > threshold
  {
    assert Last(log[m..]) == log[|log| - 1] && log[m..][0] == log[m];
  }

  lemma LogShowsCounts(checks: seq<Poll>, id: string, b: nat, log: seq<Sample>, m: nat)
    requires IsLogFrom(checks, id, b, log) && m < |log|
    ensures log[|log| - 1].count == checks[|checks| - 1].counts[id] && log[m].count == checks[b + m].counts[id]
  {
    assert b + (|log| - 1) == |checks| - 1;
  }

  /** A history is the in-window part of the full logs of the checks. */
  ghost predicate KeptFor(checks: seq<Poll>, history: map<string, seq<Sample>>, window: int) {
    && window >= 0 && InOrder(checks) && history.Keys == Logs(checks).Keys
    && forall id :: id in history ==> KeepsWindow(Logs(checks)[id], history[id], LastAt(checks), window)
  }

  lemma OneMoreCheck(checks: seq<Poll>, history: map<string, seq<Sample>>, window: int, p: Poll)
    requires KeptFor(checks, history, window) && (checks != [] ==> LastAt(checks) <= p.at)
    ensures KeptFor(checks + [p], Windowed(history, p.counts, p.at, window), window)
  {
    var more := checks + [p];
    HistoryStaysExact(Logs(checks), history, LastAt(checks), p.counts, p.at, window);
    assert more[..|more| - 1] == checks;
    assert Logs(more) == FullLog(Logs(checks), p.counts, p.at);
  }

  lemma LoopersAreInLoop(checks: seq<Poll>, history: map<string, seq<Sample>>, window: int, threshold: int, id: string)
    requires KeptFor(checks, history, window)
    ensures id in Loopers(history, threshold) <==> InLoop(checks, id, window, threshold)
  {
    var b := LogsAreSince(checks, id);
    if id in history {
      LoopingIsInLoop(checks, id, b, Logs(checks)[id], window, threshold);
    }
  }

  class RestartLoopDetector {
    const window: int
    const threshold: int
    const health: Manager
    var history: map<string, seq<Sample>>
    /** Every check completed so far. */
    ghost var checks: seq<Poll>

    /** The history is the in-window part of the full logs. */
    ghost predicate Valid()
      reads this
    {
      RESTART_LOOP in health.defs && KeptFor(checks, history, window)
    }

    constructor (health: Manager)
      requires RESTART_LOOP in health.defs
      ensures Valid() && this.health == health && window == 300 && threshold == 3 && checks == []
    {
      window, threshold, this.health := 300, 3, health;
      history, checks := map[], [];
    }

    /** One completed check: the instances flagged afterwards are exactly those in a restart loop by definition. */
    method Check(counts: map<string, int>, now: int, writes: string -> bool, err: string) returns (looping: set<string>)
      requires Valid() && (checks != [] ==> LastAt(checks) <= now)
      modifies this, health
      ensures Valid() && checks == old(checks) + [Poll(counts, now)]
      ensures forall id :: id in looping <==> InLoop(checks, id, window, threshold)
      ensures Flagged(health.active, RESTART_LOOP) == looping
      ensures OthersKept(RESTART_LOOP, old(health.active), health.active)
    {
      looping := Observe(counts, now);
      Reconcile(health, RESTART_LOOP, looping, now, writes, err);
    }

    /** The check's own bookkeeping, before anything is raised or cleared. */
    method Observe(counts: map<string, int>, now: int) returns (looping: set<string>)
      requires Valid() && (checks != [] ==> LastAt(checks) <= now)
      modifies this
      ensures Valid() && checks == old(checks) + [Poll(counts, now)]
      ensures forall id :: id in looping <==> InLoop(checks, id, window, threshold)
    {
      OneMoreCheck(checks, history, window, Poll(counts, now));
      looping := SampleAll(counts, now);
      Forget(counts);
      Maps.RestrictSum(old(history), Windowed(old(history), counts, now, window), counts.Keys);
      checks := checks + [Poll(counts, now)];
      forall id ensures id in looping <==> InLoop(checks, id, window, threshold) {
        LoopersAreInLoop(checks, history, window, threshold, id);
      }
    }

    /** The sampling loop: every reported instance gets its sample. */
    method SampleAll(counts: map<string, int>, now: int) returns (looping: set<string>)
      modifies this`history
      ensures history == old(history) + Windowed(old(history), counts, now, window)
      ensures looping == Loopers(Windowed(old(history), counts, now, window), threshold)
    {
      looping := {};
      var todo := counts;
      ghost var seen: map<string, int> := map[];
      while todo != map[]
        invariant seen.Keys !! todo.Keys && seen + todo == counts
        invariant history == old(history) + Windowed(old(history), seen, now, window)
        invariant looping == Loopers(Windowed(old(history), seen, now, window), threshold)
        decreases todo.Keys
      {
        var id :| id in todo;
        Maps.OneMoved(seen, todo, id);
        looping := SampleOne(id, todo[id], now, looping, old(history), seen);
        seen := seen[id := todo[id]];
        todo := todo - {id};
      }
      assert seen == counts;
    }

    method SampleOne(id: string, count: int, now: int, looping: set<string>,
                     ghost history0: map<string, seq<Sample>>, ghost seen: map<string, int>)
      returns (looping': set<string>)
      requires id !in seen && history == history0 + Windowed(history0, seen, now, window)
      requires looping == Loopers(Windowed(history0, seen, now, window), threshold)
      modifies this`history
      ensures history == history0 + Windowed(history0, seen[id := count], now, window)
      ensures looping' == Loopers(Windowed(history0, seen[id := count], now, window), threshold)
    {
      ghost var w := Windowed(history0, seen, now, window);
      WindowedOneMore(history0, seen, id, count, now, window);
      looping' := looping;
      var samples := Sampled(SamplesOf(history, id), count, now, window);
      LoopersOneMore(w, id, samples, threshold);
      Maps.UpdateSum(history0, w, id, samples);
      history := history[id := samples];
      if count - samples[0].count > threshold { looping' := looping' + {id}; }
    }

    method Forget(counts: map<string, int>)
      modifies this`history
      ensures history == Maps.Restrict(old(history), counts.Keys)
    {
      var todo := history.Keys;
      while todo != {}
        invariant todo <= old(history).Keys
        invariant history == map id | id in old(history) && (id in todo || id in counts) :: old(history)[id]
        decreases todo
      {
        var id :| id in todo;
        todo := todo - {id};
        if id !in counts { history := history - {id}; }
      }
    }
  }

  lemma WindowedOneMore(history: map<string, seq<Sample>>, seen: map<string, int>, id: string, count: int, now: int, window: int)
    requires id !in seen
    ensures var w := Windowed(history, seen, now, window);
            && Windowed(history, seen[id := count], now, window) == w[id := Next(SamplesOf(history, id), count, now, window)]
            && id !in w
            && SamplesOf(history + w, id) == SamplesOf(history, id)
  {
  }

  lemma LoopersOneMore(w: map<string, seq<Sample>>, id: string, samples: seq<Sample>, threshold: int)
    requires id !in w
    ensures Loopers(w[id := samples], threshold) == Loopers(w, threshold) + if TooMany(samples, threshold) then {id} else {}
  {
  }

  // ----- app-unresponsive -----

  /** One installed instance as a check finds it; `answers` is what the probe of its route would say. */
  datatype Instance = Instance(declaresProbe: bool, running: bool, startedAt: int, startPeriod: int, answers: bool)

  predicate Eligible(i: Instance, now: int) {
    i.declaresProbe && i.running && now - i.startedAt >= i.startPeriod
  }

  /** The instances probed in one check, with the answers. */
  function Probes(instances: map<string, Instance>, looping: set<string>, now: int): map<string, bool> {
    map id | id in instances && id !in looping && Eligible(instances[id], now) :: instances[id].answers
  }

  function BadOf(bad: map<string, nat>, id: string): nat {
    if id in bad then bad[id] else 0
  }

  function NextBad(bad: map<string, nat>, probes: map<string, bool>): map<string, nat> {
    map id | id in probes :: if probes[id] then 0 else BadOf(bad, id) + 1
  }

  function Unhealthy(bad: map<string, nat>, flagged: set<string>, probes: map<string, bool>): set<string> {
    set id | id in probes && !probes[id] && (id in flagged || BadOf(bad, id) + 1 >= 2)
  }

  class AppProbeDetector {
    const health: Manager
    var bad: map<string, nat>
    /** The instances held unresponsive when the detector started, and what every check since found. */
    ghost const start: set<string>
    ghost var sights: seq<Sight>

    /** The counters, and the issues in the registry, are those of the run of checks so far. */
    ghost predicate Valid()
      reads this, health
    {
      && UNRESPONSIVE in health.defs
      && bad == ProbeRun(start, Rounds(sights)).0
      && Flagged(health.active, UNRESPONSIVE) == ProbeRun(start, Rounds(sights)).1
    }

    constructor (health: Manager)
      requires UNRESPONSIVE in health.defs
      ensures this.health == health && bad == map[] && sights == []
      ensures start == Flagged(health.active, UNRESPONSIVE) && Valid()
    {
      this.health := health;
      bad := map[];
      start, sights := Flagged(health.active, UNRESPONSIVE), [];
    }

    /**
     One completed check, the next round of the run. No instance holds both issues
     afterwards: one that is in a restart loop is not probed, and what is not probed is not
     held unresponsive.
     */
    method Check(instances: map<string, Instance>, now: int, writes: string -> bool, err: string)
      requires Valid()
      modifies this, health
      ensures Valid()
      ensures sights == old(sights) + [Sight(instances, Flagged(old(health.active), RESTART_LOOP), now)]
      ensures OthersKept(UNRESPONSIVE, old(health.active), health.active)
      ensures Flagged(health.active, UNRESPONSIVE) !! Flagged(health.active, RESTART_LOOP)
    {
      ghost var sight := Sight(instances, Flagged(health.active, RESTART_LOOP), now);
      var probes := Probes(instances, Flagged(health.active, RESTART_LOOP), now);
      var unhealthy := ProbeAll(probes, Flagged(health.active, UNRESPONSIVE));
      DropUnprobed(probes);
      Maps.RestrictSum(old(bad), NextBad(old(bad), probes), probes.Keys);
      Reconcile(health, UNRESPONSIVE, unhealthy, now, writes, err);
      SameFlags(RESTART_LOOP, UNRESPONSIVE, old(health.active), health.active);
      sights := sights + [sight];
      OneMoreRound(old(sights), sight);
    }

    /** The counting loop over the instances probed. */
    method ProbeAll(probes: map<string, bool>, flagged: set<string>) returns (unhealthy: set<string>)
      modifies this`bad
      ensures bad == old(bad) + NextBad(old(bad), probes)
      ensures unhealthy == Unhealthy(old(bad), flagged, probes)
    {
      unhealthy := {};
      var todo := probes;
      ghost var seen: map<string, bool> := map[];
      while todo != map[]
        invariant seen.Keys !! todo.Keys && seen + todo == probes
        invariant bad == old(bad) + NextBad(old(bad), seen)
        invariant unhealthy == Unhealthy(old(bad), flagged, seen)
        decreases todo.Keys
      {
        var id :| id in todo;
        Maps.OneMoved(seen, todo, id);
        ProbedOneMore(old(bad), flagged, seen, id, todo[id]);
        var n := if todo[id] then 0 else BadOf(bad, id) + 1;
        Maps.UpdateSum(old(bad), NextBad(old(bad), seen), id, n);
        bad := bad[id := n];
        if !todo[id] && (id in flagged || n >= 2) { unhealthy := unhealthy + {id}; }
        seen := seen[id := todo[id]];
        todo := todo - {id};
      }
      assert seen == probes;
    }

    method DropUnprobed(probes: map<string, bool>)
      modifies this`bad
      ensures bad == Maps.Restrict(old(bad), probes.Keys)
    {
      var todo := bad.Keys;
      while todo != {}
        invariant todo <= old(bad).Keys
        invariant bad == map id | id in old(bad) && (id in todo || id in probes) :: old(bad)[id]
        decreases todo
      {
        var id :| id in todo;
        todo := todo - {id};
        if id !in probes { bad := bad - {id}; }
      }
    }
  }

  lemma SameFlags(id: string, other: string, before: map<Key, Issue>, after: map<Key, Issue>)
    requires OthersKept(other, before, after) && id != other && id != STORE_WRITE_FAILED.id
    ensures Flagged(after, id) == Flagged(before, id)
  {
    forall i ensures i in Flagged(after, id) <==> i in Flagged(before, id) {
      FlaggedIff(after, id, i);
      FlaggedIff(before, id, i);
    }
  }

  lemma ProbedOneMore(bad: map<string, nat>, flagged: set<string>, seen: map<string, bool>, id: string, answer: bool)
    requires id !in seen
    ensures var n := if answer then 0 else BadOf(bad, id) + 1;
            && NextBad(bad, seen[id := answer]) == NextBad(bad, seen)[id := n]
            && BadOf(bad + NextBad(bad, seen), id) == BadOf(bad, id)
            && Unhealthy(bad, flagged, seen[id := answer]) ==
               Unhealthy(bad, flagged, seen) + if !answer && (id in flagged || n >= 2) then {id} else {}
  {
  }

  /** The detector's state after a run of completed checks, with `start` the instances held before the first. */
  ghost function ProbeRun(start: set<string>, rounds: seq<map<string, bool>>): (map<string, nat>, set<string>) {
    if rounds == [] then (map[], start)
    else
      var (bad, flagged) := ProbeRun(start, rounds[..|rounds| - 1]);
      var probes := rounds[|rounds| - 1];
      (NextBad(bad, probes), Unhealthy(bad, flagged, probes))
  }

  ghost predicate FailedIn(round: map<string, bool>, id: string) {
    id in round && !round[id]
  }

  /** How many of the latest checks in a row probed the instance and got no answer. */
  ghost function Streak(rounds: seq<map<string, bool>>, id: string): (n: nat)
    ensures n <= |rounds|
  {
    if rounds == [] || !FailedIn(rounds[|rounds| - 1], id) then 0 else 1 + Streak(rounds[..|rounds| - 1], id)
  }

  /** The counter is the streak of failed probes; an instance is held after two of them, or if it was held from the start and has failed ever since. */
  lemma {:induction false} CountsStreaks(start: set<string>, rounds: seq<map<string, bool>>, id: string)
    ensures var (bad, flagged) := ProbeRun(start, rounds);
            && BadOf(bad, id) == Streak(rounds, id)
            && (id in flagged <==> Streak(rounds, id) >= 2 || (id in start && Streak(rounds, id) == |rounds|))
  {
    if rounds != [] { CountsStreaks(start, rounds[..|rounds| - 1], id); }
  }

  lemma StreakOfTwo(rounds: seq<map<string, bool>>, id: string)
    ensures Streak(rounds, id) >= 1 <==> rounds != [] && FailedIn(rounds[|rounds| - 1], id)
    ensures Streak(rounds, id) >= 2 <==>
            |rounds| >= 2 && FailedIn(rounds[|rounds| - 1], id) && FailedIn(rounds[|rounds| - 2], id)
  {
    if rounds != [] {
      var rest := rounds[..|rounds| - 1];
      assert rest != [] ==> rest[|rest| - 1] == rounds[|rounds| - 2];
    }
  }

  /** What a check found: the instances, those in a restart loop, and the time. */
  datatype Sight = Sight(instances: map<string, Instance>, looping: set<string>, now: int)

  ghost function Rounds(sights: seq<Sight>): (r: seq<map<string, bool>>)
    ensures |r| == |sights|
    ensures forall i :: 0 <= i < |r| ==> r[i] == Probes(sights[i].instances, sights[i].looping, sights[i].now)
  {
    seq(|sights|, i requires 0 <= i < |sights| => Probes(sights[i].instances, sights[i].looping, sights[i].now))
  }

  lemma OneMoreRound(sights: seq<Sight>, s: Sight)
    ensures Rounds(sights + [s]) == Rounds(sights) + [Probes(s.instances, s.looping, s.now)]
    ensures Rounds(sights + [s])[..|sights|] == Rounds(sights)
  {
  }

  /** The instance declares a probe, is running, is past its start period and in no restart loop, and did not answer. */
  ghost predicate Silent(s: Sight, id: string) {
    && id in s.instances && id !in s.looping
    && var i := s.instances[id];
       i.declaresProbe && i.running && i.startedAt + i.startPeriod <= s.now && !i.answers
  }

  ghost predicate SilentTwice(start: set<string>, sights: seq<Sight>, id: string)
    requires sights != []
  {
    Silent(sights[|sights| - 1], id) && if |sights| >= 2 then Silent(sights[|sights| - 2], id) else id in start
  }

  /** Over every run of checks the registry holds an instance unresponsive exactly when the last two checks both found it silent; for want of one before, when it was held already. */
  lemma UnresponsiveIffTwoFailures(d: AppProbeDetector, id: string)
    requires d.Valid() && d.sights != []
    ensures Key(UNRESPONSIVE, id) in d.health.active <==> SilentTwice(d.start, d.sights, id)
  {
    var rounds := Rounds(d.sights);
    FlaggedIff(d.health.active, UNRESPONSIVE, id);
    CountsStreaks(d.start, rounds, id);
    StreakOfTwo(rounds, id);
    forall i | 0 <= i < |rounds| ensures FailedIn(rounds[i], id) <==> Silent(d.sights[i], id) {
    }
  }

  /**
   One tick of the poll loop: the restart check, then the probe check, on the same registry.
   After every tick each issue is active for exactly the instances its definition names, over
   the full log and over all checks so far, and none holds both.
   */
  method Tick(loops: RestartLoopDetector, probes: AppProbeDetector, counts: map<string, int>,
              instances: map<string, Instance>, now: int, writes: string -> bool, err: string)
    requires loops.health == probes.health && loops.Valid() && probes.Valid()
    requires loops.checks != [] ==> LastAt(loops.checks) <= now
    modifies loops, probes, loops.health
    ensures loops.Valid() && probes.Valid()
    ensures loops.checks == old(loops.checks) + [Poll(counts, now)]
    ensures probes.sights == old(probes.sights) + [Sight(instances, Flagged(loops.health.active, RESTART_LOOP), now)]
    ensures forall id :: Key(RESTART_LOOP, id) in loops.health.active <==>
              InLoop(loops.checks, id, loops.window, loops.threshold)
    ensures forall id :: Key(UNRESPONSIVE, id) in loops.health.active <==> SilentTwice(probes.start, probes.sights, id)
    ensures forall id :: !(Key(RESTART_LOOP, id) in loops.health.active && Key(UNRESPONSIVE, id) in loops.health.active)
  {
    ghost var health0 := loops.health.active;
    var looping := loops.Check(counts, now, writes, err);
    ghost var health1 := loops.health.active;
    SameFlags(UNRESPONSIVE, RESTART_LOOP, health0, health1);
    probes.Check(instances, now, writes, err);
    SameFlags(RESTART_LOOP, UNRESPONSIVE, health1, loops.health.active);
    forall id ensures Key(RESTART_LOOP, id) in loops.health.active <==> id in looping {
      FlaggedIff(loops.health.active, RESTART_LOOP, id);
    }
    forall id ensures Key(UNRESPONSIVE, id) in loops.health.active <==> SilentTwice(probes.start, probes.sights, id) {
      UnresponsiveIffTwoFailures(probes, id);
    }
    forall id ensures !(Key(RESTART_LOOP, id) in loops.health.active && Key(UNRESPONSIVE, id) in loops.health.active) {
      FlaggedIff(loops.health.active, RESTART_LOOP, id);
      FlaggedIff(loops.health.active, UNRESPONSIVE, id);
    }
  }
}
