/**
 The typed-issue registry: reports of one category at a time reconcile the active
 issues of that category, debounced issues wait for a second bad sample, and every
 change is written through to a store that may fail.
 */
module Health {
  import Maps

  datatype Key = Key(id: string, instance: string)
  datatype Issue = Issue(details: string, raisedAt: int, lastCheckedAt: int)
  datatype Definition = Definition(reportCategory: string, debounce: bool, noPersist: bool)
  type Definitions = map<string, Definition>

  /** The registry, its store, and the keys whose last write to the store, since the last restart, failed. */
  datatype State = State(
    active: map<Key, Issue>,
    pending: map<Key, nat>,
    rows: map<Key, Issue>,
    unsaved: set<Key>,
    undeleted: set<Key>)

  const EMPTY := State(map[], map[], map[], {}, {})
  const STORE_WRITE_FAILED := Key("store-write-failed", "")

  function Category(defs: Definitions, k: Key): string {
    if k.id in defs then defs[k.id].reportCategory else ""
  }

  predicate NoPersist(defs: Definitions, k: Key) {
    k.id in defs && defs[k.id].noPersist
  }

  /** The taxonomy's own shape: what is kept out of the store is also kept out of the host's reports. */
  ghost predicate WellDefined(defs: Definitions) {
    && STORE_WRITE_FAILED.id in defs
    && (forall id :: id in defs ==> (defs[id].noPersist <==> id == STORE_WRITE_FAILED.id))
    && defs[STORE_WRITE_FAILED.id].reportCategory == ""
  }

  function Samples(pending: map<Key, nat>, k: Key): nat {
    if k in pending then pending[k] else 0
  }

  /** raiseLocked: refresh an active issue, or start a new one. */
  function RaiseIn(defs: Definitions, active: map<Key, Issue>, k: Key, details: string, now: int): map<Key, Issue> {
    if k.id !in defs then active
    else if k in active then active[k := active[k].(lastCheckedAt := now, details := details)]
    else active[k := Issue(details, now, now)]
  }

  // ----- One report -----

  /** A finding is raised unless it is a debounced issue's first bad sample. */
  predicate Fires(defs: Definitions, active: map<Key, Issue>, pending: map<Key, nat>, k: Key) {
    k.id in defs && (k in active || !defs[k.id].debounce || Samples(pending, k) + 1 >= 2)
  }

  function Upserts(defs: Definitions, active: map<Key, Issue>, pending: map<Key, nat>, want: map<Key, string>, now: int): map<Key, Issue> {
    map k | k in want && Fires(defs, active, pending, k) ::
      if k in active then active[k].(lastCheckedAt := now, details := want[k]) else Issue(want[k], now, now)
  }

  /** The issues a report of `cat` no longer shows. */
  function Absent(defs: Definitions, active: map<Key, Issue>, cat: string, want: map<Key, string>): set<Key> {
    set k | k in active && Category(defs, k) == cat && k !in want
  }

  /** First bad samples of debounced issues, counted and held back. */
  function Held(defs: Definitions, active: map<Key, Issue>, pending: map<Key, nat>, want: map<Key, string>): map<Key, nat> {
    map k | k in want && k.id in defs && !Fires(defs, active, pending, k) :: Samples(pending, k) + 1
  }

  function Fired(defs: Definitions, active: map<Key, Issue>, pending: map<Key, nat>, want: map<Key, string>): set<Key> {
    set k | k in want && Fires(defs, active, pending, k)
  }

  function CountSamples(defs: Definitions, active: map<Key, Issue>, pending: map<Key, nat>, want: map<Key, string>): map<Key, nat> {
    (pending - Fired(defs, active, pending, want)) + Held(defs, active, pending, want)
  }

  function DropAbsent(defs: Definitions, pending: map<Key, nat>, cat: string, want: map<Key, string>): map<Key, nat> {
    map k | k in pending && !(Category(defs, k) == cat && k !in want) :: pending[k]
  }

  /** Records the result of a write on the internal issue that reports store failures. */
  function Note(defs: Definitions, active: map<Key, Issue>, ok: bool, err: string, now: int): map<Key, Issue> {
    if ok then active - {STORE_WRITE_FAILED} else RaiseIn(defs, active, STORE_WRITE_FAILED, err, now)
  }

  /** The store's side of a batch of upserts and deletes, all or nothing. */
  function Write(defs: Definitions, s: State, upserts: map<Key, Issue>, deletes: set<Key>, ok: bool, err: string, now: int): State {
    if upserts == map[] && deletes == {} then s
    else if ok then
      s.(rows := (s.rows + upserts) - deletes, active := Note(defs, s.active, ok, err, now),
         unsaved := s.unsaved - upserts.Keys - deletes, undeleted := s.undeleted - upserts.Keys - deletes)
    else
      s.(active := Note(defs, s.active, ok, err, now),
         unsaved := (s.unsaved + upserts.Keys) - deletes, undeleted := (s.undeleted + deletes) - upserts.Keys)
  }

  /** A report's effect on the registry, before anything is written. */
  function Reconciled(defs: Definitions, s: State, cat: string, want: map<Key, string>, now: int): State {
    s.(active := (s.active + Upserts(defs, s.active, s.pending, want, now)) - Absent(defs, s.active, cat, want),
       pending := DropAbsent(defs, CountSamples(defs, s.active, s.pending, want), cat, want))
  }

  function Report(defs: Definitions, s: State, cat: string, want: map<Key, string>, now: int, ok: bool, err: string): State {
    Write(defs, Reconciled(defs, s, cat, want, now), Upserts(defs, s.active, s.pending, want, now),
          Absent(defs, s.active, cat, want), ok, err, now)
  }

  function Raise(defs: Definitions, s: State, k: Key, details: string, now: int, ok: bool, err: string): State {
    var t := s.(active := RaiseIn(defs, s.active, k, details, now));
    if !NoPersist(defs, k) && k in t.active then Write(defs, t, map[k := t.active[k]], {}, ok, err, now) else t
  }

  function Clear(defs: Definitions, s: State, k: Key, now: int, ok: bool, err: string): State {
    if k !in s.active then s else
    var t := s.(active := s.active - {k});
    if !NoPersist(defs, k) then Write(defs, t, map[], {k}, ok, err, now) else t
  }

  function Loaded(defs: Definitions, rows: map<Key, Issue>): map<Key, Issue> {
    map k | k in rows && k.id in defs :: rows[k]
  }

  /** A crash forgets everything but the rows; loading skips ids the registry does not know. */
  function Restart(defs: Definitions, s: State): State {
    s.(active := Loaded(defs, s.rows), pending := map[], unsaved := {}, undeleted := {})
  }

  datatype Finding = Finding(key: Key, details: string)

  /** The keys a report names. */
  function KeysIn(findings: seq<Finding>): set<Key> {
    set f | f in findings :: f.key
  }

  /** The report as a map: a later finding of the same key overrides an earlier one. */
  function WantOf(findings: seq<Finding>): map<Key, string> {
    if findings == [] then map[]
    else
      var f := findings[|findings| - 1];
      WantOf(findings[..|findings| - 1])[f.key := f.details]
  }

  /** The i-th finding is the last one of its key. */
  ghost predicate IsLastOf(findings: seq<Finding>, i: nat) {
    i < |findings| && forall j :: i < j < |findings| ==> findings[j].key != findings[i].key
  }

  lemma {:induction false} WantIsTheFindings(findings: seq<Finding>)
    ensures WantOf(findings).Keys == KeysIn(findings)
  {
    if findings != [] {
      var before, f := findings[..|findings| - 1], findings[|findings| - 1];
      WantIsTheFindings(before);
      assert findings == before + [f];
      assert KeysIn(findings) == KeysIn(before) + {f.key} by {
        assert forall g :: g in findings <==> g in before || g == f;
      }
    }
  }

  lemma {:induction false} WantIsTheLast(findings: seq<Finding>, i: nat)
    requires IsLastOf(findings, i)
    ensures findings[i].key in WantOf(findings) && WantOf(findings)[findings[i].key] == findings[i].details
  {
    var n := |findings| - 1;
    if i < n {
      assert findings[n].key != findings[i].key;
      WantIsTheLast(findings[..n], i);
    }
  }

  datatype Event =
    | DoReport(cat: string, findings: seq<Finding>, now: int, ok: bool, err: string)
    | DoRaise(key: Key, details: string, now: int, ok: bool, err: string)
    | DoClear(key: Key, now: int, ok: bool, err: string)
    | DoRestart
  {
    function Want(): map<Key, string>
      requires DoReport?
    {
      WantOf(findings)
    }
  }

  function Step(defs: Definitions, s: State, e: Event): State {
    match e
    case DoReport(cat, _, now, ok, err) => Report(defs, s, cat, e.Want(), now, ok, err)
    case DoRaise(k, details, now, ok, err) => Raise(defs, s, k, details, now, ok, err)
    case DoClear(k, now, ok, err) => Clear(defs, s, k, now, ok, err)
    case DoRestart => Restart(defs, s)
  }

  function Run(defs: Definitions, events: seq<Event>): State {
    if events == [] then EMPTY
    else Step(defs, Run(defs, events[..|events| - 1]), events[|events| - 1])
  }

  // ----- Which issues are active -----

  /** A report names only issues of its own category; everything else is raised and cleared by the brain itself. */
  ghost predicate WellFormed(defs: Definitions, e: Event) {
    match e
    case DoReport(cat, findings, _, _, _) => cat != "" && forall k :: k in KeysIn(findings) ==> Category(defs, k) == cat
    case DoRaise(k, _, _, _, _) => Category(defs, k) == ""
    case DoClear(k, _, _, _) => Category(defs, k) == ""
    case DoRestart => true
  }

  /** The key sets reported for one category, oldest first. */
  ghost function Reported(events: seq<Event>, cat: string): seq<set<Key>> {
    if events == [] then []
    else
      var e := events[|events| - 1];
      Reported(events[..|events| - 1], cat) + if e.DoReport? && e.cat == cat then [KeysIn(e.findings)] else []
  }

  /** In the last `n` reports of its category. */
  ghost predicate InLast(reports: seq<set<Key>>, k: Key, n: nat) {
    |reports| >= n && forall i :: |reports| - n <= i < |reports| ==> k in reports[i]
  }

  ghost predicate SettledAt(defs: Definitions, s: State, reports: seq<set<Key>>, k: Key)
    requires k.id in defs
  {
    var needed := if defs[k.id].debounce then 2 else 1;
    && (k in s.active <==> InLast(reports, k, needed))
    && Samples(s.pending, k) == (if defs[k.id].debounce && InLast(reports, k, 1) && !InLast(reports, k, 2) then 1 else 0)
  }

  lemma WriteTouchesOnlyTheMarker(defs: Definitions, s: State, upserts: map<Key, Issue>, deletes: set<Key>, ok: bool, err: string, now: int, k: Key)
    requires k != STORE_WRITE_FAILED
    ensures var t := Write(defs, s, upserts, deletes, ok, err, now);
            && (k in t.active <==> k in s.active) && (k in t.active ==> t.active[k] == s.active[k])
            && t.pending == s.pending
            && (k !in upserts && k !in deletes ==>
                  (k in t.rows <==> k in s.rows) && (k in t.rows ==> t.rows[k] == s.rows[k]))
  {
  }

  lemma InLastExtends(reports: seq<set<Key>>, r: set<Key>, k: Key)
    ensures InLast(reports + [r], k, 1) <==> k in r
    ensures InLast(reports + [r], k, 2) <==> k in r && InLast(reports, k, 1)
  {
    var rs := reports + [r];
    assert rs[|rs| - 1] == r;
    if |reports| >= 1 { assert rs[|rs| - 2] == reports[|reports| - 1]; }
  }

  /** One report, one key of its category: the debounce rule on the last two reports. */
  lemma ReportSettles(defs: Definitions, s: State, reports: seq<set<Key>>, e: Event, k: Key)
    requires WellDefined(defs) && e.DoReport? && WellFormed(defs, e)
    requires k.id in defs && Category(defs, k) == e.cat && SettledAt(defs, s, reports, k)
    ensures SettledAt(defs, Step(defs, s, e), reports + [KeysIn(e.findings)], k)
  {
    WantIsTheFindings(e.findings);
    WriteTouchesOnlyTheMarker(defs, Reconciled(defs, s, e.cat, e.Want(), e.now),
                              Upserts(defs, s.active, s.pending, e.Want(), e.now),
                              Absent(defs, s.active, e.cat, e.Want()), e.ok, e.err, e.now, k);
    InLastExtends(reports, KeysIn(e.findings), k);
  }

  lemma OtherStepKeepsSettled(defs: Definitions, s: State, reports: seq<set<Key>>, e: Event, k: Key)
    requires WellDefined(defs) && WellFormed(defs, e) && !e.DoRestart?
    requires k.id in defs && Category(defs, k) != "" && SettledAt(defs, s, reports, k)
    requires e.DoReport? ==> e.cat != Category(defs, k)
    ensures SettledAt(defs, Step(defs, s, e), reports, k)
  {
    if e.DoReport? { OtherCategoriesUntouched(defs, s, e, k); }
  }

  /**
   Over every sequence of well-formed reports, interleaved with the brain's own raises and
   clears and with any store failures: an issue is active exactly when it was in the last
   report of its category, and a debounced one exactly when it was in the last two.
   */
  lemma {:induction false} ActiveIffReported(defs: Definitions, events: seq<Event>, k: Key)
    requires WellDefined(defs) && k.id in defs && Category(defs, k) != ""
    requires forall i :: 0 <= i < |events| ==> WellFormed(defs, events[i]) && !events[i].DoRestart?
    ensures SettledAt(defs, Run(defs, events), Reported(events, Category(defs, k)), k)
  {
    if events != [] {
      var rest, e := events[..|events| - 1], events[|events| - 1];
      ActiveIffReported(defs, rest, k);
      var s, reports := Run(defs, rest), Reported(rest, Category(defs, k));
      if e.DoReport? && e.cat == Category(defs, k) {
        ReportSettles(defs, s, reports, e, k);
      } else {
        OtherStepKeepsSettled(defs, s, reports, e, k);
        assert Reported(events, Category(defs, k)) == reports;
      }
    }
  }

  /** A report leaves every issue of another category, and every brain-owned one, as it was. */
  lemma OtherCategoriesUntouched(defs: Definitions, s: State, e: Event, k: Key)
    requires e.DoReport? && WellFormed(defs, e) && Category(defs, k) != e.cat && k != STORE_WRITE_FAILED
    ensures var t := Step(defs, s, e);
            && (k in t.active <==> k in s.active) && (k in t.active ==> t.active[k] == s.active[k])
            && Samples(t.pending, k) == Samples(s.pending, k)
            && (k in t.rows <==> k in s.rows) && (k in t.rows ==> t.rows[k] == s.rows[k])
  {
    WantIsTheFindings(e.findings);
    WriteTouchesOnlyTheMarker(defs, Reconciled(defs, s, e.cat, e.Want(), e.now),
                              Upserts(defs, s.active, s.pending, e.Want(), e.now),
                              Absent(defs, s.active, e.cat, e.Want()), e.ok, e.err, e.now, k);
  }

  // ----- The store -----

  /** What of the active set belongs in the store. */
  function Kept(defs: Definitions, active: map<Key, Issue>): map<Key, Issue> {
    map k | k in active && !NoPersist(defs, k) :: active[k]
  }

  ghost predicate Known(defs: Definitions, s: State) {
    && (forall k :: k in s.active ==> k.id in defs)
    && (forall k :: k in s.rows ==> k.id in defs && !NoPersist(defs, k))
  }

  /** Where store and registry differ, and what a failed write means for its key. */
  ghost predicate LagsOnlyWhereFailed(defs: Definitions, s: State) {
    forall k :: LagOk(defs, s, k)
  }

  ghost predicate LagOk(defs: Definitions, s: State, k: Key) {
    && (k in s.rows && k !in s.active ==> k in s.undeleted)
    && (k in s.active && !NoPersist(defs, k) && !(k in s.rows && s.rows[k] == s.active[k]) ==> k in s.unsaved)
    && (k in s.undeleted ==> k !in s.active && !NoPersist(defs, k))
    && (k in s.unsaved ==> k in s.active && !NoPersist(defs, k))
  }

  /** Writes that bring the store from one registry to the next: the upserts are what changed, the deletes what went. */
  ghost predicate Brings(defs: Definitions, s: State, t: State, upserts: map<Key, Issue>, deletes: set<Key>) {
    && t.rows == s.rows && t.unsaved == s.unsaved && t.undeleted == s.undeleted
    && upserts.Keys !! deletes
    && (forall k :: k in upserts ==> !NoPersist(defs, k) && k.id in defs && k in t.active && t.active[k] == upserts[k])
    && (forall k :: k in deletes ==> k !in t.active && !NoPersist(defs, k))
    && (forall k :: k !in upserts && k !in deletes && !NoPersist(defs, k) ==>
          (k in t.active <==> k in s.active) && (k in t.active ==> t.active[k] == s.active[k]))
  }

  lemma WriteKeepsLagAt(defs: Definitions, s: State, t: State, upserts: map<Key, Issue>, deletes: set<Key>, ok: bool, err: string, now: int, k: Key)
    requires WellDefined(defs) && LagOk(defs, s, k) && Brings(defs, s, t, upserts, deletes)
    requires k in s.rows ==> !NoPersist(defs, k)
    ensures LagOk(defs, Write(defs, t, upserts, deletes, ok, err, now), k)
  {
    if !NoPersist(defs, k) { WriteTouchesOnlyTheMarker(defs, t, upserts, deletes, ok, err, now, k); }
  }

  lemma WriteKeepsLag(defs: Definitions, s: State, t: State, upserts: map<Key, Issue>, deletes: set<Key>, ok: bool, err: string, now: int)
    requires WellDefined(defs) && Known(defs, s) && Known(defs, t) && LagsOnlyWhereFailed(defs, s)
    requires Brings(defs, s, t, upserts, deletes)
    ensures var u := Write(defs, t, upserts, deletes, ok, err, now);
            && Known(defs, u) && LagsOnlyWhereFailed(defs, u)
            && (ok && s.unsaved == {} && s.undeleted == {} ==> u.unsaved == {} && u.undeleted == {})
  {
    forall k ensures LagOk(defs, Write(defs, t, upserts, deletes, ok, err, now), k) {
      WriteKeepsLagAt(defs, s, t, upserts, deletes, ok, err, now, k);
    }
  }

  lemma ReportBrings(defs: Definitions, s: State, e: Event)
    requires WellDefined(defs) && Known(defs, s) && e.DoReport? && WellFormed(defs, e)
    ensures var t := Reconciled(defs, s, e.cat, e.Want(), e.now);
            && Known(defs, t)
            && Brings(defs, s, t, Upserts(defs, s.active, s.pending, e.Want(), e.now), Absent(defs, s.active, e.cat, e.Want()))
  {
    WantIsTheFindings(e.findings);
  }

  lemma UnwrittenKeepsLag(defs: Definitions, s: State, t: State)
    requires Known(defs, s) && LagsOnlyWhereFailed(defs, s) && Brings(defs, s, t, map[], {})
    ensures LagsOnlyWhereFailed(defs, t)
  {
    forall k ensures LagOk(defs, t, k) { assert LagOk(defs, s, k); }
  }

  ghost predicate WriteOk(e: Event) { e.DoRestart? || e.ok }

  lemma StepKeepsLag(defs: Definitions, s: State, e: Event)
    requires WellDefined(defs) && Known(defs, s) && LagsOnlyWhereFailed(defs, s) && WellFormed(defs, e)
    ensures var t := Step(defs, s, e);
            && Known(defs, t) && LagsOnlyWhereFailed(defs, t)
            && (WriteOk(e) && s.unsaved == {} && s.undeleted == {} ==> t.unsaved == {} && t.undeleted == {})
  {
    match e
    case DoReport(cat, _, now, ok, err) =>
      var want := e.Want();
      ReportBrings(defs, s, e);
      WriteKeepsLag(defs, s, Reconciled(defs, s, cat, want, now), Upserts(defs, s.active, s.pending, want, now),
                    Absent(defs, s.active, cat, want), ok, err, now);
    case DoRaise(k, details, now, ok, err) =>
      var t := s.(active := RaiseIn(defs, s.active, k, details, now));
      if !NoPersist(defs, k) && k in t.active {
        WriteKeepsLag(defs, s, t, map[k := t.active[k]], {}, ok, err, now);
      } else {
        UnwrittenKeepsLag(defs, s, t);
      }
    case DoClear(k, now, ok, err) =>
      if k in s.active && !NoPersist(defs, k) {
        WriteKeepsLag(defs, s, s.(active := s.active - {k}), map[], {k}, ok, err, now);
      } else {
        UnwrittenKeepsLag(defs, s, Step(defs, s, e));
      }
    case DoRestart =>
  }

  lemma {:induction false} RunKeepsLag(defs: Definitions, events: seq<Event>)
    requires WellDefined(defs)
    requires forall i :: 0 <= i < |events| ==> WellFormed(defs, events[i])
    ensures Known(defs, Run(defs, events)) && LagsOnlyWhereFailed(defs, Run(defs, events))
    ensures (forall i :: 0 <= i < |events| ==> WriteOk(events[i])) ==>
              Run(defs, events).unsaved == {} && Run(defs, events).undeleted == {}
  {
    if events != [] {
      RunKeepsLag(defs, events[..|events| - 1]);
      StepKeepsLag(defs, Run(defs, events[..|events| - 1]), events[|events| - 1]);
    }
  }

  /** The last write tried for a key since the last restart. */
  datatype Try = Untried | Upserted(ok: bool) | Deleted(ok: bool)

  function UpsertsOf(defs: Definitions, s: State, e: Event): map<Key, Issue> {
    match e
    case DoReport(cat, _, now, _, _) => Upserts(defs, s.active, s.pending, e.Want(), now)
    case DoRaise(k, details, now, _, _) =>
      var active := RaiseIn(defs, s.active, k, details, now);
      if !NoPersist(defs, k) && k in active then map[k := active[k]] else map[]
    case _ => map[]
  }

  function DeletesOf(defs: Definitions, s: State, e: Event): set<Key> {
    match e
    case DoReport(cat, _, _, _, _) => Absent(defs, s.active, cat, e.Want())
    case DoClear(k, _, _, _) => if k in s.active && !NoPersist(defs, k) then {k} else {}
    case _ => {}
  }

  ghost function LastTry(defs: Definitions, events: seq<Event>, k: Key): Try {
    if events == [] then Untried
    else
      var before, e := events[..|events| - 1], events[|events| - 1];
      if e.DoRestart? then Untried
      else if k in UpsertsOf(defs, Run(defs, before), e) then Upserted(e.ok)
      else if k in DeletesOf(defs, Run(defs, before), e) then Deleted(e.ok)
      else LastTry(defs, before, k)
  }

  lemma StepTries(defs: Definitions, s: State, e: Event, k: Key)
    requires !e.DoRestart?
    ensures var t, up, del := Step(defs, s, e), k in UpsertsOf(defs, s, e), k in DeletesOf(defs, s, e);
            && !(up && del)
            && (k in t.unsaved <==> if up then !e.ok else if del then false else k in s.unsaved)
            && (k in t.undeleted <==> if up then false else if del then !e.ok else k in s.undeleted)
  {
  }

  lemma {:induction false} FailuresAreLastTries(defs: Definitions, events: seq<Event>, k: Key)
    ensures k in Run(defs, events).unsaved <==> LastTry(defs, events, k) == Upserted(false)
    ensures k in Run(defs, events).undeleted <==> LastTry(defs, events, k) == Deleted(false)
  {
    if events != [] {
      var before, e := events[..|events| - 1], events[|events| - 1];
      FailuresAreLastTries(defs, before, k);
      if !e.DoRestart? { StepTries(defs, Run(defs, before), e, k); }
    }
  }

  /**
   Under any write failures and restarts, the store lags exactly where a write failed: a row
   is stale if and only if it is there and the last write tried for its key was a failed
   delete, an issue's row is missing if and only if it is not there and the last write tried
   was a failed upsert, and only such a failure leaves a row outdated.
   */
  lemma StoreLagsExactlyWhereFailed(defs: Definitions, events: seq<Event>, k: Key)
    requires WellDefined(defs)
    requires forall i :: 0 <= i < |events| ==> WellFormed(defs, events[i])
    ensures var s, last := Run(defs, events), LastTry(defs, events, k);
            && (k in s.rows && k !in s.active <==> k in s.rows && last == Deleted(false))
            && (k in s.active && !NoPersist(defs, k) && k !in s.rows <==> k !in s.rows && last == Upserted(false))
            && (k in s.active && k in s.rows && s.rows[k] != s.active[k] ==> last == Upserted(false))
  {
    RunKeepsLag(defs, events);
    FailuresAreLastTries(defs, events, k);
    assert LagOk(defs, Run(defs, events), k);
  }

  /** While writes succeed, the rows are exactly the active issues worth keeping, and a crash gives them back. */
  lemma StoreMirrorsActive(defs: Definitions, events: seq<Event>)
    requires WellDefined(defs)
    requires forall i :: 0 <= i < |events| ==> WellFormed(defs, events[i]) && WriteOk(events[i])
    ensures var s := Run(defs, events);
            && s.rows == Kept(defs, s.active)
            && Restart(defs, s).active == Kept(defs, s.active)
            && Restart(defs, s).rows == s.rows
  {
    RunKeepsLag(defs, events);
    NoLagIsMirror(defs, Run(defs, events));
  }

  lemma NoLagIsMirror(defs: Definitions, s: State)
    requires Known(defs, s) && LagsOnlyWhereFailed(defs, s) && s.unsaved == {} && s.undeleted == {}
    ensures s.rows == Kept(defs, s.active)
    ensures Loaded(defs, s.rows) == s.rows
  {
    forall k | k in s.rows ensures k in Kept(defs, s.active) && s.rows[k] == s.active[k] { assert LagOk(defs, s, k); }
    forall k | k in Kept(defs, s.active) ensures k in s.rows { assert LagOk(defs, s, k); }
  }

  /** Whatever was lost before, a restart and one report that gets written make rows and issues of its category equal, and part of it. */
  lemma RestartAndReportAgree(defs: Definitions, s: State, e: Event, k: Key)
    requires WellDefined(defs) && e.DoReport? && WellFormed(defs, e) && e.ok && Category(defs, k) == e.cat
    ensures var t := Step(defs, Restart(defs, s), e);
            && (k in t.rows <==> k in t.active)
            && (k in t.active ==> t.rows[k] == t.active[k] && k in KeysIn(e.findings))
  {
    WantIsTheFindings(e.findings);
    var r := Restart(defs, s);
    WriteTouchesOnlyTheMarker(defs, Reconciled(defs, r, e.cat, e.Want(), e.now),
                              Upserts(defs, r.active, r.pending, e.Want(), e.now),
                              Absent(defs, r.active, e.cat, e.Want()), true, e.err, e.now, k);
  }

  /** A failed delete is not made good by a later success: the store-failure issue is clear and the row still stale. */
  lemma StaleRowBehindAllClear(defs: Definitions, x: Key, y: Key)
    requires WellDefined(defs) && x != y && x.id in defs && y.id in defs
    requires !NoPersist(defs, x) && !NoPersist(defs, y)
    ensures var s1 := Raise(defs, EMPTY, x, "", 0, true, "");
            var s2 := Clear(defs, s1, x, 1, false, "disk full");
            var s3 := Raise(defs, s2, y, "", 2, true, "");
            && STORE_WRITE_FAILED in s2.active && STORE_WRITE_FAILED !in s3.active
            && x in s3.rows && x !in s3.active && x in s3.undeleted
  {
  }

  // ----- The manager itself -----

  lemma UpsertsOfOneMore(defs: Definitions, active: map<Key, Issue>, pending: map<Key, nat>, seen: map<Key, string>, k: Key, d: string, now: int)
    requires k !in seen
    ensures var u, v := Upserts(defs, active, pending, seen, now), Upserts(defs, active, pending, seen[k := d], now);
            if Fires(defs, active, pending, k)
            then v == u[k := if k in active then active[k].(lastCheckedAt := now, details := d) else Issue(d, now, now)]
                 && active + v == RaiseIn(defs, active + u, k, d, now)
            else v == u
  {
  }

  lemma SamplesOfOneMore(defs: Definitions, active: map<Key, Issue>, pending: map<Key, nat>, seen: map<Key, string>, k: Key, d: string)
    requires k !in seen
    ensures var u, v := CountSamples(defs, active, pending, seen), CountSamples(defs, active, pending, seen[k := d]);
            if k.id !in defs then v == u
            else if Fires(defs, active, pending, k) then v == u - {k}
            else v == u[k := Samples(pending, k) + 1]
  {
    OneMoreSeen(defs, active, pending, seen, k, d);
    MapAlgebra(pending - Fired(defs, active, pending, seen), Held(defs, active, pending, seen), k, Samples(pending, k) + 1);
    assert pending - (Fired(defs, active, pending, seen) + {k}) == pending - Fired(defs, active, pending, seen) - {k};
  }

  lemma OneMoreSeen(defs: Definitions, active: map<Key, Issue>, pending: map<Key, nat>, seen: map<Key, string>, k: Key, d: string)
    requires k !in seen
    ensures k !in Held(defs, active, pending, seen)
    ensures Fired(defs, active, pending, seen[k := d]) ==
            Fired(defs, active, pending, seen) + if Fires(defs, active, pending, k) then {k} else {}
    ensures Held(defs, active, pending, seen[k := d]) ==
            if k.id in defs && !Fires(defs, active, pending, k)
            then Held(defs, active, pending, seen)[k := Samples(pending, k) + 1] else Held(defs, active, pending, seen)
  {
  }

  lemma MapAlgebra(a: map<Key, nat>, b: map<Key, nat>, k: Key, v: nat)
    requires k !in b
    ensures (a - {k}) + b == (a + b) - {k}
    ensures a + b[k := v] == (a + b)[k := v]
  {
  }

  /** A key not looked at yet stands as it did before the loop. */
  lemma NotYetSeen(defs: Definitions, active: map<Key, Issue>, pending: map<Key, nat>, seen: map<Key, string>, k: Key, now: int)
    requires k !in seen
    ensures var a, p := active + Upserts(defs, active, pending, seen, now), CountSamples(defs, active, pending, seen);
            && (k in a <==> k in active) && Samples(p, k) == Samples(pending, k)
            && (Fires(defs, a, p, k) <==> Fires(defs, active, pending, k))
  {
  }

  /** Where the raise loop stands once it has looked at the findings in `seen`. */
  ghost predicate Swept(
    defs: Definitions, active0: map<Key, Issue>, pending0: map<Key, nat>, seen: map<Key, string>, now: int,
    active: map<Key, Issue>, pending: map<Key, nat>, raised: set<Key>, upserts: map<Key, Issue>)
  {
    && upserts == Upserts(defs, active0, pending0, seen, now)
    && active == active0 + upserts
    && pending == CountSamples(defs, active0, pending0, seen)
    && raised == upserts.Keys - active0.Keys
  }

  lemma NothingSeen(defs: Definitions, active: map<Key, Issue>, pending: map<Key, nat>, now: int)
    ensures Swept(defs, active, pending, map[], now, active, pending, {}, map[])
  {
  }

  /** The loop body keeps it, whichever way the finding goes. */
  lemma OneMoreSwept(
    defs: Definitions, active0: map<Key, Issue>, pending0: map<Key, nat>, seen: map<Key, string>, now: int,
    active: map<Key, Issue>, pending: map<Key, nat>, raised: set<Key>, upserts: map<Key, Issue>, k: Key, d: string)
    requires k !in seen && Swept(defs, active0, pending0, seen, now, active, pending, raised, upserts)
    ensures var fires := k.id in defs && !(k !in active && defs[k.id].debounce && Samples(pending, k) + 1 < 2);
            var active' := if fires then RaiseIn(defs, active, k, d, now) else active;
            Swept(defs, active0, pending0, seen[k := d], now, active',
                  if k.id !in defs then pending
                  else if fires then pending - {k} else pending[k := Samples(pending, k) + 1],
                  if fires && k !in active then raised + {k} else raised,
                  if fires then upserts[k := active'[k]] else upserts)
  {
    UpsertsOfOneMore(defs, active0, pending0, seen, k, d, now);
    SamplesOfOneMore(defs, active0, pending0, seen, k, d);
    NotYetSeen(defs, active0, pending0, seen, k, now);
  }

  /** Raised and cleared keys are exactly the difference a report makes, the internal issue aside. */
  lemma TransitionsAreTheDifference(defs: Definitions, s: State, cat: string, want: map<Key, string>, now: int, ok: bool, err: string)
    ensures var t := Report(defs, s, cat, want, now, ok, err);
            var raised := Upserts(defs, s.active, s.pending, want, now).Keys - s.active.Keys;
            var cleared := Absent(defs, s.active, cat, want);
            && (forall k :: k != STORE_WRITE_FAILED ==> (k in raised <==> k in t.active && k !in s.active))
            && (forall k :: k != STORE_WRITE_FAILED ==> (k in cleared <==> k in s.active && k !in t.active))
  {
    var upserts, absent := Upserts(defs, s.active, s.pending, want, now), Absent(defs, s.active, cat, want);
    var r, t := Reconciled(defs, s, cat, want, now), Report(defs, s, cat, want, now, ok, err);
    forall k | k != STORE_WRITE_FAILED ensures k in t.active <==> k in r.active {
      WriteTouchesOnlyTheMarker(defs, r, upserts, absent, ok, err, now, k);
    }
  }

  /** A raise shows its details and its time, and keeps the time of the first. */
  lemma RaiseShows(defs: Definitions, s: State, k: Key, details: string, now: int, ok: bool, err: string)
    requires k.id in defs && k != STORE_WRITE_FAILED
    ensures var t := Raise(defs, s, k, details, now, ok, err);
            && k in t.active
            && t.active[k] == Issue(details, if k in s.active then s.active[k].raisedAt else now, now)
  {
  }

  /** Was the last batch the store was given, since the last restart, refused? */
  ghost predicate LastBatchFailed(defs: Definitions, events: seq<Event>) {
    if events == [] then false
    else
      var before, e := events[..|events| - 1], events[|events| - 1];
      if e.DoRestart? then false
      else if UpsertsOf(defs, Run(defs, before), e) != map[] || DeletesOf(defs, Run(defs, before), e) != {} then !e.ok
      else LastBatchFailed(defs, before)
  }

  lemma StepNotesTheBatch(defs: Definitions, s: State, e: Event)
    requires WellDefined(defs) && WellFormed(defs, e) && !e.DoRestart?
    requires (e.DoRaise? || e.DoClear?) ==> e.key != STORE_WRITE_FAILED
    ensures STORE_WRITE_FAILED in Step(defs, s, e).active <==>
            if UpsertsOf(defs, s, e) != map[] || DeletesOf(defs, s, e) != {} then !e.ok else STORE_WRITE_FAILED in s.active
  {
    if e.DoReport? { WantIsTheFindings(e.findings); }
  }

  /** The internal issue is active exactly while the last batch given to the store was refused. */
  lemma {:induction false} StoreFailureIsTheLastBatch(defs: Definitions, events: seq<Event>)
    requires WellDefined(defs)
    requires forall i :: 0 <= i < |events| ==>
               WellFormed(defs, events[i]) && ((events[i].DoRaise? || events[i].DoClear?) ==> events[i].key != STORE_WRITE_FAILED)
    ensures STORE_WRITE_FAILED in Run(defs, events).active <==> LastBatchFailed(defs, events)
  {
    if events != [] {
      var before, e := events[..|events| - 1], events[|events| - 1];
      StoreFailureIsTheLastBatch(defs, before);
      if e.DoRestart? {
        RunKeepsLag(defs, before);
      } else {
        StepNotesTheBatch(defs, Run(defs, before), e);
      }
    }
  }

  /** Does the event report the key as raised, or as cleared, to its caller? */
  predicate SaysRaised(defs: Definitions, s: State, e: Event, k: Key) {
    match e
    case DoReport(_, _, now, _, _) => k in Upserts(defs, s.active, s.pending, e.Want(), now) && k !in s.active
    case DoRaise(l, _, _, _, _) => k == l && k.id in defs && k !in s.active
    case _ => false
  }

  predicate SaysCleared(defs: Definitions, s: State, e: Event, k: Key) {
    match e
    case DoReport(cat, _, _, _, _) => k in Absent(defs, s.active, cat, e.Want())
    case DoClear(l, _, _, _) => k == l && k in s.active
    case _ => false
  }

  lemma StepSaysTheDifference(defs: Definitions, s: State, e: Event, k: Key)
    requires k != STORE_WRITE_FAILED && !e.DoRestart?
    ensures var t := Step(defs, s, e);
            && (SaysRaised(defs, s, e, k) <==> k in t.active && k !in s.active)
            && (SaysCleared(defs, s, e, k) <==> k in s.active && k !in t.active)
  {
    if e.DoReport? { TransitionsAreTheDifference(defs, s, e.cat, e.Want(), e.now, e.ok, e.err); }
  }

  /** What a run said about a key, in order: true for raised, false for cleared. */
  ghost function Said(defs: Definitions, events: seq<Event>, k: Key): seq<bool> {
    if events == [] then []
    else
      var before, e := events[..|events| - 1], events[|events| - 1];
      var s := Run(defs, before);
      Said(defs, before, k)
      + (if SaysRaised(defs, s, e, k) then [true] else []) + (if SaysCleared(defs, s, e, k) then [false] else [])
  }

  /** Raised and cleared in turn, raised first. */
  ghost predicate Alternates(said: seq<bool>) {
    forall i :: 0 <= i < |said| ==> (said[i] <==> i % 2 == 0)
  }

  lemma AlternatesOn(said: seq<bool>, raised: bool, cleared: bool)
    requires Alternates(said)
    requires (raised ==> |said| % 2 == 0) && (cleared ==> |said| % 2 == 1)
    ensures var more := said + (if raised then [true] else []) + (if cleared then [false] else []);
            && Alternates(more)
            && (|more| % 2 == 1 <==> raised || (|said| % 2 == 1 && !cleared))
  {
  }

  /** Over every run raised and cleared alternate for every key, raised first, and the last one said is how it stands. */
  lemma {:induction false} RaisedAndClearedAlternate(defs: Definitions, events: seq<Event>, k: Key)
    requires k != STORE_WRITE_FAILED && forall i :: 0 <= i < |events| ==> !events[i].DoRestart?
    ensures Alternates(Said(defs, events, k))
    ensures k in Run(defs, events).active <==> |Said(defs, events, k)| % 2 == 1
  {
    if events != [] {
      var before, e := events[..|events| - 1], events[|events| - 1];
      var s := Run(defs, before);
      RaisedAndClearedAlternate(defs, before, k);
      StepSaysTheDifference(defs, s, e, k);
      AlternatesOn(Said(defs, before, k), SaysRaised(defs, s, e, k), SaysCleared(defs, s, e, k));
    }
  }

  /** Writing changes no issue but the internal one. */
  lemma ReportIsReconciled(defs: Definitions, s: State, cat: string, want: map<Key, string>, now: int, ok: bool, err: string, k: Key)
    requires k != STORE_WRITE_FAILED
    ensures var t, r := Report(defs, s, cat, want, now, ok, err), Reconciled(defs, s, cat, want, now);
            (k in t.active <==> k in r.active) && (k in t.active ==> t.active[k] == r.active[k])
  {
    WriteTouchesOnlyTheMarker(defs, Reconciled(defs, s, cat, want, now), Upserts(defs, s.active, s.pending, want, now),
                              Absent(defs, s.active, cat, want), ok, err, now, k);
  }

  /** An issue is active after a report as its findings say: named, and if debounced, active before or sampled once. */
  ghost predicate FollowsFindings(defs: Definitions, s: State, t: State, cat: string, findings: seq<Finding>) {
    forall k: Key :: k.id in defs && Category(defs, k) == cat && k != STORE_WRITE_FAILED ==>
      (k in t.active <==> k in KeysIn(findings)
                          && (defs[k.id].debounce ==> k in s.active || Samples(s.pending, k) >= 1))
  }

  /** An issue that is named shows the details of the last finding that names it, when it was raised, and when it was checked. */
  ghost predicate ShowsLastFinding(defs: Definitions, s: State, t: State, findings: seq<Finding>, now: int) {
    forall i: nat :: IsLastOf(findings, i) && ShownBy(defs, t, findings[i]) ==>
      var k := findings[i].key;
      t.active[k] == Issue(findings[i].details, if k in s.active then s.active[k].raisedAt else now, now)
  }

  ghost predicate ShownBy(defs: Definitions, t: State, f: Finding) {
    f.key.id in defs && f.key in t.active && f.key != STORE_WRITE_FAILED
  }

  /** One report, told by its findings. */
  lemma ReportFollowsFindings(defs: Definitions, s: State, cat: string, findings: seq<Finding>, now: int, ok: bool, err: string)
    ensures FollowsFindings(defs, s, Report(defs, s, cat, WantOf(findings), now, ok, err), cat, findings)
  {
    WantIsTheFindings(findings);
    var t := Report(defs, s, cat, WantOf(findings), now, ok, err);
    forall k: Key | k.id in defs && Category(defs, k) == cat && k != STORE_WRITE_FAILED
      ensures k in t.active <==> k in KeysIn(findings)
                                 && (defs[k.id].debounce ==> k in s.active || Samples(s.pending, k) >= 1)
    {
      ReportIsReconciled(defs, s, cat, WantOf(findings), now, ok, err, k);
    }
  }

  /** A restart forgets bad samples: a debounced issue that was not stored needs two more reports. */
  lemma RestartForgetsSamples(defs: Definitions, s: State, cat: string, findings: seq<Finding>, now: int, ok: bool, err: string, k: Key)
    requires k.id in defs && defs[k.id].debounce && Category(defs, k) == cat && k != STORE_WRITE_FAILED && k !in s.rows
    ensures k !in Report(defs, Restart(defs, s), cat, WantOf(findings), now, ok, err).active
  {
    ReportFollowsFindings(defs, Restart(defs, s), cat, findings, now, ok, err);
  }

  lemma ReconciledShows(defs: Definitions, s: State, cat: string, want: map<Key, string>, now: int, k: Key)
    requires k.id in defs && k in want && k in Reconciled(defs, s, cat, want, now).active
    requires k in s.active || Fires(defs, s.active, s.pending, k)
    ensures Reconciled(defs, s, cat, want, now).active[k] ==
            Issue(want[k], if k in s.active then s.active[k].raisedAt else now, now)
  {
  }

  lemma ReportShowsLastFinding(defs: Definitions, s: State, cat: string, findings: seq<Finding>, now: int, ok: bool, err: string)
    ensures ShowsLastFinding(defs, s, Report(defs, s, cat, WantOf(findings), now, ok, err), findings, now)
  {
    var want, t := WantOf(findings), Report(defs, s, cat, WantOf(findings), now, ok, err);
    forall i: nat | IsLastOf(findings, i) && ShownBy(defs, t, findings[i])
      ensures var k := findings[i].key;
              t.active[k] == Issue(findings[i].details, if k in s.active then s.active[k].raisedAt else now, now)
    {
      var k := findings[i].key;
      WantIsTheLast(findings, i);
      ReportIsReconciled(defs, s, cat, want, now, ok, err, k);
      ReconciledShows(defs, s, cat, want, now, k);
    }
  }

  class Manager {
    const defs: Definitions
    var active: map<Key, Issue>
    var pending: map<Key, nat>
    var rows: map<Key, Issue>
    ghost var unsaved: set<Key>
    ghost var undeleted: set<Key>

    ghost function View(): State
      reads this
    {
      State(active, pending, rows, unsaved, undeleted)
    }

    constructor (defs: Definitions)
      ensures this.defs == defs && View() == EMPTY
    {
      this.defs := defs;
      active, pending, rows := map[], map[], map[];
      unsaved, undeleted := {}, {};
    }

    method RaiseLocked(k: Key, details: string, now: int) returns (transitioned: bool)
      modifies this`active
      ensures active == RaiseIn(defs, old(active), k, details, now)
      ensures transitioned <==> k !in old(active) && k in active
    {
      if k.id !in defs { return false; }
      if k in active {
        active := active[k := active[k].(lastCheckedAt := now, details := details)];
        return false;
      }
      active := active[k := Issue(details, now, now)];
      return true;
    }

    method ClearLocked(k: Key) returns (transitioned: bool)
      modifies this`active
      ensures active == old(active) - {k}
      ensures transitioned <==> k in old(active)
    {
      transitioned := k in active;
      active := active - {k};
    }

    /** One transaction on the store, and what its result does to the internal issue. */
    method Save(upserts: map<Key, Issue>, deletes: set<Key>, ok: bool, err: string, now: int)
      modifies this`active, this`rows, this`unsaved, this`undeleted
      ensures View() == Write(defs, old(View()), upserts, deletes, ok, err, now)
    {
      if upserts == map[] && deletes == {} { return; }
      if ok { rows := (rows + upserts) - deletes; }
      NoteResult(ok, err, now);
      NoteTries(upserts.Keys, deletes, ok);
    }

    method NoteResult(ok: bool, err: string, now: int)
      modifies this`active
      ensures active == Note(defs, old(active), ok, err, now)
    {
      if ok {
        var t := ClearLocked(STORE_WRITE_FAILED);
      } else {
        var t := RaiseLocked(STORE_WRITE_FAILED, err, now);
      }
    }

    ghost method NoteTries(upserts: set<Key>, deletes: set<Key>, ok: bool)
      modifies this`unsaved, this`undeleted
      ensures unsaved == (if ok then old(unsaved) - upserts - deletes else (old(unsaved) + upserts) - deletes)
      ensures undeleted == (if ok then old(undeleted) - upserts - deletes else (old(undeleted) + deletes) - upserts)
    {
      unsaved, undeleted :=
        if ok then unsaved - upserts - deletes else (unsaved + upserts) - deletes,
        if ok then undeleted - upserts - deletes else (undeleted + deletes) - upserts;
    }

    method RaiseIssue(k: Key, details: string, now: int, ok: bool, err: string) returns (transitioned: bool)
      modifies this
      ensures View() == Raise(defs, old(View()), k, details, now, ok, err)
      ensures transitioned <==> k.id in defs && k !in old(active)
    {
      transitioned := RaiseLocked(k, details, now);
      if !NoPersist(defs, k) && k in active {
        Save(map[k := active[k]], {}, ok, err, now);
      }
    }

    method ClearIssue(k: Key, now: int, ok: bool, err: string) returns (transitioned: bool)
      modifies this
      ensures View() == Clear(defs, old(View()), k, now, ok, err)
      ensures transitioned <==> k in old(active)
    {
      transitioned := ClearLocked(k);
      assert k !in old(active) ==> active == old(active);
      if transitioned && !NoPersist(defs, k) {
        Save(map[], {k}, ok, err, now);
      }
    }

    /** A new process: everything in memory is gone, and the rows of known ids are loaded. */
    method Reboot()
      modifies this`active, this`pending, this`unsaved, this`undeleted
      ensures View() == Restart(defs, old(View()))
    {
      active, pending := map[], map[];
      unsaved, undeleted := {}, {};
      var todo := rows.Keys;
      while todo != {}
        invariant todo <= rows.Keys && pending == map[] && unsaved == {} && undeleted == {}
        invariant active == map k | k in rows && k !in todo && k.id in defs :: rows[k]
        decreases todo
      {
        var k :| k in todo;
        todo := todo - {k};
        if k.id in defs { active := active[k := rows[k]]; }
      }
      assert active == Loaded(defs, rows);
    }

    /** The raise loop: each finding refreshes, raises, or counts one bad sample. */
    method RaiseWanted(want: map<Key, string>, now: int) returns (raised: set<Key>, upserts: map<Key, Issue>)
      modifies this`active, this`pending
      ensures upserts == Upserts(defs, old(active), old(pending), want, now)
      ensures active == old(active) + upserts
      ensures pending == CountSamples(defs, old(active), old(pending), want)
      ensures raised == upserts.Keys - old(active).Keys
    {
      raised, upserts := {}, map[];
      var todo := want;
      ghost var seen: map<Key, string> := map[];
      NothingSeen(defs, active, pending, now);
      while todo != map[]
        invariant seen.Keys !! todo.Keys && seen + todo == want
        invariant Swept(defs, old(active), old(pending), seen, now, active, pending, raised, upserts)
        decreases todo.Keys
      {
        var k :| k in todo;
        Maps.OneMoved(seen, todo, k);
        raised, upserts := RaiseOne(k, todo[k], now, raised, upserts, old(active), old(pending), seen);
        seen := seen[k := todo[k]];
        todo := todo - {k};
      }
      assert seen == want;
    }

    method RaiseOne(k: Key, details: string, now: int, raised: set<Key>, upserts: map<Key, Issue>,
                    ghost active0: map<Key, Issue>, ghost pending0: map<Key, nat>, ghost seen: map<Key, string>)
      returns (raised': set<Key>, upserts': map<Key, Issue>)
      requires k !in seen && Swept(defs, active0, pending0, seen, now, active, pending, raised, upserts)
      modifies this`active, this`pending
      ensures Swept(defs, active0, pending0, seen[k := details], now, active, pending, raised', upserts')
    {
      OneMoreSwept(defs, active0, pending0, seen, now, active, pending, raised, upserts, k, details);
      raised', upserts' := raised, upserts;
      if k.id !in defs { return; }
      if k !in active && defs[k.id].debounce && Samples(pending, k) + 1 < 2 {
        pending := pending[k := Samples(pending, k) + 1];
        return;
      }
      pending := pending - {k};
      var transitioned := RaiseLocked(k, details, now);
      if transitioned { raised' := raised' + {k}; }
      upserts' := upserts'[k := active[k]];
    }

    /** The clear-absent loop over the active issues of one category. */
    method ClearAbsent(cat: string, want: map<Key, string>) returns (cleared: set<Key>)
      modifies this`active
      ensures cleared == Absent(defs, old(active), cat, want) && active == old(active) - cleared
    {
      cleared := {};
      var todo := active.Keys;
      while todo != {}
        invariant todo <= old(active).Keys
        invariant cleared == Absent(defs, old(active), cat, want) - todo
        invariant active == old(active) - cleared
        decreases todo
      {
        var k :| k in todo;
        todo := todo - {k};
        if Category(defs, k) == cat && k !in want {
          var was := ClearLocked(k);
          if was { cleared := cleared + {k}; }
        }
      }
    }

    method DropPending(cat: string, want: map<Key, string>)
      modifies this`pending
      ensures pending == DropAbsent(defs, old(pending), cat, want)
    {
      var todo := pending.Keys;
      while todo != {}
        invariant todo <= old(pending).Keys
        invariant pending == map k | k in old(pending) && (k in todo || !(Category(defs, k) == cat && k !in want)) :: old(pending)[k]
        decreases todo
      {
        var k :| k in todo;
        todo := todo - {k};
        if Category(defs, k) == cat && k !in want { pending := pending - {k}; }
      }
    }

    method Wanted(findings: seq<Finding>) returns (want: map<Key, string>)
      ensures want == WantOf(findings)
    {
      want := map[];
      for i := 0 to |findings|
        invariant want == WantOf(findings[..i])
      {
        assert findings[..i + 1][..i] == findings[..i];
        want := want[findings[i].key := findings[i].details];
      }
      assert findings[..|findings|] == findings;
    }

    /**
     Reconciles one category against a report. The keys returned are exactly the
     difference between the active sets before and after, the internal issue aside.
     */
    method ApplyFindings(cat: string, findings: seq<Finding>, now: int, ok: bool, err: string)
      returns (raised: set<Key>, cleared: set<Key>)
      modifies this
      ensures View() == Step(defs, old(View()), DoReport(cat, findings, now, ok, err))
      ensures FollowsFindings(defs, old(View()), View(), cat, findings)
      ensures ShowsLastFinding(defs, old(View()), View(), findings, now)
      ensures forall k :: k != STORE_WRITE_FAILED ==> (k in raised <==> k in active && k !in old(active))
      ensures forall k :: k != STORE_WRITE_FAILED ==> (k in cleared <==> k in old(active) && k !in active)
    {
      var want := Wanted(findings);
      var upserts;
      raised, upserts := RaiseWanted(want, now);
      cleared := ClearAbsent(cat, want);
      assert cleared == Absent(defs, old(active), cat, want);
      DropPending(cat, want);
      assert View() == Reconciled(defs, old(View()), cat, want, now);
      Save(upserts, cleared, ok, err, now);
      TransitionsAreTheDifference(defs, old(View()), cat, want, now, ok, err);
      ReportFollowsFindings(defs, old(View()), cat, findings, now, ok, err);
      ReportShowsLastFinding(defs, old(View()), cat, findings, now, ok, err);
    }
  }
}
