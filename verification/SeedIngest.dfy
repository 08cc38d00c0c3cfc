/**
 A hosted box takes its identity from a seed on its first boot: the key and the enrollment
 are written, then the box-id as the commit marker. Any write may fail or be the last thing
 that happens before a crash.
 */
module SeedIngest {
  import opened Options

  datatype Enrollment = Enrollment(subdomain: string, username: string, password: string)

  const NOTHING := Enrollment("", "", "")

  predicate Complete(e: Enrollment) { e.subdomain != "" && e.username != "" && e.password != "" }

  datatype Seed = Seed(boxId: string, key: string, enrollment: Enrollment)

  /** What a look for the seed finds; one without a box-id or a key counts as unreadable. */
  datatype SeedFile = Missing | Unreadable | Present(seed: Seed)

  /** The three rows of the store. */
  datatype Meta = Meta(boxId: Option<string>, key: Option<string>, enrollment: Option<Enrollment>)

  datatype Identity = Identity(boxId: string, key: string, enrollment: Enrollment)

  const PRE_SETUP := Identity("", "", NOTHING)

  /** How a write goes. One that fails, or that the box crashes in, may have been applied or not. */
  datatype Fate = Done | Fails(applied: bool) | Crashes(applied: bool)

  predicate Applied(f: Fate) { f.Done? || f.applied }

  /** One boot: what it finds, which of its reads work, and how its writes go. */
  datatype Boot = Boot(hosted: bool, file: SeedFile,
                       idReads: bool, keyReads: bool, enrollmentReads: bool,
                       keyWrite: Fate, enrollmentWrite: Fate, idWrite: Fate)

  // ----- What a boot leaves and answers -----

  function WithKey(m: Meta, s: Seed): Meta { m.(key := Some(s.key)) }
  function WithEnrollment(m: Meta, s: Seed): Meta { m.(enrollment := Some(s.enrollment)) }
  function WithId(m: Meta, s: Seed): Meta { m.(boxId := Some(s.boxId)) }

  predicate Ingests(m: Meta, b: Boot) { b.hosted && b.idReads && m.boxId.None? && b.file.Present? }

  /** The rows after the boot. */
  function Rows(m: Meta, b: Boot): Meta {
    if !Ingests(m, b) then m
    else
      var s := b.file.seed;
      var m1 := if Applied(b.keyWrite) then WithKey(m, s) else m;
      if !b.keyWrite.Done? then m1
      else
        var m2 := if Complete(s.enrollment) && Applied(b.enrollmentWrite) then WithEnrollment(m1, s) else m1;
        if Complete(s.enrollment) && !b.enrollmentWrite.Done? then m2
        else if Applied(b.idWrite) then WithId(m2, s) else m2
  }

  /** The enrollment a boot of a box with these rows loads. */
  function Stored(m: Meta): Enrollment { if m.enrollment.Some? then m.enrollment.value else NOTHING }

  /** The identity the boot comes up with, or None where it crashed on the way. */
  function Answer(m: Meta, b: Boot): Option<Identity> {
    if !b.hosted || !b.idReads then Some(PRE_SETUP)
    else if m.boxId.Some? then
      if !b.keyReads || m.key.None? then Some(Identity(m.boxId.value, "", NOTHING))
      else Some(Identity(m.boxId.value, m.key.value, if b.enrollmentReads then Stored(m) else NOTHING))
    else if !b.file.Present? then Some(PRE_SETUP)
    else
      var s := b.file.seed;
      var enrolled := if Complete(s.enrollment) then b.enrollmentWrite else Done;
      Or(b.keyWrite, Or(enrolled, Or(b.idWrite, Some(Identity(s.boxId, s.key, s.enrollment)))))
  }

  /** A write that does not go through ends the ingest. */
  function Or(w: Fate, next: Option<Identity>): Option<Identity> {
    if w.Crashes? then None else if w.Fails? then Some(PRE_SETUP) else next
  }

  function Run(boots: seq<Boot>): Meta {
    if boots == [] then Meta(None, None, None) else Rows(Run(boots[..|boots| - 1]), boots[|boots| - 1])
  }

  // ----- The commit marker -----

  /** The rows are those of one seed. */
  predicate From(m: Meta, s: Seed) {
    && m.boxId == Some(s.boxId) && m.key == Some(s.key)
    && (Complete(s.enrollment) ==> m.enrollment == Some(s.enrollment))
  }

  /** The boot that wrote the box-id, if one did. */
  ghost predicate CommittedBy(boots: seq<Boot>, i: nat) {
    && i < |boots| && Run(boots[..i]).boxId.None?
    && Ingests(Run(boots[..i]), boots[i]) && From(Run(boots), boots[i].file.seed)
  }

  lemma CommitTakesWholeSeed(m: Meta, b: Boot)
    requires m.boxId.None? && Rows(m, b).boxId.Some?
    ensures Ingests(m, b) && From(Rows(m, b), b.file.seed)
  {
  }

  lemma CommittedIsFrozen(m: Meta, b: Boot)
    requires m.boxId.Some?
    ensures Rows(m, b) == m
  {
  }

  /** In every sequence of boots, with any seeds, faults and crashes, a box-id in the store stands beside the key, and the complete enrollment, of the seed it came from. */
  lemma {:induction false} BoxIdImpliesItsSeed(boots: seq<Boot>) returns (i: nat)
    requires Run(boots).boxId.Some?
    ensures CommittedBy(boots, i)
  {
    var before := boots[..|boots| - 1];
    if Run(before).boxId.Some? {
      i := BoxIdImpliesItsSeed(before);
      CommittedIsFrozen(Run(before), boots[|boots| - 1]);
      assert before[..i] == boots[..i];
    } else {
      i := |boots| - 1;
      CommitTakesWholeSeed(Run(before), boots[i]);
      assert boots[..i] == before;
    }
  }

  /** Once the box-id is there nothing is ever written again. */
  lemma {:induction false} NothingIsRewritten(boots: seq<Boot>, later: seq<Boot>)
    requires Run(boots).boxId.Some?
    ensures Run(boots + later) == Run(boots)
  {
    if later == [] {
      assert boots + later == boots;
    } else {
      var most := later[..|later| - 1];
      assert (boots + later)[..|boots + later| - 1] == boots + most;
      NothingIsRewritten(boots, most);
    }
  }

  /** Every later boot whose reads work comes up with the identity of the one seed that was committed, whatever seed it finds. */
  lemma IdentityNeverChanges(boots: seq<Boot>, later: seq<Boot>, b: Boot) returns (i: nat)
    requires Run(boots).boxId.Some?
    requires b.hosted && b.idReads && b.keyReads && b.enrollmentReads
    ensures CommittedBy(boots, i)
    ensures var s := boots[i].file.seed;
            && Answer(Run(boots + later), b) == Some(Identity(s.boxId, s.key, Stored(Run(boots))))
            && (s.enrollment.subdomain != "" && s.enrollment.username != "" && s.enrollment.password != "" ==>
                  Stored(Run(boots)) == s.enrollment)
  {
    i := BoxIdImpliesItsSeed(boots);
    NothingIsRewritten(boots, later);
  }

  /** A boot whose reads fail never comes up as another box: it has the identity, or what of it could be read. */
  lemma FaultyReadsOnlyHide(boots: seq<Boot>, later: seq<Boot>, b: Boot) returns (i: nat)
    requires Run(boots).boxId.Some?
    ensures CommittedBy(boots, i)
    ensures var s := boots[i].file.seed;
            Answer(Run(boots + later), b) ==
            Some(if !b.hosted || !b.idReads then Identity("", "", NOTHING)
                 else if !b.keyReads then Identity(s.boxId, "", NOTHING)
                 else Identity(s.boxId, s.key, if b.enrollmentReads then Stored(Run(boots)) else NOTHING))
  {
    i := BoxIdImpliesItsSeed(boots);
    NothingIsRewritten(boots, later);
  }

  /** An appliance takes no part in this: it writes nothing and has no such identity. */
  lemma ApplianceStaysOut(m: Meta, b: Boot)
    requires !b.hosted
    ensures Rows(m, b) == m && Answer(m, b) == Some(Identity("", "", Enrollment("", "", "")))
  {
  }

  // ----- The boot that commits -----

  /** Every write a boot would make gets through. */
  predicate WritesWork(b: Boot) { b.keyWrite.Done? && b.enrollmentWrite.Done? && b.idWrite.Done? }

  /** A working first boot commits its seed, and comes up as that seed. */
  lemma WorkingBootCommits(boots: seq<Boot>, b: Boot)
    requires Run(boots).boxId.None? && b.hosted && b.idReads && b.file.Present? && WritesWork(b)
    ensures var s := b.file.seed;
            && From(Rows(Run(boots), b), s)
            && Answer(Run(boots), b) == Some(Identity(s.boxId, s.key, s.enrollment))
  {
  }

  /**
   A first boot that comes up with an identity has committed it: every later boot whose reads
   work comes up with the same box-id and key, and with the same enrollment exactly if the
   seed's was complete, or was empty and none was left behind.
   */
  lemma CommitIsAnsweredAgain(boots: seq<Boot>, b: Boot, later: seq<Boot>, next: Boot)
    requires Run(boots).boxId.None? && b.file.Present? && b.file.seed.boxId != ""
    requires Answer(Run(boots), b).Some? && Answer(Run(boots), b).value.boxId != ""
    requires next.hosted && next.idReads && next.keyReads && next.enrollmentReads
    ensures var first, again, s := Answer(Run(boots), b).value, Answer(Run(boots + [b] + later), next), b.file.seed;
            && first == Identity(s.boxId, s.key, s.enrollment)
            && again.Some? && again.value.boxId == first.boxId && again.value.key == first.key
            && (again.value == first <==> Complete(s.enrollment) || (s.enrollment == NOTHING && Run(boots).enrollment.None?))
  {
    assert (boots + [b])[..|boots|] == boots;
    StoredIsComplete(boots);
    NothingIsRewritten(boots + [b], later);
  }

  // ----- The enrollment of a seed that has none -----

  /**
   A seed without a complete enrollment stands for a box without certificates. The box it
   commits comes up so exactly if no earlier, aborted ingest had stored an enrollment.
   */
  lemma {:induction false} EnrollmentIsTheSeeds(boots: seq<Boot>, b: Boot)
    requires Run(boots).boxId.None? && Rows(Run(boots), b).boxId.Some?
    ensures b.file.Present?
    ensures var s := b.file.seed;
            Stored(Rows(Run(boots), b)) == (if Complete(s.enrollment) then s.enrollment else NOTHING) <==>
            Complete(s.enrollment) || Run(boots).enrollment.None?
  {
    StoredIsComplete(boots);
  }

  /** Only complete enrollments are ever stored. */
  lemma {:induction false} StoredIsComplete(boots: seq<Boot>)
    ensures Run(boots).enrollment.Some? ==> Complete(Run(boots).enrollment.value)
  {
    if boots != [] { StoredIsComplete(boots[..|boots| - 1]); }
  }

  function Working(s: Seed, idWrite: Fate): Boot {
    Boot(true, Present(s), true, true, true, Done, Done, idWrite)
  }

  /** It does happen: a crash before the marker, then another seed, and the second box has the first one's credentials. */
  lemma AnotherSeedsEnrollment()
    ensures var a, b := Seed("a", "ka", Enrollment("x", "y", "z")), Seed("b", "kb", NOTHING);
            var boots := [Working(a, Crashes(false)), Working(b, Done)];
            && From(Run(boots), b) && !Complete(b.enrollment)
            && Stored(Run(boots)) == a.enrollment
  {
    var a, b := Seed("a", "ka", Enrollment("x", "y", "z")), Seed("b", "kb", NOTHING);
    var first, second := Working(a, Crashes(false)), Working(b, Done);
    assert [first, second][..1] == [first] && [first][..0] == [];
    assert Run([first]) == Meta(None, Some("ka"), Some(a.enrollment));
  }

  // ----- The boot as it is carried out -----

  datatype Written = Ok | Failed | Crashed

  class Box {
    var meta: Meta

    constructor ()
      ensures meta == Meta(None, None, None)
    {
      meta := Meta(None, None, None);
    }

    method Write(next: Meta, fate: Fate) returns (w: Written)
      modifies this
      ensures meta == if Applied(fate) then next else old(meta)
      ensures w == if fate.Done? then Ok else if fate.Fails? then Failed else Crashed
    {
      match fate {
        case Done => meta, w := next, Ok;
        case Fails(applied) => if applied { meta := next; } w := Failed;
        case Crashes(applied) => if applied { meta := next; } w := Crashed;
      }
    }

    method LoadHostedEnvironment(b: Boot) returns (id: Option<Identity>)
      modifies this
      ensures meta == Rows(old(meta), b)
      ensures id == Answer(old(meta), b)
    {
      if !b.hosted || !b.idReads {
        return Some(PRE_SETUP);
      }
      if meta.boxId.Some? {
        if !b.keyReads || meta.key.None? {
          return Some(Identity(meta.boxId.value, "", NOTHING));
        }
        var e := LoadEnrollment(b.enrollmentReads);
        return Some(Identity(meta.boxId.value, meta.key.value, e));
      }
      if !b.file.Present? {
        return Some(PRE_SETUP);
      }
      var s := b.file.seed;
      var w := Write(meta.(key := Some(s.key)), b.keyWrite);
      if w != Ok {
        return if w == Crashed then None else Some(PRE_SETUP);
      }
      if Complete(s.enrollment) {
        w := Write(meta.(enrollment := Some(s.enrollment)), b.enrollmentWrite);
        if w != Ok {
          return if w == Crashed then None else Some(PRE_SETUP);
        }
      }
      w := Write(meta.(boxId := Some(s.boxId)), b.idWrite);
      if w != Ok {
        return if w == Crashed then None else Some(PRE_SETUP);
      }
      return Some(Identity(s.boxId, s.key, s.enrollment));
    }

    method LoadEnrollment(works: bool) returns (e: Enrollment)
      ensures e == if works then Stored(meta) else NOTHING
    {
      if !works || meta.enrollment.None? {
        return NOTHING;
      }
      return meta.enrollment.value;
    }
  }
}
