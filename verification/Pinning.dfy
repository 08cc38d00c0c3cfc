/**
 Image references and their pins: taking a reference apart, putting a pin together, and
 resolving every service of a compose file to the bytes it will run.
 */
module References {
  import opened Options
  import opened Text

  /** The first place of a character, or the length. */
  function Index(s: string, c: char): (r: nat)
    ensures r <= |s| && (r < |s| ==> s[r] == c) && forall i :: 0 <= i < r ==> s[i] != c
  {
    if s == "" || s[0] == c then 0 else 1 + Index(s[1..], c)
  }

  /** The last place of a character, or -1. */
  function LastIndex(s: string, c: char): (r: int)
    ensures -1 <= r < |s| && (r >= 0 ==> s[r] == c) && forall i :: r < i < |s| ==> s[i] != c
  {
    if s == "" then -1 else if s[|s| - 1] == c then |s| - 1 else LastIndex(s[..|s| - 1], c)
  }

  /** A colon that is not first and has no slash after it starts a tag; one with a slash after it, a port. */
  predicate HasTag(s: string) {
    var colon := LastIndex(s, ':');
    colon > 0 && '/' !in s[colon..]
  }

  function WithoutTag(s: string): string { if HasTag(s) then s[..LastIndex(s, ':')] else s }

  function WithoutDigest(image: string): string { image[..Index(image, '@')] }

  function RepoOf(image: string): string { WithoutTag(WithoutDigest(image)) }

  function DigestOf(image: string): Option<string> {
    var at := Index(image, '@');
    if at < |image| then Some(image[at + 1..]) else None
  }

  /** The command line's own copy. */
  function CliRepoOf(image: string): string {
    if Index(image, '@') < |image| then WithoutDigest(image) else WithoutTag(image)
  }

  function Pin(image: string, digest: string): string { RepoOf(image) + "@" + digest }

  /** A reference by its parts. */
  datatype Ref = Ref(name: string, tag: Option<string>, digest: Option<string>)

  function Tagged(r: Ref): string { if r.tag.Some? then r.name + ":" + r.tag.value else r.name }

  function Render(r: Ref): string { if r.digest.Some? then Tagged(r) + "@" + r.digest.value else Tagged(r) }

  /** A name may hold a port, never a tag; a tag holds neither colon nor slash. */
  predicate Proper(r: Ref) {
    && r.name != "" && '@' !in r.name && !HasTag(r.name)
    && (r.tag.Some? ==> '@' !in r.tag.value && '/' !in r.tag.value && ':' !in r.tag.value)
  }

  lemma IndexOf(a: string, b: string, c: char)
    requires c !in a
    ensures Index(a + [c] + b, c) == |a|
  {
    var s := a + [c] + b;
    assert s[|a|] == c && forall i :: 0 <= i < |a| ==> s[i] == a[i];
  }

  lemma {:induction false} LastIndexOf(a: string, b: string, c: char)
    requires c !in b
    ensures LastIndex(a + [c] + b, c) == |a|
  {
    var s := a + [c] + b;
    if b != "" {
      assert s[..|s| - 1] == a + [c] + b[..|b| - 1];
      LastIndexOf(a, b[..|b| - 1], c);
    }
  }

  lemma NoIndex(s: string, c: char)
    requires c !in s
    ensures Index(s, c) == |s|
  {
    assert forall i :: 0 <= i < |s| ==> s[i] in s;
  }

  lemma TagComesOff(r: Ref)
    requires Proper(r)
    ensures WithoutTag(Tagged(r)) == r.name && '@' !in Tagged(r)
  {
    if r.tag.Some? {
      var s := r.name + [':'] + r.tag.value;
      assert s == Tagged(r);
      LastIndexOf(r.name, r.tag.value, ':');
      assert s[|r.name|..] == [':'] + r.tag.value;
    }
  }

  /** Every name with or without port, tag and digest comes apart into its parts; the command line's copy keeps a tag before a digest. */
  lemma RefRoundTrip(r: Ref)
    requires Proper(r)
    ensures RepoOf(Render(r)) == r.name && DigestOf(Render(r)) == r.digest
    ensures CliRepoOf(Render(r)) == if r.digest.Some? then Tagged(r) else r.name
  {
    TagComesOff(r);
    if r.digest.Some? {
      var s := Tagged(r) + ['@'] + r.digest.value;
      assert s == Render(r);
      IndexOf(Tagged(r), r.digest.value, '@');
      assert s[..|Tagged(r)|] == Tagged(r) && s[|Tagged(r)| + 1..] == r.digest.value;
    } else {
      NoIndex(Tagged(r), '@');
      assert Tagged(r)[..|Tagged(r)|] == Tagged(r);
    }
  }

  lemma RepoHasNoDigest(image: string)
    ensures '@' !in RepoOf(image)
  {
    var s := WithoutDigest(image);
    if HasTag(s) {
      assert forall i :: 0 <= i < LastIndex(s, ':') ==> s[..LastIndex(s, ':')][i] == s[i];
    }
  }

  /** Of any text at all, a pin gives back its digest, and its repository exactly when that has no second tag. */
  lemma PinParsesBack(image: string, digest: string)
    ensures DigestOf(Pin(image, digest)) == Some(digest)
    ensures RepoOf(Pin(image, digest)) == RepoOf(image) <==> !HasTag(RepoOf(image))
    ensures WithoutDigest(Pin(image, digest)) == CliRepoOf(Pin(image, digest)) == RepoOf(image)
  {
    var repo := RepoOf(image);
    var s := repo + ['@'] + digest;
    RepoHasNoDigest(image);
    assert s == Pin(image, digest);
    IndexOf(repo, digest, '@');
    assert s[..|repo|] == repo && s[|repo| + 1..] == digest;
    if HasTag(repo) { assert |WithoutTag(repo)| < |repo|; }
  }

  /** The other half does occur: a repository that still looks tagged loses more when its pin is parsed. */
  lemma PinOfTwoTags(digest: string)
    ensures RepoOf("a:b:c") == "a:b" && RepoOf(Pin("a:b:c", digest)) == "a"
  {
    NoIndex("a:b:c", '@');
    LastIndexOf("a:b", "c", ':');
    LastIndexOf("a", "b", ':');
    assert "a:b:c" == "a:b" + [':'] + "c" && "a:b" == "a" + [':'] + "b";
    assert WithoutDigest("a:b:c") == "a:b:c" && RepoOf("a:b:c") == "a:b";
    IndexOf("a:b", digest, '@');
    var pin := "a:b" + ['@'] + digest;
    assert pin == Pin("a:b:c", digest) && pin[..3] == "a:b";
  }

  /** The two copies differ exactly on a reference with a digest and a tag before it. */
  lemma CopiesAgreeUnlessTagAndDigest(image: string)
    ensures CliRepoOf(image) == RepoOf(image) <==> !('@' in image && HasTag(WithoutDigest(image)))
  {
    var at := Index(image, '@');
    if at == |image| {
      assert image[..at] == image;
    } else {
      assert image[at] in image;
      var s := WithoutDigest(image);
      if HasTag(s) { assert |WithoutTag(s)| < |s|; }
    }
  }
}

module Pinning {
  import opened Options
  import opened Text
  import opened References

  datatype Error = NoImage | Contradiction | PullFailed | InspectFailed | NoRepoDigest | NothingToTrust | Absent
  datatype Result<T> = Ok(value: T) | Err(error: Error)

  datatype ServicePin = ServicePin(service: string, image: string, digest: string, ref: string)
  datatype Resolved = Resolved(digest: string, fromLocal: bool)

  /** What docker said when one image was resolved; an inspect that finds the image gives its repo digests. */
  datatype Heard = Heard(pulled: bool, inspected: Option<seq<string>>)

  /** The digest held for an image: the one in the reference, or the promised one; "" for none. */
  function Wanted(image: string, promised: string): string {
    if DigestOf(image).Some? then DigestOf(image).value else promised
  }

  predicate Contradicts(image: string, promised: string) {
    DigestOf(image).Some? && promised != "" && promised != DigestOf(image).value
  }

  /**
   A pull for an image: of the digest in its reference, or else of the promised one, in the
   image's repository; with neither, of the image as written.
   */
  ghost predicate PulledAs(image: string, promised: string, ref: string) {
    if DigestOf(image).Some? && DigestOf(image).value != "" then DigestOf(ref) == DigestOf(image) && WithoutDigest(ref) == RepoOf(image)
    else if promised != "" then DigestOf(ref) == Some(promised) && WithoutDigest(ref) == RepoOf(image)
    else ref == image
  }

  /** The pulls an image takes: one, and none where its reference contradicts the promise. */
  ghost predicate OnePull(image: string, promised: string, asked: seq<string>) {
    if DigestOf(image).Some? && promised != "" && promised != DigestOf(image).value then asked == []
    else |asked| == 1 && PulledAs(image, promised, asked[0])
  }

  /** The first repo digest recorded for the repository. */
  function FirstDigest(rds: seq<string>, repo: string): Option<string> {
    if rds == [] then None
    else if DigestOf(rds[0]).Some? && WithoutDigest(rds[0]) == repo then DigestOf(rds[0])
    else FirstDigest(rds[1..], repo)
  }

  /** What an image resolves to, given what docker says. */
  function Resolve(image: string, promised: string, offline: bool, heard: Heard): Result<Resolved> {
    var wanted := Wanted(image, promised);
    if Contradicts(image, promised) then Err(Contradiction)
    else if !heard.pulled then
      if !offline then Err(PullFailed)
      else if wanted == "" then Err(NothingToTrust)
      else if heard.inspected.None? then Err(Absent)
      else Ok(Resolved(wanted, true))
    else if wanted != "" then Ok(Resolved(wanted, false))
    else if heard.inspected.None? then Err(InspectFailed)
    else
      var d := FirstDigest(heard.inspected.value, RepoOf(image));
      if d.None? then Err(NoRepoDigest) else Ok(Resolved(d.value, false))
  }

  function RefFor(image: string, r: Resolved): string { if r.fromLocal then image else Pin(image, r.digest) }

  /**
   What a resolution guarantees. A held digest is the one pinned; a reference by tag is only
   for an offline box that could not pull but has the image; and a digest taken on trust is
   one docker recorded for this very repository.
   */
  lemma ResolutionHonoursDigest(image: string, promised: string, offline: bool, heard: Heard)
    requires Resolve(image, promised, offline, heard).Ok?
    ensures var r := Resolve(image, promised, offline, heard).value;
            && (Wanted(image, promised) != "" ==> r.digest == Wanted(image, promised))
            && (promised != "" ==> r.digest == promised)
            && (r.fromLocal <==> !heard.pulled)
            && (r.fromLocal ==> offline && heard.inspected.Some? && r.digest != "" && RefFor(image, r) == image)
            && (Wanted(image, promised) == "" ==>
                  !r.fromLocal && heard.inspected.Some? && (RepoOf(image) + "@" + r.digest) in heard.inspected.value)
            && (!r.fromLocal ==> DigestOf(RefFor(image, r)) == Some(r.digest)
                                 && (RepoOf(RefFor(image, r)) == RepoOf(image) <==> !HasTag(RepoOf(image))))
  {
    var r := Resolve(image, promised, offline, heard).value;
    PinParsesBack(image, r.digest);
    if Wanted(image, promised) == "" {
      FirstDigestIsRecorded(heard.inspected.value, RepoOf(image));
    }
  }

  /** The i-th record is the first one of the repository. */
  ghost predicate FirstRecord(rds: seq<string>, repo: string, i: nat) {
    && i < |rds| && DigestOf(rds[i]).Some? && WithoutDigest(rds[i]) == repo
    && forall j :: 0 <= j < i ==> !(DigestOf(rds[j]).Some? && WithoutDigest(rds[j]) == repo)
  }

  /** The digest found is that of the first record of the repository, and none is found exactly when there is none. */
  lemma {:induction false} FirstDigestIsFirst(rds: seq<string>, repo: string) returns (i: nat)
    ensures FirstDigest(rds, repo).Some? ==> FirstRecord(rds, repo, i) && FirstDigest(rds, repo) == DigestOf(rds[i])
    ensures FirstDigest(rds, repo).None? ==>
              forall j :: 0 <= j < |rds| ==> !(DigestOf(rds[j]).Some? && WithoutDigest(rds[j]) == repo)
  {
    i := 0;
    if rds != [] && !(DigestOf(rds[0]).Some? && WithoutDigest(rds[0]) == repo) {
      var k := FirstDigestIsFirst(rds[1..], repo);
      i := k + 1;
      assert forall j :: 1 <= j < |rds| ==> rds[j] == rds[1..][j - 1];
    }
  }

  lemma RecordReads(rd: string)
    requires DigestOf(rd).Some?
    ensures rd == WithoutDigest(rd) + "@" + DigestOf(rd).value
  {
    var at := Index(rd, '@');
    assert rd == rd[..at] + [rd[at]] + rd[at + 1..];
  }

  lemma FirstDigestIsRecorded(rds: seq<string>, repo: string)
    ensures FirstDigest(rds, repo).Some? ==> (repo + "@" + FirstDigest(rds, repo).value) in rds
  {
    var i := FirstDigestIsFirst(rds, repo);
    if FirstDigest(rds, repo).Some? {
      RecordReads(rds[i]);
      assert rds[i] in rds;
    }
  }

  /** Some record is of the repository. */
  ghost predicate HasRecord(rds: seq<string>, repo: string) {
    exists j :: 0 <= j < |rds| && DigestOf(rds[j]).Some? && WithoutDigest(rds[j]) == repo
  }

  /**
   When an image resolves: unless a digest in its reference contradicts a promised one; after
   a pull, if a digest is held or docker recorded one for the repository; without one, only
   offline, with a held digest and the image present.
   */
  lemma ResolvesExactlyWhen(image: string, promised: string, offline: bool, heard: Heard)
    ensures var inRef := if DigestOf(image).Some? then DigestOf(image).value else "";
            var held := inRef != "" || (DigestOf(image).None? && promised != "");
            Resolve(image, promised, offline, heard).Ok? <==>
            && !(DigestOf(image).Some? && promised != "" && promised != inRef)
            && if heard.pulled then held || (heard.inspected.Some? && HasRecord(heard.inspected.value, RepoOf(image)))
               else offline && held && heard.inspected.Some?
  {
    if heard.inspected.Some? {
      var i := FirstDigestIsFirst(heard.inspected.value, RepoOf(image));
      if FirstDigest(heard.inspected.value, RepoOf(image)).Some? {
        assert HasRecord(heard.inspected.value, RepoOf(image));
      }
    }
  }

  function PinFor(service: string, image: string, r: Resolved): ServicePin {
    ServicePin(service, image, r.digest, RefFor(image, r))
  }

  function Promised(promises: map<string, string>, image: string): string {
    if image in promises then promises[image] else ""
  }

  /** Docker: it may answer every call differently, and keeps a log of the pulls. */
  class Docker {
    const onPull: nat -> bool
    const onInspect: nat -> Option<seq<string>>
    var pulled: seq<string>
    var calls: nat

    constructor (pulls: nat -> bool, inspects: nat -> Option<seq<string>>)
      ensures pulled == []
    {
      onPull, onInspect := pulls, inspects;
      pulled, calls := [], 0;
    }

    method Pull(ref: string) returns (ok: bool)
      modifies this
      ensures pulled == old(pulled) + [ref]
    {
      ok := onPull(calls);
      pulled, calls := pulled + [ref], calls + 1;
    }

    method ImageInspect(ref: string) returns (rds: Option<seq<string>>)
      modifies this
      ensures pulled == old(pulled)
    {
      rds := onInspect(calls);
      calls := calls + 1;
    }
  }

  /** One pull, of the held digest where there is one; none at all for a contradiction. */
  method PullAndResolve(docker: Docker, image: string, promised: string, offline: bool)
    returns (r: Result<Resolved>, ghost heard: Heard, ghost asked: seq<string>)
    modifies docker
    ensures r == Resolve(image, promised, offline, heard)
    ensures docker.pulled == old(docker.pulled) + asked && OnePull(image, promised, asked)
    ensures r.Ok? ==> asked != []
  {
    heard, asked := Heard(false, None), [];
    var held := promised;
    if DigestOf(image).Some? {
      if promised != "" && promised != DigestOf(image).value {
        return Err(Contradiction), heard, asked;
      }
      held := DigestOf(image).value;
    }
    if held != "" {
      var ok := docker.Pull(Pin(image, held));
      asked := [Pin(image, held)];
      PinParsesBack(image, held);
      if !ok {
        if offline {
          var rds;
          r, rds := ResolveOffline(docker, image, held);
          heard := Heard(false, rds);
          return;
        }
        return Err(PullFailed), heard, asked;
      }
      heard := Heard(true, None);
      return Ok(Resolved(held, false)), heard, asked;
    }
    var ok := docker.Pull(image);
    asked := [image];
    if !ok {
      if offline {
        var rds;
        r, rds := ResolveOffline(docker, image, "");
        heard := Heard(false, rds);
        return;
      }
      return Err(PullFailed), heard, asked;
    }
    var rds := docker.ImageInspect(image);
    heard := Heard(true, rds);
    if rds.None? {
      return Err(InspectFailed), heard, asked;
    }
    r := FindDigest(rds.value, RepoOf(image));
  }

  method FindDigest(rds: seq<string>, repo: string) returns (r: Result<Resolved>)
    ensures r == var d := FirstDigest(rds, repo); if d.None? then Err(NoRepoDigest) else Ok(Resolved(d.value, false))
  {
    for i := 0 to |rds|
      invariant FirstDigest(rds, repo) == FirstDigest(rds[i..], repo)
    {
      if DigestOf(rds[i]).Some? && WithoutDigest(rds[i]) == repo {
        return Ok(Resolved(DigestOf(rds[i]).value, false));
      }
      assert rds[i..][1..] == rds[i + 1..];
    }
    return Err(NoRepoDigest);
  }

  method ResolveOffline(docker: Docker, image: string, trusted: string)
    returns (r: Result<Resolved>, rds: Option<seq<string>>)
    modifies docker
    ensures docker.pulled == old(docker.pulled)
    ensures r == if trusted == "" then Err(NothingToTrust)
                 else if rds.None? then Err(Absent) else Ok(Resolved(trusted, true))
  {
    rds := None;
    if trusted == "" {
      return Err(NothingToTrust), rds;
    }
    rds := docker.ImageInspect(image);
    if rds.None? {
      return Err(Absent), rds;
    }
    return Ok(Resolved(trusted, true)), rds;
  }

  // ----- All services -----

  /** The i-th pull is that of the i-th image. */
  ghost predicate PulledInOrder(pulls: seq<string>, order: seq<string>, promises: map<string, string>) {
    && |pulls| == |order|
    && forall i :: 0 <= i < |order| ==> PulledAs(order[i], Promised(promises, order[i]), pulls[i])
  }

  lemma PulledOneMore(pulls: seq<string>, order: seq<string>, promises: map<string, string>, ref: string, image: string)
    requires PulledInOrder(pulls, order, promises) && PulledAs(image, Promised(promises, image), ref)
    ensures PulledInOrder(pulls + [ref], order + [image], promises)
  {
    var ps, os := pulls + [ref], order + [image];
    forall i | 0 <= i < |os| ensures PulledAs(os[i], Promised(promises, os[i]), ps[i]) {
      if i < |order| { assert os[i] == order[i] && ps[i] == pulls[i]; }
    }
  }

  ghost predicate Distinct(order: seq<string>) {
    forall i, j :: 0 <= i < j < |order| ==> order[i] != order[j]
  }

  /** The images seen so far, with what was heard about each and what follows from it. */
  ghost predicate Settled(seen: map<string, string>, local: map<string, bool>, heard: map<string, Heard>,
                          promises: map<string, string>, offline: bool)
  {
    && seen.Keys == local.Keys == heard.Keys
    && forall image {:trigger heard[image]} :: image in seen ==>
         Resolve(image, Promised(promises, image), offline, heard[image]) == Ok(Resolved(seen[image], local[image]))
  }

  ghost predicate SortedByService(pins: seq<ServicePin>) {
    forall i, j :: 0 <= i < j < |pins| ==> Leq(pins[i].service, pins[j].service) && pins[i].service != pins[j].service
  }

  /** One pin for every service, and each what its image resolved to. */
  ghost predicate PinsAll(pins: seq<ServicePin>, services: map<string, string>, heard: map<string, Heard>,
                          promises: map<string, string>, offline: bool)
  {
    && |pins| == |services|
    && (forall i :: 0 <= i < |pins| ==>
          && pins[i].service in services && pins[i].image == services[pins[i].service] && pins[i].image in heard
          && var r := Resolve(pins[i].image, Promised(promises, pins[i].image), offline, heard[pins[i].image]);
             r.Ok? && pins[i] == PinFor(pins[i].service, pins[i].image, r.value))
    && (forall svc :: svc in services ==> exists i :: 0 <= i < |pins| && pins[i].service == svc)
  }

  /** Equal images are pinned equally, and every held digest is honoured. */
  lemma PinsHonourDigests(pins: seq<ServicePin>, services: map<string, string>, heard: map<string, Heard>,
                          promises: map<string, string>, offline: bool)
    requires PinsAll(pins, services, heard, promises, offline)
    ensures forall i, j :: 0 <= i < |pins| && 0 <= j < |pins| && pins[i].image == pins[j].image ==>
              pins[i].digest == pins[j].digest && pins[i].ref == pins[j].ref
    ensures forall i :: 0 <= i < |pins| && Promised(promises, pins[i].image) != "" ==>
              pins[i].digest == Promised(promises, pins[i].image)
    ensures forall i :: 0 <= i < |pins| && DigestOf(pins[i].image).Some? && DigestOf(pins[i].image) != Some("") ==>
              pins[i].digest == DigestOf(pins[i].image).value
    ensures forall i :: 0 <= i < |pins| ==>
              pins[i].ref == if heard[pins[i].image].pulled then Pin(pins[i].image, pins[i].digest) else pins[i].image
    ensures forall i :: 0 <= i < |pins| && pins[i].ref != pins[i].image ==>
              DigestOf(pins[i].ref) == Some(pins[i].digest)
    ensures !offline ==> forall i :: 0 <= i < |pins| ==> pins[i].ref == Pin(pins[i].image, pins[i].digest)
  {
    forall i | 0 <= i < |pins|
      ensures Promised(promises, pins[i].image) != "" ==> pins[i].digest == Promised(promises, pins[i].image)
      ensures DigestOf(pins[i].image).Some? && DigestOf(pins[i].image) != Some("") ==>
                pins[i].digest == DigestOf(pins[i].image).value
      ensures pins[i].ref == if heard[pins[i].image].pulled then Pin(pins[i].image, pins[i].digest) else pins[i].image
      ensures pins[i].ref != pins[i].image ==> DigestOf(pins[i].ref) == Some(pins[i].digest)
      ensures !offline ==> pins[i].ref == Pin(pins[i].image, pins[i].digest)
    {
      var image := pins[i].image;
      ResolutionHonoursDigest(image, Promised(promises, image), offline, heard[image]);
    }
  }

  /** Blank images are refused before anything is pulled. */
  method ServiceImages(compose: map<string, string>) returns (r: Result<map<string, string>>)
    ensures r == if exists svc :: svc in compose && Blank(compose[svc]) then Err(NoImage) else Ok(compose)
  {
    var todo, out := compose.Keys, map[];
    while todo != {}
      invariant todo <= compose.Keys
      invariant out.Keys == compose.Keys - todo
      invariant forall svc :: svc in out ==> out[svc] == compose[svc] && !Blank(compose[svc])
      decreases todo
    {
      var svc :| svc in todo;
      if Blank(compose[svc]) {
        return Err(NoImage);
      }
      out := out[svc := compose[svc]];
      todo := todo - {svc};
    }
    assert out == compose;
    return Ok(out);
  }

  /** The pins in order of their services; a service occurs once. */
  function InsertPin(pins: seq<ServicePin>, p: ServicePin): (r: seq<ServicePin>)
    ensures multiset(r) == multiset(pins) + multiset{p}
  {
    if pins == [] || Leq(p.service, pins[0].service) then
      [p] + pins
    else
      assert pins == [pins[0]] + pins[1..];
      [pins[0]] + InsertPin(pins[1..], p)
  }

  ghost predicate HasService(pins: seq<ServicePin>, svc: string) {
    exists i :: 0 <= i < |pins| && pins[i].service == svc
  }

  lemma {:induction false} InsertKeepsOrder(pins: seq<ServicePin>, p: ServicePin)
    requires SortedByService(pins) && !HasService(pins, p.service)
    ensures SortedByService(InsertPin(pins, p))
    ensures |InsertPin(pins, p)| == |pins| + 1
    ensures forall q :: q in InsertPin(pins, p) <==> q == p || q in pins
  {
    if pins == [] {
    } else if Leq(p.service, pins[0].service) {
      forall j | 0 <= j < |pins| ensures Leq(p.service, pins[j].service) {
        if j > 0 { LeqTrans(p.service, pins[0].service, pins[j].service); }
      }
    } else {
      var rest := InsertPin(pins[1..], p);
      LeqIsTotal(p.service, pins[0].service);
      assert !HasService(pins[1..], p.service) by {
        assert forall i :: 0 <= i < |pins[1..]| ==> pins[1..][i] == pins[i + 1];
      }
      InsertKeepsOrder(pins[1..], p);
      forall j | 0 <= j < |rest| ensures Leq(pins[0].service, rest[j].service) && pins[0].service != rest[j].service {
        assert rest[j] in rest;
      }
      assert forall q :: q in pins <==> q == pins[0] || q in pins[1..];
    }
  }

  ghost predicate PinIsFor(p: ServicePin, services: map<string, string>, seen: map<string, string>, local: map<string, bool>)
    requires local.Keys == seen.Keys
  {
    && p.service in services && services[p.service] in seen
    && p == PinFor(p.service, services[p.service], Resolved(seen[services[p.service]], local[services[p.service]]))
  }

  lemma SettledGrows(seen: map<string, string>, local: map<string, bool>, heard: map<string, Heard>,
                     promises: map<string, string>, offline: bool, image: string, h: Heard, r: Resolved)
    requires Settled(seen, local, heard, promises, offline)
    requires Resolve(image, Promised(promises, image), offline, h) == Ok(r)
    ensures Settled(seen[image := r.digest], local[image := r.fromLocal], heard[image := h], promises, offline)
  {
  }

  /** An image joins the order with its one pull, unless it is refused without any. */
  lemma Joins(pulls: seq<string>, order: seq<string>, promises: map<string, string>, image: string, asked: seq<string>)
    requires PulledInOrder(pulls, order, promises) && OnePull(image, Promised(promises, image), asked)
    ensures PulledInOrder(pulls + asked, if asked == [] then order else order + [image], promises)
  {
    if asked == [] {
      assert pulls + asked == pulls;
    } else {
      assert asked == [asked[0]];
      PulledOneMore(pulls, order, promises, asked[0], image);
    }
  }

  lemma SettledMeansNoContradiction(seen: map<string, string>, local: map<string, bool>, heard: map<string, Heard>,
                                    promises: map<string, string>, offline: bool)
    requires Settled(seen, local, heard, promises, offline)
    ensures forall image :: image in seen ==> !Contradicts(image, Promised(promises, image))
  {
    forall image | image in seen ensures !Contradicts(image, Promised(promises, image)) {
      var h := heard[image];
    }
  }

  lemma SettledPins(pins: seq<ServicePin>, services: map<string, string>, seen: map<string, string>,
                    local: map<string, bool>, heard: map<string, Heard>, promises: map<string, string>, offline: bool)
    requires Settled(seen, local, heard, promises, offline)
    requires |pins| == |services| && forall i :: 0 <= i < |pins| ==> PinIsFor(pins[i], services, seen, local)
    requires forall svc :: svc in services ==> HasService(pins, svc)
    ensures PinsAll(pins, services, heard, promises, offline)
  {
  }

  ghost predicate Used(services: map<string, string>, image: string) {
    exists svc :: svc in services && services[svc] == image
  }

  /** Some image, with what docker said about it, does not resolve. */
  ghost predicate Blames(image: string, why: Heard, services: map<string, string>, promises: map<string, string>,
                         offline: bool, e: Error)
  {
    Used(services, image) && Resolve(image, Promised(promises, image), offline, why) == Err(e)
  }

  /** The images taken so far are those of the services no longer to do. */
  ghost predicate Taken(order: seq<string>, seen: map<string, string>, services: map<string, string>, todo: set<string>) {
    && Distinct(order)
    && (forall i :: 0 <= i < |order| ==> order[i] in seen)
    && (forall image :: image in seen ==> image in order && Used(services, image))
    && (forall svc :: svc in services && svc !in todo ==> services[svc] in seen)
  }

  lemma TakenGrows(order: seq<string>, seen: map<string, string>, services: map<string, string>, todo: set<string>,
                   svc: string, digest: string)
    requires Taken(order, seen, services, todo) && svc in services && services[svc] !in seen
    ensures Taken(order + [services[svc]], seen[services[svc] := digest], services, todo - {svc})
  {
  }

  /** An order of distinct images, all of them some service's. */
  ghost predicate FineOrder(order: seq<string>, services: map<string, string>) {
    Distinct(order) && forall i :: 0 <= i < |order| ==> Used(services, order[i])
  }

  lemma TakenIsFine(order: seq<string>, seen: map<string, string>, services: map<string, string>, todo: set<string>, svc: string)
    requires Taken(order, seen, services, todo) && svc in services && services[svc] !in seen
    ensures FineOrder(order, services) && FineOrder(order + [services[svc]], services)
  {
    var more := order + [services[svc]];
    forall i | 0 <= i < |more| ensures Used(services, more[i]) {
      if i < |order| { assert more[i] == order[i] && order[i] in seen; } else { assert more[i] == services[svc]; }
    }
    assert forall i :: 0 <= i < |order| ==> order[i] == more[i];
  }

  /** Takes each distinct image once, in any order, and stops at the first that does not resolve. */
  method PullEach(docker: Docker, services: map<string, string>, promises: map<string, string>, offline: bool)
    returns (failed: Option<Error>, seen: map<string, string>, local: map<string, bool>,
             ghost heard: map<string, Heard>, ghost order: seq<string>, ghost pulls: seq<string>,
             ghost culprit: string, ghost why: Heard)
    modifies docker
    ensures failed.Some? ==> Blames(culprit, why, services, promises, offline, failed.value)
    ensures Settled(seen, local, heard, promises, offline)
    ensures FineOrder(order, services)
    ensures docker.pulled == old(docker.pulled) + pulls && PulledInOrder(pulls, order, promises)
    ensures failed.None? ==> forall svc :: svc in services ==> services[svc] in seen && services[svc] in order
  {
    failed, seen, local, heard, order := None, map[], map[], map[], [];
    pulls, culprit, why := [], "", Heard(false, None);
    var todo := services.Keys;
    while todo != {}
      invariant todo <= services.Keys && failed.None?
      invariant Settled(seen, local, heard, promises, offline)
      invariant Taken(order, seen, services, todo) && FineOrder(order, services)
      invariant docker.pulled == old(docker.pulled) + pulls && PulledInOrder(pulls, order, promises)
      decreases todo
    {
      var svc :| svc in todo;
      if services[svc] !in seen {
        ghost var taken, were := order, seen;
        var image := services[svc];
        culprit := image;
        ghost var asked;
        failed, seen, local, heard, asked, why := PullOne(docker, image, seen, local, heard, promises, offline);
        TakenIsFine(order, were, services, todo, svc);
        Joins(pulls, order, promises, culprit, asked);
        Reassociate(old(docker.pulled), pulls, asked);
        pulls, order := pulls + asked, if asked == [] then order else order + [culprit];
        if failed.Some? {
          return;
        }
        TakenGrows(taken, were, services, todo, svc, seen[services[svc]]);
      }
      todo := todo - {svc};
    }
  }

  method PullOne(docker: Docker, image: string, seen: map<string, string>, local: map<string, bool>,
                 ghost heard: map<string, Heard>, promises: map<string, string>, offline: bool)
    returns (failed: Option<Error>, seen': map<string, string>, local': map<string, bool>,
             ghost heard': map<string, Heard>, ghost asked: seq<string>, ghost why: Heard)
    requires Settled(seen, local, heard, promises, offline)
    modifies docker
    ensures Settled(seen', local', heard', promises, offline)
    ensures docker.pulled == old(docker.pulled) + asked && OnePull(image, Promised(promises, image), asked)
    ensures failed.Some? ==> Resolve(image, Promised(promises, image), offline, why) == Err(failed.value)
    ensures failed.None? ==> asked != [] && image in seen' && seen' == seen[image := seen'[image]]
  {
    var resolved;
    resolved, why, asked := PullAndResolve(docker, image, Promised(promises, image), offline);
    if resolved.Err? {
      return Some(resolved.error), seen, local, heard, asked, why;
    }
    assert Resolve(image, Promised(promises, image), offline, why) == Ok(resolved.value);
    SettledGrows(seen, local, heard, promises, offline, image, why, resolved.value);
    return None, seen[image := resolved.value.digest], local[image := resolved.value.fromLocal],
           heard[image := why], asked, why;
  }

  /**
   Every service's image resolved, each distinct image with one pull. `heard` is what docker
   said about each image, `order` the order the images were taken in; a failure names the
   image it came from and what docker said about that one.
   */
  method ResolveImages(docker: Docker, compose: map<string, string>, promises: map<string, string>, offline: bool)
    returns (r: Result<seq<ServicePin>>, ghost heard: map<string, Heard>, ghost order: seq<string>,
             ghost culprit: string, ghost why: Heard)
    modifies docker
    ensures r.Err? ==> || (r.error == NoImage && exists svc :: svc in compose && Blank(compose[svc]))
                       || Blames(culprit, why, compose, promises, offline, r.error)
    ensures FineOrder(order, compose)
    ensures |docker.pulled| >= |old(docker.pulled)| && docker.pulled[..|old(docker.pulled)|] == old(docker.pulled)
    ensures PulledInOrder(docker.pulled[|old(docker.pulled)|..], order, promises)
    ensures r.Ok? ==> forall svc :: svc in compose ==> compose[svc] in order
    ensures r.Ok? ==> SortedByService(r.value) && PinsAll(r.value, compose, heard, promises, offline)
    ensures r.Ok? ==> forall svc :: svc in compose ==>
              !Blank(compose[svc]) && !Contradicts(compose[svc], Promised(promises, compose[svc]))
  {
    heard, order, culprit, why := map[], [], "", Heard(false, None);
    var services := ServiceImages(compose);
    if services.Err? {
      return Err(services.error), heard, order, culprit, why;
    }
    var failed, seen, local;
    ghost var pulls;
    failed, seen, local, heard, order, pulls, culprit, why := PullEach(docker, compose, promises, offline);
    assert docker.pulled[|old(docker.pulled)|..] == pulls;
    if failed.Some? {
      return Err(failed.value), heard, order, culprit, why;
    }
    var pins := CollectPins(compose, seen, local);
    SettledPins(pins, compose, seen, local, heard, promises, offline);
    SettledMeansNoContradiction(seen, local, heard, promises, offline);
    return Ok(pins), heard, order, culprit, why;
  }

  method CollectPins(services: map<string, string>, seen: map<string, string>, local: map<string, bool>)
    returns (pins: seq<ServicePin>)
    requires local.Keys == seen.Keys && forall svc :: svc in services ==> services[svc] in seen
    ensures SortedByService(pins) && |pins| == |services|
    ensures forall i :: 0 <= i < |pins| ==> PinIsFor(pins[i], services, seen, local)
    ensures forall svc :: svc in services ==> HasService(pins, svc)
  {
    pins := [];
    var todo := services.Keys;
    while todo != {}
      invariant todo <= services.Keys && |pins| + |todo| == |services|
      invariant SortedByService(pins)
      invariant forall p :: p in pins ==> PinIsFor(p, services, seen, local) && p.service !in todo
      invariant forall svc :: svc in services && svc !in todo ==> HasService(pins, svc)
      decreases todo
    {
      var svc :| svc in todo;
      var image := services[svc];
      var ref := Pin(image, seen[image]);
      if local[image] {
        ref := image;
      }
      var p := ServicePin(svc, image, seen[image], ref);
      InsertKeepsOrder(pins, p);
      StillHas(pins, p, services.Keys - todo);
      pins := InsertPin(pins, p);
      todo := todo - {svc};
    }
  }

  lemma StillHas(pins: seq<ServicePin>, p: ServicePin, svcs: set<string>)
    requires forall q :: q in InsertPin(pins, p) <==> q == p || q in pins
    requires forall svc :: svc in svcs ==> HasService(pins, svc)
    ensures forall svc :: svc in svcs + {p.service} ==> HasService(InsertPin(pins, p), svc)
  {
    var after := InsertPin(pins, p);
    forall svc | svc in svcs + {p.service} ensures HasService(after, svc) {
      var q := p;
      if svc != p.service {
        var i :| 0 <= i < |pins| && pins[i].service == svc;
        q := pins[i];
      }
      assert q in after;
      var j :| 0 <= j < |after| && after[j] == q;
    }
  }
}
