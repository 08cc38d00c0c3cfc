/**
 The request-rate limiter: one bucket per key, idle buckets swept now and then. The
 reference is the same limiter without eviction, `TokenBucket.Run`.
 */
module RateLimit {
  import opened Options
  import opened Buckets
  import T = TokenBucket

  const IDLE_TTL := 300.0
  const REAP_EVERY := 300.0

  /** Plane 1, per session: 120 requests a minute, burst 60. */
  const SESSION := T.Plan(60.0, 120.0 / 60.0)

  /** Plane 2, per address: 30 requests a minute. */
  const ADDRESS := T.Plan(30.0, 30.0 / 60.0)

  datatype State = State(buckets: map<string, Bucket>, lastReap: real)

  predicate Idle(b: Bucket, now: real) { now - b.last > IDLE_TTL }

  function Kept(m: map<string, Bucket>, now: real): map<string, Bucket> {
    map k | k in m && !Idle(m[k], now) :: m[k]
  }

  function Reap(s: State, now: real): State {
    if now - s.lastReap >= REAP_EVERY then State(Kept(s.buckets, now), now) else s
  }

  function Step(p: T.Plan, s: State, e: Request): State {
    var s' := Reap(s, e.at);
    s'.(buckets := s'.buckets[e.key := T.Spend(p, Find(s'.buckets, e.key), e.at)])
  }

  function Run(p: T.Plan, start: real, es: seq<Request>): State {
    if es == [] then State(map[], start) else Step(p, Run(p, start, es[..|es| - 1]), es[|es| - 1])
  }

  function Answer(p: T.Plan, s: State, e: Request): T.Decision
    requires p.rate > 0.0
  {
    T.Decide(p, Find(Reap(s, e.at).buckets, e.key), e.at)
  }

  /** A bucket may go once it has surely filled up again. */
  ghost predicate SweepsOnlyFull(p: T.Plan) {
    T.Sane(p) && IDLE_TTL * p.rate >= p.capacity
  }

  lemma BothPlanesSweepOnlyFull()
    ensures SweepsOnlyFull(SESSION) && SweepsOnlyFull(ADDRESS)
  {
    assert SESSION.rate == 2.0 && ADDRESS.rate == 0.5;
  }

  lemma IdleIsFull(p: T.Plan, b: Bucket, now: real)
    requires SweepsOnlyFull(p) && b.tokens >= 0.0 && Idle(b, now)
    ensures T.Level(p, Some(b), now) == p.capacity
  {
    T.TickRises(p, IDLE_TTL, now - b.last);
  }

  /** What is still there is as it would be, and what is gone was idle, and stays so. */
  ghost predicate Mirrors(s: State, m: map<string, Bucket>, now: real) {
    && (forall k :: k in s.buckets ==> k in m && s.buckets[k] == m[k])
    && (forall k :: k in m && k !in s.buckets ==> Idle(m[k], now))
  }

  lemma ReapMirrors(s: State, m: map<string, Bucket>, before: real, now: real)
    requires Mirrors(s, m, before) && before <= now
    ensures Mirrors(Reap(s, now), m, now)
  {
  }

  /** A swept key gets the bucket it would have had. */
  lemma SweptSpendsAlike(p: T.Plan, s: State, m: map<string, Bucket>, e: Request)
    requires SweepsOnlyFull(p) && Mirrors(s, m, e.at)
    requires e.key in m ==> 0.0 <= m[e.key].tokens && m[e.key].last <= e.at
    ensures T.Spend(p, Find(s.buckets, e.key), e.at) == T.Spend(p, Find(m, e.key), e.at)
    ensures T.Decide(p, Find(s.buckets, e.key), e.at) == T.Decide(p, Find(m, e.key), e.at)
  {
    if e.key in m && e.key !in s.buckets {
      IdleIsFull(p, m[e.key], e.at);
    }
  }

  lemma {:induction false} RunMirrors(p: T.Plan, start: real, es: seq<Request>, now: real)
    requires SweepsOnlyFull(p) && Rising(es) && By(es, now)
    ensures Mirrors(Run(p, start, es), T.Run(p, es), now)
  {
    if es != [] {
      var before, e := es[..|es| - 1], es[|es| - 1];
      RunMirrors(p, start, before, e.at);
      ReapMirrors(Run(p, start, before), T.Run(p, before), e.at, e.at);
      T.RunTicks(p, before, e.key, e.at);
      SweptSpendsAlike(p, Reap(Run(p, start, before), e.at), T.Run(p, before), e);
    }
  }

  /** On every run the swept limiter decides, and delays, as one that never evicts. */
  lemma SweepIsInvisible(p: T.Plan, start: real, es: seq<Request>, e: Request)
    requires SweepsOnlyFull(p) && Rising(es) && By(es, e.at)
    ensures Answer(p, Run(p, start, es), e) == T.Answer(p, es, e)
  {
    RunMirrors(p, start, es, e.at);
    ReapMirrors(Run(p, start, es), T.Run(p, es), e.at, e.at);
    T.RunTicks(p, es, e.key, e.at);
    SweptSpendsAlike(p, Reap(Run(p, start, es), e.at), T.Run(p, es), e);
  }

  /** How many of the key's requests from the i-th on the limiter allowed. */
  ghost function Granted(p: T.Plan, start: real, es: seq<Request>, key: string, i: nat): nat
    requires p.rate > 0.0
  {
    if |es| <= i then 0
    else
      var before, e := es[..|es| - 1], es[|es| - 1];
      Granted(p, start, before, key, i)
      + if e.key == key && Answer(p, Run(p, start, before), e).Allowed? then 1 else 0
  }

  lemma {:induction false} GrantsAlike(p: T.Plan, start: real, es: seq<Request>, key: string, i: nat)
    requires SweepsOnlyFull(p) && Rising(es)
    ensures Granted(p, start, es, key, i) == T.Granted(p, es, key, i)
  {
    if |es| > i {
      var before, e := es[..|es| - 1], es[|es| - 1];
      GrantsAlike(p, start, before, key, i);
      SweepIsInvisible(p, start, before, e);
    }
  }

  /** So whatever a bucket promises, the limiter promises: the bound over any window, */
  lemma LimiterAllowsAtMost(p: T.Plan, start: real, es: seq<Request>, key: string, i: nat, now: real)
    requires SweepsOnlyFull(p) && Rising(es) && By(es, now) && i < |es|
    ensures Granted(p, start, es, key, i) as real <= p.capacity + (now - es[i].at) * p.rate
  {
    GrantsAlike(p, start, es, key, i);
    T.AllowedAtMost(p, es, key, i, now);
  }

  /** that a request is refused only where some window is used up, */
  lemma LimiterAllowsIffEveryWindowFits(p: T.Plan, start: real, es: seq<Request>, key: string, now: real)
    requires SweepsOnlyFull(p) && Rising(es) && By(es, now)
    ensures Answer(p, Run(p, start, es), Request(now, key)).Allowed? <==>
            forall i :: 0 <= i < |es| ==> Room(p.capacity, Granted(p, start, es, key, i), (now - es[i].at) * p.rate)
  {
    SweepIsInvisible(p, start, es, Request(now, key));
    T.AllowedIffEveryWindowFits(p, es, key, now);
    forall i | 0 <= i < |es| ensures Granted(p, start, es, key, i) == T.Granted(p, es, key, i) {
      GrantsAlike(p, start, es, key, i);
    }
  }

  /** and that the delay is exact. */
  lemma LimiterWaitIsExact(p: T.Plan, start: real, es: seq<Request>, e: Request, others: seq<Request>, again: Request)
    requires SweepsOnlyFull(p) && Rising(es + [e] + others + [again]) && again.key == e.key
    requires forall i :: 0 <= i < |others| ==> others[i].key != e.key
    requires Answer(p, Run(p, start, es), e).Refused?
    ensures Answer(p, Run(p, start, es + [e] + others), again).Allowed? <==>
            again.at >= e.at + Answer(p, Run(p, start, es), e).wait
  {
    var most := es + [e] + others;
    assert Rising(most) && By(most, again.at) && Rising(es) && By(es, e.at) by {
      var all := most + [again];
      assert forall i :: 0 <= i < |most| ==> most[i] == all[i];
      assert forall i :: 0 <= i < |es| ==> es[i] == all[i];
      assert all[|es|] == e && all[|most|] == again;
    }
    SweepIsInvisible(p, start, es, e);
    SweepIsInvisible(p, start, most, again);
    T.WaitIsExact(p, es, e, others, again);
  }

  /** The two planes: a session gets 60 at once and two a second, an address 30 and one every two seconds. */
  lemma PlanesAllowAtMost(start: real, es: seq<Request>, key: string, i: nat, now: real)
    requires Rising(es) && By(es, now) && i < |es|
    ensures Granted(SESSION, start, es, key, i) as real <= 60.0 + 2.0 * (now - es[i].at)
    ensures Granted(ADDRESS, start, es, key, i) as real <= 30.0 + 0.5 * (now - es[i].at)
  {
    BothPlanesSweepOnlyFull();
    LimiterAllowsAtMost(SESSION, start, es, key, i, now);
    LimiterAllowsAtMost(ADDRESS, start, es, key, i, now);
  }

  /** Sweeping keeps the map small: after every request each bucket was used, and the map swept, not long ago. */
  ghost predicate Recent(s: State, now: real) {
    0.0 <= now - s.lastReap < 300.0 && forall k :: k in s.buckets ==> s.lastReap - s.buckets[k].last <= 300.0
  }

  lemma StepKeepsRecent(p: T.Plan, s: State, e: Request)
    requires s.lastReap <= e.at
    requires forall k :: k in s.buckets ==> s.buckets[k].last <= e.at && s.lastReap - s.buckets[k].last <= 300.0
    ensures Recent(Step(p, s, e), e.at)
    ensures forall k :: k in Step(p, s, e).buckets ==> Step(p, s, e).buckets[k].last <= e.at
  {
  }

  /** So no bucket is ever kept that has been idle for ten minutes. */
  lemma {:induction false} NoBucketStaysIdle(p: T.Plan, start: real, es: seq<Request>)
    requires Rising(es) && es != [] && start <= es[0].at
    ensures var now := es[|es| - 1].at;
            && Recent(Run(p, start, es), now)
            && forall k :: k in Run(p, start, es).buckets ==> 0.0 <= now - Run(p, start, es).buckets[k].last < 600.0
  {
    var before, e := es[..|es| - 1], es[|es| - 1];
    if before != [] { NoBucketStaysIdle(p, start, before); }
    StepKeepsRecent(p, Run(p, start, before), e);
  }

  class BucketSet {
    const plan: T.Plan
    var buckets: map<string, Bucket>
    var lastReap: real

    ghost function Value(): State reads this { State(buckets, lastReap) }

    constructor (plan: T.Plan, now: real)
      ensures this.plan == plan && Value() == State(map[], now)
    {
      this.plan := plan;
      buckets := map[];
      lastReap := now;
    }

    /** Takes one token for the key. */
    method Allow(key: string, now: real) returns (ok: bool, retry: real)
      requires T.Sane(plan)
      modifies this
      ensures Value() == Step(plan, old(Value()), Request(now, key))
      ensures var answer := Answer(plan, old(Value()), Request(now, key));
              (ok <==> answer.Allowed?) && retry == if ok then 0.0 else answer.wait
    {
      if now - lastReap >= REAP_EVERY {
        lastReap := now;
        SweepLocked(now);
      }
      ghost var reaped := buckets;
      assert State(buckets, lastReap) == Reap(old(Value()), now);
      var b;
      if key !in buckets {
        b := Bucket(plan.capacity, now);
      } else {
        b := buckets[key];
        if now - b.last > 0.0 {
          b := Bucket(Min(plan.capacity, b.tokens + (now - b.last) * plan.rate), now);
        }
      }
      assert b == Bucket(T.Level(plan, Find(reaped, key), now), T.Touched(Find(reaped, key), now));
      if b.tokens >= 1.0 {
        buckets := buckets[key := b.(tokens := b.tokens - 1.0)];
        return true, 0.0;
      }
      buckets := buckets[key := b];
      return false, (1.0 - b.tokens) / plan.rate;
    }

    /** Drops every bucket idle for longer than the time-to-live. */
    method SweepLocked(now: real)
      modifies this`buckets
      ensures buckets == Kept(old(buckets), now)
    {
      var todo := buckets.Keys;
      while todo != {}
        invariant todo <= old(buckets).Keys
        invariant buckets == map k | k in old(buckets) && (k in todo || !Idle(old(buckets)[k], now)) :: old(buckets)[k]
        decreases todo
      {
        var k :| k in todo;
        if now - buckets[k].last > IDLE_TTL {
          buckets := buckets - {k};
        }
        todo := todo - {k};
      }
    }
  }
}
