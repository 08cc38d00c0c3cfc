/** What both throttles share: buckets, requests on a clock that does not run backwards, and room in a window. */
module Buckets {
  import opened Options

  datatype Bucket = Bucket(tokens: real, last: real)
  datatype Request = Request(at: real, key: string)

  function Min(a: real, b: real): real { if a <= b then a else b }

  function Find(m: map<string, Bucket>, key: string): Option<Bucket> {
    if key in m then Some(m[key]) else None
  }

  function Spent(level: real): real { if level >= 1.0 then level - 1.0 else level }

  ghost predicate Rising(es: seq<Request>) {
    forall i, j :: 0 <= i < j < |es| ==> es[i].at <= es[j].at
  }

  /** No request of the run is later than `now`. */
  ghost predicate By(es: seq<Request>, now: real) {
    forall i :: 0 <= i < |es| ==> es[i].at <= now
  }

  /** May one more request join a window with so many granted and so much earned? */
  ghost predicate Room(capacity: real, granted: nat, earned: real) {
    granted as real + 1.0 <= capacity + earned
  }
}

/**
 The token bucket both throttles are made of: refilled lazily, on access, from the time
 that passed.

 The reasoning runs on the token clock, which ticks once per token earned and so needs no
 multiplication; the second half carries the results over to seconds.
 */
module TokenClock {
  import opened Options
  import opened Buckets

  ghost function Level(capacity: real, b: Option<Bucket>, now: real): real {
    if b.None? then capacity else Min(capacity, b.value.tokens + (now - b.value.last))
  }

  ghost function Run(capacity: real, es: seq<Request>): map<string, Bucket> {
    if es == [] then map[]
    else
      var m, e := Run(capacity, es[..|es| - 1]), es[|es| - 1];
      m[e.key := Bucket(Spent(Level(capacity, Find(m, e.key), e.at)), e.at)]
  }

  ghost predicate Allows(capacity: real, m: map<string, Bucket>, e: Request) {
    Level(capacity, Find(m, e.key), e.at) >= 1.0
  }

  /** How many of the key's requests from the i-th on were allowed. */
  ghost function Granted(capacity: real, es: seq<Request>, key: string, i: nat): nat {
    if |es| <= i then 0
    else
      var before, e := es[..|es| - 1], es[|es| - 1];
      Granted(capacity, before, key, i) + if e.key == key && Allows(capacity, Run(capacity, before), e) then 1 else 0
  }

  /** What a window from the i-th request until `now` has left of its allowance. */
  ghost function Left(capacity: real, es: seq<Request>, key: string, i: nat, now: real): real
    requires i < |es|
  {
    capacity + (now - es[i].at) - Granted(capacity, es, key, i) as real
  }

  lemma {:induction false} TokensInRange(capacity: real, es: seq<Request>, key: string, now: real)
    requires capacity >= 1.0 && Rising(es) && By(es, now)
    ensures 0.0 <= Level(capacity, Find(Run(capacity, es), key), now) <= capacity
    ensures key in Run(capacity, es) ==>
              Run(capacity, es)[key].last <= now && 0.0 <= Run(capacity, es)[key].tokens <= capacity
  {
    if es != [] {
      TokensInRange(capacity, es[..|es| - 1], key, es[|es| - 1].at);
    }
  }

  /** No window since one of the run's requests has fewer left, and unless the bucket is full some window has exactly that much left. */
  ghost predicate Tightest(capacity: real, es: seq<Request>, key: string, now: real, level: real) {
    && (forall i :: 0 <= i < |es| ==> level <= Left(capacity, es, key, i, now))
    && (level == capacity || exists i :: 0 <= i < |es| && level == Left(capacity, es, key, i, now))
  }

  /** The key's own request: every window loses what the request took and gains what was earned since. */
  lemma OwnRequestKeepsTightest(capacity: real, es: seq<Request>, now: real, was: real, level: real)
    requires es != [] && es[|es| - 1].at <= now && was <= capacity
    requires var before, e := es[..|es| - 1], es[|es| - 1];
             && was == Level(capacity, Find(Run(capacity, before), e.key), e.at)
             && Tightest(capacity, before, e.key, e.at, was)
             && level == Min(capacity, Spent(was) + (now - e.at))
    ensures Tightest(capacity, es, es[|es| - 1].key, now, level)
  {
    var n := |es| - 1;
    var before, e := es[..n], es[n];
    assert Granted(capacity, before, e.key, n) == 0;
    forall i | 0 <= i < n
      ensures Left(capacity, es, e.key, i, now) == Left(capacity, before, e.key, i, e.at) - (was - Spent(was)) + (now - e.at)
    {
    }
    assert Left(capacity, es, e.key, n, now) == capacity - (was - Spent(was)) + (now - e.at);
    if level != capacity {
      if was == capacity {
        assert level == Left(capacity, es, e.key, n, now);
      } else {
        var i :| 0 <= i < n && was == Left(capacity, before, e.key, i, e.at);
        assert level == Left(capacity, es, e.key, i, now);
      }
    }
  }

  /** Another key's request adds only a window that has everything left. */
  lemma OtherRequestKeepsTightest(capacity: real, es: seq<Request>, key: string, now: real, level: real)
    requires es != [] && es[|es| - 1].key != key && es[|es| - 1].at <= now && level <= capacity
    requires Tightest(capacity, es[..|es| - 1], key, now, level)
    ensures Tightest(capacity, es, key, now, level)
  {
    var n := |es| - 1;
    var before := es[..n];
    assert Granted(capacity, before, key, n) == 0;
    assert forall i :: 0 <= i < n ==> Left(capacity, es, key, i, now) == Left(capacity, before, key, i, now);
    if level != capacity {
      var i :| 0 <= i < n && level == Left(capacity, before, key, i, now);
      assert level == Left(capacity, es, key, i, now);
    }
  }

  /** The lazily refilled level is the tightest window of the run. */
  lemma {:induction false} LevelIsTightestWindow(capacity: real, es: seq<Request>, key: string, now: real)
    requires capacity >= 1.0 && Rising(es) && By(es, now)
    ensures Tightest(capacity, es, key, now, Level(capacity, Find(Run(capacity, es), key), now))
  {
    if es != [] {
      var before, e := es[..|es| - 1], es[|es| - 1];
      var level := Level(capacity, Find(Run(capacity, es), key), now);
      if e.key == key {
        LevelIsTightestWindow(capacity, before, key, e.at);
        OwnRequestKeepsTightest(capacity, es, now, Level(capacity, Find(Run(capacity, before), key), e.at), level);
      } else {
        LevelIsTightestWindow(capacity, before, key, now);
        OtherRequestKeepsTightest(capacity, es, key, now, level);
      }
    }
  }

  lemma WindowsDecide(capacity: real, es: seq<Request>, key: string, now: real)
    requires capacity >= 1.0 && Rising(es) && By(es, now)
    ensures Level(capacity, Find(Run(capacity, es), key), now) >= 1.0 <==>
            forall i :: 0 <= i < |es| ==> Room(capacity, Granted(capacity, es, key, i), now - es[i].at)
    ensures forall i :: 0 <= i < |es| ==> Granted(capacity, es, key, i) as real <= capacity + (now - es[i].at)
  {
    LevelIsTightestWindow(capacity, es, key, now);
    TokensInRange(capacity, es, key, now);
    var level := Level(capacity, Find(Run(capacity, es), key), now);
    forall i | 0 <= i < |es|
      ensures 0.0 <= level <= capacity + (now - es[i].at) - Granted(capacity, es, key, i) as real
    {
      assert level <= Left(capacity, es, key, i, now);
    }
    if level < 1.0 {
      var i :| 0 <= i < |es| && level == Left(capacity, es, key, i, now);
      assert !Room(capacity, Granted(capacity, es, key, i), now - es[i].at);
    }
  }
}

module TokenBucket {
  import opened Options
  import opened Buckets
  import C = TokenClock

  datatype Plan = Plan(capacity: real, rate: real)
  datatype Decision = Allowed | Refused(wait: real)

  ghost predicate Sane(p: Plan) { p.capacity >= 1.0 && p.rate > 0.0 }

  /** The tokens there are at a time; a key never seen starts full. */
  function Level(p: Plan, b: Option<Bucket>, now: real): real {
    match b
    case None => p.capacity
    case Some(b) => if now - b.last > 0.0 then Min(p.capacity, b.tokens + (now - b.last) * p.rate) else b.tokens
  }

  /** A clock that stood still or went back leaves the bucket's own time. */
  function Touched(b: Option<Bucket>, now: real): real {
    if b.Some? && now - b.value.last <= 0.0 then b.value.last else now
  }

  function Spend(p: Plan, b: Option<Bucket>, now: real): Bucket {
    Bucket(Spent(Level(p, b, now)), Touched(b, now))
  }

  /** Is there a whole token? */
  predicate Allows(p: Plan, b: Option<Bucket>, now: real) { Level(p, b, now) >= 1.0 }

  function Decide(p: Plan, b: Option<Bucket>, now: real): Decision
    requires p.rate > 0.0
  {
    if Allows(p, b, now) then Allowed else Refused((1.0 - Level(p, b, now)) / p.rate)
  }

  /** A run against buckets that are never evicted. */
  function Run(p: Plan, es: seq<Request>): map<string, Bucket> {
    if es == [] then map[]
    else
      var m, e := Run(p, es[..|es| - 1]), es[|es| - 1];
      m[e.key := Spend(p, Find(m, e.key), e.at)]
  }

  function Answer(p: Plan, es: seq<Request>, e: Request): Decision
    requires p.rate > 0.0
  {
    Decide(p, Find(Run(p, es), e.key), e.at)
  }

  /** How many of the key's requests from the i-th on were allowed. */
  ghost function Granted(p: Plan, es: seq<Request>, key: string, i: nat): nat {
    if |es| <= i then 0
    else
      var before, e := es[..|es| - 1], es[|es| - 1];
      Granted(p, before, key, i) + if e.key == key && Allows(p, Find(Run(p, before), key), e.at) then 1 else 0
  }

  // ----- From the token clock to seconds -----

  ghost function Tick(p: Plan, now: real): real { now * p.rate }

  ghost function Ticks(p: Plan, es: seq<Request>): (r: seq<Request>)
    ensures |r| == |es| && forall i :: 0 <= i < |es| ==> r[i] == Request(Tick(p, es[i].at), es[i].key)
  {
    seq(|es|, i requires 0 <= i < |es| => Request(Tick(p, es[i].at), es[i].key))
  }

  lemma TickRises(p: Plan, a: real, b: real)
    requires p.rate > 0.0
    ensures a <= b <==> Tick(p, a) <= Tick(p, b)
    ensures Tick(p, b) - Tick(p, a) == (b - a) * p.rate
  {
    if a < b { assert (b - a) * p.rate > 0.0; }
    if b < a { assert (a - b) * p.rate > 0.0; }
  }

  lemma TicksRise(p: Plan, es: seq<Request>, now: real)
    requires p.rate > 0.0 && Rising(es) && By(es, now)
    ensures Rising(Ticks(p, es)) && By(Ticks(p, es), Tick(p, now))
  {
    forall i, j | 0 <= i < j < |es| ensures Ticks(p, es)[i].at <= Ticks(p, es)[j].at {
      TickRises(p, es[i].at, es[j].at);
    }
    forall i | 0 <= i < |es| ensures Ticks(p, es)[i].at <= Tick(p, now) {
      TickRises(p, es[i].at, now);
    }
  }

  ghost function Ticked(p: Plan, b: Option<Bucket>): Option<Bucket> {
    if b.None? then None else Some(Bucket(b.value.tokens, Tick(p, b.value.last)))
  }

  lemma LevelTicks(p: Plan, b: Option<Bucket>, now: real)
    requires Sane(p) && (b.Some? ==> b.value.tokens <= p.capacity && b.value.last <= now)
    ensures C.Level(p.capacity, Ticked(p, b), Tick(p, now)) == Level(p, b, now)
  {
    if b.Some? { TickRises(p, b.value.last, now); }
  }

  /** The bucket of seconds is the bucket of the token clock. */
  lemma {:induction false} RunTicks(p: Plan, es: seq<Request>, key: string, now: real)
    requires Sane(p) && Rising(es) && By(es, now)
    ensures Ticked(p, Find(Run(p, es), key)) == Find(C.Run(p.capacity, Ticks(p, es)), key)
    ensures key in Run(p, es) ==> Run(p, es)[key].last <= now && 0.0 <= Run(p, es)[key].tokens <= p.capacity
    ensures Level(p, Find(Run(p, es), key), now)
         == C.Level(p.capacity, Find(C.Run(p.capacity, Ticks(p, es)), key), Tick(p, now))
  {
    if es != [] {
      var before, e := es[..|es| - 1], es[|es| - 1];
      assert Ticks(p, before) == Ticks(p, es)[..|es| - 1];
      RunTicks(p, before, key, e.at);
    }
    TicksRise(p, es, now);
    C.TokensInRange(p.capacity, Ticks(p, es), key, Tick(p, now));
    if key in Run(p, es) {
      TickRises(p, Run(p, es)[key].last, now);
    }
    LevelTicks(p, Find(Run(p, es), key), now);
  }

  lemma {:induction false} GrantedTicks(p: Plan, es: seq<Request>, key: string, i: nat)
    requires Sane(p) && Rising(es)
    ensures Granted(p, es, key, i) == C.Granted(p.capacity, Ticks(p, es), key, i)
  {
    if |es| > i {
      var before, e := es[..|es| - 1], es[|es| - 1];
      assert Ticks(p, before) == Ticks(p, es)[..|es| - 1];
      GrantedTicks(p, before, key, i);
      RunTicks(p, before, e.key, e.at);
    }
  }

  // ----- What a bucket promises -----

  /** A run, told on the token clock. */
  lemma OnTheTokenClock(p: Plan, es: seq<Request>, key: string, now: real) returns (ts: seq<Request>, t: real)
    requires Sane(p) && Rising(es) && By(es, now)
    ensures |ts| == |es| && Rising(ts) && By(ts, t)
    ensures Level(p, Find(Run(p, es), key), now) == C.Level(p.capacity, Find(C.Run(p.capacity, ts), key), t)
    ensures forall i :: 0 <= i < |es| ==> Granted(p, es, key, i) == C.Granted(p.capacity, ts, key, i)
    ensures forall i :: 0 <= i < |es| ==> t - ts[i].at == (now - es[i].at) * p.rate
  {
    ts, t := Ticks(p, es), Tick(p, now);
    TicksRise(p, es, now);
    RunTicks(p, es, key, now);
    GrantsTick(p, es, key);
    WindowsTick(p, es, now);
  }

  lemma GrantsTick(p: Plan, es: seq<Request>, key: string)
    requires Sane(p) && Rising(es)
    ensures forall i :: 0 <= i < |es| ==> Granted(p, es, key, i) == C.Granted(p.capacity, Ticks(p, es), key, i)
  {
    forall i | 0 <= i < |es| ensures Granted(p, es, key, i) == C.Granted(p.capacity, Ticks(p, es), key, i) {
      GrantedTicks(p, es, key, i);
    }
  }

  lemma WindowsTick(p: Plan, es: seq<Request>, now: real)
    requires p.rate > 0.0
    ensures forall i :: 0 <= i < |es| ==> Tick(p, now) - Ticks(p, es)[i].at == (now - es[i].at) * p.rate
  {
    forall i | 0 <= i < |es| ensures Tick(p, now) - Ticks(p, es)[i].at == (now - es[i].at) * p.rate {
      TickRises(p, es[i].at, now);
    }
  }

  /**
   A request is allowed exactly when every window since an earlier request, this one
   counted, stays within capacity plus rate times elapsed time.
   */
  lemma AllowedIffEveryWindowFits(p: Plan, es: seq<Request>, key: string, now: real)
    requires Sane(p) && Rising(es) && By(es, now)
    ensures Allows(p, Find(Run(p, es), key), now) <==>
            forall i :: 0 <= i < |es| ==> Room(p.capacity, Granted(p, es, key, i), (now - es[i].at) * p.rate)
  {
    var ts, t := OnTheTokenClock(p, es, key, now);
    C.WindowsDecide(p.capacity, ts, key, t);
    forall i | 0 <= i < |es|
      ensures Room(p.capacity, Granted(p, es, key, i), (now - es[i].at) * p.rate) <==>
              Room(p.capacity, C.Granted(p.capacity, ts, key, i), t - ts[i].at)
    {
    }
  }

  /** In every run, for every key and from any request on, at most capacity plus rate times elapsed time requests are allowed. */
  lemma AllowedAtMost(p: Plan, es: seq<Request>, key: string, i: nat, now: real)
    requires Sane(p) && Rising(es) && By(es, now) && i < |es|
    ensures Granted(p, es, key, i) as real <= p.capacity + (now - es[i].at) * p.rate
  {
    var ts, t := OnTheTokenClock(p, es, key, now);
    C.WindowsDecide(p.capacity, ts, key, t);
    assert Granted(p, es, key, i) == C.Granted(p.capacity, ts, key, i);
    assert t - ts[i].at == (now - es[i].at) * p.rate;
  }

  lemma {:induction false} OthersLeaveBucketAlone(p: Plan, es: seq<Request>, others: seq<Request>, key: string)
    requires forall i :: 0 <= i < |others| ==> others[i].key != key
    ensures Find(Run(p, es + others), key) == Find(Run(p, es), key)
  {
    if others == [] {
      assert es + others == es;
    } else {
      var before := others[..|others| - 1];
      assert (es + others)[..|es + others| - 1] == es + before;
      OthersLeaveBucketAlone(p, es, before, key);
    }
  }

  /** Looking at a bucket in between changes nothing. */
  lemma LevelInBetween(p: Plan, b: Bucket, now: real, again: real)
    requires Sane(p) && b.tokens <= p.capacity && b.last <= now <= again
    ensures Level(p, Some(b), again) == Level(p, Some(Bucket(Level(p, Some(b), now), now)), again)
  {
    TickRises(p, b.last, now);
    TickRises(p, b.last, again);
    TickRises(p, now, again);
  }

  /** A bucket has a token again exactly when the wait it last named has passed. */
  lemma WaitFromLevel(p: Plan, b: Option<Bucket>, now: real, again: real)
    requires Sane(p) && now <= again && (b.Some? ==> b.value.tokens <= p.capacity && b.value.last <= now)
    ensures var d := Decide(p, b, now);
            Allows(p, b, again) <==> d.Allowed? || again >= now + d.wait
  {
    if b.Some? {
      LevelInBetween(p, b.value, now, again);
      var level := Level(p, b, now);
      if level >= 1.0 {
        TickRises(p, now, again);
      } else {
        WaitArithmetic(p, level, now, again);
      }
    }
  }

  lemma WaitArithmetic(p: Plan, level: real, from: real, to: real)
    requires Sane(p) && level < 1.0 && from <= to
    ensures Level(p, Some(Bucket(level, from)), to) >= 1.0 <==> to >= from + (1.0 - level) / p.rate
  {
    var elapsed := to - from;
    assert Level(p, Some(Bucket(level, from)), to) == if elapsed > 0.0 then Min(p.capacity, level + elapsed * p.rate) else level;
    EarnsEnough(p.rate, 1.0 - level, elapsed);
    assert elapsed == 0.0 ==> elapsed * p.rate == 0.0;
  }

  lemma EarnsEnough(rate: real, need: real, elapsed: real)
    requires rate > 0.0
    ensures elapsed * rate >= need <==> elapsed >= need / rate
  {
    var wait := need / rate;
    assert wait * rate == need;
    MoreIsMore(rate, wait, elapsed);
    MoreIsMore(rate, elapsed, wait);
  }

  lemma MoreIsMore(rate: real, a: real, b: real)
    requires rate > 0.0
    ensures a < b ==> a * rate < b * rate
  {
    assert a < b ==> (b - a) * rate > 0.0;
    assert (b - a) * rate == b * rate - a * rate;
  }

  /**
   The delay is exact: a refused caller that stays away is next allowed once it has waited
   the delay and not before, whatever other keys do meanwhile.
   */
  lemma WaitIsExact(p: Plan, es: seq<Request>, e: Request, others: seq<Request>, again: Request)
    requires Sane(p) && Rising(es + [e] + others + [again]) && again.key == e.key
    requires forall i :: 0 <= i < |others| ==> others[i].key != e.key
    requires Answer(p, es, e).Refused?
    ensures Answer(p, es + [e] + others, again).Allowed? <==> again.at >= e.at + Answer(p, es, e).wait
  {
    var all := es + [e] + others + [again];
    assert all[|es|] == e && all[|all| - 1] == again;
    assert Rising(es) && By(es, e.at) by {
      assert forall i :: 0 <= i < |es| ==> es[i] == all[i];
    }
    RunTicks(p, es, e.key, e.at);
    var level := Level(p, Find(Run(p, es), e.key), e.at);
    OthersLeaveBucketAlone(p, es + [e], others, e.key);
    assert (es + [e])[..|es|] == es;
    assert Find(Run(p, es + [e]), e.key) == Some(Bucket(level, e.at));
    WaitArithmetic(p, level, e.at, again.at);
  }
}
