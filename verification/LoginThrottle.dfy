/**
 The login throttle: a token bucket per address, an escalating wait per username. The
 three calls interleave freely between users and addresses.
 */
module LoginThrottle {
  import opened Options
  import opened Buckets
  import T = TokenBucket

  const LOCK_THRESHOLD := 20

  /** Ten attempts a minute per address. */
  const ADDRESS := T.Plan(10.0, 10.0 / 60.0)

  datatype Attempts = Attempts(fails: nat, lastFail: real)

  /** The wait since the last failure, in seconds. */
  function Backoff(fails: nat): real {
    if fails >= LOCK_THRESHOLD then 900.0
    else if fails >= 10 then 60.0
    else if fails >= 5 then 10.0
    else if fails >= 3 then 1.0
    else 0.0
  }

  datatype State = State(users: map<string, Attempts>, ips: map<string, Bucket>)

  datatype Event =
    | Allow(user: string, ip: string, at: real)
    | Fail(user: string, at: real)
    | Succeed(user: string, at: real)

  /** Zero where the address has a token. */
  function AddressWait(s: State, ip: string, now: real): real { BucketWait(Find(s.ips, ip), now) }

  function BucketWait(b: Option<Bucket>, now: real): real {
    var d := T.Decide(ADDRESS, b, now);
    if d.Allowed? then 0.0 else d.wait
  }

  /** Zero where the username may try now. */
  function UserWait(s: State, user: string, now: real): real {
    if user !in s.users || s.users[user].fails == 0 then 0.0
    else
      var delay, elapsed := Backoff(s.users[user].fails), now - s.users[user].lastFail;
      if delay != 0.0 && elapsed < delay then delay - elapsed else 0.0
  }

  /** What AllowAttempt answers: zero to go ahead, otherwise how long to wait. */
  function Wait(s: State, user: string, ip: string, now: real): real {
    if AddressWait(s, ip, now) > 0.0 then AddressWait(s, ip, now) else UserWait(s, user, now)
  }

  function Failed(s: State, user: string, now: real): Attempts {
    Attempts((if user in s.users then s.users[user].fails else 0) + 1, now)
  }

  /** Does this event report that the account was locked just now? */
  predicate Locks(s: State, e: Event) {
    e.Fail? && Failed(s, e.user, e.at).fails == LOCK_THRESHOLD
  }

  function Step(s: State, e: Event): State {
    match e
    case Allow(user, ip, at) => s.(ips := s.ips[ip := T.Spend(ADDRESS, Find(s.ips, ip), at)])
    case Fail(user, at) => s.(users := s.users[user := Failed(s, user, at)])
    case Succeed(user, at) => s.(users := s.users - {user})
  }

  function Run(es: seq<Event>): State {
    if es == [] then State(map[], map[]) else Step(Run(es[..|es| - 1]), es[|es| - 1])
  }

  ghost predicate Ascending(es: seq<Event>) {
    forall i, j :: 0 <= i < j < |es| ==> es[i].at <= es[j].at
  }

  // ----- One username -----

  /** The times of a username's failures since its last success. */
  ghost function FailTimes(es: seq<Event>, user: string): seq<real> {
    if es == [] then []
    else
      var before, e := es[..|es| - 1], es[|es| - 1];
      if e.Fail? && e.user == user then FailTimes(before, user) + [e.at]
      else if e.Succeed? && e.user == user then []
      else FailTimes(before, user)
  }

  /** Whatever others do, a username's entry tells the number and the latest of its own failures. */
  lemma {:induction false} EntryCountsOwnFailures(es: seq<Event>, user: string)
    ensures var times, users := FailTimes(es, user), Run(es).users;
            if times == [] then user !in users
            else user in users && users[user] == Attempts(|times|, times[|times| - 1])
  {
    if es != [] {
      EntryCountsOwnFailures(es[..|es| - 1], user);
    }
  }

  /** Was an attempt of the user let through since its last failure? */
  ghost predicate Pending(es: seq<Event>, user: string) {
    if es == [] then false
    else
      var before, e := es[..|es| - 1], es[|es| - 1];
      if e.Allow? && e.user == user && Wait(Run(before), user, e.ip, e.at) == 0.0 then true
      else if e.Fail? && e.user == user then false
      else Pending(before, user)
  }

  /** Attempts on the username come one after the other: a failure is that of an attempt let through since the failure before. */
  ghost predicate Sequential(es: seq<Event>, user: string) {
    es != [] ==>
      var before, e := es[..|es| - 1], es[|es| - 1];
      Sequential(before, user) && (e.Fail? && e.user == user ==> Pending(before, user))
  }

  ghost predicate Spaced(times: seq<real>) {
    forall k :: 0 < k < |times| ==> times[k] - times[k - 1] >= Backoff(k)
  }

  lemma {:induction false} PendingWaited(es: seq<Event>, user: string, now: real)
    requires Ascending(es) && (forall i :: 0 <= i < |es| ==> es[i].at <= now) && Pending(es, user)
    ensures var times := FailTimes(es, user);
            times != [] ==> now - times[|times| - 1] >= Backoff(|times|)
  {
    var before, e := es[..|es| - 1], es[|es| - 1];
    EntryCountsOwnFailures(before, user);
    if !(e.Allow? && e.user == user && Wait(Run(before), user, e.ip, e.at) == 0.0) {
      PendingWaited(before, user, now);
    } else {
      LetThrough(before, e);
    }
  }

  lemma {:induction false} FailedBy(es: seq<Event>, user: string, now: real)
    requires forall i :: 0 <= i < |es| ==> es[i].at <= now
    ensures forall k :: 0 <= k < |FailTimes(es, user)| ==> FailTimes(es, user)[k] <= now
  {
    if es != [] { FailedBy(es[..|es| - 1], user, now); }
  }

  /** Both gates must be open. */
  lemma LetThrough(before: seq<Event>, e: Event)
    requires e.Allow? && Wait(Run(before), e.user, e.ip, e.at) == 0.0
    requires forall i :: 0 <= i < |before| ==> before[i].at <= e.at
    ensures var times := FailTimes(before, e.user);
            times != [] ==> e.at - times[|times| - 1] >= Backoff(|times|)
  {
    EntryCountsOwnFailures(before, e.user);
    FailedBy(before, e.user, e.at);
  }

  /** With sequential attempts the k-th failure is followed by the next no sooner than its backoff. */
  lemma {:induction false} FailuresAreSpaced(es: seq<Event>, user: string)
    requires Ascending(es) && Sequential(es, user)
    ensures Spaced(FailTimes(es, user))
  {
    if es != [] {
      var before, e := es[..|es| - 1], es[|es| - 1];
      FailuresAreSpaced(before, user);
      if e.Fail? && e.user == user {
        PendingWaited(before, user, e.at);
      }
    }
  }

  /** The least time from the first to the n-th failure. */
  ghost function Escalation(n: nat): real {
    if n <= 1 then 0.0 else Escalation(n - 1) + Backoff(n - 1)
  }

  lemma {:induction false} SpacedAddsUp(times: seq<real>, n: nat)
    requires Spaced(times) && n < |times|
    ensures times[n] - times[0] >= Escalation(n + 1)
  {
    if n > 0 { SpacedAddsUp(times, n - 1); }
  }

  lemma EscalationToLock()
    ensures Escalation(20) == 652.0
  {
    assert Escalation(5) == 2.0;
    assert Escalation(10) == 52.0 by { assert Escalation(7) == 22.0; }
    assert Escalation(13) == 232.0 by { assert Escalation(11) == 112.0; }
    assert Escalation(17) == 472.0 by { assert Escalation(15) == 352.0; }
  }

  /** Guessing one account: the twentieth failure comes 652 seconds after the first, every later one 900 after the one before. */
  lemma GuessingIsSlow(es: seq<Event>, user: string)
    requires Ascending(es) && Sequential(es, user)
    ensures var times := FailTimes(es, user);
            && (|times| >= 20 ==> times[19] - times[0] >= 652.0)
            && (forall k :: 20 <= k < |times| ==> times[k] - times[k - 1] >= 900.0)
  {
    var times := FailTimes(es, user);
    FailuresAreSpaced(es, user);
    if |times| >= 20 {
      SpacedAddsUp(times, 19);
      EscalationToLock();
    }
  }

  /**
   What failures cost, both ways: the username gate is open to the first three attempts, then
   exactly from one second after the last failure, from the fifth failure on ten, from the
   tenth sixty, and from the twentieth on 900.
   */
  lemma GateOpensExactlyWhen(es: seq<Event>, user: string, now: real)
    requires Ascending(es) && forall i :: 0 <= i < |es| ==> es[i].at <= now
    ensures var times := FailTimes(es, user);
            UserWait(Run(es), user, now) == 0.0 <==>
            (|times| >= 3 ==>
               now - times[|times| - 1] >= if |times| < 5 then 1.0 else if |times| < 10 then 10.0
                                           else if |times| < 20 then 60.0 else 900.0)
  {
    EntryCountsOwnFailures(es, user);
  }

  /** How often the lock was reported since the username's last success. */
  ghost function Reports(es: seq<Event>, user: string): nat {
    if es == [] then 0
    else
      var before, e := es[..|es| - 1], es[|es| - 1];
      if e.user != user then Reports(before, user)
      else if e.Succeed? then 0
      else Reports(before, user) + if Locks(Run(before), e) then 1 else 0
  }

  /** Between successes the lock is reported exactly once, with the twentieth failure; attempts may overlap. */
  lemma {:induction false} LockIsReportedOnce(es: seq<Event>, user: string)
    ensures Reports(es, user) == if |FailTimes(es, user)| >= LOCK_THRESHOLD then 1 else 0
  {
    if es != [] {
      var before := es[..|es| - 1];
      LockIsReportedOnce(before, user);
      EntryCountsOwnFailures(before, user);
    }
  }

  // ----- One address -----

  /** The requests an address's bucket sees. */
  ghost function Asked(es: seq<Event>): seq<Request> {
    if es == [] then []
    else
      var before, e := es[..|es| - 1], es[|es| - 1];
      if e.Allow? then Asked(before) + [Request(e.at, e.ip)] else Asked(before)
  }

  /** The buckets are those of the shared token bucket, fed every attempt whatever the username gate says. */
  lemma {:induction false} BucketsSeeEveryAttempt(es: seq<Event>)
    ensures Run(es).ips == T.Run(ADDRESS, Asked(es))
  {
    if es != [] {
      var before, e := es[..|es| - 1], es[|es| - 1];
      BucketsSeeEveryAttempt(before);
      if e.Allow? {
        assert Asked(es)[..|Asked(es)| - 1] == Asked(before);
      }
    }
  }

  lemma {:induction false} AskedAscends(es: seq<Event>, now: real)
    requires Ascending(es) && forall i :: 0 <= i < |es| ==> es[i].at <= now
    ensures Rising(Asked(es)) && By(Asked(es), now)
  {
    if es != [] {
      AskedAscends(es[..|es| - 1], es[|es| - 1].at);
    }
  }

  /** However many usernames an address sprays, a token is there exactly while every window of its attempts stays within ten plus a sixth per second. */
  lemma SprayIsBounded(es: seq<Event>, ip: string, now: real)
    requires Ascending(es) && forall i :: 0 <= i < |es| ==> es[i].at <= now
    ensures ADDRESS.rate == 1.0 / 6.0
    ensures var asked := Asked(es);
            && (AddressWait(Run(es), ip, now) == 0.0 <==>
                forall i :: 0 <= i < |asked| ==>
                  Room(10.0, T.Granted(ADDRESS, asked, ip, i), (now - asked[i].at) * ADDRESS.rate))
            && (forall i :: 0 <= i < |asked| ==>
                  T.Granted(ADDRESS, asked, ip, i) as real <= 10.0 + (now - asked[i].at) * ADDRESS.rate)
  {
    var asked := Asked(es);
    BucketsSeeEveryAttempt(es);
    AskedAscends(es, now);
    T.AllowedIffEveryWindowFits(ADDRESS, asked, ip, now);
    forall i | 0 <= i < |asked|
      ensures T.Granted(ADDRESS, asked, ip, i) as real <= 10.0 + (now - asked[i].at) * ADDRESS.rate
    {
      T.AllowedAtMost(ADDRESS, asked, ip, i, now);
    }
  }

  // ----- Waiting -----

  /** Events that leave one username's failures and one address's bucket alone. */
  ghost predicate StayAway(others: seq<Event>, user: string, ip: string) {
    forall i :: 0 <= i < |others| ==>
      if others[i].Allow? then others[i].ip != ip else others[i].user != user
  }

  lemma {:induction false} OthersChangeNeither(es: seq<Event>, others: seq<Event>, user: string, ip: string)
    requires StayAway(others, user, ip)
    ensures Find(Run(es + others).ips, ip) == Find(Run(es).ips, ip)
    ensures UserEntry(Run(es + others), user) == UserEntry(Run(es), user)
  {
    if others == [] {
      assert es + others == es;
    } else {
      var before := others[..|others| - 1];
      assert (es + others)[..|es + others| - 1] == es + before;
      OthersChangeNeither(es, before, user, ip);
    }
  }

  function UserEntry(s: State, user: string): Option<Attempts> {
    if user in s.users then Some(s.users[user]) else None
  }

  lemma UserGateOpens(s: State, t: State, user: string, now: real, again: real)
    requires UserEntry(t, user) == UserEntry(s, user) && now <= again
    ensures UserWait(t, user, again) == 0.0 <==> again >= now + UserWait(s, user, now)
  {
  }

  lemma BucketGateOpens(b: Option<Bucket>, now: real, again: real)
    requires now <= again && (b.Some? ==> b.value.tokens <= 10.0 && b.value.last <= now)
    ensures BucketWait(b, again) == 0.0 <==> again >= now + BucketWait(b, now)
  {
    T.WaitFromLevel(ADDRESS, b, now, again);
  }

  lemma BucketIsInRange(es: seq<Event>, ip: string, now: real)
    requires Ascending(es) && forall i :: 0 <= i < |es| ==> es[i].at <= now
    ensures var b := Find(Run(es).ips, ip); b.Some? ==> b.value.tokens <= 10.0 && b.value.last <= now
  {
    BucketsSeeEveryAttempt(es);
    AskedAscends(es, now);
    T.RunTicks(ADDRESS, Asked(es), ip, now);
  }

  lemma AddressGateOpens(es: seq<Event>, t: State, ip: string, now: real, again: real)
    requires Ascending(es) && (forall i :: 0 <= i < |es| ==> es[i].at <= now) && now <= again
    requires Find(t.ips, ip) == Find(Run(es).ips, ip)
    ensures AddressWait(t, ip, again) == 0.0 <==> again >= now + AddressWait(Run(es), ip, now)
  {
    BucketIsInRange(es, ip, now);
    BucketGateOpens(Find(Run(es).ips, ip), now, again);
  }

  /**
   When waiting is enough. After any run, an attempt made later, with no other attempt from
   the address and no outcome for the username in between, is let through exactly when each
   gate's own wait has passed, whatever others do meanwhile.
   */
  lemma LetThroughWhenBothWaited(es: seq<Event>, others: seq<Event>, user: string, ip: string, now: real, again: real)
    requires Ascending(es) && (forall i :: 0 <= i < |es| ==> es[i].at <= now) && now <= again
    requires StayAway(others, user, ip)
    ensures Wait(Run(es + others), user, ip, again) == 0.0 <==>
            again >= now + AddressWait(Run(es), ip, now) && again >= now + UserWait(Run(es), user, now)
  {
    OthersChangeNeither(es, others, user, ip);
    UserGateOpens(Run(es), Run(es + others), user, now, again);
    AddressGateOpens(es, Run(es + others), ip, now, again);
  }

  /**
   So the delay a refused attempt is told is enough exactly when it outlasts both gates as
   that attempt leaves them: it names only the first gate that was shut, and an attempt
   refused for its username has spent a token all the same.
   */
  lemma DelayIsEnoughIff(es: seq<Event>, e: Event, others: seq<Event>)
    requires e.Allow? && Ascending(es + [e]) && StayAway(others, e.user, e.ip)
    requires Wait(Run(es), e.user, e.ip, e.at) > 0.0
    ensures var d, s := Wait(Run(es), e.user, e.ip, e.at), Run(es + [e]);
            Wait(Run(es + [e] + others), e.user, e.ip, e.at + d) == 0.0 <==>
            d >= AddressWait(s, e.ip, e.at) && d >= UserWait(s, e.user, e.at)
  {
    var all := es + [e];
    assert all[|es|] == e;
    var d := Wait(Run(es), e.user, e.ip, e.at);
    LetThroughWhenBothWaited(all, others, e.user, e.ip, e.at, e.at + d);
  }

  class Throttle {
    var users: map<string, Attempts>
    var ips: map<string, Bucket>

    ghost function Value(): State reads this { State(users, ips) }

    constructor ()
      ensures Value() == State(map[], map[])
    {
      users, ips := map[], map[];
    }

    /** Spends an address token, then looks at the username; either gate may refuse. */
    method AllowAttempt(user: string, ip: string, now: real) returns (ok: bool, retryAfter: real)
      modifies this
      ensures Value() == Step(old(Value()), Allow(user, ip, now))
      ensures retryAfter == Wait(old(Value()), user, ip, now) && (ok <==> retryAfter == 0.0)
    {
      var d := SpendIPToken(ip, now);
      if d > 0.0 {
        return false, d;
      }
      d := UsernameWait(user, now);
      if d > 0.0 {
        return false, d;
      }
      return true, 0.0;
    }

    method SpendIPToken(ip: string, now: real) returns (wait: real)
      modifies this`ips
      ensures ips == old(ips)[ip := T.Spend(ADDRESS, Find(old(ips), ip), now)]
      ensures wait == AddressWait(old(Value()), ip, now) >= 0.0
    {
      var b := if ip in ips then ips[ip] else Bucket(ADDRESS.capacity, now);
      if now - b.last > 0.0 {
        b := Bucket(Min(ADDRESS.capacity, b.tokens + (now - b.last) * ADDRESS.rate), now);
      }
      if b.tokens >= 1.0 {
        ips := ips[ip := b.(tokens := b.tokens - 1.0)];
        return 0.0;
      }
      ips := ips[ip := b];
      return (1.0 - b.tokens) / ADDRESS.rate;
    }

    method UsernameWait(user: string, now: real) returns (wait: real)
      ensures wait == UserWait(Value(), user, now) >= 0.0
    {
      if user !in users || users[user].fails == 0 {
        return 0.0;
      }
      var delay := Backoff(users[user].fails);
      if delay == 0.0 {
        return 0.0;
      }
      var elapsed := now - users[user].lastFail;
      if elapsed < delay {
        return delay - elapsed;
      }
      return 0.0;
    }

    method RecordFailure(user: string, now: real) returns (lockedNow: bool)
      modifies this`users
      ensures Value() == Step(old(Value()), Fail(user, now))
      ensures lockedNow <==> Locks(old(Value()), Fail(user, now))
    {
      var ua := if user in users then users[user] else Attempts(0, 0.0);
      ua := Attempts(ua.fails + 1, now);
      users := users[user := ua];
      return ua.fails == LOCK_THRESHOLD;
    }

    method RecordSuccess(user: string, now: real)
      modifies this`users
      ensures Value() == Step(old(Value()), Succeed(user, now))
    {
      users := users - {user};
    }
  }
}
