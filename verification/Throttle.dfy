/** Fixed-window throttling: the counter upsert, its verdict, and the login attempt that spends three quotas. */
module Throttle {
  import opened Ranking
  import opened Division

  datatype Scope = LoginUsername | LoginIp | LoginIpUsername | ResetUsername | ResetIp | CsrfIp

  /** How many calls a window admits, and the window in seconds. */
  datatype Policy = Policy(limit: nat, window: nat)

  function PolicyOf(scope: Scope): (p: Policy)
    ensures p.limit > 0 && p.window > 0
  {
    match scope
    case LoginUsername => Policy(10, 900)
    case LoginIp => Policy(30, 60)
    case LoginIpUsername => Policy(5, 900)
    case ResetUsername => Policy(3, 3600)
    case ResetIp => Policy(20, 3600)
    case CsrfIp => Policy(30, 60)
  }

  /** Clock readings are in microseconds. */
  const SECOND := 1_000_000

  /** A counter row's key; the stored digest is a function of scope and value with no collisions. */
  datatype Bucket = Bucket(scope: Scope, value: string, windowStart: int)

  /** One consume call: its subject and the two readings the statement takes of the clock. */
  datatype Call = Call(scope: Scope, value: string, now: int, later: int)

  function Width(scope: Scope): (w: nat)
    ensures w > 0
  {
    PolicyOf(scope).window * SECOND
  }

  function WindowStart(scope: Scope, now: int): int {
    (now / Width(scope)) * Width(scope)
  }

  function BucketOf(c: Call): Bucket {
    Bucket(c.scope, c.value, WindowStart(c.scope, c.now))
  }

  function Ceil(x: int, unit: nat): int
    requires unit > 0
  {
    -((-x) / unit)
  }

  datatype Decision = Decision(allowed: bool, count: nat, retryAfter: int)

  type Buckets = map<Bucket, nat>

  function Count(buckets: Buckets, b: Bucket): nat {
    if b in buckets then buckets[b] else 0
  }

  function Advance(buckets: Buckets, c: Call): Buckets {
    buckets[BucketOf(c) := Count(buckets, BucketOf(c)) + 1]
  }

  function Verdict(buckets: Buckets, c: Call): Decision {
    var n := Count(buckets, BucketOf(c)) + 1;
    var wait := Ceil(WindowStart(c.scope, c.now) + Width(c.scope) - c.later, SECOND);
    Decision(n <= PolicyOf(c.scope).limit, n, if wait < 1 then 1 else wait)
  }

  /** The audit events throttling writes: a denial naming the scope, and the failed login it causes. */
  datatype Event = ThrottlingTriggered(scope: Scope) | LoginFailure

  function DenialOf(d: Decision, scope: Scope): seq<Event> {
    if d.allowed then [] else [ThrottlingTriggered(scope)]
  }

  class ThrottleStore {
    var buckets: Buckets
    var events: seq<Event>

    /** consume_throttle and the denial event written beside it. */
    method Consume(c: Call) returns (d: Decision)
      modifies this
      ensures buckets == Advance(old(buckets), c)
      ensures d == Verdict(old(buckets), c)
      ensures events == old(events) + DenialOf(d, c.scope)
      ensures events == old(events) + (if d.allowed then [] else [ThrottlingTriggered(c.scope)])
    {
      var policy := PolicyOf(c.scope);
      var start := (c.now / (policy.window * SECOND)) * (policy.window * SECOND);
      var key := Bucket(c.scope, c.value, start);
      var count := 1;
      if key in buckets {
        count := buckets[key] + 1;
      }
      buckets := buckets[key := count];
      var wait := Ceil(start + policy.window * SECOND - c.later, SECOND);
      d := Decision(count <= policy.limit, count, if wait < 1 then 1 else wait);
      if !d.allowed {
        events := events + [ThrottlingTriggered(c.scope)];
      }
    }

    /** The first transaction of a login: all three quotas are spent before any verdict is looked at. */
    method ConsumeLogin(username: string, ip: string, clock: seq<int>) returns (allowed: bool)
      requires |clock| == 6
      modifies this
      ensures buckets == AfterCalls(old(buckets), LoginCalls(username, ip, clock))
      ensures var v := LoginVerdicts(old(buckets), LoginCalls(username, ip, clock));
        && (allowed <==> v[0].allowed && v[1].allowed && v[2].allowed)
        && events == old(events) + DenialOf(v[0], LoginUsername) + DenialOf(v[1], LoginIp)
             + DenialOf(v[2], LoginIpUsername) + (if allowed then [] else [LoginFailure])
    {
      ghost var calls := LoginCalls(username, ip, clock);
      AfterThree(buckets, calls);
      var d0 := Consume(Call(LoginUsername, username, clock[0], clock[1]));
      var d1 := Consume(Call(LoginIp, ip, clock[2], clock[3]));
      var d2 := Consume(Call(LoginIpUsername, ip + ['\0'] + username, clock[4], clock[5]));
      allowed := d0.allowed && d1.allowed && d2.allowed;
      if !allowed {
        events := events + [LoginFailure];
      }
    }
  }

  /** The verdicts on three calls made in order, each seeing the ones before it. */
  function LoginVerdicts(buckets: Buckets, calls: seq<Call>): (v: seq<Decision>)
    requires |calls| == 3
    ensures |v| == 3
  {
    [Verdict(buckets, calls[0]),
     Verdict(AfterCalls(buckets, calls[..1]), calls[1]),
     Verdict(AfterCalls(buckets, calls[..2]), calls[2])]
  }

  function LoginCalls(username: string, ip: string, clock: seq<int>): seq<Call>
    requires |clock| == 6
  {
    [Call(LoginUsername, username, clock[0], clock[1]),
     Call(LoginIp, ip, clock[2], clock[3]),
     Call(LoginIpUsername, ip + ['\0'] + username, clock[4], clock[5])]
  }

  /** The counters after a history of calls. */
  function AfterCalls(buckets: Buckets, calls: seq<Call>): Buckets {
    if calls == [] then buckets
    else Advance(AfterCalls(buckets, calls[..|calls| - 1]), calls[|calls| - 1])
  }

  lemma AfterThree(buckets: Buckets, calls: seq<Call>)
    requires |calls| == 3
    ensures AfterCalls(buckets, calls[..1]) == Advance(buckets, calls[0])
    ensures AfterCalls(buckets, calls[..2]) == Advance(Advance(buckets, calls[0]), calls[1])
    ensures AfterCalls(buckets, calls) == Advance(Advance(Advance(buckets, calls[0]), calls[1]), calls[2])
  {
    assert calls[..1][..0] == [];
    assert calls[..2][..1] == calls[..1];
  }

  /** The window of a length that a time falls in starts on a multiple of the length. */
  predicate StartsWindow(start: int, length: nat, now: int)
    requires length > 0
  {
    start <= now < start + length * SECOND && start % (length * SECOND) == 0
  }

  lemma WindowStartIff(scope: Scope, now: int, start: int)
    ensures WindowStart(scope, now) == start <==> StartsWindow(start, PolicyOf(scope).window, now)
  {
    var w := Width(scope);
    WindowHolds(scope, now);
    var first := w * (now / w);
    assert WindowStart(scope, now) == first;
    DivUnique(first, w, now / w, 0);
    assert first == w * (first / w) + first % w;
    if StartsWindow(start, PolicyOf(scope).window, now) {
      var n := start / w;
      assert start == w * n + start % w;
      DivUnique(now, w, n, now - start);
    }
  }

  /**
   A login attempt moves three counters by exactly one, whatever the verdicts, and no other: the user name's of fifteen
   minutes, the address's of one minute, and that of the two together of fifteen minutes.
   */
  lemma LoginSpendsAllThree(buckets: Buckets, username: string, ip: string, clock: seq<int>, b: Bucket)
    requires |clock| == 6
    ensures Count(AfterCalls(buckets, LoginCalls(username, ip, clock)), b) ==
      Count(buckets, b) +
      (if || (b.scope == LoginUsername && b.value == username && StartsWindow(b.windowStart, 900, clock[0]))
          || (b.scope == LoginIp && b.value == ip && StartsWindow(b.windowStart, 60, clock[2]))
          || (b.scope == LoginIpUsername && b.value == ip + "\0" + username
              && StartsWindow(b.windowStart, 900, clock[4]))
       then 1 else 0)
  {
    var calls := LoginCalls(username, ip, clock);
    AfterThree(buckets, calls);
    WindowStartIff(LoginUsername, clock[0], b.windowStart);
    WindowStartIff(LoginIp, clock[2], b.windowStart);
    WindowStartIff(LoginIpUsername, clock[4], b.windowStart);
    hide StartsWindow, WindowStart;
  }

  // ---- what each scope admits -------------------------------------------------------------------------------------

  /** How many calls of a history have this scope and value and fall in the same window of a length in seconds. */
  function CallsLike(calls: seq<Call>, c: Call, length: nat): nat
    requires length > 0
  {
    if calls == [] then 0
    else
      var last := calls[|calls| - 1];
      CallsLike(calls[..|calls| - 1], c, length)
      + (if last.scope == c.scope && last.value == c.value
            && last.now / (length * SECOND) == c.now / (length * SECOND) then 1 else 0)
  }

  lemma SameBucket(a: Call, c: Call)
    requires a.scope == c.scope
    ensures BucketOf(a) == BucketOf(c) <==> a.value == c.value && a.now / Width(c.scope) == c.now / Width(c.scope)
  {
    var w, p, q := Width(c.scope), a.now / Width(c.scope), c.now / Width(c.scope);
    if p * w == q * w {
      DivUnique(p * w, w, q, 0);
      DivUnique(p * w, w, p, 0);
    }
  }

  lemma {:induction false} HitsAreCallsLike(calls: seq<Call>, c: Call)
    ensures Hits(calls, BucketOf(c)) == CallsLike(calls, c, PolicyOf(c.scope).window)
  {
    if calls != [] {
      HitsAreCallsLike(calls[..|calls| - 1], c);
      if calls[|calls| - 1].scope == c.scope {
        SameBucket(calls[|calls| - 1], c);
      }
    }
  }

  /**
   The limits as they are: in fifteen minutes 10 logins for a user name and 5 for it from one address, in a minute 30
   logins or CSRF bootstraps from an address, in an hour 3 resets for a user name and 20 from an address.
   */
  lemma ScopesAdmit(calls: seq<Call>, i: nat)
    requires i < |calls|
    ensures var c := calls[i];
      VerdictAt(calls, i).allowed <==>
        match c.scope
        case LoginUsername => CallsLike(calls[..i + 1], c, 15 * 60) <= 10
        case LoginIp => CallsLike(calls[..i + 1], c, 60) <= 30
        case LoginIpUsername => CallsLike(calls[..i + 1], c, 15 * 60) <= 5
        case ResetUsername => CallsLike(calls[..i + 1], c, 3600) <= 3
        case ResetIp => CallsLike(calls[..i + 1], c, 3600) <= 20
        case CsrfIp => CallsLike(calls[..i + 1], c, 60) <= 30
  {
    FirstCallsAdmitted(calls, i);
    HitsAreCallsLike(calls[..i + 1], calls[i]);
    hide Hits, CallsLike, VerdictAt;
  }

  // ---- histories ---------------------------------------------------------------------------------

  function Hits(calls: seq<Call>, b: Bucket): nat {
    if calls == [] then 0
    else Hits(calls[..|calls| - 1], b) + (if BucketOf(calls[|calls| - 1]) == b then 1 else 0)
  }

  /** Every counter is the number of calls its window has seen; a row exists exactly when that is positive. */
  lemma {:induction false} CountersCountCalls(calls: seq<Call>, b: Bucket)
    ensures Count(AfterCalls(map[], calls), b) == Hits(calls, b)
    ensures b in AfterCalls(map[], calls) <==> Hits(calls, b) > 0
  {
    if calls != [] {
      CountersCountCalls(calls[..|calls| - 1], b);
    }
  }

  /** The verdict on the i-th call of a history. */
  function VerdictAt(calls: seq<Call>, i: nat): Decision
    requires i < |calls|
  {
    Verdict(AfterCalls(map[], calls[..i]), calls[i])
  }

  /** A call is admitted exactly when it is among the first `limit` its window has seen. */
  lemma FirstCallsAdmitted(calls: seq<Call>, i: nat)
    requires i < |calls|
    ensures VerdictAt(calls, i).count == Hits(calls[..i + 1], BucketOf(calls[i]))
    ensures VerdictAt(calls, i).allowed <==> Hits(calls[..i + 1], BucketOf(calls[i])) <= PolicyOf(calls[i].scope).limit
  {
    CountersCountCalls(calls[..i], BucketOf(calls[i]));
    assert calls[..i + 1][..i] == calls[..i];
  }

  /** How many calls of a history were admitted under one counter. */
  function Granted(calls: seq<Call>, b: Bucket): nat {
    if calls == [] then 0
    else
      var i := |calls| - 1;
      Granted(calls[..i], b) + (if BucketOf(calls[i]) == b && VerdictAt(calls, i).allowed then 1 else 0)
  }

  lemma {:induction false} GrantedIsCapped(calls: seq<Call>, b: Bucket)
    ensures Granted(calls, b) == Min(Hits(calls, b), PolicyOf(b.scope).limit)
  {
    if calls != [] {
      GrantedIsCapped(calls[..|calls| - 1], b);
      FirstCallsAdmitted(calls, |calls| - 1);
      assert calls[..|calls|] == calls;
    }
  }

  /** How many calls for one subject were admitted from time `start` up to but excluding `end`. */
  function GrantedDuring(calls: seq<Call>, scope: Scope, value: string, start: int, end: int): nat {
    if calls == [] then 0
    else
      var i := |calls| - 1;
      var c := calls[i];
      GrantedDuring(calls[..i], scope, value, start, end)
      + (if c.scope == scope && c.value == value && start <= c.now < end && VerdictAt(calls, i).allowed then 1 else 0)
  }

  lemma {:induction false} TwoWindowsCover(calls: seq<Call>, scope: Scope, value: string, start: int)
    ensures var w := Width(scope); var first := WindowStart(scope, start);
      GrantedDuring(calls, scope, value, start, start + w)
        <= Granted(calls, Bucket(scope, value, first)) + Granted(calls, Bucket(scope, value, first + w))
  {
    if calls != [] {
      TwoWindowsCover(calls[..|calls| - 1], scope, value, start);
      var c := calls[|calls| - 1];
      if c.scope == scope && start <= c.now < start + Width(scope) {
        NextWindowOnly(scope, start, c.now);
      }
    }
  }

  lemma NextWindowOnly(scope: Scope, start: int, now: int)
    requires start <= now < start + Width(scope)
    ensures WindowStart(scope, now) == WindowStart(scope, start)
         || WindowStart(scope, now) == WindowStart(scope, start) + Width(scope)
  {
    var w := Width(scope);
    var q, r := start / w, start % w;
    var d := now - start;
    if r + d < w {
      DivUnique(now, w, q, r + d);
    } else {
      assert w * (q + 1) == w * q + w;
      DivUnique(now, w, q + 1, r + d - w);
    }
    assert (q + 1) * w == q * w + w;
  }

  /** However calls fall across window edges, a subject gets at most twice its limit in any one window length. */
  lemma BurstBound(calls: seq<Call>, scope: Scope, value: string, start: int)
    ensures GrantedDuring(calls, scope, value, start, start + Width(scope)) <= 2 * PolicyOf(scope).limit
  {
    var first := WindowStart(scope, start);
    TwoWindowsCover(calls, scope, value, start);
    GrantedIsCapped(calls, Bucket(scope, value, first));
    GrantedIsCapped(calls, Bucket(scope, value, first + Width(scope)));
  }

  lemma WindowHolds(scope: Scope, now: int)
    ensures WindowStart(scope, now) <= now < WindowStart(scope, now) + Width(scope)
  {
  }

  lemma CeilBounds(x: int, unit: nat)
    requires unit > 0
    ensures x <= Ceil(x, unit) * unit < x + unit
  {
    var q, r := (-x) / unit, (-x) % unit;
    assert -x == unit * q + r;
  }

  /**
   With a clock that does not run backwards, the advice is between one second and the window, and a caller who follows
   it lands in a later window, under a fresh counter, where one who waits a whole second less need not.
   */
  lemma RetryAfterReachesNextWindow(buckets: Buckets, c: Call, again: int)
    requires c.now <= c.later
    ensures 1 <= Verdict(buckets, c).retryAfter <= PolicyOf(c.scope).window
    ensures Verdict(buckets, c).retryAfter > 1 ==>
      c.later + (Verdict(buckets, c).retryAfter - 1) * SECOND < WindowStart(c.scope, c.now) + Width(c.scope)
    ensures c.later + Verdict(buckets, c).retryAfter * SECOND <= again ==>
      WindowStart(c.scope, c.now) < WindowStart(c.scope, again)
  {
    var w := Width(c.scope);
    var start := WindowStart(c.scope, c.now);
    WindowHolds(c.scope, c.now);
    CeilBounds(start + w - c.later, SECOND);
    if c.later + Verdict(buckets, c).retryAfter * SECOND <= again {
      assert start + w <= again;
      WindowHolds(c.scope, again);
    }
  }
}
