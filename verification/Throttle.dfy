/** The login throttle: per address, a list of failure times that is pruned to the last ten
    minutes at every check. */
module Throttle {

  const LOGIN_WINDOW_S := 600.0
  const LOGIN_MAX_FAILURES := 10

  type Time = real
  type Address = string
  type Table = map<Address, seq<Time>>

  // `_login_failures.get(ip, [])`
  function Stamps(m: Table, ip: Address): seq<Time> {
    if ip in m then m[ip] else []
  }

  // [t for t in stamps if now - t < _LOGIN_WINDOW_S]
  function Recent(stamps: seq<Time>, now: Time): seq<Time> {
    if stamps == [] then []
    else (if now - stamps[0] < LOGIN_WINDOW_S then [stamps[0]] else []) + Recent(stamps[1..], now)
  }

  predicate Limited(stamps: seq<Time>, now: Time) {
    |Recent(stamps, now)| >= LOGIN_MAX_FAILURES
  }

  // The failures less than ten minutes old, by position.
  function Young(stamps: seq<Time>, now: Time): set<nat> {
    set i: nat | i < |stamps| && now - stamps[i] < 600.0
  }

  /** An address is limited exactly when at least ten of its failures are less than ten minutes old. */
  lemma LimitedExactly(stamps: seq<Time>, now: Time)
    ensures Limited(stamps, now) <==> |Young(stamps, now)| >= 10
  {
    RecentCounts(stamps, now);
  }

  lemma {:induction false} RecentCounts(stamps: seq<Time>, now: Time)
    ensures |Recent(stamps, now)| == |Young(stamps, now)|
  {
    if stamps == [] {
      assert Young(stamps, now) == {};
    } else {
      var n := |stamps| - 1;
      RecentCounts(stamps[..n], now);
      RecentAppend(stamps[..n], stamps[n], now);
      assert stamps == stamps[..n] + [stamps[n]];
      if now - stamps[n] < 600.0 {
        assert Young(stamps, now) == Young(stamps[..n], now) + {n};
      } else {
        assert Young(stamps, now) == Young(stamps[..n], now);
      }
    }
  }

  /** The table, with the complete list of failures since the last clear beside it. Both
      describe the same throttle at every moment from `clock` on. */
  class LoginThrottle {
    var failures: Table
    ghost var log: Table
    ghost var clock: Time

    ghost predicate Valid()
      reads this
    {
      Agree(failures, log, clock)
    }

    constructor ()
      ensures Valid() && failures == map[] && log == map[] && clock == 0.0
    {
      failures, log, clock := map[], map[], 0.0;
    }

    /** The answer is the one that counting over the complete log gives. */
    method LoginRateLimited(ip: Address, now: Time) returns (limited: bool)
      requires Valid() && clock <= now
      modifies this
      ensures Valid() && clock == now && log == old(log)
      ensures failures == old(failures)[ip := Recent(Stamps(old(failures), ip), now)]
      ensures limited == Limited(Stamps(log, ip), now)
    {
      var stamps := Recent(Stamps(failures, ip), now);
      PruneAgrees(failures, log, clock, ip, now);
      failures := failures[ip := stamps];
      clock := now;
      limited := |stamps| >= LOGIN_MAX_FAILURES;
    }

    method RecordLoginFailure(ip: Address, now: Time)
      requires Valid() && clock <= now
      modifies this
      ensures Valid() && clock == now
      ensures failures == old(failures)[ip := Stamps(old(failures), ip) + [now]]
      ensures log == old(log)[ip := Stamps(old(log), ip) + [now]]
    {
      RecordAgrees(failures, log, clock, ip, now);
      failures := failures[ip := Stamps(failures, ip) + [now]];
      log := log[ip := Stamps(log, ip) + [now]];
      clock := now;
    }

    method ClearLoginFailures(ip: Address)
      requires Valid()
      modifies this
      ensures Valid() && clock == old(clock)
      ensures failures == old(failures) - {ip} && log == old(log) - {ip}
    {
      ClearAgrees(failures, log, clock, ip);
      failures := failures - {ip};
      log := log - {ip};
    }
  }

  // ---------- refinement ----------

  ghost predicate SameFrom(a: seq<Time>, b: seq<Time>, clock: Time) {
    forall now: Time | clock <= now :: Recent(a, now) == Recent(b, now)
  }

  ghost predicate Agree(pruned: Table, full: Table, clock: Time) {
    forall ip: Address :: SameFrom(Stamps(pruned, ip), Stamps(full, ip), clock)
  }

  lemma {:induction false} RecentOfRecent(stamps: seq<Time>, before: Time, now: Time)
    requires before <= now
    ensures Recent(Recent(stamps, before), now) == Recent(stamps, now)
  {
    if stamps != [] {
      RecentOfRecent(stamps[1..], before, now);
      var rest := Recent(stamps[1..], before);
      assert ([stamps[0]] + rest)[1..] == rest;
      assert [] + rest == rest;
      assert [] + Recent(stamps[1..], now) == Recent(stamps[1..], now);
    }
  }

  lemma {:induction false} RecentAppend(stamps: seq<Time>, t: Time, now: Time)
    ensures Recent(stamps + [t], now)
         == Recent(stamps, now) + (if now - t < LOGIN_WINDOW_S then [t] else [])
  {
    if stamps != [] {
      RecentAppend(stamps[1..], t, now);
      assert (stamps + [t])[1..] == stamps[1..] + [t];
    }
  }

  lemma PruneAgrees(failures: Table, log: Table, clock: Time, ip: Address, now: Time)
    requires Agree(failures, log, clock) && clock <= now
    ensures Recent(Stamps(failures, ip), now) == Recent(Stamps(log, ip), now)
    ensures Agree(failures[ip := Recent(Stamps(failures, ip), now)], log, now)
  {
    assert SameFrom(Stamps(failures, ip), Stamps(log, ip), clock);
    forall later: Time | now <= later
      ensures Recent(Recent(Stamps(failures, ip), now), later) == Recent(Stamps(log, ip), later)
    {
      RecentOfRecent(Stamps(failures, ip), now, later);
    }
    forall other: Address | other != ip
      ensures SameFrom(Stamps(failures, other), Stamps(log, other), now)
    {
      assert SameFrom(Stamps(failures, other), Stamps(log, other), clock);
    }
  }

  lemma RecordAgrees(failures: Table, log: Table, clock: Time, ip: Address, now: Time)
    requires Agree(failures, log, clock) && clock <= now
    ensures Agree(failures[ip := Stamps(failures, ip) + [now]], log[ip := Stamps(log, ip) + [now]], now)
  {
    var failures', log' := failures[ip := Stamps(failures, ip) + [now]], log[ip := Stamps(log, ip) + [now]];
    forall other: Address, later: Time | now <= later
      ensures Recent(Stamps(failures', other), later) == Recent(Stamps(log', other), later)
    {
      assert SameFrom(Stamps(failures, other), Stamps(log, other), clock);
      RecentAppend(Stamps(failures, ip), now, later);
      RecentAppend(Stamps(log, ip), now, later);
    }
    forall other: Address
      ensures SameFrom(Stamps(failures', other), Stamps(log', other), now)
    {
    }
  }

  lemma ClearAgrees(failures: Table, log: Table, clock: Time, ip: Address)
    requires Agree(failures, log, clock)
    ensures Agree(failures - {ip}, log - {ip}, clock)
  {
    forall other: Address
      ensures SameFrom(Stamps(failures - {ip}, other), Stamps(log - {ip}, other), clock)
    {
      assert SameFrom(Stamps(failures, other), Stamps(log, other), clock);
    }
  }

  // ---------- runs of login attempts ----------

  /** An attempt checks; if not limited it is in flight until its password turned out wrong
      (the failure is recorded) or right (the failures are cleared). */
  datatype Event =
    | Check(ip: Address, at: Time)
    | Fail(ip: Address, at: Time)
    | Succeed(ip: Address, at: Time)

  datatype Server = Server(failures: Table, log: Table, inFlight: map<Address, nat>, clock: Time)

  function Flights(s: Server, ip: Address): nat {
    if ip in s.inFlight then s.inFlight[ip] else 0
  }

  // The clock does not run backwards, only in-flight attempts finish, and an address has at
  // most k of them.
  predicate Enabled(s: Server, e: Event, k: nat) {
    && s.clock <= e.at
    && match e
       case Check(ip, at) => !Limited(Stamps(s.failures, ip), at) ==> Flights(s, ip) < k
       case Fail(ip, _) => Flights(s, ip) > 0
       case Succeed(ip, _) => Flights(s, ip) > 0
  }

  function After(s: Server, e: Event): Server {
    match e
    case Check(ip, at) =>
      Server(s.failures[ip := Recent(Stamps(s.failures, ip), at)], s.log,
             if Limited(Stamps(s.failures, ip), at) then s.inFlight
             else s.inFlight[ip := Flights(s, ip) + 1],
             at)
    case Fail(ip, at) =>
      Server(s.failures[ip := Stamps(s.failures, ip) + [at]], s.log[ip := Stamps(s.log, ip) + [at]],
             s.inFlight[ip := if Flights(s, ip) > 0 then Flights(s, ip) - 1 else 0], at)
    case Succeed(ip, at) =>
      Server(s.failures - {ip}, s.log - {ip},
             s.inFlight[ip := if Flights(s, ip) > 0 then Flights(s, ip) - 1 else 0], at)
  }

  /** A success forgives everything, and no event touches another address. */
  lemma EventsAreLocal(s: Server, e: Event, ip: Address, now: Time)
    ensures e.Succeed? ==> !Limited(Stamps(After(s, e).failures, e.ip), now)
    ensures ip != e.ip ==> Stamps(After(s, e).failures, ip) == Stamps(s.failures, ip)
                           && Flights(After(s, e), ip) == Flights(s, ip)
  {
  }

  function Run(s: Server, es: seq<Event>): Server
    decreases |es|
  {
    if es == [] then s else Run(After(s, es[0]), es[1..])
  }

  predicate RunEnabled(s: Server, es: seq<Event>, k: nat)
    decreases |es|
  {
    es == [] || (Enabled(s, es[0], k) && RunEnabled(After(s, es[0]), es[1..], k))
  }

  const START := Server(map[], map[], map[], 0.0)

  ghost predicate ClockForward(s: Server, es: seq<Event>)
    decreases |es|
  {
    es == [] || (s.clock <= es[0].at && ClockForward(After(s, es[0]), es[1..]))
  }

  /** For every sequence of checks, failures and clears under a clock that does not run back,
      protocol or not, the pruned lists answer every later check like the complete log. */
  lemma {:induction false} PruningIsInvisible(s: Server, es: seq<Event>, ip: Address, now: Time)
    requires Agree(s.failures, s.log, s.clock) && ClockForward(s, es)
    requires Run(s, es).clock <= now
    decreases |es|
    ensures Limited(Stamps(Run(s, es).failures, ip), now) == Limited(Stamps(Run(s, es).log, ip), now)
  {
    if es == [] {
      assert SameFrom(Stamps(s.failures, ip), Stamps(s.log, ip), s.clock);
    } else {
      match es[0] {
        case Check(a, at) => PruneAgrees(s.failures, s.log, s.clock, a, at);
        case Fail(a, at) => RecordAgrees(s.failures, s.log, s.clock, a, at);
        case Succeed(a, at) =>
          ClearAgrees(s.failures, s.log, s.clock, a);
          AgreeLater(s.failures - {a}, s.log - {a}, s.clock, at);
      }
      PruningIsInvisible(After(s, es[0]), es[1..], ip, now);
    }
  }

  lemma AgreeLater(failures: Table, log: Table, clock: Time, now: Time)
    requires Agree(failures, log, clock) && clock <= now
    ensures Agree(failures, log, now)
  {
    forall ip: Address
      ensures SameFrom(Stamps(failures, ip), Stamps(log, ip), now)
    {
      assert SameFrom(Stamps(failures, ip), Stamps(log, ip), clock);
    }
  }

  // ---------- the bound ----------

  // Failures in the ten minutes from `from` on.
  function CountFrom(stamps: seq<Time>, from: Time): nat {
    if stamps == [] then 0
    else (if from <= stamps[0] < from + LOGIN_WINDOW_S then 1 else 0) + CountFrom(stamps[1..], from)
  }

  ghost predicate WindowBound(log: seq<Time>, bound: nat) {
    forall from: Time :: CountFrom(log, from) <= bound
  }

  ghost predicate InvFor(s: Server, k: nat, ip: Address) {
    && SameFrom(Stamps(s.failures, ip), Stamps(s.log, ip), s.clock)
    && Flights(s, ip) <= k
    && |Recent(Stamps(s.log, ip), s.clock)| + Flights(s, ip) <= LOGIN_MAX_FAILURES - 1 + k
    && WindowBound(Stamps(s.log, ip), LOGIN_MAX_FAILURES - 1 + k)
  }

  ghost predicate Inv(s: Server, k: nat) {
    forall ip: Address :: InvFor(s, k, ip)
  }

  lemma {:induction false} RecentShrinks(stamps: seq<Time>, before: Time, now: Time)
    requires before <= now
    ensures |Recent(stamps, now)| <= |Recent(stamps, before)|
  {
    if stamps != [] {
      RecentShrinks(stamps[1..], before, now);
    }
  }

  lemma {:induction false} CountAppend(stamps: seq<Time>, t: Time, from: Time)
    ensures CountFrom(stamps + [t], from)
         == CountFrom(stamps, from) + (if from <= t < from + LOGIN_WINDOW_S then 1 else 0)
  {
    if stamps != [] {
      CountAppend(stamps[1..], t, from);
      assert (stamps + [t])[1..] == stamps[1..] + [t];
    }
  }

  lemma {:induction false} CountWithinRecent(stamps: seq<Time>, from: Time, now: Time)
    requires now < from + LOGIN_WINDOW_S
    ensures CountFrom(stamps, from) <= |Recent(stamps, now)|
  {
    if stamps != [] {
      CountWithinRecent(stamps[1..], from, now);
    }
  }

  // A failure is only recorded in windows it falls into, and those lie within the recent ones.
  lemma AppendWithinBound(log: seq<Time>, t: Time, bound: nat)
    requires WindowBound(log, bound) && |Recent(log + [t], t)| <= bound
    ensures WindowBound(log + [t], bound)
  {
    forall from: Time
      ensures CountFrom(log + [t], from) <= bound
    {
      CountAppend(log, t, from);
      if t < from + LOGIN_WINDOW_S {
        CountWithinRecent(log + [t], from, t);
      }
    }
  }

  lemma StepKeepsInv(s: Server, e: Event, k: nat, ip: Address)
    requires Inv(s, k) && Enabled(s, e, k)
    ensures InvFor(After(s, e), k, ip)
  {
    assert InvFor(s, k, ip);
    var s' := After(s, e);
    RecentShrinks(Stamps(s.log, ip), s.clock, e.at);
    if e.ip != ip {
      assert Stamps(s'.failures, ip) == Stamps(s.failures, ip);
    } else {
      match e
      case Check(_, at) =>
        forall later: Time | at <= later
          ensures Recent(Stamps(s'.failures, ip), later) == Recent(Stamps(s.log, ip), later)
        {
          RecentOfRecent(Stamps(s.failures, ip), at, later);
        }
      case Fail(_, at) =>
        forall later: Time | at <= later
          ensures Recent(Stamps(s'.failures, ip), later) == Recent(Stamps(s'.log, ip), later)
        {
          RecentAppend(Stamps(s.failures, ip), at, later);
          RecentAppend(Stamps(s.log, ip), at, later);
        }
        RecentAppend(Stamps(s.log, ip), at, at);
        AppendWithinBound(Stamps(s.log, ip), at, LOGIN_MAX_FAILURES - 1 + k);
      case Succeed(_, at) =>
    }
  }

  lemma {:induction false} RunKeepsInv(s: Server, es: seq<Event>, k: nat)
    requires Inv(s, k) && RunEnabled(s, es, k)
    decreases |es|
    ensures Inv(Run(s, es), k)
  {
    if es != [] {
      forall ip: Address
        ensures InvFor(After(s, es[0]), k, ip)
      {
        StepKeepsInv(s, es[0], k, ip);
      }
      RunKeepsInv(After(s, es[0]), es[1..], k);
    }
  }

  // The recorded failures of one address in a stretch of a run.
  function Failures(es: seq<Event>, ip: Address): seq<Time> {
    if es == [] then []
    else (if es[0].Fail? && es[0].ip == ip then [es[0].at] else []) + Failures(es[1..], ip)
  }

  predicate ClearsNot(es: seq<Event>, ip: Address) {
    forall e | e in es :: !(e.Succeed? && e.ip == ip)
  }

  lemma {:induction false} LogGrows(s: Server, es: seq<Event>, ip: Address)
    requires ClearsNot(es, ip)
    decreases |es|
    ensures Stamps(Run(s, es).log, ip) == Stamps(s.log, ip) + Failures(es, ip)
  {
    if es != [] {
      LogGrows(After(s, es[0]), es[1..], ip);
    }
  }

  lemma {:induction false} RunConcat(s: Server, a: seq<Event>, b: seq<Event>, k: nat)
    decreases |a|
    ensures Run(s, a + b) == Run(Run(s, a), b)
    ensures RunEnabled(s, a + b, k) <==> RunEnabled(s, a, k) && RunEnabled(Run(s, a), b, k)
  {
    if a == [] {
      assert a + b == b;
    } else {
      assert (a + b)[1..] == a[1..] + b;
      RunConcat(After(s, a[0]), a[1..], b, k);
    }
  }

  lemma {:induction false} CountConcat(a: seq<Time>, b: seq<Time>, from: Time)
    ensures CountFrom(a + b, from) == CountFrom(a, from) + CountFrom(b, from)
  {
    if a == [] {
      assert a + b == b;
    } else {
      assert (a + b)[1..] == a[1..] + b;
      CountConcat(a[1..], b, from);
    }
  }

  /** With at most k attempts of an address in flight, no ten minutes of any run hold more than
      10 + k - 1 recorded failures of it, as long as none of its logins succeeded in between. */
  lemma AtMostTenPlusFlights(before: seq<Event>, window: seq<Event>, after: seq<Event>,
                             ip: Address, k: nat, from: Time)
    requires RunEnabled(START, before + window + after, k) && ClearsNot(window, ip)
    ensures CountFrom(Failures(window, ip), from) <= 10 + k - 1
  {
    RunConcat(START, before + window, after, k);
    RunConcat(START, before, window, k);
    StartInv(k);
    RunKeepsInv(START, before + window, k);
    var s := Run(START, before);
    assert InvFor(Run(s, window), k, ip);
    LogGrows(s, window, ip);
    CountConcat(Stamps(s.log, ip), Failures(window, ip), from);
  }

  lemma StartInv(k: nat)
    ensures Inv(START, k)
  {
    assert forall ip: Address :: InvFor(START, k, ip);
  }

  // ---------- the bound is reached ----------

  function Checks(ip: Address, n: nat): seq<Event> {
    if n == 0 then [] else [Check(ip, 0.0)] + Checks(ip, n - 1)
  }

  function Fails(ip: Address, n: nat): seq<Event> {
    if n == 0 then [] else [Fail(ip, 0.0)] + Fails(ip, n - 1)
  }

  // n attempts, one after the other
  function Attempts(ip: Address, n: nat): seq<Event> {
    if n == 0 then [] else [Check(ip, 0.0), Fail(ip, 0.0)] + Attempts(ip, n - 1)
  }

  // At time zero, with a recorded failures and p attempts in flight.
  ghost predicate At(s: Server, ip: Address, a: nat, p: nat) {
    && s.clock == 0.0 && Flights(s, ip) == p
    && |Stamps(s.failures, ip)| == a && forall t | t in Stamps(s.failures, ip) :: t == 0.0
  }

  lemma {:induction false} RecentOfZeros(stamps: seq<Time>)
    requires forall t | t in stamps :: t == 0.0
    ensures Recent(stamps, 0.0) == stamps
  {
    if stamps != [] {
      assert stamps[0] in stamps && forall t | t in stamps[1..] :: t in stamps;
      RecentOfZeros(stamps[1..]);
    }
  }

  lemma {:induction false} ManyFails(s: Server, ip: Address, n: nat, k: nat)
    requires s.clock == 0.0 && Flights(s, ip) >= n
    ensures RunEnabled(s, Fails(ip, n), k)
    ensures CountFrom(Failures(Fails(ip, n), ip), 0.0) == n
    decreases n
  {
    if n > 0 {
      var es := Fails(ip, n);
      assert es[1..] == Fails(ip, n - 1);
      ManyFails(After(s, es[0]), ip, n - 1, k);
      assert Failures(es, ip)[1..] == Failures(es[1..], ip);
    }
  }

  lemma {:induction false} ManyChecks(s: Server, ip: Address, a: nat, p: nat, n: nat, k: nat)
    requires At(s, ip, a, p) && a < LOGIN_MAX_FAILURES && p + n <= k
    ensures RunEnabled(s, Checks(ip, n), k) && At(Run(s, Checks(ip, n)), ip, a, p + n)
    ensures Failures(Checks(ip, n), ip) == []
    decreases n
  {
    if n > 0 {
      var es := Checks(ip, n);
      assert es[1..] == Checks(ip, n - 1);
      RecentOfZeros(Stamps(s.failures, ip));
      ManyChecks(After(s, es[0]), ip, a, p + 1, n - 1, k);
    }
  }

  lemma OneAttempt(s: Server, ip: Address, a: nat, k: nat)
    requires At(s, ip, a, 0) && a < LOGIN_MAX_FAILURES && k >= 1
    ensures RunEnabled(s, [Check(ip, 0.0), Fail(ip, 0.0)], k)
    ensures At(Run(s, [Check(ip, 0.0), Fail(ip, 0.0)]), ip, a + 1, 0)
  {
    var es := [Check(ip, 0.0), Fail(ip, 0.0)];
    RecentOfZeros(Stamps(s.failures, ip));
    var s1 := After(s, es[0]);
    assert es[1..] == [es[1]] && es[1..][1..] == [];
    assert Run(s1, es[1..]) == After(s1, es[1]);
  }

  lemma FailuresOfAttempt(ip: Address, rest: seq<Event>)
    ensures Failures([Check(ip, 0.0), Fail(ip, 0.0)] + rest, ip) == [0.0] + Failures(rest, ip)
  {
    var es := [Check(ip, 0.0), Fail(ip, 0.0)] + rest;
    assert es[1..] == [Fail(ip, 0.0)] + rest;
    assert es[1..][1..] == rest;
  }

  lemma {:induction false} FailuresOfAttempts(ip: Address, n: nat)
    ensures CountFrom(Failures(Attempts(ip, n), ip), 0.0) == n
  {
    if n > 0 {
      var rest := Attempts(ip, n - 1);
      FailuresOfAttempts(ip, n - 1);
      FailuresOfAttempt(ip, rest);
      CountConcat([0.0], Failures(rest, ip), 0.0);
    }
  }

  lemma {:induction false} ManyAttempts(s: Server, ip: Address, a: nat, n: nat, k: nat)
    requires At(s, ip, a, 0) && a + n < LOGIN_MAX_FAILURES && k >= 1
    ensures RunEnabled(s, Attempts(ip, n), k) && At(Run(s, Attempts(ip, n)), ip, a + n, 0)
    decreases n
  {
    if n > 0 {
      var once := [Check(ip, 0.0), Fail(ip, 0.0)];
      OneAttempt(s, ip, a, k);
      ManyAttempts(Run(s, once), ip, a + 1, n - 1, k);
      RunConcat(s, once, Attempts(ip, n - 1), k);
    }
  }

  lemma {:induction false} FailuresConcat(a: seq<Event>, b: seq<Event>, ip: Address)
    ensures Failures(a + b, ip) == Failures(a, ip) + Failures(b, ip)
  {
    if a == [] {
      assert a + b == b;
    } else {
      assert (a + b)[1..] == a[1..] + b;
      FailuresConcat(a[1..], b, ip);
    }
  }

  /** For every k the bound is exact: nine plain failures, then k checks before any of the k
      attempts records its own. */
  lemma TenPlusFlightsIsReached(ip: Address, k: nat) returns (es: seq<Event>)
    requires k >= 1
    ensures RunEnabled(START, es, k)
    ensures CountFrom(Failures(es, ip), 0.0) == 10 + k - 1
  {
    var a, b, c := Attempts(ip, LOGIN_MAX_FAILURES - 1), Checks(ip, k), Fails(ip, k);
    es := a + (b + c);
    ManyAttempts(START, ip, 0, LOGIN_MAX_FAILURES - 1, k);
    FailuresOfAttempts(ip, LOGIN_MAX_FAILURES - 1);
    var s := Run(START, a);
    ManyChecks(s, ip, LOGIN_MAX_FAILURES - 1, 0, k, k);
    ManyFails(Run(s, b), ip, k, k);
    RunConcat(START, a, b + c, k);
    RunConcat(s, b, c, k);
    FailuresConcat(a, b + c, ip);
    FailuresConcat(b, c, ip);
    assert Failures(b + c, ip) == Failures(c, ip);
    CountConcat(Failures(a, ip), Failures(c, ip), 0.0);
  }
}
