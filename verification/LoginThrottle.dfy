/** The admin login throttle: loginThrottle of internal/server/server.go as handleAdminLogin of
internal/server/admin.go uses it. */
module LoginThrottle {
  import opened Clock

  const MAX_FAILS: int := 5
  const WINDOW: int := 15 * MINUTE

  datatype FailureState = FailureState(count: int, blockedUntil: int)

  type Failures = map<string, FailureState>

  /** What the request body turned out to be. */
  datatype Body = NotJson | Key(right: bool)

  /** The clock shows no time before Go's zero time. */
  type Instant = t: int | ZERO_TIME <= t witness 0

  /** A login attempt: when it arrived, from where, and how long reading its body took. */
  datatype Attempt = Attempt(at: Instant, ip: string, body: Body, took: nat)

  datatype Outcome = TooManyAttempts | BadRequest | WrongKey | Authenticated

  /** When the key was compared. */
  function CheckedAt(a: Attempt): int {
    a.at + a.took
  }

  predicate IsBlocked(failures: Failures, ip: string, now: int) {
    ip in failures && failures[ip].blockedUntil > now
  }

  function CountOf(failures: Failures, ip: string): int {
    if ip in failures then failures[ip].count else 0
  }

  function UntilOf(failures: Failures, ip: string): int {
    if ip in failures then failures[ip].blockedUntil else ZERO_TIME
  }

  function AfterFail(failures: Failures, ip: string, now: int, maxFails: int, window: int): Failures {
    if CountOf(failures, ip) + 1 >= maxFails then failures[ip := FailureState(0, now + window)]
    else failures[ip := FailureState(CountOf(failures, ip) + 1, UntilOf(failures, ip))]
  }

  function Decide(failures: Failures, a: Attempt): Outcome {
    if IsBlocked(failures, a.ip, a.at) then TooManyAttempts
    else if a.body.NotJson? then BadRequest
    else if !a.body.right then WrongKey
    else Authenticated
  }

  function AfterLogin(failures: Failures, a: Attempt, maxFails: int, window: int): Failures {
    match Decide(failures, a)
    case WrongKey => AfterFail(failures, a.ip, CheckedAt(a), maxFails, window)
    case Authenticated => failures - {a.ip}
    case _ => failures
  }

  // ---------------------------------------------------------------- the source's form

  class Throttle {
    var failures: Failures
    const maxFails: int
    const window: int

    constructor (maxFails: int, window: int)
      ensures failures == map[] && this.maxFails == maxFails && this.window == window
    {
      failures := map[];
      this.maxFails, this.window := maxFails, window;
    }

    method Blocked(ip: string, now: int) returns (b: bool)
      ensures b == IsBlocked(failures, ip, now)
    {
      b := ip in failures && failures[ip].blockedUntil > now;
    }

    method RecordFail(ip: string, now: int)
      modifies this
      ensures failures == AfterFail(old(failures), ip, now, maxFails, window)
    {
      var st := FailureState(0, ZERO_TIME);
      if ip in failures {
        st := failures[ip];
      }
      st := st.(count := st.count + 1);
      if st.count >= maxFails {
        st := st.(blockedUntil := now + window);
        st := st.(count := 0);
      }
      failures := failures[ip := st];
    }

    method Reset(ip: string)
      modifies this
      ensures failures == old(failures) - {ip}
    {
      failures := failures - {ip};
    }

    /** handleAdminLogin. */
    method HandleAdminLogin(a: Attempt) returns (outcome: Outcome)
      modifies this
      ensures outcome == Decide(old(failures), a)
      ensures failures == AfterLogin(old(failures), a, maxFails, window)
    {
      var blocked := Blocked(a.ip, a.at);
      if blocked {
        return TooManyAttempts;
      }
      if a.body.NotJson? {
        return BadRequest;
      }
      if !a.body.right {
        RecordFail(a.ip, CheckedAt(a));
        return WrongKey;
      }
      Reset(a.ip);
      return Authenticated;
    }
  }

  // ---------------------------------------------------------------- sequential runs

  predicate EndsBefore(a: Attempt, b: Attempt) {
    a.at + a.took <= b.at
  }

  /** One attempt after the other. */
  ghost predicate Sequential(attempts: seq<Attempt>) {
    forall i | 0 < i < |attempts| :: EndsBefore(attempts[i - 1], attempts[i])
  }

  /** A throttle's settings and the attempts made on it, from a fresh start. */
  datatype Run = Run(maxFails: int, window: int, attempts: seq<Attempt>)

  /** The throttle's map after the first `n` attempts. */
  function After(r: Run, n: nat): Failures
    requires n <= |r.attempts|
  {
    if n == 0 then map[] else AfterLogin(After(r, n - 1), r.attempts[n - 1], r.maxFails, r.window)
  }

  /** With a limit of zero or less every failure blocks, just as with 1. */
  function Limit(r: Run): (limit: nat)
    ensures limit > 0
  {
    if r.maxFails < 1 then 1 else r.maxFails
  }

  /** After these failed checks since its last success an address is turned away: they are a full multiple of the limit
      and the last of them is less than a window old. */
  predicate TurnedAway(r: Run, h: seq<int>, now: int) {
    h != [] && |h| % Limit(r) == 0 && now < h[|h| - 1] + r.window
  }

  /** An address's failed checks since its last success, `h`, after one more attempt: one that comes while it is turned
      away or that is not JSON does not count, a wrong key does, the right key starts anew. */
  function More(r: Run, h: seq<int>, ip: string, a: Attempt): seq<int> {
    if a.ip != ip || TurnedAway(r, h, a.at) then h
    else match a.body
         case NotJson => h
         case Key(right) => if right then [] else h + [a.at + a.took]
  }

  /** When this address failed a password check since its last success, over the first `n` attempts. */
  function FailsSince(r: Run, ip: string, n: nat): seq<int>
    requires n <= |r.attempts|
  {
    if n == 0 then [] else More(r, FailsSince(r, ip, n - 1), ip, r.attempts[n - 1])
  }

  /** The `i`-th attempt is this address's, is let through and brings this key. */
  predicate Checks(r: Run, ip: string, i: nat, right: bool)
    requires i < |r.attempts|
  {
    r.attempts[i].ip == ip && r.attempts[i].body == Key(right) && !TurnedAway(r, FailsSince(r, ip, i), r.attempts[i].at)
  }

  /** When this address failed a password check, over the first `n` attempts. */
  function Fails(r: Run, ip: string, n: nat): seq<int>
    requires n <= |r.attempts|
  {
    if n == 0 then []
    else if Checks(r, ip, n - 1, false) then Fails(r, ip, n - 1) + [CheckedAt(r.attempts[n - 1])]
    else Fails(r, ip, n - 1)
  }

  /** Failures `limit` apart are at least a window apart. */
  predicate Apart(h: seq<int>, k: nat, limit: nat, window: int) {
    k + limit < |h| ==> h[k] + window <= h[k + limit]
  }

  predicate NotAfter(h: seq<int>, k: nat, t: int) {
    k < |h| ==> h[k] <= t
  }

  /** The failure that last started a block: the latest whose number is a multiple of the limit. */
  function LastLock(h: seq<int>, limit: nat): int
    requires limit > 0
  {
    |h| - |h| % limit - 1
  }

  /** What the throttle's entry for an address says of its failures since its last success. */
  ghost predicate Tallies(r: Run, failures: Failures, ip: string, h: seq<int>) {
    var limit := Limit(r);
    && CountOf(failures, ip) == |h| % limit
    && -1 <= LastLock(h, limit) < |h|
    && UntilOf(failures, ip) == if LastLock(h, limit) < 0 then ZERO_TIME else h[LastLock(h, limit)] + r.window
  }

  ghost predicate Ordered(h: seq<int>, now: int) {
    && (forall k | 0 <= k < |h| :: NotAfter(h, k, now))
    && (forall k, l | 0 <= k <= l < |h| :: h[k] <= h[l])
  }

  ghost predicate AllApart(r: Run, h: seq<int>) {
    forall k: nat :: Apart(h, k, Limit(r), r.window)
  }

  lemma ModStep(n: nat, limit: nat)
    requires limit > 0
    ensures (n + 1) % limit == if n % limit + 1 == limit then 0 else n % limit + 1
    ensures n % limit <= n
  {
    var q, m := n / limit, n % limit;
    assert n == limit * q + m;
    if m + 1 == limit {
      assert n + 1 == limit * (q + 1);
      ModOf(n + 1, limit, q + 1, 0);
    } else {
      ModOf(n + 1, limit, q, m + 1);
    }
  }

  lemma ModOf(n: nat, limit: nat, q: nat, m: nat)
    requires limit > 0 && m < limit && n == limit * q + m
    ensures n % limit == m
  {
    var p := n / limit;
    assert n == limit * p + n % limit;
    assert p < q ==> limit * q >= limit * (p + 1);
    assert q < p ==> limit * p >= limit * (q + 1);
  }

  lemma FailTallies(r: Run, failures: Failures, ip: string, h: seq<int>, now: int)
    requires Tallies(r, failures, ip, h)
    ensures Tallies(r, AfterFail(failures, ip, now, r.maxFails, r.window), ip, h + [now])
  {
    ModStep(|h|, Limit(r));
    assert |h + [now]| == |h| + 1;
  }

  /** A check made `begin` or later while the address is not blocked: the failure it brings keeps its distance. */
  lemma FailKeepsApart(r: Run, failures: Failures, ip: string, h: seq<int>, begin: int, now: int)
    requires Tallies(r, failures, ip, h) && Ordered(h, begin) && AllApart(r, h)
    requires !IsBlocked(failures, ip, begin) && begin <= now && (h != [] ==> ip in failures)
    ensures AllApart(r, h + [now])
  {
    var limit := Limit(r);
    forall k: nat
      ensures Apart(h + [now], k, limit, r.window)
    {
      assert Apart(h, k, limit, r.window);
      if k + limit == |h| {
        ModStep(|h|, limit);
        var lock := LastLock(h, limit);
        assert k <= lock && h[k] <= h[lock];
        assert h[lock] + r.window <= begin;
      }
    }
  }

  /** A failure after a block came once the block was over. */
  ghost predicate BlockServed(r: Run, h: seq<int>) {
    var lock := LastLock(h, Limit(r));
    0 <= lock < |h| - 1 ==> h[lock] + r.window <= h[|h| - 1]
  }

  ghost predicate Kept(r: Run, failures: Failures, ip: string, h: seq<int>, now: int) {
    && Tallies(r, failures, ip, h) && Ordered(h, now) && AllApart(r, h) && BlockServed(r, h)
    && (ip in failures <==> h != [])
  }

  lemma FailKeeps(r: Run, failures: Failures, ip: string, h: seq<int>, begin: int, now: int)
    requires Kept(r, failures, ip, h, begin) && !IsBlocked(failures, ip, begin) && begin <= now
    ensures Kept(r, AfterFail(failures, ip, now, r.maxFails, r.window), ip, h + [now], now)
  {
    FailTallies(r, failures, ip, h, now);
    FailKeepsApart(r, failures, ip, h, begin, now);
    ModStep(|h|, Limit(r));
    forall k | 0 <= k < |h|
      ensures h[k] <= now
    {
      assert NotAfter(h, k, begin);
    }
  }

  lemma LaterKept(r: Run, failures: Failures, failures': Failures, ip: string, h: seq<int>, begin: int, now: int)
    requires Kept(r, failures, ip, h, begin) && begin <= now
    requires (ip in failures <==> ip in failures') && (ip in failures ==> failures'[ip] == failures[ip])
    ensures Kept(r, failures', ip, h, now)
  {
    forall k | 0 <= k < |h|
      ensures NotAfter(h, k, now)
    {
      assert NotAfter(h, k, begin);
    }
  }

  lemma NothingKept(r: Run, failures: Failures, ip: string, now: int)
    requires ip !in failures
    ensures Kept(r, failures, ip, [], now)
  {
  }

  /** The entry blocks the address exactly while its failures say so. */
  lemma KeptBlocks(r: Run, failures: Failures, ip: string, h: seq<int>, now: Instant)
    requires Kept(r, failures, ip, h, now)
    ensures IsBlocked(failures, ip, now) <==> TurnedAway(r, h, now)
  {
    ModStep(|h|, Limit(r));
    if h != [] {
      assert NotAfter(h, |h| - 1, now);
    }
  }

  lemma AttemptKeeps(r: Run, failures: Failures, ip: string, h: seq<int>, a: Attempt)
    requires Kept(r, failures, ip, h, a.at)
    ensures Kept(r, AfterLogin(failures, a, r.maxFails, r.window), ip, More(r, h, ip, a), CheckedAt(a))
  {
    var failures' := AfterLogin(failures, a, r.maxFails, r.window);
    KeptBlocks(r, failures, ip, h, a.at);
    if a.ip == ip && !IsBlocked(failures, ip, a.at) && a.body == Key(false) {
      FailKeeps(r, failures, ip, h, a.at, CheckedAt(a));
    } else if a.ip == ip && !IsBlocked(failures, ip, a.at) && a.body == Key(true) {
      NothingKept(r, failures', ip, CheckedAt(a));
    } else {
      LaterKept(r, failures, failures', ip, h, a.at, CheckedAt(a));
    }
  }

  lemma {:induction false} HistoryKept(r: Run, ip: string, n: nat, now: int)
    requires n <= |r.attempts| && Sequential(r.attempts)
    requires n > 0 ==> CheckedAt(r.attempts[n - 1]) <= now
    ensures Kept(r, After(r, n), ip, FailsSince(r, ip, n), now)
  {
    if n == 0 {
      NothingKept(r, map[], ip, now);
    } else {
      var a := r.attempts[n - 1];
      assert n > 1 ==> EndsBefore(r.attempts[n - 1 - 1], r.attempts[n - 1]);
      HistoryKept(r, ip, n - 1, a.at);
      AttemptKeeps(r, After(r, n - 1), ip, FailsSince(r, ip, n - 1), a);
      LaterKept(r, After(r, n), After(r, n), ip, FailsSince(r, ip, n), CheckedAt(a), now);
    }
  }

  // ---------------------------------------------------------------- the bound

  /** How many of these instants lie in [from, from + window). */
  function InWindow(h: seq<int>, from: int, window: int): nat {
    if h == [] then 0
    else InWindow(h[..|h| - 1], from, window) + if from <= h[|h| - 1] < from + window then 1 else 0
  }

  lemma {:induction false} NoneBefore(h: seq<int>, from: int, window: int)
    requires forall k | 0 <= k < |h| :: h[k] < from
    ensures InWindow(h, from, window) == 0
  {
    if h != [] {
      NoneBefore(h[..|h| - 1], from, window);
    }
  }

  /** When all but the last `spare` of them are earlier than the window, at most `spare` lie in it. */
  lemma {:induction false} AtMostSpare(h: seq<int>, from: int, window: int, spare: nat)
    requires forall k, l | 0 <= k <= l < |h| :: h[k] <= h[l]
    requires |h| > spare ==> h[|h| - 1 - spare] < from
    ensures InWindow(h, from, window) <= spare
  {
    if h == [] {
    } else if spare == 0 {
      NoneBefore(h, from, window);
    } else {
      AtMostSpare(h[..|h| - 1], from, window, spare - 1);
    }
  }

  lemma {:induction false} WindowBound(h: seq<int>, from: int, window: int, limit: nat)
    requires forall k, l | 0 <= k <= l < |h| :: h[k] <= h[l]
    requires forall k: nat :: Apart(h, k, limit, window)
    ensures InWindow(h, from, window) <= limit
  {
    if h != [] {
      var front := h[..|h| - 1];
      if h[|h| - 1] < from + window {
        if |h| > limit {
          assert Apart(h, |h| - 1 - limit, limit, window);
        }
        AtMostSpare(h, from, window, limit);
      } else {
        forall k: nat
          ensures Apart(front, k, limit, window)
        {
          assert Apart(h, k, limit, window);
        }
        WindowBound(front, from, window, limit);
      }
    }
  }

  /** Between two successes of an address, no half-open interval of the window's length holds more failed password
      checks of that address than the limit, whatever other addresses do. */
  lemma FailuresBounded(r: Run, ip: string, n: nat, from: int)
    requires n <= |r.attempts| && Sequential(r.attempts)
    ensures InWindow(FailsSince(r, ip, n), from, r.window) <= Limit(r)
  {
    HistoryKept(r, ip, n, if n > 0 then CheckedAt(r.attempts[n - 1]) else 0);
    WindowBound(FailsSince(r, ip, n), from, r.window, Limit(r));
  }

  predicate Within(t: int, from: int, window: int) {
    from <= t < from + window
  }

  /** How many of the address's first `n` attempts succeeded in [from, from + window). */
  function Successes(r: Run, ip: string, n: nat, from: int): nat
    requires n <= |r.attempts|
  {
    if n == 0 then 0
    else
      var a := r.attempts[n - 1];
      Successes(r, ip, n - 1, from)
      + if Checks(r, ip, n - 1, true) && Within(CheckedAt(a), from, r.window) then 1 else 0
  }

  /** A success in the window leaves at most limit - 1 failures of the window before it, since the last success: the
      block that the limit starts would have outlasted the window. One before the window leaves none. */
  lemma SuccessComesEarly(r: Run, ip: string, n: nat, from: int)
    requires 0 < n <= |r.attempts| && Sequential(r.attempts)
    requires Checks(r, ip, n - 1, true)
    requires CheckedAt(r.attempts[n - 1]) < from + r.window
    ensures InWindow(FailsSince(r, ip, n - 1), from, r.window) <= Limit(r) - 1
    ensures CheckedAt(r.attempts[n - 1]) < from ==> InWindow(FailsSince(r, ip, n - 1), from, r.window) == 0
  {
    var a, h, limit := r.attempts[n - 1], FailsSince(r, ip, n - 1), Limit(r);
    assert n > 1 ==> EndsBefore(r.attempts[n - 1 - 1], r.attempts[n - 1]);
    HistoryKept(r, ip, n - 1, a.at);
    ModStep(|h|, limit);
    if h != [] {
      assert NotAfter(h, |h| - 1, a.at);
    }
    AtMostSpare(h, from, r.window, |h| % limit);
    if CheckedAt(a) < from {
      forall k | 0 <= k < |h|
        ensures h[k] < from
      {
        assert NotAfter(h, k, a.at);
      }
      NoneBefore(h, from, r.window);
    }
  }

  lemma InWindowMore(h: seq<int>, t: int, from: int, window: int)
    ensures InWindow(h + [t], from, window) == InWindow(h, from, window) + if from <= t < from + window then 1 else 0
  {
    assert (h + [t])[..|h|] == h;
  }

  /** What `k` successes in a window let through before the last of them: limit - 1 failures each. */
  function WipedOut(r: Run, k: nat): nat {
    if k == 0 then 0 else WipedOut(r, k - 1) + (Limit(r) - 1)
  }

  lemma {:induction false} WipedOutProduct(r: Run, k: nat)
    ensures WipedOut(r, k) == k * (Limit(r) - 1)
  {
    if k > 0 {
      WipedOutProduct(r, k - 1);
      assert k * (Limit(r) - 1) == (k - 1) * (Limit(r) - 1) + (Limit(r) - 1);
    }
  }

  /** One attempt more: a failure is counted both ways, and a success forgets. */
  lemma OneMoreCounts(r: Run, ip: string, n: nat, from: int)
    requires 0 < n <= |r.attempts|
    ensures
      var more := if Checks(r, ip, n - 1, false) && Within(CheckedAt(r.attempts[n - 1]), from, r.window) then 1 else 0;
      && InWindow(Fails(r, ip, n), from, r.window) == InWindow(Fails(r, ip, n - 1), from, r.window) + more
      && InWindow(FailsSince(r, ip, n), from, r.window)
         == if Checks(r, ip, n - 1, true) then 0 else InWindow(FailsSince(r, ip, n - 1), from, r.window) + more
  {
    InWindowMore(Fails(r, ip, n - 1), CheckedAt(r.attempts[n - 1]), from, r.window);
    InWindowMore(FailsSince(r, ip, n - 1), CheckedAt(r.attempts[n - 1]), from, r.window);
  }

  /** Every failure in the window is one since the last success or was wiped out by one. */
  ghost predicate Split(r: Run, ip: string, n: nat, from: int)
    requires n <= |r.attempts|
  {
    InWindow(Fails(r, ip, n), from, r.window)
    <= WipedOut(r, Successes(r, ip, n, from)) + InWindow(FailsSince(r, ip, n), from, r.window)
  }

  lemma SuccessKeepsSplit(r: Run, ip: string, n: nat, from: int)
    requires 0 < n <= |r.attempts| && Sequential(r.attempts) && Split(r, ip, n - 1, from)
    requires CheckedAt(r.attempts[n - 1]) < from + r.window
    requires Checks(r, ip, n - 1, true)
    ensures Split(r, ip, n, from)
  {
    SuccessComesEarly(r, ip, n, from);
    assert Fails(r, ip, n) == Fails(r, ip, n - 1) && FailsSince(r, ip, n) == [];
    var k := Successes(r, ip, n - 1, from);
    assert WipedOut(r, k + 1) == WipedOut(r, k) + (Limit(r) - 1);
  }

  lemma OtherKeepsSplit(r: Run, ip: string, n: nat, from: int)
    requires 0 < n <= |r.attempts| && Split(r, ip, n - 1, from)
    requires !Checks(r, ip, n - 1, true)
    ensures Split(r, ip, n, from)
  {
    OneMoreCounts(r, ip, n, from);
    assert Successes(r, ip, n, from) == Successes(r, ip, n - 1, from);
  }

  /** It is so up to the end of the window. */
  lemma {:induction false} FailuresSplit(r: Run, ip: string, n: nat, from: int)
    requires n <= |r.attempts| && Sequential(r.attempts)
    requires n > 0 ==> CheckedAt(r.attempts[n - 1]) < from + r.window
    ensures Split(r, ip, n, from)
  {
    if n > 0 {
      assert n > 1 ==> EndsBefore(r.attempts[n - 1 - 1], r.attempts[n - 1]);
      FailuresSplit(r, ip, n - 1, from);
      if Checks(r, ip, n - 1, true) {
        SuccessKeepsSplit(r, ip, n, from);
      } else {
        OtherKeepsSplit(r, ip, n, from);
      }
    }
  }

  /** In every run: a half-open interval of the window's length that holds k successes of an address holds at most
      k * (limit - 1) + limit failed password checks of it, whatever other addresses do. */
  lemma {:induction false} FailuresPerWindow(r: Run, ip: string, n: nat, from: int)
    requires n <= |r.attempts| && Sequential(r.attempts)
    ensures InWindow(Fails(r, ip, n), from, r.window) <= Successes(r, ip, n, from) * (Limit(r) - 1) + Limit(r)
  {
    WipedOutProduct(r, Successes(r, ip, n, from));
    if n > 0 && CheckedAt(r.attempts[n - 1]) >= from + r.window {
      FailuresPerWindow(r, ip, n - 1, from);
      OneMoreCounts(r, ip, n, from);
    } else {
      FailuresSplit(r, ip, n, from);
      FailuresBounded(r, ip, n, from);
    }
  }

  /** With the gateway's settings: at most five in every fifteen minutes without a success of that address. */
  lemma FiveFailuresPerWindow(attempts: seq<Attempt>, ip: string, n: nat, from: int)
    requires n <= |attempts| && Sequential(attempts)
    requires Successes(Run(MAX_FAILS, WINDOW, attempts), ip, n, from) == 0
    ensures InWindow(Fails(Run(MAX_FAILS, WINDOW, attempts), ip, n), from, 900 * SECOND) <= 5
  {
    FailuresPerWindow(Run(MAX_FAILS, WINDOW, attempts), ip, n, from);
  }

  /** With a limit of one, successes do not matter. */
  lemma OneFailurePerWindow(r: Run, ip: string, n: nat, from: int)
    requires n <= |r.attempts| && Sequential(r.attempts) && r.maxFails <= 1
    ensures InWindow(Fails(r, ip, n), from, r.window) <= 1
  {
    FailuresPerWindow(r, ip, n, from);
  }

  /** An address is blocked exactly while its failures since its last success, counted from the attempts, are a full
      multiple of the limit and the last of them is less than a window old. */
  lemma BlockedExactly(r: Run, ip: string, n: nat, now: Instant)
    requires n <= |r.attempts| && Sequential(r.attempts)
    requires n > 0 ==> CheckedAt(r.attempts[n - 1]) <= now
    ensures
      var h := FailsSince(r, ip, n);
      IsBlocked(After(r, n), ip, now) <==> h != [] && |h| % Limit(r) == 0 && now < h[|h| - 1] + r.window
  {
    HistoryKept(r, ip, n, now);
    KeptBlocks(r, After(r, n), ip, FailsSince(r, ip, n), now);
  }

  /** With the gateway's settings: at every fifth failure, for 900 seconds. */
  lemma GatewayBlocks(attempts: seq<Attempt>, ip: string, n: nat, now: Instant)
    requires n <= |attempts| && Sequential(attempts)
    requires n > 0 ==> CheckedAt(attempts[n - 1]) <= now
    ensures
      var r := Run(MAX_FAILS, WINDOW, attempts);
      var h := FailsSince(r, ip, n);
      IsBlocked(After(r, n), ip, now) <==> h != [] && |h| % 5 == 0 && now < h[|h| - 1] + 900 * SECOND
  {
    BlockedExactly(Run(MAX_FAILS, WINDOW, attempts), ip, n, now);
  }

  /** What every attempt of a run is told, and what it does to the map. An attempt turned away or not JSON does
      nothing; the right key forgets the address; a wrong one counts, and nobody else's entry changes. */
  lemma AttemptExactly(r: Run, i: nat)
    requires i < |r.attempts| && Sequential(r.attempts)
    ensures
      var a := r.attempts[i];
      var before, after := After(r, i), After(r, i + 1);
      var outcome := Decide(before, a);
      && (TurnedAway(r, FailsSince(r, a.ip, i), a.at) ==> outcome == TooManyAttempts && after == before)
      && (!TurnedAway(r, FailsSince(r, a.ip, i), a.at) ==>
            match a.body
            case NotJson => outcome == BadRequest && after == before
            case Key(right) =>
              if right then outcome == Authenticated && after == before - {a.ip}
              else outcome == WrongKey && after == before[a.ip := after[a.ip]])
  {
    assert i > 0 ==> EndsBefore(r.attempts[i - 1], r.attempts[i]);
    BlockedExactly(r, r.attempts[i].ip, i, r.attempts[i].at);
  }

  // ---------------------------------------------------------------- the bound is reached

  function WrongAt0(ip: string): Attempt {
    Attempt(0, ip, Key(false), 0)
  }

  function RightAt0(ip: string): Attempt {
    Attempt(0, ip, Key(true), 0)
  }

  /** All at once: `n` wrong keys. */
  function Wrongs(ip: string, n: nat): (w: seq<Attempt>)
    ensures |w| == n && forall i | 0 <= i < n :: w[i] == WrongAt0(ip)
  {
    seq(n, i => WrongAt0(ip))
  }

  /** All at once: `q` rounds of limit - 1 wrong keys and a right one. */
  function Rounds(limit: nat, ip: string, q: nat): (a: seq<Attempt>)
    requires limit > 0
    ensures forall i | 0 <= i < |a| :: a[i].at == 0 && a[i].took == 0
  {
    if q == 0 then [] else Rounds(limit, ip, q - 1) + Wrongs(ip, limit - 1) + [RightAt0(ip)]
  }

  /** So many rounds, then as many wrong keys as the limit. */
  function Siege(maxFails: int, window: int, ip: string, q: nat): Run {
    var limit := Limit(Run(maxFails, window, []));
    Run(maxFails, window, Rounds(limit, ip, q) + Wrongs(ip, limit))
  }

  ghost predicate AllAt0(r: Run) {
    forall i | 0 <= i < |r.attempts| :: r.attempts[i].at == 0 && r.attempts[i].took == 0
  }

  function Zeros(n: nat): seq<int> {
    seq(n, i => 0)
  }

  /** After `n` attempts: `m` failures since the last success, `f` failures and `k` successes in all. */
  ghost predicate Failed(r: Run, ip: string, n: nat, m: nat, f: nat, k: nat)
    requires n <= |r.attempts|
  {
    FailsSince(r, ip, n) == Zeros(m) && Fails(r, ip, n) == Zeros(f) && Successes(r, ip, n, 0) == k
  }

  lemma LetThroughBelowLimit(r: Run, m: nat, now: int)
    requires m < Limit(r)
    ensures !TurnedAway(r, Zeros(m), now)
  {
    if m > 0 {
      ModOf(m, Limit(r), 0, m);
    }
  }

  lemma OneMoreWrong(r: Run, ip: string, n: nat, m: nat, f: nat, k: nat)
    requires n < |r.attempts| && r.attempts[n] == WrongAt0(ip) && Failed(r, ip, n, m, f, k)
    requires !TurnedAway(r, Zeros(m), 0)
    ensures Failed(r, ip, n + 1, m + 1, f + 1, k)
  {
    assert Zeros(m) + [0] == Zeros(m + 1) && Zeros(f) + [0] == Zeros(f + 1);
  }

  /** Up to the limit every wrong key is checked. */
  lemma {:induction false} WrongStretch(r: Run, ip: string, n: nat, m: nat, f: nat, k: nat)
    requires n + m <= |r.attempts| && AllAt0(r) && m <= Limit(r)
    requires forall i | n <= i < n + m :: r.attempts[i] == WrongAt0(ip)
    requires Failed(r, ip, n, 0, f, k)
    ensures Failed(r, ip, n + m, m, f + m, k)
  {
    if m > 0 {
      WrongStretch(r, ip, n, m - 1, f, k);
      LetThroughBelowLimit(r, m - 1, 0);
      assert r.attempts[n + (m - 1)] == WrongAt0(ip);
      OneMoreWrong(r, ip, n + (m - 1), m - 1, f + (m - 1), k);
    }
  }

  /** A right key below the limit is accepted. */
  lemma RightEnds(r: Run, ip: string, n: nat, m: nat, f: nat, k: nat)
    requires n < |r.attempts| && AllAt0(r) && m < Limit(r) && r.attempts[n] == RightAt0(ip) && r.window > 0
    requires Failed(r, ip, n, m, f, k)
    ensures Failed(r, ip, n + 1, 0, f, k + 1)
  {
    LetThroughBelowLimit(r, m, 0);
  }

  lemma OneRound(r: Run, ip: string, before: seq<Attempt>, f: nat, k: nat)
    requires before + Wrongs(ip, Limit(r) - 1) + [RightAt0(ip)] <= r.attempts && AllAt0(r) && r.window > 0
    requires Failed(r, ip, |before|, 0, f, k)
    ensures Failed(r, ip, |before| + Limit(r), 0, f + (Limit(r) - 1), k + 1)
  {
    var n, m := |before|, Limit(r) - 1;
    var all := before + Wrongs(ip, m) + [RightAt0(ip)];
    forall i | n <= i < n + m
      ensures r.attempts[i] == WrongAt0(ip)
    {
      assert all[i] == Wrongs(ip, m)[i - n];
    }
    WrongStretch(r, ip, n, m, f, k);
    assert all[n + m] == RightAt0(ip);
    RightEnds(r, ip, n + m, m, f + m, k);
  }

  /** After `q` rounds, as many times limit - 1 failures and as many successes. */
  lemma {:induction false} RoundsFail(r: Run, ip: string, q: nat)
    requires Rounds(Limit(r), ip, q) <= r.attempts && AllAt0(r) && r.window > 0
    ensures Failed(r, ip, |Rounds(Limit(r), ip, q)|, 0, WipedOut(r, q), q)
  {
    if q > 0 {
      var before := Rounds(Limit(r), ip, q - 1);
      assert before <= Rounds(Limit(r), ip, q);
      RoundsFail(r, ip, q - 1);
      OneRound(r, ip, before, WipedOut(r, q - 1), q - 1);
    }
  }

  lemma {:induction false} AllInWindow(n: nat, window: int)
    requires window > 0
    ensures InWindow(Zeros(n), 0, window) == n
  {
    if n > 0 {
      AllInWindow(n - 1, window);
      assert Zeros(n)[..n - 1] == Zeros(n - 1);
    }
  }

  lemma SiegeFails(r: Run, ip: string, q: nat)
    requires r.attempts == Rounds(Limit(r), ip, q) + Wrongs(ip, Limit(r)) && r.window > 0
    ensures Sequential(r.attempts) && Failed(r, ip, |r.attempts|, Limit(r), WipedOut(r, q) + Limit(r), q)
  {
    RoundsFail(r, ip, q);
    WrongStretch(r, ip, |Rounds(Limit(r), ip, q)|, Limit(r), WipedOut(r, q), q);
  }

  /** For every limit and every number of successes in the window there is a run that reaches the bound. */
  lemma BoundReached(maxFails: int, window: int, ip: string, q: nat)
    requires window > 0
    ensures
      var r := Siege(maxFails, window, ip, q);
      && Sequential(r.attempts)
      && Successes(r, ip, |r.attempts|, 0) == q
      && InWindow(Fails(r, ip, |r.attempts|), 0, window) == q * (Limit(r) - 1) + Limit(r)
  {
    var r := Siege(maxFails, window, ip, q);
    SiegeFails(r, ip, q);
    AllInWindow(WipedOut(r, q) + Limit(r), window);
    WipedOutProduct(r, q);
  }
}
