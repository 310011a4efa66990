/** Which accounts one request calls, and in which order. */
module DeviceOrder {
  import opened Basics
  import opened DeviceScheduler
  import opened ErrorClasses

  // ---------------------------------------------------------------- the order of accounts

  predicate IdBefore(a: Account, b: Account) {
    a.id < b.id
  }

  /** The rows of a query that says ORDER BY id. */
  ghost predicate Ascending(rows: seq<Account>) {
    forall i, j {:trigger IdBefore(rows[i], rows[j])} | 0 <= i < j < |rows| :: IdBefore(rows[i], rows[j])
  }

  /** More quota first, an unknown quota before any known one; the older account first among equals. */
  predicate Before(a: Account, b: Account) {
    QuotaSortKey(a) > QuotaSortKey(b) || (QuotaSortKey(a) == QuotaSortKey(b) && a.id < b.id)
  }

  ghost predicate InOrder(s: seq<Account>) {
    forall i, j {:trigger Before(s[i], s[j])} | 0 <= i < j < |s| :: Before(s[i], s[j])
  }

  /** An order fixes the sequence: two ordered sequences of the same accounts are equal. So nothing depends on how
      the sort works. */
  lemma {:induction false} OrderUnique(s: seq<Account>, t: seq<Account>)
    requires InOrder(s) && InOrder(t)
    requires forall a :: a in s <==> a in t
    ensures s == t
  {
    assert t != [] ==> t[0] in t;
    if s == [] {
    } else {
      assert s[0] in t;
      SameFirst(s, t);
      forall a
        ensures a in s[1..] <==> a in t[1..]
      {
        assert a in s <==> a == s[0] || a in s[1..];
        assert a in t <==> a == t[0] || a in t[1..];
        FirstOnlyOnce(s);
        FirstOnlyOnce(t);
      }
      TailInOrder(s);
      TailInOrder(t);
      OrderUnique(s[1..], t[1..]);
    }
  }

  lemma SameFirst(s: seq<Account>, t: seq<Account>)
    requires InOrder(s) && InOrder(t) && s != [] && t != []
    requires s[0] in t && t[0] in s
    ensures s[0] == t[0]
  {
    var i :| 0 <= i < |t| && t[i] == s[0];
    var j :| 0 <= j < |s| && s[j] == t[0];
    assert i > 0 ==> Before(t[0], t[i]);
    assert j > 0 ==> Before(s[0], s[j]);
  }

  lemma TailInOrder(s: seq<Account>)
    requires InOrder(s) && s != []
    ensures InOrder(s[1..])
  {
    forall i, j | 0 <= i < j < |s[1..]|
      ensures Before(s[1..][i], s[1..][j])
    {
      assert Before(s[i + 1], s[j + 1]);
    }
  }

  lemma FirstOnlyOnce(s: seq<Account>)
    requires InOrder(s) && s != []
    ensures s[0] !in s[1..]
  {
    forall i | 0 <= i < |s[1..]|
      ensures s[1..][i] != s[0]
    {
      assert Before(s[0], s[i + 1]);
    }
  }

  // ---------------------------------------------------------------- the filters keep what they should

  lemma AppendAscending(rows: seq<Account>, a: Account)
    requires Ascending(rows) && forall i | 0 <= i < |rows| :: rows[i].id < a.id
    ensures Ascending(rows + [a])
  {
    forall i, j | 0 <= i < j < |rows + [a]|
      ensures IdBefore((rows + [a])[i], (rows + [a])[j])
    {
      assert j < |rows| ==> IdBefore(rows[i], rows[j]);
    }
  }

  lemma FrontAscending(rows: seq<Account>)
    requires Ascending(rows) && rows != []
    ensures Ascending(rows[..|rows| - 1])
    ensures forall a | a in rows[..|rows| - 1] :: a.id < rows[|rows| - 1].id
  {
    var front := rows[..|rows| - 1];
    forall i, j | 0 <= i < j < |front|
      ensures IdBefore(front[i], front[j])
    {
      assert IdBefore(rows[i], rows[j]);
    }
    forall a | a in front
      ensures a.id < rows[|rows| - 1].id
    {
      var i :| 0 <= i < |front| && front[i] == a;
      assert IdBefore(rows[i], rows[|rows| - 1]);
    }
  }

  lemma {:induction false} ListExact(rows: seq<Account>)
    requires Ascending(rows)
    ensures Ascending(List(rows))
    ensures forall a :: a in List(rows) <==> a in rows && Listed(a)
  {
    if rows != [] {
      var front, last := rows[..|rows| - 1], rows[|rows| - 1];
      FrontAscending(rows);
      ListExact(front);
      assert forall a :: a in rows <==> a in front || a == last by {
        assert rows == front + [last];
      }
      if Listed(last) {
        AppendAscending(List(front), last);
      }
    }
  }

  lemma {:induction false} CandidatesExact(w: World, rows: seq<Account>)
    requires Ascending(rows)
    ensures Ascending(Candidates(w, rows))
    ensures forall a :: a in Candidates(w, rows) <==> a in rows && !IsExhausted(w, a.id)
  {
    if rows != [] {
      var front, last := rows[..|rows| - 1], rows[|rows| - 1];
      FrontAscending(rows);
      CandidatesExact(w, front);
      assert forall a :: a in rows <==> a in front || a == last by {
        assert rows == front + [last];
      }
      if !IsExhausted(w, last.id) {
        AppendAscending(Candidates(w, front), last);
      }
    }
  }

  lemma {:induction false} InsertInOrder(a: Account, s: seq<Account>)
    requires InOrder(s) && forall b | b in s :: a.id < b.id
    ensures InOrder(Insert(a, s))
    ensures forall b :: b in Insert(a, s) <==> b == a || b in s
  {
    var r := Insert(a, s);
    if s == [] {
    } else if QuotaSortKey(s[0]) <= QuotaSortKey(a) {
      forall i, j | 0 <= i < j < |r|
        ensures Before(r[i], r[j])
      {
        assert i > 0 ==> Before(s[i - 1], s[j - 1]);
        assert j > 1 ==> Before(s[0], s[j - 1]);
        assert s[j - 1] in s;
      }
    } else {
      TailInOrder(s);
      InsertInOrder(a, s[1..]);
      assert forall b :: b in s <==> b == s[0] || b in s[1..];
      PrependInOrder(s[0], Insert(a, s[1..]), a, s);
    }
  }

  lemma PrependInOrder(first: Account, rest: seq<Account>, a: Account, s: seq<Account>)
    requires InOrder(s) && s != [] && first == s[0] && InOrder(rest) && Before(first, a)
    requires forall b | b in rest :: b == a || b in s[1..]
    ensures InOrder([first] + rest)
  {
    var r := [first] + rest;
    forall i, j | 0 <= i < j < |r|
      ensures Before(r[i], r[j])
    {
      if i == 0 {
        assert r[j] in rest;
        if r[j] != a {
          var k :| 0 <= k < |s[1..]| && s[1..][k] == r[j];
          assert Before(s[0], s[k + 1]);
        }
      } else {
        assert Before(rest[i - 1], rest[j - 1]);
      }
    }
  }

  /** Sorting by quota puts accounts that come by id in order. */
  lemma {:induction false} SortInOrder(rows: seq<Account>)
    requires Ascending(rows)
    ensures InOrder(SortByQuota(rows))
    ensures forall a :: a in SortByQuota(rows) <==> a in rows
  {
    if rows != [] {
      var rest := rows[1..];
      forall i, j | 0 <= i < j < |rest|
        ensures IdBefore(rest[i], rest[j])
      {
        assert IdBefore(rows[i + 1], rows[j + 1]);
      }
      SortInOrder(rest);
      forall b | b in SortByQuota(rest)
        ensures rows[0].id < b.id
      {
        var i :| 0 <= i < |rest| && rest[i] == b;
        assert IdBefore(rows[0], rows[i + 1]);
      }
      InsertInOrder(rows[0], SortByQuota(rest));
      assert rows == [rows[0]] + rest;
    }
  }

  // ---------------------------------------------------------------- who may be called

  predicate MayCall(w: World, a: Account) {
    a in w.accounts && Listed(a) && !IsExhausted(w, a.id) && a.parsable
  }

  function Parsable(s: seq<Account>): (r: seq<Account>)
    ensures |r| <= |s|
  {
    if s == [] then [] else (if s[0].parsable then [s[0]] else []) + Parsable(s[1..])
  }

  lemma {:induction false} ParsableInOrder(s: seq<Account>)
    requires InOrder(s)
    ensures InOrder(Parsable(s))
    ensures forall a :: a in Parsable(s) <==> a in s && a.parsable
  {
    if s != [] {
      TailInOrder(s);
      ParsableInOrder(s[1..]);
      assert forall b :: b in s <==> b == s[0] || b in s[1..];
      var p := Parsable(s[1..]);
      if s[0].parsable {
        var r := [s[0]] + p;
        forall i, j | 0 <= i < j < |r|
          ensures Before(r[i], r[j])
        {
          if i == 0 {
            assert r[j] in p;
            var k :| 0 <= k < |s[1..]| && s[1..][k] == r[j];
            assert Before(s[0], s[k + 1]);
          } else {
            assert Before(p[i - 1], p[j - 1]);
          }
        }
      }
    }
  }

  /** The accounts a request would call if every call failed in a way that rotates. */
  function Eligible(w: World): (r: seq<Account>)
    ensures |r| <= |w.accounts|
  {
    Parsable(SortByQuota(Candidates(w, List(w.accounts))))
  }

  /** They are exactly the accounts that may be called, in order. */
  lemma EligibleExact(w: World)
    requires Ascending(w.accounts)
    ensures InOrder(Eligible(w))
    ensures forall a :: a in Eligible(w) <==> MayCall(w, a)
  {
    ListExact(w.accounts);
    CandidatesExact(w, List(w.accounts));
    SortInOrder(Candidates(w, List(w.accounts)));
    ParsableInOrder(SortByQuota(Candidates(w, List(w.accounts))));
  }

  lemma {:induction false} FirstParsableIsFirst(s: seq<Account>)
    ensures FirstParsable(s) == if Parsable(s) == [] then None else Some(Parsable(s)[0])
  {
    if s != [] {
      FirstParsableIsFirst(s[1..]);
    }
  }

  /** A model test calls the first eligible account, if there is one. */
  lemma BestIsFirstEligible(w: World)
    ensures Best(w) == if Eligible(w) == [] then None else Some(Eligible(w)[0])
  {
    FirstParsableIsFirst(SortByQuota(Candidates(w, List(w.accounts))));
  }

  /** An account of unknown quota is called before every account whose quota is known. */
  lemma UnknownQuotaFirst(w: World, i: nat, j: nat)
    requires Ascending(w.accounts) && i < |Eligible(w)| && j < |Eligible(w)|
    requires Eligible(w)[i].remaining < 0 <= Eligible(w)[j].remaining < MAX_INT64
    ensures i < j
  {
    EligibleExact(w);
    assert j < i ==> Before(Eligible(w)[j], Eligible(w)[i]);
  }

  /** How many of `n` accounts are called: up to and including the first whose answer does not rotate. */
  function Cut(n: nat, answers: seq<Answer>): (r: nat)
    requires |answers| >= n
    ensures r <= n
    ensures forall i | 0 <= i < r - 1 :: GoesOn(answers[i])
    ensures r < n ==> r > 0 && !GoesOn(answers[r - 1])
  {
    if n == 0 then 0
    else if GoesOn(answers[0]) then 1 + Cut(n - 1, answers[1..])
    else 1
  }

  /** The world after calling the first `n` of these accounts in turn. */
  function Replay(w: World, called: seq<Account>, answers: seq<Answer>, n: nat): World
    requires n <= |called| && n <= |answers|
  {
    if n == 0 then w
    else AfterCall(Replay(w, called, answers, n - 1), called[n - 1].id, answers[n - 1])
  }

  lemma {:induction false} ReplayFromFirst(w: World, called: seq<Account>, answers: seq<Answer>, n: nat)
    requires 0 < n <= |called| && n <= |answers|
    ensures Replay(w, called, answers, n)
            == Replay(AfterCall(w, called[0].id, answers[0]), called[1..], answers[1..], n - 1)
  {
    if n > 1 {
      ReplayFromFirst(w, called, answers, n - 1);
    } else {
      assert Replay(w, called, answers, 0) == w;
    }
  }

  // ---------------------------------------------------------------- one request, exactly

  /** The accounts still to try are not in their daily cooldown, and no two are the same. */
  ghost predicate Ready(w: World, order: seq<Account>) {
    && (forall i | 0 <= i < |order| :: !IsExhausted(w, order[i].id))
    && (forall i, j | 0 <= i < j < |order| :: order[i].id != order[j].id)
  }

  lemma ReadyAfter(w: World, order: seq<Account>, answer: Answer)
    requires Ready(w, order) && order != []
    ensures Ready(w, order[1..]) && Ready(AfterCall(w, order[0].id, answer), order[1..])
  {
  }

  /** The outcome is that of calling the first `Cut` of these accounts in turn. */
  ghost predicate Replays(w: World, e: seq<Account>, answers: seq<Answer>, o: Outcome)
    requires |answers| >= |e|
  {
    var n := Cut(|e|, answers);
    && o.w == Replay(w, e, answers, n)
    && o.accountsExisted
    && (o.served <==> n > 0 && !GoesOn(answers[n - 1]))
  }

  lemma ReplaysOn(w: World, e: seq<Account>, answers: seq<Answer>, o: Outcome)
    requires |answers| >= |e| > 0 && GoesOn(answers[0])
    requires Replays(AfterCall(w, e[0].id, answers[0]), e[1..], answers[1..], o)
    ensures Replays(w, e, answers, o)
  {
    ReplayFromFirst(w, e, answers, Cut(|e|, answers));
  }

  lemma ReplaysStop(w: World, e: seq<Account>, answers: seq<Answer>)
    requires |answers| >= |e| > 0 && !GoesOn(answers[0])
    ensures Replays(w, e, answers, Outcome(AfterCall(w, e[0].id, answers[0]), true, true, NoHint))
  {
    assert Replay(w, e, answers, 0) == w;
    assert Replay(w, e, answers, 1) == AfterCall(w, e[0].id, answers[0]);
  }

  lemma {:induction false} AttemptReplays(w: World, order: seq<Account>, answers: seq<Answer>, hint: Hint)
    requires |answers| >= |order| && Ready(w, order)
    ensures Replays(w, Parsable(order), answers, Attempt(w, order, answers, hint))
    decreases |order|
  {
    if order != [] {
      ReadyAfter(w, order, answers[0]);
      var e, rest := Parsable(order), order[1..];
      if !order[0].parsable {
        assert e == Parsable(rest);
        AttemptReplays(w, rest, answers, hint);
      } else {
        assert e[0] == order[0] && e[1..] == Parsable(rest);
        var id := order[0].id;
        if GoesOn(answers[0]) {
          AttemptReplays(AfterCall(w, id, answers[0]), rest, answers[1..], HintOf(id, answers[0]));
          ReplaysOn(w, e, answers, Attempt(w, order, answers, hint));
        } else {
          ReplaysStop(w, e, answers);
        }
      }
    }
  }

  lemma InOrderReady(w: World, order: seq<Account>, rows: seq<Account>)
    requires Ascending(rows) && InOrder(order)
    requires forall a | a in order :: a in rows && !IsExhausted(w, a.id)
    ensures Ready(w, order)
  {
    forall i, j | 0 <= i < j < |order|
      ensures order[i].id != order[j].id
    {
      assert Before(order[i], order[j]);
      assert order[i] in rows && order[j] in rows;
      var a :| 0 <= a < |rows| && rows[a] == order[i];
      var b :| 0 <= b < |rows| && rows[b] == order[j];
      assert a < b ==> IdBefore(rows[a], rows[b]);
      assert b < a ==> IdBefore(rows[b], rows[a]);
    }
    forall i | 0 <= i < |order|
      ensures !IsExhausted(w, order[i].id)
    {
      assert order[i] in order;
    }
  }

  /** A request's whole effect is that of calling, in order, the first `Cut` of the eligible accounts. It is served
      exactly when the last call did not rotate. The check inside the loop never skips an account. */
  lemma CalledExactly(w: World, answers: seq<Answer>)
    requires Ascending(w.accounts) && |answers| >= |w.accounts|
    ensures
      var n := Cut(|Eligible(w)|, answers);
      var o := TryDeviceChat(w, answers);
      && o.w == Replay(w, Eligible(w), answers, n)
      && (o.served <==> n > 0 && !GoesOn(answers[n - 1]))
      && (o.accountsExisted <==> exists a :: a in w.accounts && Listed(a))
  {
    ListExact(w.accounts);
    var listed := List(w.accounts);
    assert listed != [] ==> listed[0] in listed;
    CandidatesExact(w, listed);
    var candidates := Candidates(w, listed);
    SortInOrder(candidates);
    var order := SortByQuota(candidates);
    if candidates == [] {
      assert Eligible(w) == [];
    } else {
      InOrderReady(w, order, w.accounts);
      AttemptReplays(w, order, answers, Unavailable);
    }
  }

  /** The `i`-th of the calls made between `w` and `r` went to the `i`-th of these accounts, brought the `i`-th answer
      and put one record of it. */
  predicate Made(w: World, r: World, called: seq<Account>, answers: seq<Answer>, i: nat)
    requires i < |called| && i < |answers|
  {
    && |w.calls| + i < |r.calls|
    && r.calls[|w.calls| + i].id == called[i].id
    && r.calls[|w.calls| + i].answer == answers[i]
    && |w.records| + i < |r.records|
    && r.records[|w.records| + i] == RecordOf(answers[i])
  }

  /** Between `w` and `r` exactly the first `n` of these accounts were called, in turn. */
  ghost predicate MadeFirst(w: World, r: World, called: seq<Account>, answers: seq<Answer>, n: nat)
    requires n <= |called| && n <= |answers|
  {
    && |r.calls| == |w.calls| + n && r.calls[..|w.calls|] == w.calls
    && |r.records| == |w.records| + n && r.records[..|w.records|] == w.records
    && forall i | 0 <= i < n :: Made(w, r, called, answers, i)
  }

  lemma {:induction false} ReplayCalls(w: World, called: seq<Account>, answers: seq<Answer>, n: nat)
    requires n <= |called| && n <= |answers|
    ensures MadeFirst(w, Replay(w, called, answers, n), called, answers, n)
  {
    if n > 0 {
      ReplayCalls(w, called, answers, n - 1);
      var v, r := Replay(w, called, answers, n - 1), Replay(w, called, answers, n);
      forall i | 0 <= i < n
        ensures Made(w, r, called, answers, i)
      {
        assert i < n - 1 ==> Made(w, v, called, answers, i);
      }
    }
  }

  /** The same, said of the request: whom it called, what it recorded. */
  lemma RequestCalls(w: World, answers: seq<Answer>)
    requires Ascending(w.accounts) && |answers| >= |w.accounts|
    ensures MadeFirst(w, TryDeviceChat(w, answers).w, Eligible(w), answers, Cut(|Eligible(w)|, answers))
  {
    CalledExactly(w, answers);
    ReplayCalls(w, Eligible(w), answers, Cut(|Eligible(w)|, answers));
  }

  // ---------------------------------------------------------------- error bodies do not matter

  /** Answers of the same kind and status; bodies, usage and timing may differ. */
  predicate SameStatus(a: Answer, b: Answer) {
    match a
    case NetworkError(_) => b.NetworkError?
    case ApiError(_, status, _) => b.ApiError? && b.status == status
    case Success(_, status, _, _, _) => b.Success? && b.status == status
  }

  lemma {:induction false} SameCut(n: nat, a: seq<Answer>, b: seq<Answer>)
    requires |a| >= n && |b| >= n && forall i | 0 <= i < n :: SameStatus(a[i], b[i])
    ensures Cut(n, a) == Cut(n, b)
    ensures forall i | 0 <= i < n :: GoesOn(a[i]) == GoesOn(b[i])
  {
    forall i | 0 <= i < n
      ensures GoesOn(a[i]) == GoesOn(b[i])
    {
      if a[i].ApiError? {
        RotationReadsStatusOnly(a[i].status, a[i].body);
        RotationReadsStatusOnly(b[i].status, b[i].body);
      }
    }
    if n > 0 {
      SameCut(n - 1, a[1..], b[1..]);
    }
  }

  /** Two runs of a request whose answers differ only in their bodies, usage and timing call the same accounts in
      the same order and agree on whether the request was served. */
  lemma BodiesDoNotSteer(w: World, a: seq<Answer>, b: seq<Answer>)
    requires Ascending(w.accounts) && |a| >= |w.accounts| && |b| >= |w.accounts|
    requires forall i | 0 <= i < |w.accounts| :: SameStatus(a[i], b[i])
    ensures
      var x := TryDeviceChat(w, a);
      var y := TryDeviceChat(w, b);
      && x.served == y.served && x.accountsExisted == y.accountsExisted
      && |x.w.calls| == |y.w.calls|
      && forall i | 0 <= i < |x.w.calls| :: x.w.calls[i].id == y.w.calls[i].id
  {
    CalledExactly(w, a);
    CalledExactly(w, b);
    RequestCalls(w, a);
    RequestCalls(w, b);
    SameCut(|Eligible(w)|, a, b);
    SameCallees(w, TryDeviceChat(w, a).w, TryDeviceChat(w, b).w, Eligible(w), a, b, Cut(|Eligible(w)|, a));
  }

  lemma SameCallees(w: World, x: World, y: World, called: seq<Account>, a: seq<Answer>, b: seq<Answer>, n: nat)
    requires n <= |called| && n <= |a| && n <= |b|
    requires MadeFirst(w, x, called, a, n) && MadeFirst(w, y, called, b, n)
    ensures |x.calls| == |y.calls| && forall i | 0 <= i < |x.calls| :: x.calls[i].id == y.calls[i].id
  {
    forall i | 0 <= i < |x.calls|
      ensures x.calls[i].id == y.calls[i].id
    {
      if i < |w.calls| {
        assert x.calls[i] == x.calls[..|w.calls|][i] && y.calls[i] == y.calls[..|w.calls|][i];
      } else {
        assert Made(w, x, called, a, i - |w.calls|);
        assert Made(w, y, called, b, i - |w.calls|);
      }
    }
  }

  // ---------------------------------------------------------------- a ban ends the request

  predicate Bans(answer: Answer) {
    answer.ApiError? && answer.status == 403
  }

  lemma BansStop(answer: Answer)
    ensures Bans(answer) ==> !GoesOn(answer)
  {
  }

  ghost predicate SameEnabled(a: seq<Account>, b: seq<Account>) {
    |a| == |b| && forall i | 0 <= i < |a| :: a[i].id == b[i].id && a[i].enabled == b[i].enabled
  }

  lemma {:induction false} RotatingCallsDisableNobody(w: World, called: seq<Account>, answers: seq<Answer>, n: nat)
    requires n <= |called| && n <= |answers| && forall i | 0 <= i < n :: !Bans(answers[i])
    ensures SameEnabled(w.accounts, Replay(w, called, answers, n).accounts)
  {
    if n > 0 {
      RotatingCallsDisableNobody(w, called, answers, n - 1);
    }
  }

  /** Whether the last of these calls was a 403 to this account. */
  predicate BannedLast(w: World, r: World, id: int) {
    && |r.calls| > |w.calls|
    && Bans(r.calls[|r.calls| - 1].answer)
    && r.calls[|r.calls| - 1].id == id
  }

  /** A request disables at most the account it called last, exactly when that call brought a 403; no call that
      brought a 403 is followed by another. */
  lemma OneBanAtMost(w: World, answers: seq<Answer>)
    requires Ascending(w.accounts) && |answers| >= |w.accounts|
    ensures
      var r := TryDeviceChat(w, answers).w;
      && (forall k | |w.calls| <= k < |r.calls| - 1 :: !Bans(r.calls[k].answer))
      && |r.accounts| == |w.accounts|
      && (forall i | 0 <= i < |w.accounts| ::
            && r.accounts[i].id == w.accounts[i].id
            && r.accounts[i].enabled == (w.accounts[i].enabled && !BannedLast(w, r, w.accounts[i].id)))
  {
    NoCallAfterBan(w, answers);
    RequestEnabled(w, answers);
    RequestCalls(w, answers);
    var r := TryDeviceChat(w, answers).w;
    forall i | 0 <= i < |w.accounts|
      ensures r.accounts[i].id == w.accounts[i].id
      ensures r.accounts[i].enabled == (w.accounts[i].enabled && !BannedLast(w, r, w.accounts[i].id))
    {
      LastMade(w, r, Eligible(w), answers, Cut(|Eligible(w)|, answers), w.accounts[i].id);
      assert KeepsUnlessBanned(w.accounts[i], r.accounts[i], Eligible(w), answers, Cut(|Eligible(w)|, answers));
    }
  }

  lemma LastMade(w: World, r: World, called: seq<Account>, answers: seq<Answer>, n: nat, id: int)
    requires n <= |called| && n <= |answers| && MadeFirst(w, r, called, answers, n)
    ensures BannedLast(w, r, id) <==> n > 0 && Bans(answers[n - 1]) && called[n - 1].id == id
  {
    if n > 0 {
      assert Made(w, r, called, answers, n - 1);
    }
  }

  lemma NoCallAfterBan(w: World, answers: seq<Answer>)
    requires Ascending(w.accounts) && |answers| >= |w.accounts|
    ensures
      var r := TryDeviceChat(w, answers).w;
      forall k | |w.calls| <= k < |r.calls| - 1 :: !Bans(r.calls[k].answer)
  {
    RequestCalls(w, answers);
    CutBans(|Eligible(w)|, answers);
    var r := TryDeviceChat(w, answers).w;
    forall k | |w.calls| <= k < |r.calls| - 1
      ensures !Bans(r.calls[k].answer)
    {
      assert Made(w, r, Eligible(w), answers, k - |w.calls|);
    }
  }

  /** The row keeps its `enabled` unless the last of the calls made was a ban and went to it. */
  predicate KeepsUnlessBanned(row: Account, after: Account, called: seq<Account>, answers: seq<Answer>, n: nat)
    requires n <= |called| && n <= |answers|
  {
    && after.id == row.id
    && after.enabled == (row.enabled && !(n > 0 && Bans(answers[n - 1]) && called[n - 1].id == row.id))
  }

  ghost predicate LastBans(rows: seq<Account>, after: seq<Account>, called: seq<Account>, answers: seq<Answer>, n: nat)
    requires n <= |called| && n <= |answers|
  {
    |after| == |rows| && forall i | 0 <= i < |rows| :: KeepsUnlessBanned(rows[i], after[i], called, answers, n)
  }

  lemma ReplayEnabled(w: World, called: seq<Account>, answers: seq<Answer>, n: nat)
    requires n <= |called| && n <= |answers| && forall i | 0 <= i < n - 1 :: !Bans(answers[i])
    ensures LastBans(w.accounts, Replay(w, called, answers, n).accounts, called, answers, n)
  {
    if n > 0 {
      RotatingCallsDisableNobody(w, called, answers, n - 1);
      LastCallDisables(w, Replay(w, called, answers, n - 1), called[n - 1].id, answers[n - 1]);
    }
  }

  lemma CutBans(n: nat, answers: seq<Answer>)
    requires |answers| >= n
    ensures forall i | 0 <= i < Cut(n, answers) - 1 :: !Bans(answers[i])
  {
    forall i | 0 <= i < Cut(n, answers) - 1
      ensures !Bans(answers[i])
    {
      BansStop(answers[i]);
    }
  }

  lemma RequestEnabled(w: World, answers: seq<Answer>)
    requires Ascending(w.accounts) && |answers| >= |w.accounts|
    ensures var e := Eligible(w);
      LastBans(w.accounts, TryDeviceChat(w, answers).w.accounts, e, answers, Cut(|e|, answers))
  {
    CalledExactly(w, answers);
    CutBans(|Eligible(w)|, answers);
    ReplayEnabled(w, Eligible(w), answers, Cut(|Eligible(w)|, answers));
  }

  lemma LastCallDisables(w: World, v: World, id: int, answer: Answer)
    requires SameEnabled(w.accounts, v.accounts)
    ensures
      var r := AfterCall(v, id, answer).accounts;
      && |r| == |w.accounts|
      && forall i | 0 <= i < |r| ::
        r[i].id == w.accounts[i].id
        && (r[i].enabled <==> w.accounts[i].enabled && !(Bans(answer) && id == w.accounts[i].id))
  {
    if answer.ApiError? {
      RotationReadsStatusOnly(answer.status, answer.body);
    }
  }
}
