/** What one chat request does, told from the accounts, the answers and the texts of their bodies alone. */
module DeviceOutcomes {
  import opened Basics
  import opened BeijingTime
  import opened DeviceOrder
  import opened DeviceRuns
  import opened DeviceScheduler
  import opened ErrorClasses

  // ---------------------------------------------------------------- the texts of error bodies

  const QUOTA_TEXTS := ["\"quota_exceeded\"", "\"insufficient_quota\"", "额度用完", "quota exhausted"]
  const CLIENT_ONLY_TEXTS := ["u1s1_client_only", "仅支持 u1s1 客户端", "仅限 u1s1 客户端", "只支持 u1s1 客户端"]
  const REVIEW_CODES := ["client_integrity_review", "account_restricted"]
  const REVIEW_TEXTS := ["继续使用非 u1s1 客户端", "本次请求已暂停", "请升级并重新登录 u1s1"]

  predicate StandsAt(s: string, part: string, i: int) {
    0 <= i <= |s| - |part| && s[i..i + |part|] == part
  }

  /** `part` stands somewhere in `s`. */
  ghost predicate Says(s: string, part: string) {
    exists i :: StandsAt(s, part, i)
  }

  /** One of the texts stands in `s`. */
  ghost predicate SaysAny(s: string, texts: seq<string>) {
    exists k | 0 <= k < |texts| :: Says(s, texts[k])
  }

  lemma ContainsSays(s: string, part: string)
    ensures Contains(s, part) <==> Says(s, part)
  {
    if i :| 0 <= i <= |s| && part <= s[i..] {
      assert StandsAt(s, part, i);
    }
    if i :| StandsAt(s, part, i) {
      assert part <= s[i..];
    }
  }

  lemma AnyOfFour(s: string, texts: seq<string>)
    requires |texts| == 4
    ensures SaysAny(s, texts) <==>
      Contains(s, texts[0]) || Contains(s, texts[1]) || Contains(s, texts[2]) || Contains(s, texts[3])
  {
    ContainsSays(s, texts[0]);
    ContainsSays(s, texts[1]);
    ContainsSays(s, texts[2]);
    ContainsSays(s, texts[3]);
  }

  /** The answer is a 429 whose body, in lower case, has a quota text. */
  ghost predicate UsesUpQuota(answer: Answer) {
    answer.ApiError? && answer.status == 429 && SaysAny(answer.body.lower, QUOTA_TEXTS)
  }

  /** The body asks for a new login, and is not about the key channel being closed. */
  ghost predicate AsksForLogin(body: Body) {
    && !SaysAny(body.lower, CLIENT_ONLY_TEXTS)
    && (SaysAny(body.lower, REVIEW_CODES) || SaysAny(body.raw, REVIEW_TEXTS))
  }

  lemma QuotaTextsExactly(status: int, body: Body)
    ensures QuotaSignal(status, body) <==> status == 429 && SaysAny(body.lower, QUOTA_TEXTS)
  {
    AnyOfFour(body.lower, QUOTA_TEXTS);
  }

  lemma ReviewTextsExactly(body: Body)
    ensures SaysAny(body.lower, REVIEW_CODES) || SaysAny(body.raw, REVIEW_TEXTS) <==>
      || Contains(body.lower, "client_integrity_review") || Contains(body.lower, "account_restricted")
      || Contains(body.raw, "继续使用非 u1s1 客户端") || Contains(body.raw, "本次请求已暂停")
      || Contains(body.raw, "请升级并重新登录 u1s1")
  {
    ContainsSays(body.lower, REVIEW_CODES[0]);
    ContainsSays(body.lower, REVIEW_CODES[1]);
    ContainsSays(body.raw, REVIEW_TEXTS[0]);
    ContainsSays(body.raw, REVIEW_TEXTS[1]);
    ContainsSays(body.raw, REVIEW_TEXTS[2]);
  }

  lemma LoginTextsExactly(body: Body)
    ensures IntegrityReviewRelogin(403, body) <==> AsksForLogin(body)
  {
    AnyOfFour(body.lower, CLIENT_ONLY_TEXTS);
    ReviewTextsExactly(body);
  }

  // ---------------------------------------------------------------- one row

  /** What becomes of an account's row when a request's call to it brings this answer: a 401 takes the authorization, a
      403 disables, as needing a new login or as banned, and tokens used are counted with their request. */
  ghost predicate RowFollows(a: Account, a': Account, answer: Answer) {
    && a'.id == a.id && a'.remaining == a.remaining && a'.parsable == a.parsable
    && a'.authorized == (a.authorized && !(answer.ApiError? && answer.status == 401))
    && a'.enabled == (a.enabled && !(answer.ApiError? && answer.status == 403))
    && a'.status == (if answer.ApiError? && answer.status == 403
                     then (if AsksForLogin(answer.body) then NeedsRelogin else GatewayBanned)
                     else a.status)
    && (if answer.Success? && answer.input + answer.output > 0
        then a'.requests == a.requests + 1 && a'.tokens == a.tokens + answer.input + answer.output
        else a'.requests == a.requests && a'.tokens == a.tokens)
  }

  lemma CallRows(w: World, id: int, answer: Answer)
    ensures
      var w' := AfterCall(w, id, answer);
      && |w'.accounts| == |w.accounts|
      && forall i | 0 <= i < |w.accounts| ::
        if w.accounts[i].id == id then RowFollows(w.accounts[i], w'.accounts[i], answer)
        else w'.accounts[i] == w.accounts[i]
  {
    if answer.ApiError? {
      LoginTextsExactly(answer.body);
    }
  }

  /** No two of these accounts have the same id. */
  ghost predicate Distinct(s: seq<Account>) {
    forall i, j | 0 <= i < j < |s| :: s[i].id != s[j].id
  }

  /** One row after the first `n` of these calls: it follows the answer to the call that went to it, if one did. */
  ghost predicate RowAfter(a: Account, a': Account, called: seq<Account>, answers: seq<Answer>, n: nat)
    requires n <= |called| && n <= |answers|
  {
    && (forall m | 0 <= m < n && called[m].id == a.id :: RowFollows(a, a', answers[m]))
    && ((forall m | 0 <= m < n :: called[m].id != a.id) ==> a' == a)
    && a'.id == a.id
  }

  lemma RowAfterOneMore(a: Account, v: Account, a': Account, called: seq<Account>, answers: seq<Answer>, n: nat)
    requires 0 < n <= |called| && n <= |answers| && Distinct(called) && RowAfter(a, v, called, answers, n - 1)
    requires if called[n - 1].id == a.id then RowFollows(v, a', answers[n - 1]) else a' == v
    ensures RowAfter(a, a', called, answers, n)
  {
    if called[n - 1].id == a.id {
      assert forall m | 0 <= m < n - 1 :: called[m].id != a.id;
    }
  }

  lemma {:induction false} ReplayRowsFollow(w: World, called: seq<Account>, answers: seq<Answer>, n: nat)
    requires n <= |called| && n <= |answers| && Distinct(called)
    ensures
      var r := Replay(w, called, answers, n).accounts;
      |r| == |w.accounts| && forall i | 0 <= i < |r| :: RowAfter(w.accounts[i], r[i], called, answers, n)
  {
    if n > 0 {
      ReplayRowsFollow(w, called, answers, n - 1);
      var v := Replay(w, called, answers, n - 1);
      CallRows(v, called[n - 1].id, answers[n - 1]);
      var r := Replay(w, called, answers, n).accounts;
      forall i | 0 <= i < |r|
        ensures RowAfter(w.accounts[i], r[i], called, answers, n)
      {
        RowAfterOneMore(w.accounts[i], v.accounts[i], r[i], called, answers, n);
      }
    }
  }

  lemma EligibleDistinct(w: World)
    requires Ascending(w.accounts)
    ensures Distinct(Eligible(w)) && Ready(w, Eligible(w))
  {
    EligibleExact(w);
    InOrderReady(w, Eligible(w), w.accounts);
  }

  /** The `k`-th call in `r` was made since `w`, to this account. */
  predicate CallTo(w: World, r: World, k: int, id: int) {
    |w.calls| <= k < |r.calls| && r.calls[k].id == id
  }

  /** A row followed the answer to the call that went to it, or was left alone. */
  ghost predicate RowTold(w: World, r: World, i: nat)
    requires i < |w.accounts| && i < |r.accounts|
  {
    && (forall k | CallTo(w, r, k, w.accounts[i].id) :: RowFollows(w.accounts[i], r.accounts[i], r.calls[k].answer))
    && ((forall k :: !CallTo(w, r, k, w.accounts[i].id)) ==> r.accounts[i] == w.accounts[i])
  }

  lemma MadeRowTold(w: World, r: World, called: seq<Account>, answers: seq<Answer>, n: nat, i: nat)
    requires n <= |called| && n <= |answers| && MadeFirst(w, r, called, answers, n)
    requires i < |w.accounts| && i < |r.accounts| && RowAfter(w.accounts[i], r.accounts[i], called, answers, n)
    ensures RowTold(w, r, i)
  {
    forall k | CallTo(w, r, k, w.accounts[i].id)
      ensures RowFollows(w.accounts[i], r.accounts[i], r.calls[k].answer)
    {
      assert Made(w, r, called, answers, k - |w.calls|);
    }
    forall m | 0 <= m < n && called[m].id == w.accounts[i].id
      ensures CallTo(w, r, |w.calls| + m, w.accounts[i].id)
    {
      assert Made(w, r, called, answers, m);
    }
  }

  /** Every row after a request: it follows the answer to the call that went to it, and is untouched if none did. So a
      403 whose body asks for a new login leaves the account needing one, any other 403 leaves it banned, and nothing
      else changes a row's status. */
  lemma RequestRows(w: World, answers: seq<Answer>)
    requires Ascending(w.accounts) && |answers| >= |w.accounts|
    ensures
      var r := TryDeviceChat(w, answers).w;
      |r.accounts| == |w.accounts| && forall i | 0 <= i < |w.accounts| :: RowTold(w, r, i)
  {
    var r, e := TryDeviceChat(w, answers).w, Eligible(w);
    var n := Cut(|e|, answers);
    CalledExactly(w, answers);
    RequestCalls(w, answers);
    EligibleDistinct(w);
    ReplayRowsFollow(w, e, answers, n);
    forall i | 0 <= i < |w.accounts|
      ensures RowTold(w, r, i)
    {
      MadeRowTold(w, r, e, answers, n, i);
    }
  }

  // ---------------------------------------------------------------- who is called, and until when

  /** The next account is tried after a network error, a 401, a 402 and a 429, and after nothing else. */
  predicate TriesNext(answer: Answer) {
    answer.NetworkError? || (answer.ApiError? && answer.status in {401, 402, 429})
  }

  lemma GoesOnExactly(answer: Answer)
    ensures GoesOn(answer) <==> TriesNext(answer)
  {
    if answer.ApiError? {
      RotationReadsStatusOnly(answer.status, answer.body);
    }
  }

  /** How long the first `n` of these answers took. */
  function Took(answers: seq<Answer>, n: nat): nat
    requires n <= |answers|
  {
    if n == 0 then 0 else Took(answers, n - 1) + answers[n - 1].elapsed
  }

  /** The record of a call. */
  predicate Records(rec: Record, answer: Answer) {
    match answer
    case NetworkError(_) => rec.status == 0 && rec.input == 0 && rec.output == 0 && !rec.success
    case ApiError(_, status, _) => rec.status == status && rec.input == 0 && rec.output == 0 && !rec.success
    case Success(_, status, input, output, broken) =>
      rec.status == status && rec.input == input && rec.output == output && rec.success == !broken
  }

  lemma {:induction false} ReplayTimes(w: World, called: seq<Account>, answers: seq<Answer>, n: nat)
    requires n <= |called| && n <= |answers|
    ensures
      var r := Replay(w, called, answers, n);
      && r.now == w.now + Took(answers, n) && |r.calls| == |w.calls| + n && r.nextId == w.nextId
      && forall i | 0 <= i < n ::
        r.calls[|w.calls| + i] == Called(called[i].id, w.now + Took(answers, i + 1), answers[i], false)
  {
    if n > 0 {
      ReplayTimes(w, called, answers, n - 1);
    }
  }

  /** The accounts that may be called, in the order in which they are: authorized, enabled, with keys that parse and no
      mark ahead; those of unknown quota as if it were the largest, then by quota, the older first among equals. */
  lemma CallableInOrder(w: World)
    requires Ascending(w.accounts)
    ensures
      var e := Eligible(w);
      && (forall a :: a in e <==>
            && a in w.accounts && a.authorized && a.enabled && a.parsable
            && !(a.id in w.exhausted && w.now < w.exhausted[a.id]))
      && (forall i, j | 0 <= i < j < |e| ::
            var x := if e[i].remaining < 0 then 0x7fff_ffff_ffff_ffff else e[i].remaining;
            var y := if e[j].remaining < 0 then 0x7fff_ffff_ffff_ffff else e[j].remaining;
            x > y || (x == y && e[i].id < e[j].id))
  {
    EligibleExact(w);
    var e := Eligible(w);
    forall i, j | 0 <= i < j < |e|
      ensures
        var x := if e[i].remaining < 0 then 0x7fff_ffff_ffff_ffff else e[i].remaining;
        var y := if e[j].remaining < 0 then 0x7fff_ffff_ffff_ffff else e[j].remaining;
        x > y || (x == y && e[i].id < e[j].id)
    {
      assert Before(e[i], e[j]);
    }
  }

  /** These accounts are called one after the other, each with the next answer, until one answer is not a network error,
      401, 402 or 429; the request is served exactly when there is one. Each call leaves its record. */
  lemma RequestSequence(w: World, answers: seq<Answer>)
    requires Ascending(w.accounts) && |answers| >= |w.accounts|
    ensures
      var o, e := TryDeviceChat(w, answers), Eligible(w);
      var n := |o.w.calls| - |w.calls|;
      && 0 <= n <= |e| && o.w.calls[..|w.calls|] == w.calls
      && (forall i | 0 <= i < n ::
            o.w.calls[|w.calls| + i] == Called(e[i].id, w.now + Took(answers, i + 1), answers[i], false))
      && o.w.now == w.now + Took(answers, n) && o.w.nextId == w.nextId
      && (forall i | 0 <= i < n - 1 :: TriesNext(answers[i]))
      && (o.served <==> n > 0 && !TriesNext(answers[n - 1]))
      && (!o.served ==> n == |e|)
      && (o.accountsExisted <==> exists a :: a in w.accounts && a.authorized && a.enabled)
  {
    var e := Eligible(w);
    var n := Cut(|e|, answers);
    CalledExactly(w, answers);
    RequestCalls(w, answers);
    ReplayTimes(w, e, answers, n);
    forall i | 0 <= i < n
      ensures GoesOn(answers[i]) <==> TriesNext(answers[i])
    {
      GoesOnExactly(answers[i]);
    }
  }

  /** The `i`-th call made since `w` left the `i`-th new record. */
  predicate RecordedAt(w: World, r: World, i: int) {
    0 <= i && |w.records| + i < |r.records| && |w.calls| + i < |r.calls|
    && Records(r.records[|w.records| + i], r.calls[|w.calls| + i].answer)
  }

  lemma RequestRecords(w: World, answers: seq<Answer>)
    requires Ascending(w.accounts) && |answers| >= |w.accounts|
    ensures
      var r := TryDeviceChat(w, answers).w;
      var n := |r.calls| - |w.calls|;
      && 0 <= n && |r.records| == |w.records| + n && r.records[..|w.records|] == w.records
      && forall i | 0 <= i < n :: RecordedAt(w, r, i)
  {
    RequestCalls(w, answers);
    var r, e := TryDeviceChat(w, answers).w, Eligible(w);
    forall i | 0 <= i < |r.calls| - |w.calls|
      ensures RecordedAt(w, r, i)
    {
      assert Made(w, r, e, answers, i);
    }
  }

  // ---------------------------------------------------------------- marks

  function MarkOf(w: World, id: int): Option<int> {
    if id in w.exhausted then Some(w.exhausted[id]) else None
  }

  /** The account's mark after these calls: the Beijing midnight after the last answer of its own that said its quota
      was used up; what it was before if no answer said so. */
  ghost function MarkSaid(calls: seq<Called>, id: int, before: Option<int>): Option<int> {
    if calls == [] then before
    else
      var last := calls[|calls| - 1];
      if last.id == id && UsesUpQuota(last.answer) then Some(NextBeijingMidnight(last.at))
      else MarkSaid(calls[..|calls| - 1], id, before)
  }

  lemma SignalExactly(answer: Answer)
    ensures IsQuotaSignal(answer) <==> UsesUpQuota(answer)
  {
    if answer.ApiError? {
      QuotaTextsExactly(answer.status, answer.body);
    }
  }

  lemma OneMoreSaid(calls: seq<Called>, c: Called, id: int, before: Option<int>)
    ensures MarkSaid(calls + [c], id, before)
            == if c.id == id && UsesUpQuota(c.answer) then Some(NextBeijingMidnight(c.at))
               else MarkSaid(calls, id, before)
  {
    assert (calls + [c])[..|calls|] == calls;
  }

  lemma OneMoreMark(w: World, v: World, called: int, answer: Answer, id: int)
    requires w.calls <= v.calls && MarkOf(v, id) == MarkSaid(v.calls[|w.calls|..], id, MarkOf(w, id))
    ensures
      var r := AfterCall(v, called, answer);
      w.calls <= r.calls && MarkOf(r, id) == MarkSaid(r.calls[|w.calls|..], id, MarkOf(w, id))
  {
    var r, c := AfterCall(v, called, answer), Called(called, v.now + answer.elapsed, answer, false);
    assert r.calls[|w.calls|..] == v.calls[|w.calls|..] + [c];
    OneMoreSaid(v.calls[|w.calls|..], c, id, MarkOf(w, id));
    SignalExactly(answer);
  }

  lemma {:induction false} ReplayMarks(w: World, id: int, called: seq<Account>, answers: seq<Answer>, n: nat)
    requires n <= |called| && n <= |answers|
    ensures
      var r := Replay(w, called, answers, n);
      w.calls <= r.calls && MarkOf(r, id) == MarkSaid(r.calls[|w.calls|..], id, MarkOf(w, id))
  {
    if n == 0 {
      assert w.calls[|w.calls|..] == [];
    } else {
      ReplayMarks(w, id, called, answers, n - 1);
      OneMoreMark(w, Replay(w, called, answers, n - 1), called[n - 1].id, answers[n - 1], id);
    }
  }

  /** A request marks exactly the accounts that answered with a quota text, each up to the Beijing midnight after its
      answer. */
  lemma RequestMarks(w: World, answers: seq<Answer>, id: int)
    requires Ascending(w.accounts) && |answers| >= |w.accounts|
    ensures
      var r := TryDeviceChat(w, answers).w;
      w.calls <= r.calls && MarkOf(r, id) == MarkSaid(r.calls[|w.calls|..], id, MarkOf(w, id))
  {
    CalledExactly(w, answers);
    ReplayMarks(w, id, Eligible(w), answers, Cut(|Eligible(w)|, answers));
  }

  // ---------------------------------------------------------------- hints

  /** The hint names the account called last and what was wrong with it. */
  ghost predicate HintNames(hint: Hint, last: Called) {
    match last.answer
    case NetworkError(_) => hint == NetworkTrouble(last.id)
    case ApiError(_, status, _) =>
      if status == 401 then hint == CredentialRetired(last.id)
      else if UsesUpQuota(last.answer) then hint == QuotaUsedUp(last.id)
      else hint == UpstreamRefused(last.id, status)
    case Success(_, _, _, _, _) => false
  }

  /** A served attempt leaves no hint, one that called nobody the hint it started with, any other one about its last
      call. */
  ghost predicate HintTells(w: World, o: Outcome, start: Hint) {
    && w.calls <= o.w.calls
    && (if o.served then o.hint == NoHint
        else if |o.w.calls| == |w.calls| then o.hint == start
        else HintNames(o.hint, o.w.calls[|o.w.calls| - 1]))
  }

  lemma HintOfNames(id: int, at: int, answer: Answer)
    requires GoesOn(answer)
    ensures HintNames(HintOf(id, answer), Called(id, at, answer, false))
  {
    if answer.ApiError? {
      QuotaTextsExactly(answer.status, answer.body);
    }
  }

  lemma {:induction false} AttemptHint(w: World, order: seq<Account>, answers: seq<Answer>, hint: Hint)
    requires |answers| >= |order|
    ensures HintTells(w, Attempt(w, order, answers, hint), hint)
    decreases |order|
  {
    if order != [] {
      var id := order[0].id;
      if IsExhausted(w, id) || !order[0].parsable {
        AttemptHint(w, order[1..], answers, hint);
      } else if GoesOn(answers[0]) {
        var v := AfterCall(w, id, answers[0]);
        HintOfNames(id, v.now, answers[0]);
        AttemptHint(v, order[1..], answers[1..], HintOf(id, answers[0]));
      }
    }
  }

  ghost predicate NobodyListed(w: World) {
    forall a | a in w.accounts :: !(a.authorized && a.enabled)
  }

  ghost predicate AllListedMarked(w: World) {
    forall a | a in w.accounts && a.authorized && a.enabled :: a.id in w.exhausted && w.now < w.exhausted[a.id]
  }

  lemma NobodyToTry(w: World)
    requires Ascending(w.accounts)
    ensures NobodyListed(w) <==> List(w.accounts) == []
    ensures AllListedMarked(w) <==> Candidates(w, List(w.accounts)) == []
  {
    var listed := List(w.accounts);
    ListExact(w.accounts);
    CandidatesExact(w, listed);
    var candidates := Candidates(w, listed);
    assert listed != [] ==> listed[0] in listed;
    assert candidates != [] ==> candidates[0] in candidates;
  }

  lemma TriesCandidates(w: World, answers: seq<Answer>)
    requires |answers| >= |w.accounts| && List(w.accounts) != [] && Candidates(w, List(w.accounts)) != []
    ensures
      var order := SortByQuota(Candidates(w, List(w.accounts)));
      |answers| >= |order| && TryDeviceChat(w, answers) == Attempt(w, order, answers, Unavailable)
  {
  }

  /** What an unserved request tells the caller: nothing if no account is authorized and enabled; that all of these are
      in their daily cooldown, if they are; that the channel is unavailable if the others' keys do not parse; else
      which account was called last and what it brought. A served request has no hint. */
  lemma RequestHint(w: World, answers: seq<Answer>)
    requires Ascending(w.accounts) && |answers| >= |w.accounts|
    ensures
      var o := TryDeviceChat(w, answers);
      if NobodyListed(w) then !o.served && o.w == w && o.hint == NoHint
      else if AllListedMarked(w) then !o.served && o.w == w && o.hint == AllExhausted
      else HintTells(w, o, Unavailable)
  {
    NobodyToTry(w);
    if List(w.accounts) != [] && Candidates(w, List(w.accounts)) != [] {
      TriesCandidates(w, answers);
      AttemptHint(w, SortByQuota(Candidates(w, List(w.accounts))), answers, Unavailable);
    }
  }

  // ---------------------------------------------------------------- everything but requests

  /** What the other events do to a row, new rows aside. */
  ghost predicate RowManaged(a: Account, a': Account, e: Event) {
    && a'.id == a.id && a'.requests == a.requests && a'.tokens == a.tokens
    && a'.authorized == (a.authorized || (e.Authorize? && e.id == a.id))
    && a'.enabled == (if e.Authorize? && e.id == a.id then true
                      else if e.SetEnabled? && e.id == a.id then e.enabled else a.enabled)
    && a'.status == (if e.Authorize? && e.id == a.id then Normal else a.status)
    && a'.parsable == (if e.Authorize? && e.id == a.id then e.parsable else a.parsable)
    && a'.remaining == (if e.SetRemaining? && e.id == a.id then e.remaining else a.remaining)
  }

  lemma EventRows(w: World, e: Event)
    requires !e.Request? && !e.DeleteAccount?
    ensures
      var r := Apply(w, e).accounts;
      && |r| == |w.accounts| + (if e.AddAccount? then 1 else 0)
      && (forall i | 0 <= i < |w.accounts| :: RowManaged(w.accounts[i], r[i], e))
      && (e.AddAccount? ==>
            var a := r[|w.accounts|];
            && a.id == w.nextId && a.enabled && !a.authorized && a.remaining < 0 && !a.parsable && a.status == Normal
            && a.requests == 0 && a.tokens == 0)
      && Apply(w, e).exhausted == w.exhausted && Apply(w, e).records == w.records
      && (!e.ModelTest? ==> Apply(w, e).calls == w.calls && Apply(w, e).now == w.now + if e.Wait? then e.time else 0)
  {
  }

  /** A model test sends one call to the account a request would call first, if there is one, and does nothing else. */
  lemma TestExactly(w: World, answer: Answer)
    ensures
      var w' := Apply(w, ModelTest(answer));
      if Eligible(w) == [] then w' == w
      else
        && w'.calls == w.calls + [Called(Eligible(w)[0].id, w.now + answer.elapsed, answer, true)]
        && w'.now == w.now + answer.elapsed
        && w'.accounts == w.accounts && w'.nextId == w.nextId && w'.exhausted == w.exhausted && w'.records == w.records
  {
    BestIsFirstEligible(w);
  }

  // ---------------------------------------------------------------- the status over runs

  /** This account needs a new login or is banned. */
  ghost predicate Marked(w: World, id: int) {
    forall a | a in w.accounts && a.id == id :: a.status != Normal
  }

  lemma StepKeepsMarked(w: World, e: Event, id: int)
    requires TableOk(w) && Applicable(w, e) && id < w.nextId && Marked(w, id) && !(e.Authorize? && e.id == id)
    ensures Marked(Apply(w, e), id) && id < Apply(w, e).nextId
  {
    var r := Apply(w, e);
    if e.Request? {
      RequestRows(w, e.answers);
      RequestSequence(w, e.answers);
    } else if !e.DeleteAccount? {
      EventRows(w, e);
    }
    forall a | a in r.accounts && a.id == id
      ensures a.status != Normal
    {
      if !e.DeleteAccount? {
        var i :| 0 <= i < |r.accounts| && r.accounts[i] == a;
        if e.Request? {
          MarkedRowStays(w, e.answers, i);
        } else {
          assert i < |w.accounts| ==> RowManaged(w.accounts[i], a, e) && w.accounts[i] in w.accounts;
        }
      }
    }
  }

  lemma MarkedRowStays(w: World, answers: seq<Answer>, i: nat)
    requires Ascending(w.accounts) && |answers| >= |w.accounts| && i < |w.accounts|
    ensures
      var r := TryDeviceChat(w, answers).w.accounts;
      |r| == |w.accounts| && r[i].id == w.accounts[i].id && (w.accounts[i].status != Normal ==> r[i].status != Normal)
  {
    RequestRows(w, answers);
    var r := TryDeviceChat(w, answers).w;
    assert RowTold(w, r, i);
  }

  /** Over whole runs an account that needs a new login or is banned goes back to normal only by a new authorization:
      an admin enabling it does not clear it. */
  lemma {:induction false} OnlyAuthorizationClears(ws: seq<World>, es: seq<Event>, i: nat, j: nat, id: int)
    requires IsRun(ws, es) && i <= j < |ws| && TableOk(ws[0]) && id < ws[i].nextId && Marked(ws[i], id)
    requires forall m | i <= m < j :: !(es[m].Authorize? && es[m].id == id)
    ensures Marked(ws[j], id) && id < ws[j].nextId
  {
    if i < j {
      OnlyAuthorizationClears(ws, es, i, j - 1, id);
      TableOkAlways(ws, es, j - 1);
      assert Step(ws[j - 1], es[j - 1], ws[j]);
      StepKeepsMarked(ws[j - 1], es[j - 1], id);
    }
  }
}
