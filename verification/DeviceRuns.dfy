/** The device-account scheduler over whole runs of requests, admin actions and re-authorizations. */
module DeviceRuns {
  import opened BeijingTime
  import opened DeviceOrder
  import opened DeviceScheduler

  // ---------------------------------------------------------------- runs

  datatype Event =
    | Request(answers: seq<Answer>)                // one chat request
    | ModelTest(answer: Answer)                    // handleChatTest
    | Authorize(id: int, parsable: bool)           // SaveAccountDeviceCredential
    | SetEnabled(id: int, enabled: bool)           // UpdateAccount
    | SetRemaining(id: int, remaining: int)        // MarkAccountCheckin, SaveAccountQuota
    | AddAccount                                   // INSERT, ids never reused
    | DeleteAccount(id: int)
    | Wait(time: nat)

  function Without(rows: seq<Account>, id: int): (r: seq<Account>)
    ensures forall a :: a in r <==> a in rows && a.id != id
  {
    if rows == [] then []
    else (if rows[0].id == id then [] else [rows[0]]) + Without(rows[1..], id)
  }

  function NewAccount(id: int): Account {
    Account(id, true, false, -1, false, Normal, 0, 0)
  }

  predicate Applicable(w: World, e: Event) {
    e.Request? ==> |e.answers| >= |w.accounts|
  }

  function Apply(w: World, e: Event): World
    requires Applicable(w, e)
  {
    match e
    case Request(answers) => TryDeviceChat(w, answers).w
    case ModelTest(answer) => AfterTest(w, answer)
    case Authorize(id, parsable) => w.(accounts := Update(w.accounts, id, Authorized(parsable)))
    case SetEnabled(id, enabled) => w.(accounts := Update(w.accounts, id, Enabled(enabled)))
    case SetRemaining(id, n) => w.(accounts := Update(w.accounts, id, Remaining(n)))
    case AddAccount => w.(accounts := w.accounts + [NewAccount(w.nextId)], nextId := w.nextId + 1)
    case DeleteAccount(id) => w.(accounts := Without(w.accounts, id))
    case Wait(time) => w.(now := w.now + time)
  }

  ghost predicate Step(w: World, e: Event, w': World) {
    Applicable(w, e) && w' == Apply(w, e)
  }

  ghost predicate IsRun(ws: seq<World>, es: seq<Event>) {
    |ws| == |es| + 1 && forall i | 0 <= i < |es| :: Step(ws[i], es[i], ws[i + 1])
  }

  // ---------------------------------------------------------------- the table

  ghost predicate TableOk(w: World) {
    Ascending(w.accounts) && forall a | a in w.accounts :: a.id < w.nextId
  }

  lemma SameIds(w: World, w': World)
    requires TableOk(w) && w'.nextId == w.nextId && |w'.accounts| == |w.accounts|
    requires forall i | 0 <= i < |w.accounts| :: w'.accounts[i].id == w.accounts[i].id
    ensures TableOk(w')
  {
    forall i, j | 0 <= i < j < |w'.accounts|
      ensures IdBefore(w'.accounts[i], w'.accounts[j])
    {
      assert IdBefore(w.accounts[i], w.accounts[j]);
    }
    forall a | a in w'.accounts
      ensures a.id < w'.nextId
    {
      var i :| 0 <= i < |w'.accounts| && w'.accounts[i] == a;
      assert w.accounts[i] in w.accounts;
    }
  }

  lemma CallKeepsTable(w: World, id: int, answer: Answer)
    requires TableOk(w)
    ensures TableOk(AfterCall(w, id, answer))
  {
    SameIds(w, AfterCall(w, id, answer));
  }

  lemma {:induction false} WithoutAscending(rows: seq<Account>, id: int)
    requires Ascending(rows)
    ensures Ascending(Without(rows, id))
  {
    if rows != [] {
      var rest := rows[1..];
      forall i, j | 0 <= i < j < |rest|
        ensures IdBefore(rest[i], rest[j])
      {
        assert IdBefore(rows[i + 1], rows[j + 1]);
      }
      WithoutAscending(rest, id);
      var r := Without(rows, id);
      forall i, j | 0 <= i < j < |r|
        ensures IdBefore(r[i], r[j])
      {
        if rows[0].id == id {
          assert IdBefore(Without(rest, id)[i], Without(rest, id)[j]);
        } else if i > 0 {
          assert IdBefore(Without(rest, id)[i - 1], Without(rest, id)[j - 1]);
        } else {
          assert r[j] in rest;
          var k :| 0 <= k < |rest| && rest[k] == r[j];
          assert IdBefore(rows[0], rows[k + 1]);
        }
      }
    }
  }

  lemma AdminKeepsTable(w: World, e: Event)
    requires TableOk(w) && !e.Request?
    ensures TableOk(Apply(w, e))
  {
    match e
    case AddAccount =>
      AppendAscending(w.accounts, NewAccount(w.nextId));
    case DeleteAccount(id) =>
      WithoutAscending(w.accounts, id);
    case Authorize(id, parsable) =>
      SameIds(w, Apply(w, e));
    case SetEnabled(id, enabled) =>
      SameIds(w, Apply(w, e));
    case SetRemaining(id, n) =>
      SameIds(w, Apply(w, e));
    case ModelTest(_) =>
      SameIds(w, Apply(w, e));
    case Wait(_) =>
  }

  lemma {:induction false} TableOkAlways(ws: seq<World>, es: seq<Event>, i: nat)
    requires IsRun(ws, es) && i < |ws| && TableOk(ws[0])
    ensures TableOk(ws[i])
  {
    if i > 0 {
      TableOkAlways(ws, es, i - 1);
      var w, e := ws[i - 1], es[i - 1];
      assert Step(w, e, ws[i]);
      if e.Request? {
        CalledExactly(w, e.answers);
        ReplayKeepsTable(w, Eligible(w), e.answers, Cut(|Eligible(w)|, e.answers));
      } else {
        AdminKeepsTable(w, e);
      }
    }
  }

  lemma {:induction false} ReplayKeepsTable(w: World, called: seq<Account>, answers: seq<Answer>, n: nat)
    requires n <= |called| && n <= |answers| && TableOk(w)
    ensures TableOk(Replay(w, called, answers, n))
  {
    if n > 0 {
      ReplayKeepsTable(w, called, answers, n - 1);
      CallKeepsTable(Replay(w, called, answers, n - 1), called[n - 1].id, answers[n - 1]);
    }
  }

  // ---------------------------------------------------------------- what the history says

  /** The call brought a quota signal to a request. Those of model tests are not acted upon. */
  predicate Signals(c: Called) {
    !c.test && IsQuotaSignal(c.answer)
  }

  predicate SignalAt(w: World, k: nat, id: int)
    requires k < |w.calls|
  {
    w.calls[k].id == id && Signals(w.calls[k])
  }

  predicate MarkCovers(w: World, k: nat, id: int)
    requires k < |w.calls|
  {
    id in w.exhausted && NextBeijingMidnight(w.calls[k].at) <= w.exhausted[id]
  }

  /** Every mark is that of some quota signal of its account, and no signal's midnight lies beyond the mark. */
  ghost predicate MarksOk(w: World) {
    && (forall k, id {:trigger SignalAt(w, k, id)} | 0 <= k < |w.calls| && SignalAt(w, k, id) :: MarkCovers(w, k, id))
    && (forall id | id in w.exhausted ::
          exists k :: 0 <= k < |w.calls| && SignalAt(w, k, id) && w.exhausted[id] == NextBeijingMidnight(w.calls[k].at))
  }

  /** When the upstream call was sent off. */
  function SentAt(c: Called): int {
    c.at - c.answer.elapsed
  }

  /** Calls are kept in the order of their answers, none after now. */
  ghost predicate TimesOk(w: World) {
    forall k | 0 <= k < |w.calls| :: w.calls[k].at <= w.now
  }

  predicate Silent(first: Called, later: Called) {
    first.id == later.id && Signals(first) ==> NextBeijingMidnight(first.at) <= SentAt(later)
  }

  /** No call goes to an account between its quota signal and the next Beijing midnight. */
  ghost predicate QuotaSilence(w: World) {
    forall k, l {:trigger Silent(w.calls[k], w.calls[l])} | 0 <= k < l < |w.calls| :: Silent(w.calls[k], w.calls[l])
  }

  /** The records that these calls should have left: one for each that a request made, with its status and usage. */
  function RecordsOf(calls: seq<Called>): seq<Record> {
    if calls == [] then []
    else
      var last := calls[|calls| - 1];
      RecordsOf(calls[..|calls| - 1]) + if last.test then [] else [RecordOf(last.answer)]
  }

  lemma OneMoreCall(calls: seq<Called>, c: Called)
    ensures RecordsOf(calls + [c]) == RecordsOf(calls) + if c.test then [] else [RecordOf(c.answer)]
  {
    assert (calls + [c])[..|calls|] == calls;
  }

  ghost predicate Metered(w: World) {
    w.records == RecordsOf(w.calls)
  }

  ghost predicate Coherent(w: World) {
    TableOk(w) && MarksOk(w) && TimesOk(w) && QuotaSilence(w) && Metered(w)
  }

  lemma CallKeepsMarks(w: World, id: int, answer: Answer)
    requires MarksOk(w) && TimesOk(w)
    ensures MarksOk(AfterCall(w, id, answer))
  {
    var w' := AfterCall(w, id, answer);
    var n := |w.calls|;
    forall k, x | 0 <= k <= n && SignalAt(w', k, x)
      ensures MarkCovers(w', k, x)
    {
      if k < n {
        assert SignalAt(w, k, x) && MarkCovers(w, k, x);
        NextMidnightMonotone(w.calls[k].at, w'.now);
      }
    }
    forall x | x in w'.exhausted
      ensures exists k ::
        0 <= k < |w'.calls| && SignalAt(w', k, x) && w'.exhausted[x] == NextBeijingMidnight(w'.calls[k].at)
    {
      if x == id && IsQuotaSignal(answer) {
        assert SignalAt(w', n, x);
      } else {
        var k :| 0 <= k < n && SignalAt(w, k, x) && w.exhausted[x] == NextBeijingMidnight(w.calls[k].at);
        assert SignalAt(w', k, x);
      }
    }
  }

  lemma CallKeepsSilence(w: World, c: Called, w': World)
    requires MarksOk(w) && QuotaSilence(w) && !IsExhausted(w, c.id) && SentAt(c) == w.now
    requires w'.calls == w.calls + [c]
    ensures QuotaSilence(w')
  {
    forall k, l | 0 <= k < l < |w'.calls|
      ensures Silent(w'.calls[k], w'.calls[l])
    {
      if l < |w.calls| {
        assert Silent(w.calls[k], w.calls[l]);
      } else if SignalAt(w, k, c.id) {
        assert MarkCovers(w, k, c.id);
      }
    }
  }

  lemma CallKeepsCoherence(w: World, id: int, answer: Answer)
    requires Coherent(w) && !IsExhausted(w, id)
    ensures Coherent(AfterCall(w, id, answer))
  {
    CallKeepsTable(w, id, answer);
    CallKeepsMarks(w, id, answer);
    CallKeepsSilence(w, Called(id, w.now + answer.elapsed, answer, false), AfterCall(w, id, answer));
    OneMoreCall(w.calls, Called(id, w.now + answer.elapsed, answer, false));
  }

  lemma TestKeepsMarks(w: World, c: Called, w': World)
    requires MarksOk(w) && c.test && w'.calls == w.calls + [c] && w'.exhausted == w.exhausted
    ensures MarksOk(w')
  {
    forall k, x | 0 <= k < |w'.calls| && SignalAt(w', k, x)
      ensures MarkCovers(w', k, x)
    {
      assert SignalAt(w, k, x) && MarkCovers(w, k, x);
    }
    forall x | x in w'.exhausted
      ensures exists k ::
        0 <= k < |w'.calls| && SignalAt(w', k, x) && w'.exhausted[x] == NextBeijingMidnight(w'.calls[k].at)
    {
      var k :| 0 <= k < |w.calls| && SignalAt(w, k, x) && w.exhausted[x] == NextBeijingMidnight(w.calls[k].at);
      assert SignalAt(w', k, x);
    }
  }

  /** A model test calls nobody in daily cooldown either. */
  lemma TestKeepsCoherence(w: World, answer: Answer)
    requires Coherent(w)
    ensures Coherent(AfterTest(w, answer))
  {
    BestIsFirstEligible(w);
    if Best(w).Some? {
      var w' := AfterTest(w, answer);
      var c := Called(Best(w).value.id, w.now + answer.elapsed, answer, true);
      EligibleExact(w);
      assert MayCall(w, Eligible(w)[0]);
      TestKeepsMarks(w, c, w');
      CallKeepsSilence(w, c, w');
      OneMoreCall(w.calls, c);
      SameIds(w, w');
    }
  }

  lemma {:induction false} ReplayKeepsCoherence(w: World, called: seq<Account>, answers: seq<Answer>, n: nat)
    requires n <= |called| && n <= |answers| && Coherent(w) && Ready(w, called)
    ensures Coherent(Replay(w, called, answers, n))
    ensures forall i | n <= i < |called| :: !IsExhausted(Replay(w, called, answers, n), called[i].id)
  {
    if n > 0 {
      ReplayKeepsCoherence(w, called, answers, n - 1);
      CallKeepsCoherence(Replay(w, called, answers, n - 1), called[n - 1].id, answers[n - 1]);
    }
  }

  lemma StepKeepsCoherence(w: World, e: Event)
    requires Coherent(w) && Applicable(w, e)
    ensures Coherent(Apply(w, e))
  {
    if e.Request? {
      CalledExactly(w, e.answers);
      EligibleExact(w);
      InOrderReady(w, Eligible(w), w.accounts);
      ReplayKeepsCoherence(w, Eligible(w), e.answers, Cut(|Eligible(w)|, e.answers));
    } else if e.ModelTest? {
      TestKeepsCoherence(w, e.answer);
    } else {
      AdminKeepsTable(w, e);
      SameHistory(w, Apply(w, e));
    }
  }

  lemma SameHistory(w: World, w': World)
    requires MarksOk(w) && TimesOk(w) && QuotaSilence(w) && Metered(w)
    requires w'.calls == w.calls && w'.exhausted == w.exhausted && w'.records == w.records && w.now <= w'.now
    ensures MarksOk(w') && TimesOk(w') && QuotaSilence(w') && Metered(w')
  {
    forall k, id | 0 <= k < |w'.calls| && SignalAt(w', k, id)
      ensures MarkCovers(w', k, id)
    {
      assert SignalAt(w, k, id) && MarkCovers(w, k, id);
    }
    forall id | id in w'.exhausted
      ensures exists k ::
        0 <= k < |w'.calls| && SignalAt(w', k, id) && w'.exhausted[id] == NextBeijingMidnight(w'.calls[k].at)
    {
      var k :| 0 <= k < |w.calls| && SignalAt(w, k, id) && w.exhausted[id] == NextBeijingMidnight(w.calls[k].at);
      assert SignalAt(w', k, id);
    }
    forall k, l | 0 <= k < l < |w'.calls|
      ensures Silent(w'.calls[k], w'.calls[l])
    {
      assert Silent(w.calls[k], w.calls[l]);
    }
  }

  /** A gateway just started: nothing called, recorded or marked yet. */
  ghost predicate Started(w: World) {
    TableOk(w) && w.exhausted == map[] && w.calls == [] && w.records == []
  }

  lemma {:induction false} CoherentAlways(ws: seq<World>, es: seq<Event>, i: nat)
    requires IsRun(ws, es) && i < |ws| && Started(ws[0])
    ensures Coherent(ws[i])
  {
    if i > 0 {
      CoherentAlways(ws, es, i - 1);
      assert Step(ws[i - 1], es[i - 1], ws[i]);
      StepKeepsCoherence(ws[i - 1], es[i - 1]);
    }
  }

  // ---------------------------------------------------------------- daily exhaustion

  /** At every moment of every run, an account is in its daily cooldown exactly when some quota signal it got is from
      the current Beijing day: the marker is never shortened by a later one and never outlives its midnight. */
  lemma ExhaustedExactlyOnSignalDay(ws: seq<World>, es: seq<Event>, i: nat, id: int)
    requires IsRun(ws, es) && i < |ws| && Started(ws[0])
    ensures IsExhausted(ws[i], id) <==>
            exists k ::
              0 <= k < |ws[i].calls| && SignalAt(ws[i], k, id) && ws[i].now < NextBeijingMidnight(ws[i].calls[k].at)
  {
    CoherentAlways(ws, es, i);
    var w := ws[i];
    if k :| 0 <= k < |w.calls| && SignalAt(w, k, id) && w.now < NextBeijingMidnight(w.calls[k].at) {
      assert MarkCovers(w, k, id);
    }
    if id in w.exhausted {
      var k :| 0 <= k < |w.calls| && SignalAt(w, k, id) && w.exhausted[id] == NextBeijingMidnight(w.calls[k].at);
    }
  }

  /** Once an account has answered a request with a quota signal, no call, not even a test, is sent to it before the
      next Beijing midnight. */
  lemma NoCallUntilMidnight(ws: seq<World>, es: seq<Event>, i: nat, k: nat, l: nat)
    requires IsRun(ws, es) && i < |ws| && Started(ws[0])
    requires k < l < |ws[i].calls| && ws[i].calls[k].id == ws[i].calls[l].id && Signals(ws[i].calls[k])
    ensures NextBeijingMidnight(ws[i].calls[k].at) <= SentAt(ws[i].calls[l])
  {
    CoherentAlways(ws, es, i);
    assert Silent(ws[i].calls[k], ws[i].calls[l]);
  }

  /** The records are those of the calls requests made, one each, in their order. */
  lemma OneRecordPerCall(ws: seq<World>, es: seq<Event>, i: nat)
    requires IsRun(ws, es) && i < |ws| && Started(ws[0])
    ensures ws[i].records == RecordsOf(ws[i].calls)
  {
    CoherentAlways(ws, es, i);
  }
}
