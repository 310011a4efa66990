/** Accounts the gateway refused are left alone until somebody acts. */
module DeviceQuarantine {
  import opened DeviceOrder
  import opened DeviceRuns
  import opened DeviceScheduler
  import opened ErrorClasses

  /** During the step from `w` to `w'` a call went to this account, from a request or a test. */
  ghost predicate CalledDuring(w: World, w': World, id: int) {
    exists k :: |w.calls| <= k < |w'.calls| && w'.calls[k].id == id
  }

  /** During the step from `w` to `w'` a call of a request to this account brought this error status. */
  ghost predicate Refused(w: World, w': World, id: int, status: int) {
    exists k :: |w.calls| <= k < |w'.calls| && RefusedBy(w'.calls[k], id, status)
  }

  predicate RefusedBy(c: Called, id: int, status: int) {
    !c.test && c.id == id && c.answer.ApiError? && c.answer.status == status
  }

  /** The status that takes an account's authorization away, and those that disable it. */
  const RETIRED := 401
  const NOT_TRUSTED := 403

  /** What a refusal leaves behind in the table. */
  predicate Blocked(a: Account, status: int) {
    if status == RETIRED then !a.authorized else !a.enabled
  }

  ghost predicate Quarantined(w: World, id: int, status: int) {
    id < w.nextId && forall a | a in w.accounts && a.id == id :: Blocked(a, status)
  }

  /** The event that ends a quarantine: a new authorization, or, for an account disabled by a 403, an admin enabling
      it again. */
  predicate Lifts(e: Event, id: int, status: int) {
    || (e.Authorize? && e.id == id)
    || (status == NOT_TRUSTED && e.SetEnabled? && e.id == id && e.enabled)
  }

  // ---------------------------------------------------------------- one call

  lemma CallKeepsQuarantine(w: World, called: int, answer: Answer, id: int, status: int)
    requires Quarantined(w, id, status)
    ensures Quarantined(AfterCall(w, called, answer), id, status)
  {
    var w' := AfterCall(w, called, answer);
    forall a | a in w'.accounts && a.id == id
      ensures Blocked(a, status)
    {
      var i :| 0 <= i < |w'.accounts| && w'.accounts[i] == a;
      assert w.accounts[i] in w.accounts;
    }
  }

  lemma RefusalQuarantines(w: World, id: int, answer: Answer, status: int)
    requires status == RETIRED || status == NOT_TRUSTED
    requires id < w.nextId && answer.ApiError? && answer.status == status
    ensures Quarantined(AfterCall(w, id, answer), id, status)
  {
    RotationReadsStatusOnly(answer.status, answer.body);
    var w' := AfterCall(w, id, answer);
    forall a | a in w'.accounts && a.id == id
      ensures Blocked(a, status)
    {
      var i :| 0 <= i < |w'.accounts| && w'.accounts[i] == a;
    }
  }

  lemma {:induction false} ReplayKeepsQuarantine(w: World, called: seq<Account>, answers: seq<Answer>, m: nat, n: nat,
                                                 id: int, status: int)
    requires m <= n <= |called| && n <= |answers|
    requires Quarantined(Replay(w, called, answers, m), id, status)
    ensures Quarantined(Replay(w, called, answers, n), id, status)
  {
    if m < n {
      ReplayKeepsQuarantine(w, called, answers, m, n - 1, id, status);
      CallKeepsQuarantine(Replay(w, called, answers, n - 1), called[n - 1].id, answers[n - 1], id, status);
    }
  }

  lemma {:induction false} ReplayKeepsNextId(w: World, called: seq<Account>, answers: seq<Answer>, n: nat)
    requires n <= |called| && n <= |answers|
    ensures Replay(w, called, answers, n).nextId == w.nextId
  {
    if n > 0 {
      ReplayKeepsNextId(w, called, answers, n - 1);
    }
  }

  lemma ReplayQuarantines(w: World, called: seq<Account>, answers: seq<Answer>, m: nat, n: nat, status: int)
    requires m < n <= |called| && n <= |answers|
    requires status == RETIRED || status == NOT_TRUSTED
    requires called[m].id < w.nextId && answers[m].ApiError? && answers[m].status == status
    ensures Quarantined(Replay(w, called, answers, n), called[m].id, status)
  {
    ReplayKeepsNextId(w, called, answers, m);
    RefusalQuarantines(Replay(w, called, answers, m), called[m].id, answers[m], status);
    ReplayKeepsQuarantine(w, called, answers, m + 1, n, called[m].id, status);
  }

  // ---------------------------------------------------------------- one request

  lemma RequestQuarantines(w: World, answers: seq<Answer>, id: int, status: int)
    requires TableOk(w) && |answers| >= |w.accounts|
    requires status == RETIRED || status == NOT_TRUSTED
    requires Refused(w, TryDeviceChat(w, answers).w, id, status)
    ensures Quarantined(TryDeviceChat(w, answers).w, id, status)
  {
    CalledExactly(w, answers);
    RequestCalls(w, answers);
    var w' := TryDeviceChat(w, answers).w;
    var k :| |w.calls| <= k < |w'.calls| && RefusedBy(w'.calls[k], id, status);
    RefusedByOne(w, answers, k - |w.calls|, id, status);
    ReplayQuarantines(w, Eligible(w), answers, k - |w.calls|, Cut(|Eligible(w)|, answers), status);
  }

  /** The refused call was the request's `m`-th, to the `m`-th eligible account. */
  lemma RefusedByOne(w: World, answers: seq<Answer>, m: nat, id: int, status: int)
    requires TableOk(w) && |answers| >= |w.accounts| && m < Cut(|Eligible(w)|, answers)
    requires |TryDeviceChat(w, answers).w.calls| > |w.calls| + m
    requires RefusedBy(TryDeviceChat(w, answers).w.calls[|w.calls| + m], id, status)
    ensures Eligible(w)[m].id == id < w.nextId && answers[m].ApiError? && answers[m].status == status
  {
    RequestCalls(w, answers);
    EligibleExact(w);
    assert Made(w, TryDeviceChat(w, answers).w, Eligible(w), answers, m);
    assert Eligible(w)[m] in Eligible(w);
    assert MayCall(w, Eligible(w)[m]);
  }

  lemma RequestSparesQuarantined(w: World, answers: seq<Answer>, id: int, status: int)
    requires TableOk(w) && |answers| >= |w.accounts| && Quarantined(w, id, status)
    ensures !CalledDuring(w, TryDeviceChat(w, answers).w, id)
    ensures Quarantined(TryDeviceChat(w, answers).w, id, status)
  {
    CalledExactly(w, answers);
    RequestCalls(w, answers);
    EligibleExact(w);
    var e := Eligible(w);
    var w' := TryDeviceChat(w, answers).w;
    forall k | |w.calls| <= k < |w'.calls|
      ensures w'.calls[k].id != id
    {
      var m := k - |w.calls|;
      assert Made(w, w', e, answers, m);
      assert e[m] in e && MayCall(w, e[m]);
    }
    ReplayKeepsQuarantine(w, e, answers, 0, Cut(|e|, answers), id, status);
  }

  lemma TestSparesQuarantined(w: World, answer: Answer, id: int, status: int)
    requires TableOk(w) && Quarantined(w, id, status)
    ensures !CalledDuring(w, AfterTest(w, answer), id)
  {
    BestIsFirstEligible(w);
    EligibleExact(w);
    if Best(w).Some? {
      assert MayCall(w, Eligible(w)[0]);
    }
  }

  // ---------------------------------------------------------------- whole runs

  lemma StepKeepsQuarantine(w: World, e: Event, id: int, status: int)
    requires TableOk(w) && Applicable(w, e) && Quarantined(w, id, status) && !Lifts(e, id, status)
    requires status == RETIRED || status == NOT_TRUSTED
    ensures Quarantined(Apply(w, e), id, status)
  {
    match e
    case Request(answers) =>
      RequestSparesQuarantined(w, answers, id, status);
    case _ =>
      AdminKeepsQuarantine(w, e, id, status);
  }

  lemma AdminKeepsQuarantine(w: World, e: Event, id: int, status: int)
    requires !e.Request? && Quarantined(w, id, status) && !Lifts(e, id, status)
    requires status == RETIRED || status == NOT_TRUSTED
    ensures Quarantined(Apply(w, e), id, status)
  {
    var w' := Apply(w, e);
    forall a | a in w'.accounts && a.id == id
      ensures Blocked(a, status)
    {
      if !e.DeleteAccount? {
        var i :| 0 <= i < |w'.accounts| && w'.accounts[i] == a;
        assert i < |w.accounts| ==> w.accounts[i] in w.accounts;
      }
    }
  }

  lemma {:induction false} QuarantineLasts(ws: seq<World>, es: seq<Event>, i: nat, j: nat, id: int, status: int)
    requires IsRun(ws, es) && i <= j < |ws| && TableOk(ws[0])
    requires status == RETIRED || status == NOT_TRUSTED
    requires Quarantined(ws[i], id, status)
    requires forall m | i <= m < j :: !Lifts(es[m], id, status)
    ensures Quarantined(ws[j], id, status)
  {
    if i < j {
      QuarantineLasts(ws, es, i, j - 1, id, status);
      TableOkAlways(ws, es, j - 1);
      assert Step(ws[j - 1], es[j - 1], ws[j]);
      StepKeepsQuarantine(ws[j - 1], es[j - 1], id, status);
    }
  }

  /** After a 401 or a 403 to an account, no later step of the run calls that account until a step lifts it. */
  lemma RefusedAccountsRest(ws: seq<World>, es: seq<Event>, i: nat, j: nat, id: int, status: int)
    requires IsRun(ws, es) && i < j < |es| && TableOk(ws[0])
    requires status == RETIRED || status == NOT_TRUSTED
    requires Refused(ws[i], ws[i + 1], id, status)
    requires forall m | i < m < j :: !Lifts(es[m], id, status)
    ensures !CalledDuring(ws[j], ws[j + 1], id)
  {
    TableOkAlways(ws, es, i);
    assert Step(ws[i], es[i], ws[i + 1]) && Step(ws[j], es[j], ws[j + 1]);
    RequestQuarantines(ws[i], es[i].answers, id, status);
    QuarantineLasts(ws, es, i + 1, j, id, status);
    TableOkAlways(ws, es, j);
    if es[j].Request? {
      RequestSparesQuarantined(ws[j], es[j].answers, id, status);
    } else if es[j].ModelTest? {
      TestSparesQuarantined(ws[j], es[j].answer, id, status);
    }
  }

  /** A new authorization with keys that parse makes the account callable again, whatever refused it before, unless
      it is in its daily cooldown. */
  lemma AuthorizeRestores(w: World, a: Account)
    requires a in w.accounts
    ensures
      var w' := Apply(w, Authorize(a.id, true));
      var a' := Set(a, Authorized(true));
      a'.id == a.id && (MayCall(w', a') <==> !IsExhausted(w, a.id))
  {
    var w' := Apply(w, Authorize(a.id, true));
    var i :| 0 <= i < |w.accounts| && w.accounts[i] == a;
    assert w'.accounts[i] == Set(a, Authorized(true));
  }
}
