/** The device-account scheduler: tryDeviceChatCompletion of internal/server/chat.go with the accounts table of
internal/store/store.go. */
module DeviceScheduler {
  import opened Basics
  import opened BeijingTime
  import opened ErrorClasses

  // ---------------------------------------------------------------- accounts

  datatype DeviceStatus = Normal | NeedsRelogin | GatewayBanned

  /** A row of accounts. `remaining` is login_checkin_remaining, -1 when unknown; `parsable` says whether the stored
      key pair parses (accountCredential). */
  datatype Account = Account(
    id: int, enabled: bool, authorized: bool, remaining: int, parsable: bool, status: DeviceStatus,
    requests: int, tokens: int)

  const MAX_INT64: int := 0x7fff_ffff_ffff_ffff

  function QuotaSortKey(a: Account): int {
    if a.remaining < 0 then MAX_INT64 else a.remaining
  }

  /** What a statement of the store sets in a row. */
  datatype Setting =
    | Disabled                       // DisableAccountByGateway
    | Relogged                       // MarkAccountNeedsRelogin
    | Unauthorized                   // MarkAccountUnauthorized
    | Touched(tokens: int)           // TouchAccount
    | Authorized(parsable: bool)     // SaveAccountDeviceCredential
    | Enabled(enabled: bool)         // UpdateAccount
    | Remaining(remaining: int)      // MarkAccountCheckin, SaveAccountQuota

  function Set(a: Account, setting: Setting): Account {
    match setting
    case Disabled => a.(enabled := false, status := GatewayBanned)
    case Relogged => a.(enabled := false, status := NeedsRelogin)
    case Unauthorized => a.(authorized := false)
    case Touched(tokens) => a.(requests := a.requests + 1, tokens := a.tokens + tokens)
    case Authorized(parsable) => a.(authorized := true, enabled := true, status := Normal, parsable := parsable)
    case Enabled(enabled) => a.(enabled := enabled)
    case Remaining(remaining) => a.(remaining := remaining)
  }

  /** UPDATE accounts SET ... WHERE id: the rows in their order, those with this id changed. */
  function Update(rows: seq<Account>, id: int, setting: Setting): (r: seq<Account>)
    ensures |r| == |rows|
    ensures forall i | 0 <= i < |rows| :: r[i] == if rows[i].id == id then Set(rows[i], setting) else rows[i]
  {
    seq(|rows|, i requires 0 <= i < |rows| => if rows[i].id == id then Set(rows[i], setting) else rows[i])
  }

  // ---------------------------------------------------------------- one request

  /** What one upstream chat call brought, and how long it took. */
  datatype Answer =
    | NetworkError(elapsed: nat)
    | ApiError(elapsed: nat, status: int, body: Body)
    | Success(elapsed: nat, status: int, input: int, output: int, broken: bool)

  /** A row of requests; TotalTokens is input + output. */
  datatype Record = Record(status: int, input: int, output: int, success: bool)

  function Total(r: Record): int {
    r.input + r.output
  }

  /** A chat call made: to which account, when its answer arrived, the answer, and whether it was only a model test. */
  datatype Called = Called(id: int, at: int, answer: Answer, test: bool)

  datatype World = World(
    accounts: seq<Account>,
    nextId: int,
    exhausted: map<int, int>,
    records: seq<Record>,
    now: int,
    calls: seq<Called>)

  predicate IsExhausted(w: World, id: int) {
    id in w.exhausted && w.now < w.exhausted[id]
  }

  function StatusOf(answer: Answer): int {
    if answer.NetworkError? then 0 else answer.status
  }

  function InputOf(answer: Answer): int {
    if answer.Success? then answer.input else 0
  }

  function OutputOf(answer: Answer): int {
    if answer.Success? then answer.output else 0
  }

  /** The row that recordRequest writes about a call. */
  function RecordOf(answer: Answer): Record {
    Record(StatusOf(answer), InputOf(answer), OutputOf(answer), answer.Success? && !answer.broken)
  }

  function AccountsAfter(rows: seq<Account>, id: int, answer: Answer): seq<Account> {
    match answer
    case NetworkError(_) => rows
    case ApiError(_, status, body) =>
      (match Judge(status, body)
       case Relogin => Update(rows, id, Relogged)
       case Banned => Update(rows, id, Disabled)
       case Retired => Update(rows, id, Unauthorized)
       case _ => rows)
    case Success(_, _, input, output, _) =>
      if input + output > 0 then Update(rows, id, Touched(input + output)) else rows
  }

  predicate IsQuotaSignal(answer: Answer) {
    answer.ApiError? && QuotaSignal(answer.status, answer.body)
  }

  function MarksAfter(marks: map<int, int>, id: int, answer: Answer, at: int): map<int, int> {
    if IsQuotaSignal(answer) then marks[id := NextBeijingMidnight(at)] else marks
  }

  /** The world once the answer of a call to account `id` has been dealt with. */
  function AfterCall(w: World, id: int, answer: Answer): World {
    var at := w.now + answer.elapsed;
    World(
      AccountsAfter(w.accounts, id, answer),
      w.nextId,
      MarksAfter(w.exhausted, id, answer, at),
      w.records + [RecordOf(answer)],
      at,
      w.calls + [Called(id, at, answer, false)])
  }

  /** Whether the scheduler tries the next account after this answer. */
  predicate GoesOn(answer: Answer) {
    match answer
    case NetworkError(_) => true
    case ApiError(_, status, body) => Rotates(Judge(status, body))
    case Success(_, _, _, _, _) => false
  }

  datatype Hint = NoHint | AllExhausted | Unavailable | CredentialRetired(id: int) | QuotaUsedUp(id: int)
                | UpstreamRefused(id: int, status: int) | NetworkTrouble(id: int)

  function HintOf(id: int, answer: Answer): Hint {
    match answer
    case NetworkError(_) => NetworkTrouble(id)
    case ApiError(_, status, body) =>
      if Judge(status, body).Retired? then CredentialRetired(id)
      else if Judge(status, body).Exhausted? then QuotaUsedUp(id)
      else UpstreamRefused(id, status)
    case Success(_, _, _, _, _) => NoHint
  }

  datatype Outcome = Outcome(w: World, served: bool, accountsExisted: bool, hint: Hint)

  /** The loop over the accounts in order; `answers` are those of the calls still to come. */
  function Attempt(w: World, order: seq<Account>, answers: seq<Answer>, hint: Hint): Outcome
    requires |answers| >= |order|
    decreases |order|
  {
    if order == [] then Outcome(w, false, true, hint)
    else
      var id := order[0].id;
      if IsExhausted(w, id) || !order[0].parsable then Attempt(w, order[1..], answers, hint)
      else if GoesOn(answers[0])
      then Attempt(AfterCall(w, id, answers[0]), order[1..], answers[1..], HintOf(id, answers[0]))
      else Outcome(AfterCall(w, id, answers[0]), true, true, NoHint)
  }

  predicate Listed(a: Account) {
    a.authorized && a.enabled
  }

  /** ListAuthorizedEnabledAccounts. */
  function List(rows: seq<Account>): (r: seq<Account>)
    ensures forall i | 0 <= i < |r| :: r[i] in rows && Listed(r[i])
    ensures |r| <= |rows|
  {
    if rows == [] then []
    else if Listed(rows[|rows| - 1]) then List(rows[..|rows| - 1]) + [rows[|rows| - 1]]
    else List(rows[..|rows| - 1])
  }

  /** The accounts not in their daily cooldown. */
  function Candidates(w: World, rows: seq<Account>): (r: seq<Account>)
    ensures forall i | 0 <= i < |r| :: r[i] in rows && !IsExhausted(w, r[i].id)
    ensures |r| <= |rows|
  {
    if rows == [] then []
    else if IsExhausted(w, rows[|rows| - 1].id) then Candidates(w, rows[..|rows| - 1])
    else Candidates(w, rows[..|rows| - 1]) + [rows[|rows| - 1]]
  }

  /** Put `a` after the accounts with more quota and before the others. */
  function Insert(a: Account, sorted: seq<Account>): (r: seq<Account>)
    ensures |r| == |sorted| + 1
  {
    if sorted == [] || QuotaSortKey(sorted[0]) <= QuotaSortKey(a) then [a] + sorted
    else [sorted[0]] + Insert(a, sorted[1..])
  }

  /** sort.SliceStable by quota, descending. */
  function SortByQuota(rows: seq<Account>): (r: seq<Account>)
    ensures |r| == |rows|
  {
    if rows == [] then [] else Insert(rows[0], SortByQuota(rows[1..]))
  }

  function TryDeviceChat(w: World, answers: seq<Answer>): Outcome
    requires |answers| >= |w.accounts|
  {
    var accounts := List(w.accounts);
    if accounts == [] then Outcome(w, false, false, NoHint)
    else
      var candidates := Candidates(w, accounts);
      if candidates == [] then Outcome(w, false, true, AllExhausted)
      else Attempt(w, SortByQuota(candidates), answers, Unavailable)
  }

  // ---------------------------------------------------------------- a model test

  function FirstParsable(s: seq<Account>): Option<Account> {
    if s == [] then None else if s[0].parsable then Some(s[0]) else FirstParsable(s[1..])
  }

  /** The account a model test uses. */
  function Best(w: World): Option<Account> {
    FirstParsable(SortByQuota(Candidates(w, List(w.accounts))))
  }

  /** A model test sends one chat call and leaves the table, the marks and the records alone. */
  function AfterTest(w: World, answer: Answer): World {
    match Best(w)
    case None => w
    case Some(a) =>
      var at := w.now + answer.elapsed;
      w.(now := at, calls := w.calls + [Called(a.id, at, answer, true)])
  }

  lemma SkipsAccount(w: World, order: seq<Account>, i: nat, answers: seq<Answer>, hint: Hint)
    requires i < |order| && |answers| >= |order| - i
    requires IsExhausted(w, order[i].id) || !order[i].parsable
    ensures Attempt(w, order[i..], answers, hint) == Attempt(w, order[i + 1..], answers, hint)
  {
    assert order[i..][1..] == order[i + 1..];
  }

  lemma CallsAccount(w: World, order: seq<Account>, i: nat, answers: seq<Answer>, used: nat, hint: Hint)
    requires used <= i < |order| && |answers| >= |order|
    requires !IsExhausted(w, order[i].id) && order[i].parsable
    ensures
      var w' := AfterCall(w, order[i].id, answers[used]);
      Attempt(w, order[i..], answers[used..], hint)
      == if GoesOn(answers[used])
         then Attempt(w', order[i + 1..], answers[used + 1..], HintOf(order[i].id, answers[used]))
         else Outcome(w', true, true, NoHint)
  {
    assert order[i..][1..] == order[i + 1..];
    assert answers[used..][1..] == answers[used + 1..];
  }

  // ---------------------------------------------------------------- the source's form

  class Server {
    var accounts: seq<Account>
    var nextId: int
    var deviceQuotaExhausted: map<int, int>
    var records: seq<Record>
    var clock: int
    ghost var calls: seq<Called>

    constructor (accounts: seq<Account>, nextId: int, now: int)
      ensures View() == World(accounts, nextId, map[], [], now, [])
    {
      this.accounts, this.nextId, deviceQuotaExhausted, records, clock, calls := accounts, nextId, map[], [], now, [];
    }

    ghost function View(): World
      reads this
    {
      World(accounts, nextId, deviceQuotaExhausted, records, clock, calls)
    }

    method MarkDeviceExhausted(id: int, until: int)
      modifies this`deviceQuotaExhausted
      ensures deviceQuotaExhausted == old(deviceQuotaExhausted)[id := until]
    {
      deviceQuotaExhausted := deviceQuotaExhausted[id := until];
    }

    method DeviceIsExhausted(id: int) returns (b: bool)
      ensures b == IsExhausted(View(), id)
    {
      b := id in deviceQuotaExhausted && clock < deviceQuotaExhausted[id];
    }

    method RecordRequest(status: int, input: int, output: int, success: bool)
      modifies this`records
      ensures records == old(records) + [Record(status, input, output, success)]
    {
      records := records + [Record(status, input, output, success)];
    }

    /** What is done about an upstream error: stop with it, or go on to the next account. */
    method OnApiError(id: int, answer: Answer) returns (served: bool, hint: Hint)
      requires answer.ApiError?
      modifies this`accounts, this`deviceQuotaExhausted, this`records
      ensures accounts == AccountsAfter(old(accounts), id, answer)
      ensures deviceQuotaExhausted == MarksAfter(old(deviceQuotaExhausted), id, answer, clock)
      ensures records == old(records) + [RecordOf(answer)]
      ensures served == !GoesOn(answer) && (!served ==> hint == HintOf(id, answer))
    {
      var status, body := answer.status, answer.body;
      served, hint := true, NoHint;
      if DeviceNotTrusted(status, body) {
        if IntegrityReviewRelogin(status, body) {
          accounts := Update(accounts, id, Relogged);
        } else {
          accounts := Update(accounts, id, Disabled);
        }
        RecordRequest(status, 0, 0, false);
        return;
      }
      if DeviceCredentialRetired(status) {
        accounts := Update(accounts, id, Unauthorized);
        RecordRequest(status, 0, 0, false);
        return false, CredentialRetired(id);
      }
      RecordRequest(status, 0, 0, false);
      if RequestScopedError(status, body) {
        return;
      }
      if !CredentialScopedError(status, body) {
        return;
      }
      if QuotaSignal(status, body) {
        MarkDeviceExhausted(id, NextBeijingMidnight(clock));
        return false, QuotaUsedUp(id);
      }
      return false, UpstreamRefused(id, status);
    }

    /** One account's turn: the upstream call, and everything done about its answer. */
    method Call(id: int, answer: Answer) returns (served: bool, hint: Hint)
      modifies this
      ensures View() == AfterCall(old(View()), id, answer)
      ensures served == !GoesOn(answer) && (!served ==> hint == HintOf(id, answer))
    {
      clock := clock + answer.elapsed;
      calls := calls + [Called(id, clock, answer, false)];
      match answer {
        case NetworkError(_) =>
          RecordRequest(0, 0, 0, false);
          return false, NetworkTrouble(id);
        case ApiError(_, _, _) =>
          served, hint := OnApiError(id, answer);
        case Success(_, status, input, output, broken) =>
          var tokens := input + output;
          if tokens > 0 {
            accounts := Update(accounts, id, Touched(tokens));
          }
          RecordRequest(status, input, output, !broken);
          return true, NoHint;
      }
    }

    method FilterCandidates(listed: seq<Account>) returns (candidates: seq<Account>)
      ensures candidates == Candidates(View(), listed)
    {
      candidates := [];
      for i := 0 to |listed|
        invariant candidates == Candidates(View(), listed[..i])
      {
        assert listed[..i + 1][..i] == listed[..i];
        var exhausted := DeviceIsExhausted(listed[i].id);
        if exhausted {
          continue;
        }
        candidates := candidates + [listed[i]];
      }
      assert listed[..|listed|] == listed;
    }

    method TryDeviceChatCompletion(answers: seq<Answer>) returns (served: bool, accountsExisted: bool, hint: Hint)
      requires |answers| >= |accounts|
      modifies this
      ensures Outcome(View(), served, accountsExisted, hint) == TryDeviceChat(old(View()), answers)
    {
      var listed := List(accounts);
      if listed == [] {
        return false, false, NoHint;
      }
      var lastHint := Unavailable;
      var candidates := FilterCandidates(listed);
      if candidates == [] {
        return false, true, AllExhausted;
      }
      var order := SortByQuota(candidates);
      var used := 0;
      for i := 0 to |order|
        invariant used <= i
        invariant Attempt(old(View()), order, answers, Unavailable)
                  == Attempt(View(), order[i..], answers[used..], lastHint)
      {
        var exhausted := DeviceIsExhausted(order[i].id);
        if exhausted {
          SkipsAccount(View(), order, i, answers[used..], lastHint);
          continue;
        }
        if !order[i].parsable {
          SkipsAccount(View(), order, i, answers[used..], lastHint);
          continue;
        }
        CallsAccount(View(), order, i, answers, used, lastHint);
        var done, h := Call(order[i].id, answers[used]);
        if done {
          return true, true, NoHint;
        }
        lastHint := h;
        used := used + 1;
      }
      return false, true, lastHint;
    }

    /** bestDeviceCredential. */
    method BestDevice() returns (best: Option<Account>)
      ensures best == Best(View())
    {
      var listed := List(accounts);
      if listed == [] {
        return None;
      }
      var candidates := FilterCandidates(listed);
      if candidates == [] {
        return None;
      }
      var order := SortByQuota(candidates);
      for i := 0 to |order|
        invariant FirstParsable(order) == FirstParsable(order[i..])
      {
        assert order[i..][1..] == order[i + 1..];
        if !order[i].parsable {
          continue;
        }
        return Some(order[i]);
      }
      return None;
    }

    /** handleChatTest, as far as accounts are concerned. */
    method ChatTest(answer: Answer)
      modifies this`clock, this`calls
      ensures View() == AfterTest(old(View()), answer)
    {
      var best := BestDevice();
      if best.Some? {
        clock := clock + answer.elapsed;
        calls := calls + [Called(best.value.id, clock, answer, true)];
      }
    }
  }
}
