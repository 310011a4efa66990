/** What accounts are charged equals what the records say. */
module DeviceMetering {
  import opened DeviceOrder
  import opened DeviceRuns
  import opened DeviceScheduler

  /** The tokens counted on the first `n` accounts. */
  function Tokens(rows: seq<Account>, n: nat): int
    requires n <= |rows|
  {
    if n == 0 then 0 else Tokens(rows, n - 1) + rows[n - 1].tokens
  }

  function Positive(x: int): nat {
    if x > 0 then x else 0
  }

  /** The sum of TotalTokens over the records from index `m` up to `n`, and the same counting negative totals as 0. */
  function Totals(rs: seq<Record>, m: nat, n: nat): int
    requires m <= n <= |rs|
  {
    if m == n then 0 else Totals(rs, m, n - 1) + Total(rs[n - 1])
  }

  function Charged(rs: seq<Record>, m: nat, n: nat): int
    requires m <= n <= |rs|
  {
    if m == n then 0 else Charged(rs, m, n - 1) + Positive(Total(rs[n - 1]))
  }

  // ---------------------------------------------------------------- sums

  lemma {:induction false} SameTokens(a: seq<Account>, b: seq<Account>, n: nat)
    requires n <= |a| && n <= |b| && forall i | 0 <= i < n :: a[i].tokens == b[i].tokens
    ensures Tokens(a, n) == Tokens(b, n)
  {
    if n > 0 {
      SameTokens(a, b, n - 1);
    }
  }

  /** Adding `t` to the one row with this id adds `t` to the sum. */
  lemma {:induction false} OneRowAdds(a: seq<Account>, b: seq<Account>, n: nat, i: nat, t: int)
    requires n <= |a| && n <= |b| && i < |a|
    requires forall k | 0 <= k < n :: b[k].tokens == a[k].tokens + if k == i then t else 0
    ensures Tokens(b, n) == Tokens(a, n) + if i < n then t else 0
  {
    if n > 0 {
      OneRowAdds(a, b, n - 1, i, t);
    }
  }

  lemma {:induction false} TotalsSplit(rs: seq<Record>, k: nat, m: nat, n: nat)
    requires k <= m <= n <= |rs|
    ensures Charged(rs, k, n) == Charged(rs, k, m) + Charged(rs, m, n)
  {
    if m < n {
      TotalsSplit(rs, k, m, n - 1);
    }
  }

  lemma {:induction false} ChargedPrefix(rs: seq<Record>, more: seq<Record>, m: nat, n: nat)
    requires m <= n <= |rs| <= |more| && more[..|rs|] == rs
    ensures Charged(more, m, n) == Charged(rs, m, n)
  {
    if m < n {
      ChargedPrefix(rs, more, m, n - 1);
      assert more[n - 1] == more[..|rs|][n - 1];
    }
  }

  /** What is charged is what the records total, exactly when no total is negative. */
  lemma {:induction false} ChargedIsTotals(rs: seq<Record>, m: nat, n: nat)
    requires m <= n <= |rs|
    ensures Totals(rs, m, n) <= Charged(rs, m, n)
    ensures Totals(rs, m, n) == Charged(rs, m, n) <==> forall k | m <= k < n :: Total(rs[k]) >= 0
  {
    if m < n {
      ChargedIsTotals(rs, m, n - 1);
    }
  }

  // ---------------------------------------------------------------- one call, one request

  function Sum(w: World): int {
    Tokens(w.accounts, |w.accounts|)
  }

  function Charge(answer: Answer): nat {
    Positive(InputOf(answer) + OutputOf(answer))
  }

  /** What the first `n` of these answers charge. */
  function Charges(answers: seq<Answer>, n: nat): nat
    requires n <= |answers|
  {
    if n == 0 then 0 else Charges(answers, n - 1) + Charge(answers[n - 1])
  }

  predicate Gained(a: Account, b: Account, id: int, t: int) {
    b.id == a.id && b.tokens == if a.id == id then a.tokens + t else a.tokens
  }

  /** The rows keep their ids, and those with this id gain `t` tokens. */
  ghost predicate Gains(a: seq<Account>, b: seq<Account>, id: int, t: int) {
    |a| == |b| && forall k | 0 <= k < |a| :: Gained(a[k], b[k], id, t)
  }

  lemma CallGains(rows: seq<Account>, id: int, answer: Answer)
    ensures Gains(rows, AccountsAfter(rows, id, answer), id, Charge(answer))
  {
    var b := AccountsAfter(rows, id, answer);
    forall k | 0 <= k < |rows|
      ensures Gained(rows[k], b[k], id, Charge(answer))
    {
    }
  }

  lemma GainsAddUp(a: seq<Account>, b: seq<Account>, i: nat, t: int)
    requires Ascending(a) && i < |a| && Gains(a, b, a[i].id, t)
    ensures Tokens(b, |b|) == Tokens(a, |a|) + t
  {
    forall k | 0 <= k < |a|
      ensures b[k].tokens == a[k].tokens + if k == i then t else 0
    {
      assert Gained(a[k], b[k], a[i].id, t);
      assert k < i ==> IdBefore(a[k], a[i]);
      assert i < k ==> IdBefore(a[i], a[k]);
    }
    OneRowAdds(a, b, |a|, i, t);
  }

  ghost predicate SameRows(a: seq<Account>, b: seq<Account>) {
    |a| == |b| && forall i | 0 <= i < |a| :: a[i].id == b[i].id
  }

  lemma SameRowsAscending(a: seq<Account>, b: seq<Account>)
    requires SameRows(a, b) && Ascending(a)
    ensures Ascending(b)
  {
    forall i, j | 0 <= i < j < |b|
      ensures IdBefore(b[i], b[j])
    {
      assert IdBefore(a[i], a[j]);
    }
  }

  /** The rows after the first `n` of these calls. */
  function RowsAfter(rows: seq<Account>, called: seq<Account>, answers: seq<Answer>, n: nat): seq<Account>
    requires n <= |called| && n <= |answers|
  {
    if n == 0 then rows else AccountsAfter(RowsAfter(rows, called, answers, n - 1), called[n - 1].id, answers[n - 1])
  }

  lemma {:induction false} ReplayRows(w: World, called: seq<Account>, answers: seq<Answer>, n: nat)
    requires n <= |called| && n <= |answers|
    ensures Replay(w, called, answers, n).accounts == RowsAfter(w.accounts, called, answers, n)
  {
    if n > 0 {
      ReplayRows(w, called, answers, n - 1);
    }
  }

  lemma {:induction false} RowsMeter(rows: seq<Account>, called: seq<Account>, answers: seq<Answer>, n: nat)
    requires n <= |called| && n <= |answers|
    requires Ascending(rows) && forall i | 0 <= i < n :: called[i] in rows
    ensures
      var r := RowsAfter(rows, called, answers, n);
      SameRows(rows, r) && Tokens(r, |r|) == Tokens(rows, |rows|) + Charges(answers, n)
  {
    if n > 0 {
      RowsMeter(rows, called, answers, n - 1);
      var r := RowsAfter(rows, called, answers, n - 1);
      var i :| 0 <= i < |rows| && rows[i] == called[n - 1];
      LastRowMeters(rows, r, i, answers[n - 1]);
    }
  }

  lemma LastRowMeters(rows: seq<Account>, r: seq<Account>, i: nat, answer: Answer)
    requires Ascending(rows) && SameRows(rows, r) && i < |rows|
    ensures
      var r' := AccountsAfter(r, rows[i].id, answer);
      SameRows(rows, r') && Tokens(r', |r'|) == Tokens(r, |r|) + Charge(answer)
  {
    var r' := AccountsAfter(r, rows[i].id, answer);
    SameRowsAscending(rows, r);
    CallGains(r, rows[i].id, answer);
    assert rows[i].id == r[i].id;
    GainsAddUp(r, r', i, Charge(answer));
  }

  lemma {:induction false} RecordsCharge(rs: seq<Record>, m: nat, answers: seq<Answer>, n: nat)
    requires m + n <= |rs| && n <= |answers|
    requires forall i | 0 <= i < n :: rs[m + i] == RecordOf(answers[i])
    ensures Charged(rs, m, m + n) == Charges(answers, n)
  {
    if n > 0 {
      RecordsCharge(rs, m, answers, n - 1);
      assert rs[m + (n - 1)] == RecordOf(answers[n - 1]);
    }
  }

  lemma MadeRecordsCharge(w: World, r: World, called: seq<Account>, answers: seq<Answer>, n: nat)
    requires n <= |called| && n <= |answers| && MadeFirst(w, r, called, answers, n)
    ensures Charged(r.records, |w.records|, |r.records|) == Charges(answers, n)
  {
    forall i | 0 <= i < n
      ensures r.records[|w.records| + i] == RecordOf(answers[i])
    {
      assert Made(w, r, called, answers, i);
    }
    RecordsCharge(r.records, |w.records|, answers, n);
  }

  lemma ReplayRecords(w: World, called: seq<Account>, answers: seq<Answer>, n: nat)
    requires n <= |called| && n <= |answers|
    ensures
      var rs := Replay(w, called, answers, n).records;
      && |w.records| <= |rs| && rs[..|w.records|] == w.records
      && Charged(rs, |w.records|, |rs|) == Charges(answers, n)
  {
    ReplayCalls(w, called, answers, n);
    MadeRecordsCharge(w, Replay(w, called, answers, n), called, answers, n);
  }

  lemma ReplayMeters(w: World, called: seq<Account>, answers: seq<Answer>, n: nat)
    requires n <= |called| && n <= |answers|
    requires Ascending(w.accounts) && forall i | 0 <= i < n :: called[i] in w.accounts
    ensures
      var r := Replay(w, called, answers, n);
      && |w.records| <= |r.records| && r.records[..|w.records|] == w.records
      && Sum(r) == Sum(w) + Charged(r.records, |w.records|, |r.records|)
  {
    ReplayRows(w, called, answers, n);
    RowsMeter(w.accounts, called, answers, n);
    ReplayRecords(w, called, answers, n);
  }

  lemma RequestMeters(w: World, answers: seq<Answer>)
    requires Ascending(w.accounts) && |answers| >= |w.accounts|
    ensures
      var r := TryDeviceChat(w, answers).w;
      && |w.records| <= |r.records| && r.records[..|w.records|] == w.records
      && Sum(r) == Sum(w) + Charged(r.records, |w.records|, |r.records|)
  {
    CalledExactly(w, answers);
    EligibleExact(w);
    var e := Eligible(w);
    forall i | 0 <= i < |e|
      ensures e[i] in w.accounts
    {
      assert e[i] in e;
      assert MayCall(w, e[i]);
    }
    ReplayMeters(w, e, answers, Cut(|e|, answers));
  }

  // ---------------------------------------------------------------- whole runs

  lemma AdminChargesNothing(w: World, e: Event)
    requires !e.Request? && !e.DeleteAccount?
    ensures Sum(Apply(w, e)) == Sum(w) && Apply(w, e).records == w.records
  {
    SameTokens(Apply(w, e).accounts, w.accounts, |w.accounts|);
  }

  lemma {:induction false} ChargesAddUp(ws: seq<World>, es: seq<Event>, i: nat, j: nat)
    requires IsRun(ws, es) && i <= j < |ws| && TableOk(ws[0])
    requires forall m | i <= m < j :: !es[m].DeleteAccount?
    ensures |ws[i].records| <= |ws[j].records|
    ensures Sum(ws[j]) == Sum(ws[i]) + Charged(ws[j].records, |ws[i].records|, |ws[j].records|)
  {
    if i < j {
      ChargesAddUp(ws, es, i, j - 1);
      TableOkAlways(ws, es, j - 1);
      var v, e := ws[j - 1], es[j - 1];
      assert Step(v, e, ws[j]);
      if e.Request? {
        RequestMeters(v, e.answers);
        ChargedPrefix(v.records, ws[j].records, |ws[i].records|, |v.records|);
        TotalsSplit(ws[j].records, |ws[i].records|, |v.records|, |ws[j].records|);
      } else {
        AdminChargesNothing(v, e);
      }
    }
  }

  /** Over any part of a run without deletions, the tokens added to the accounts equal the records' TotalTokens
      exactly when no record has a negative total. */
  lemma MeteringConserved(ws: seq<World>, es: seq<Event>, i: nat, j: nat)
    requires IsRun(ws, es) && i <= j < |ws| && TableOk(ws[0])
    requires forall m | i <= m < j :: !es[m].DeleteAccount?
    ensures |ws[i].records| <= |ws[j].records|
    ensures Sum(ws[j]) - Sum(ws[i]) == Totals(ws[j].records, |ws[i].records|, |ws[j].records|)
            <==> forall k | |ws[i].records| <= k < |ws[j].records| :: Total(ws[j].records[k]) >= 0
  {
    ChargesAddUp(ws, es, i, j);
    ChargedIsTotals(ws[j].records, |ws[i].records|, |ws[j].records|);
  }
}
