/** What every sequential run keeps between the key pool and its table, and what the rotation then gives. */
module KeyPoolSafety {
  import opened Basics
  import opened BeijingTime
  import opened Clock
  import opened ErrorClasses
  import opened KeyPool
  import opened RoundRobin

  // ---------------------------------------------------------------- operations

  /** How the upstream answered a quota check (GET /v1/me): with figures, with 401, or otherwise badly. */
  datatype CheckResult = Good | Unauthorized | Broken

  datatype Op =
    | Result(id: int, status: int, body: Body)       // ReportResult
    | Disable(id: int)                               // DisableKey
    | AdminSet(id: int, enable: bool)                // set active or disabled, then reload
    | AddRow(key: string)                            // INSERT OR IGNORE
    | DeleteRow(id: int)
    | ReloadPool
    | CheckQuota(id: int, result: CheckResult)       // checkQuotaFor
    | PickKey

  predicate HasRow(rows: seq<KeyRow>, id: int) {
    exists i | 0 <= i < |rows| :: rows[i].id == id
  }

  function Inserted(p: PoolState, key: string): PoolState {
    if exists i | 0 <= i < |p.rows| :: p.rows[i].key == key then p
    else p.(rows := p.rows + [KeyRow(p.nextId, key, Active, 0, 0)], nextId := p.nextId + 1)
  }

  function Without(rows: seq<KeyRow>, id: int): (r: seq<KeyRow>)
    ensures forall i | 0 <= i < |r| :: r[i] in rows && r[i].id != id
  {
    if rows == [] then []
    else if rows[0].id == id then Without(rows[1..], id)
    else [rows[0]] + Without(rows[1..], id)
  }

  function AfterCheck(p: PoolState, id: int, result: CheckResult, now: int): PoolState {
    if !HasRow(p.rows, id) then p
    else match result
         case Good => AfterReload(p.(rows := UpdateQuota(p.rows, id, now)), now)
         case Unauthorized => AfterReload(p.(rows := SetStatus(p.rows, id, Disabled, ZERO_TIME)), now)
         case Broken => p
  }

  function Apply(p: PoolState, op: Op, now: int): PoolState {
    match op
    case Result(id, status, body) => AfterResult(p, id, status, body, now)
    case Disable(id) => AfterDisable(p, id)
    case AdminSet(id, enable) =>
      AfterReload(p.(rows := SetStatus(p.rows, id, if enable then Active else Disabled, ZERO_TIME)), now)
    case AddRow(key) => Inserted(p, key)
    case DeleteRow(id) => p.(rows := Without(p.rows, id))
    case ReloadPool => AfterReload(p, now)
    case CheckQuota(id, result) => AfterCheck(p, id, result, now)
    case PickKey => AfterPick(p)
  }

  // ---------------------------------------------------------------- coherence

  ghost predicate RowOk(r: KeyRow) {
    if r.status == Cooldown then r.cooldownUntil > 0 else r.cooldownUntil == 0
  }

  ghost predicate KeyOk(k: KeyState) {
    k.status != Blank && if k.status == Cooldown then Unix(k.cooldownUntil) > 0 else k.cooldownUntil == ZERO_TIME
  }

  /** Same status, a blank one being active, and the same cooldown to the second: the table holds whole seconds. */
  ghost predicate Agree(k: KeyState, r: KeyRow) {
    k.id == r.id ==> k.status == Read(r.status) && r.cooldownUntil == Seconds(k.cooldownUntil)
  }

  predicate KeyBefore(a: KeyState, b: KeyState) {
    a.id < b.id
  }

  ghost predicate Mirror(p: PoolState) {
    && TableOk(p.rows, p.nextId)
    && (forall i, j {:trigger KeyBefore(p.keys[i], p.keys[j])} | 0 <= i < j < |p.keys| ::
          KeyBefore(p.keys[i], p.keys[j]))
    && (forall i | 0 <= i < |p.keys| :: p.keys[i].id < p.nextId && KeyOk(p.keys[i]))
    && (forall i | 0 <= i < |p.rows| :: RowOk(p.rows[i]))
    && (forall i, j {:trigger Agree(p.keys[i], p.rows[j])} | 0 <= i < |p.keys| && 0 <= j < |p.rows| ::
          Agree(p.keys[i], p.rows[j]))
  }

  /** A table that is fit to load. */
  ghost predicate Loadable(rows: seq<KeyRow>, nextId: int) {
    TableOk(rows, nextId) && forall i | 0 <= i < |rows| :: RowOk(rows[i])
  }

  lemma ReloadMirrors(p: PoolState, now: int)
    requires Loadable(p.rows, p.nextId)
    ensures Mirror(AfterReload(p, now))
  {
    var q := AfterReload(p, now);
    SameIdsTableOk(p.rows, q.rows, p.nextId);
    forall i, j | 0 <= i < j < |q.keys|
      ensures KeyBefore(q.keys[i], q.keys[j])
    {
      assert RowBefore(p.rows[i], p.rows[j]);
    }
    forall i, j | 0 <= i < |q.keys| && 0 <= j < |q.rows|
      ensures Agree(q.keys[i], q.rows[j])
    {
      if i != j {
        DistinctIds(p.rows, p.nextId, i, j);
      } else {
        assert RowOk(p.rows[i]);
      }
    }
  }

  lemma AssignMirrors(p: PoolState, i: nat, status: Status, until: int)
    requires Mirror(p) && i < |p.keys|
    requires status != Blank && if status == Cooldown then Unix(until) > 0 && until != ZERO_TIME else until == ZERO_TIME
    ensures Mirror(Assign(p, i, status, until))
  {
    var q := Assign(p, i, status, until);
    SameIdsTableOk(p.rows, q.rows, p.nextId);
    forall a, b | 0 <= a < b < |q.keys|
      ensures KeyBefore(q.keys[a], q.keys[b])
    {
      assert KeyBefore(p.keys[a], p.keys[b]);
    }
    forall a, b | 0 <= a < |q.keys| && 0 <= b < |q.rows|
      ensures Agree(q.keys[a], q.rows[b])
    {
      assert Agree(p.keys[a], p.rows[b]);
      if a != i {
        assert if a < i then KeyBefore(p.keys[a], p.keys[i]) else KeyBefore(p.keys[i], p.keys[a]);
      }
    }
  }

  lemma NextMidnightWhole(now: int)
    ensures NextBeijingMidnight(now) % SECOND == 0
    ensures FromUnix(Unix(NextBeijingMidnight(now))) == NextBeijingMidnight(now)
  {
  }

  lemma ResultMirrors(p: PoolState, id: int, status: int, body: Body, now: int)
    requires Mirror(p) && now >= 0
    ensures Mirror(AfterResult(p, id, status, body, now))
  {
    var found := Find(p.keys, id, 0);
    if found.Some? {
      var i := found.value;
      if status == 401 {
        AssignMirrors(p, i, Disabled, ZERO_TIME);
      } else if status == 402 || QuotaSignal(status, body) {
        NextMidnightWhole(now);
        NextMidnightIsLeast(now, 0);
        AssignMirrors(p, i, Cooldown, NextBeijingMidnight(now));
      } else if status == 429 {
        AssignMirrors(p, i, Cooldown, now + 90 * SECOND);
      } else if 200 <= status < 300 {
        if p.keys[i].status == Active {
          assert KeyOk(p.keys[i]);
          assert AfterResult(p, id, status, body, now).keys == p.keys;
        } else {
          AssignMirrors(p, i, Active, ZERO_TIME);
        }
      }
    }
  }

  lemma {:induction false} WithoutKeepsOrder(rows: seq<KeyRow>, id: int, nextId: int)
    requires TableOk(rows, nextId)
    ensures TableOk(Without(rows, id), nextId)
  {
    if rows != [] {
      var tail, rest := rows[1..], Without(rows[1..], id);
      forall i, j | 0 <= i < j < |tail|
        ensures RowBefore(tail[i], tail[j])
      {
        assert RowBefore(rows[i + 1], rows[j + 1]);
      }
      WithoutKeepsOrder(tail, id, nextId);
      forall i | 0 <= i < |rest|
        ensures RowBefore(rows[0], rest[i])
      {
        var j :| 0 <= j < |tail| && tail[j] == rest[i];
        assert RowBefore(rows[0], rows[j + 1]);
      }
      var r := Without(rows, id);
      forall i, j | 0 <= i < j < |r|
        ensures RowBefore(r[i], r[j])
      {
        if r != rest && i > 0 {
          assert RowBefore(rest[i - 1], rest[j - 1]);
        } else if r == rest {
          assert RowBefore(rest[i], rest[j]);
        }
      }
    }
  }

  lemma DeleteMirrors(p: PoolState, id: int)
    requires Mirror(p)
    ensures Mirror(p.(rows := Without(p.rows, id)))
  {
    WithoutKeepsOrder(p.rows, id, p.nextId);
    var rows := Without(p.rows, id);
    forall i | 0 <= i < |rows|
      ensures rows[i].id < p.nextId && RowOk(rows[i]) && forall k | 0 <= k < |p.keys| :: Agree(p.keys[k], rows[i])
    {
      var j :| 0 <= j < |p.rows| && p.rows[j] == rows[i];
      forall k | 0 <= k < |p.keys|
        ensures Agree(p.keys[k], rows[i])
      {
        assert Agree(p.keys[k], p.rows[j]);
      }
    }
  }

  lemma SetMirrors(p: PoolState, id: int, status: Status, now: int)
    requires Loadable(p.rows, p.nextId) && status != Cooldown
    ensures TableOk(SetStatus(p.rows, id, status, ZERO_TIME), p.nextId)
    ensures Mirror(AfterReload(p.(rows := SetStatus(p.rows, id, status, ZERO_TIME)), now))
  {
    SameIdsTableOk(p.rows, SetStatus(p.rows, id, status, ZERO_TIME), p.nextId);
    ReloadMirrors(p.(rows := SetStatus(p.rows, id, status, ZERO_TIME)), now);
  }

  lemma QuotaMirrors(p: PoolState, id: int, now: int)
    requires Loadable(p.rows, p.nextId)
    ensures TableOk(UpdateQuota(p.rows, id, now), p.nextId)
    ensures Mirror(AfterReload(p.(rows := UpdateQuota(p.rows, id, now)), now))
  {
    SameIdsTableOk(p.rows, UpdateQuota(p.rows, id, now), p.nextId);
    ReloadMirrors(p.(rows := UpdateQuota(p.rows, id, now)), now);
  }

  lemma InsertMirrors(p: PoolState, key: string)
    requires Mirror(p)
    ensures Mirror(Inserted(p, key))
  {
    var q := Inserted(p, key);
    forall i, j | 0 <= i < j < |q.rows|
      ensures RowBefore(q.rows[i], q.rows[j])
    {
      assert j < |p.rows| ==> RowBefore(p.rows[i], p.rows[j]);
    }
    forall i, j | 0 <= i < |q.keys| && 0 <= j < |q.rows|
      ensures Agree(q.keys[i], q.rows[j])
    {
      assert j < |p.rows| ==> Agree(p.keys[i], p.rows[j]);
    }
  }

  /** Every operation keeps pool and table in step, for every key they share. */
  lemma StepKeepsMirror(p: PoolState, op: Op, now: int)
    requires Mirror(p) && now >= 0
    ensures Mirror(Apply(p, op, now))
  {
    match op {
      case Result(id, status, body) => ResultMirrors(p, id, status, body, now);
      case Disable(id) =>
        var found := Find(p.keys, id, 0);
        if found.Some? {
          AssignMirrors(p, found.value, Disabled, ZERO_TIME);
        }
      case AdminSet(id, enable) =>
        SetMirrors(p, id, if enable then Active else Disabled, now);
      case AddRow(key) => InsertMirrors(p, key);
      case DeleteRow(id) =>
        DeleteMirrors(p, id);
      case ReloadPool => ReloadMirrors(p, now);
      case CheckQuota(id, result) =>
        QuotaMirrors(p, id, now);
        SetMirrors(p, id, Disabled, now);
      case PickKey =>
    }
  }

  datatype Timed = Timed(op: Op, at: int)

  function Play(p: PoolState, ops: seq<Timed>): PoolState
    decreases |ops|
  {
    if ops == [] then p else Play(Apply(p, ops[0].op, ops[0].at), ops[1..])
  }

  /** In every sequential run from a freshly loaded pool, status and cooldown (to the second) of a key in memory are
      those of its row, and keys not in cooldown have none. */
  lemma {:induction false} MirrorAlways(p: PoolState, ops: seq<Timed>)
    requires Mirror(p) && forall i | 0 <= i < |ops| :: ops[i].at >= 0
    ensures Mirror(Play(p, ops))
    decreases |ops|
  {
    if ops != [] {
      StepKeepsMirror(p, ops[0].op, ops[0].at);
      MirrorAlways(Apply(p, ops[0].op, ops[0].at), ops[1..]);
    }
  }

  /** Key and row hold the very same instant exactly when the cooldown ends on a whole second. */
  lemma CoherentToTheInstant(p: PoolState, i: nat, j: nat)
    requires Mirror(p) && i < |p.keys| && j < |p.rows| && p.keys[i].id == p.rows[j].id && p.keys[i].status == Cooldown
    ensures FromUnix(p.rows[j].cooldownUntil) == p.keys[i].cooldownUntil <==> p.keys[i].cooldownUntil % SECOND == 0
    ensures FromUnix(p.rows[j].cooldownUntil) <= p.keys[i].cooldownUntil < FromUnix(p.rows[j].cooldownUntil) + SECOND
  {
    assert Agree(p.keys[i], p.rows[j]) && KeyOk(p.keys[i]);
  }

  /** A plain 429 in the middle of a second leaves key and row apart. */
  lemma SubSecondDrift()
    ensures var p := PoolState([KeyRow(1, "k", Active, 0, 0)], 2, [KeyState(1, "k", Active, ZERO_TIME)], 0);
      var q := AfterResult(p, 1, 429, Body("", ""), 1);
      Mirror(p) && FromUnix(q.rows[0].cooldownUntil) != q.keys[0].cooldownUntil
  {
    var body := Body("", "");
    assert !QuotaSignal(429, body) by {
      assert forall i | 0 <= i <= 0 :: body.lower[i..] == "";
    }
  }

  // ---------------------------------------------------------------- reloading

  /** Reload changes exactly the cooldowns strictly in the past, and a second reload at the same time changes
      nothing. */
  lemma ReloadIdempotent(p: PoolState, now: int)
    requires Mirror(p)
    ensures AfterReload(AfterReload(p, now), now) == AfterReload(p, now)
    ensures forall j | 0 <= j < |p.rows| ::
      (AfterReload(p, now).rows[j] != p.rows[j]
       <==> p.rows[j].status == Cooldown && FromUnix(p.rows[j].cooldownUntil) < now)
  {
    var q := AfterReload(p, now);
    forall j | 0 <= j < |p.rows|
      ensures Revived(q.rows[j], now) == q.rows[j] && Loaded(q.rows[j], now) == q.keys[j]
      ensures q.rows[j] != p.rows[j] <==> p.rows[j].status == Cooldown && FromUnix(p.rows[j].cooldownUntil) < now
    {
      assert RowOk(p.rows[j]);
    }
    assert AfterReload(q, now).rows == q.rows;
    assert AfterReload(q, now).keys == q.keys;
  }

  /** A key comes out of cooldown on reload no later than the first instant after its end, and at most a second
      early. */
  lemma ReloadRevivesOnTime(p: PoolState, i: nat, j: nat, now: int)
    requires Mirror(p) && i < |p.keys| && j < |p.rows| && p.keys[i].id == p.rows[j].id && p.keys[i].status == Cooldown
    ensures p.keys[i].cooldownUntil < now ==> AfterReload(p, now).rows[j].status == Active
    ensures AfterReload(p, now).rows[j].status == Active ==> p.keys[i].cooldownUntil < now + SECOND
  {
    CoherentToTheInstant(p, i, j);
    assert Agree(p.keys[i], p.rows[j]) && RowOk(p.rows[j]);
  }

  // ---------------------------------------------------------------- picking

  /** In a coherent pool availability is just the status: time alone never makes a key pickable. */
  lemma AvailableIsActive(p: PoolState, now: int)
    requires Mirror(p)
    ensures forall i | 0 <= i < |p.keys| :: Available(p.keys, now)[i] == (p.keys[i].status == Active)
  {
    forall i | 0 <= i < |p.keys|
      ensures Available(p.keys, now)[i] == (p.keys[i].status == Active)
    {
      assert KeyOk(p.keys[i]);
    }
  }

  /** An expired cooldown keeps a key out of the rotation until something sets it active. */
  lemma ExpiredCooldownNotPicked(p: PoolState, now: int)
    requires Mirror(p) && Picked(p, now).Some?
    ensures p.keys[Picked(p, now).value].status == Active
  {
    AvailableIsActive(p, now);
  }

  lemma {:induction false} ActivePositive(keys: seq<KeyState>, now: int)
    ensures CountActive(keys, now) > 0 <==> exists i | 0 <= i < |keys| :: Counts(keys[i], now)
  {
    if keys != [] {
      var front := keys[..|keys| - 1];
      ActivePositive(front, now);
      assert keys == front + [keys[|keys| - 1]];
      assert forall i | 0 <= i < |front| :: front[i] == keys[i];
      if CountActive(front, now) > 0 {
        var i :| 0 <= i < |front| && Counts(front[i], now);
        assert Counts(keys[i], now);
      }
    }
  }

  /** ActiveCount reports some key exactly when a pick succeeds, although the two compare times differently. */
  lemma ActiveCountTellsPick(p: PoolState, now: int)
    requires Mirror(p)
    ensures CountActive(p.keys, now) > 0 <==> Picked(p, now).Some?
  {
    ActivePositive(p.keys, now);
    AvailableIsActive(p, now);
    forall i | 0 <= i < |p.keys|
      ensures Counts(p.keys[i], now) == Available(p.keys, now)[i]
    {
      assert KeyOk(p.keys[i]);
    }
    if p.keys != [] {
      PickFailsIffNoneAvailable(Available(p.keys, now), p.rr + 1);
    }
  }

  /** CountByStatus may report active keys that no pick returns: the difference is the expired cooldowns. */
  lemma {:induction false} ShownActive(keys: seq<KeyState>, now: int)
    requires forall i | 0 <= i < |keys| :: KeyOk(keys[i])
    ensures CountActive(keys, now) <= CountShown(keys, now, Active)
    ensures CountActive(keys, now) == CountShown(keys, now, Active) <==>
      forall i | 0 <= i < |keys| :: !(keys[i].status == Cooldown && keys[i].cooldownUntil < now)
    ensures CountShown(keys, now, Active) + CountShown(keys, now, Cooldown) + CountShown(keys, now, Disabled) == |keys|
  {
    if keys != [] {
      var front, k := keys[..|keys| - 1], keys[|keys| - 1];
      ShownActive(front, now);
      assert KeyOk(k);
      assert forall i | 0 <= i < |keys| :: keys[i] == if i < |front| then front[i] else k;
      if forall i | 0 <= i < |front| :: !(front[i].status == Cooldown && front[i].cooldownUntil < now) {
      } else {
        var i :| 0 <= i < |front| && front[i].status == Cooldown && front[i].cooldownUntil < now;
        assert keys[i].status == Cooldown && keys[i].cooldownUntil < now;
      }
    }
  }

  // ---------------------------------------------------------------- shares of the rotation

  /** The keys returned by successive picks, one at each of the given times. */
  function Trace(p: PoolState, times: seq<int>): seq<Option<nat>>
    decreases |times|
  {
    if times == [] then [] else [Picked(p, times[0])] + Trace(AfterPick(p), times[1..])
  }

  function Occurrences(trace: seq<Option<nat>>, k: nat): nat {
    if trace == [] then 0 else (if trace[0] == Some(k) then 1 else 0) + Occurrences(trace[1..], k)
  }

  lemma {:induction false} TraceCounts(p: PoolState, times: seq<int>, avail: seq<bool>, k: nat)
    requires Mirror(p) && p.keys != [] && |avail| == |p.keys|
    requires forall i | 0 <= i < |p.keys| :: avail[i] == (p.keys[i].status == Active)
    ensures Occurrences(Trace(p, times), k) == Count(avail, k, p.rr + 1, |times|)
    decreases |times|
  {
    if times != [] {
      AvailableIsActive(p, times[0]);
      assert Available(p.keys, times[0]) == avail;
      TraceCounts(AfterPick(p), times[1..], avail, k);
      assert Trace(p, times)[1..] == Trace(AfterPick(p), times[1..]);
    }
  }

  function Actives(keys: seq<KeyState>): (r: seq<bool>)
    ensures |r| == |keys| && forall i | 0 <= i < |keys| :: r[i] == (keys[i].status == Active)
  {
    seq(|keys|, i requires 0 <= i < |keys| => keys[i].status == Active)
  }

  /** On an unchanged pool of n keys any n consecutive picks, whenever they happen, return each active key once for
      itself and once for every inactive key directly before it in circular order. */
  lemma PicksShareExactly(p: PoolState, times: seq<int>, k: nat)
    requires Mirror(p) && |times| == |p.keys| && k < |p.keys| && p.keys[k].status == Active
    ensures Occurrences(Trace(p, times), k) == 1 + Gap(Actives(p.keys), k)
  {
    TraceCounts(p, times, Actives(p.keys), k);
    ExactShare(Actives(p.keys), k, p.rr + 1);
  }

  // ---------------------------------------------------------------- what a success does

  /** A 2xx makes the key active in memory and in the table whatever its status was, disabled included. */
  lemma SuccessActivates(p: PoolState, i: nat, j: nat, status: int, body: Body, now: int)
    requires Mirror(p) && i < |p.keys| && j < |p.rows| && p.keys[i].id == p.rows[j].id && 200 <= status < 300
    ensures var q := AfterResult(p, p.keys[i].id, status, body, now);
      q.keys[i].status == Active && Read(q.rows[j].status) == Active
  {
    FindsIndex(p, i);
    assert Agree(p.keys[i], p.rows[j]);
  }

  lemma FindsIndex(p: PoolState, i: nat)
    requires Mirror(p) && i < |p.keys|
    ensures Find(p.keys, p.keys[i].id, 0) == Some(i)
  {
    var f := Find(p.keys, p.keys[i].id, 0).value;
    assert f < i ==> KeyBefore(p.keys[f], p.keys[i]);
  }
}
