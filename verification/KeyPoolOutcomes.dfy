/** What each operation does to a key and its row, in statuses, seconds and texts alone. */
module KeyPoolOutcomes {
  import opened Basics
  import opened BeijingTime
  import opened Clock
  import opened DeviceOutcomes
  import opened ErrorClasses
  import opened KeyPool
  import opened KeyPoolSafety
  import opened RoundRobin

  /** Key `i` of the pool and row `j` of the table are of one id. */
  ghost predicate Paired(p: PoolState, i: nat, j: nat) {
    i < |p.keys| && j < |p.rows| && p.keys[i].id == p.rows[j].id
  }

  /** Nothing but key `i` and row `j` differs, and of these only status and cooldown. */
  ghost predicate OnlyPair(p: PoolState, q: PoolState, i: nat, j: nat)
    requires i < |p.keys| && j < |p.rows|
  {
    && |q.keys| == |p.keys| && |q.rows| == |p.rows| && q.nextId == p.nextId && q.rr == p.rr
    && (forall k | 0 <= k < |p.keys| && k != i :: q.keys[k] == p.keys[k])
    && (forall k | 0 <= k < |p.rows| && k != j :: q.rows[k] == p.rows[k])
    && q.keys[i].id == p.keys[i].id && q.keys[i].key == p.keys[i].key
    && q.rows[j].id == p.rows[j].id && q.rows[j].key == p.rows[j].key && q.rows[j].checkedAt == p.rows[j].checkedAt
  }

  ghost predicate BothOff(q: PoolState, i: nat, j: nat)
    requires i < |q.keys| && j < |q.rows|
  {
    && q.keys[i].status == Disabled && q.keys[i].cooldownUntil == ZERO_TIME
    && q.rows[j].status == Disabled && q.rows[j].cooldownUntil == 0
  }

  ghost predicate BothOn(q: PoolState, i: nat, j: nat)
    requires i < |q.keys| && j < |q.rows|
  {
    && q.keys[i].status == Active && q.keys[i].cooldownUntil == ZERO_TIME
    && (q.rows[j].status == Active || q.rows[j].status == Blank) && q.rows[j].cooldownUntil == 0
  }

  /** In cooldown up to `until`, in the table up to that instant's whole second. */
  ghost predicate BothCooling(q: PoolState, i: nat, j: nat, until: int)
    requires i < |q.keys| && j < |q.rows|
  {
    && q.keys[i].status == Cooldown && q.keys[i].cooldownUntil == until
    && q.rows[j].status == Cooldown && q.rows[j].cooldownUntil == until / 1_000_000_000
  }

  /** No two rows have one id, so a statement about row `j`'s id reaches row `j` alone. */
  lemma AssignPair(p: PoolState, i: nat, j: nat, status: Status, until: int)
    requires Mirror(p) && Paired(p, i, j)
    ensures
      var q := Assign(p, i, status, until);
      && OnlyPair(p, q, i, j) && q.keys[i].status == status && q.keys[i].cooldownUntil == until
      && q.rows[j].status == status && q.rows[j].cooldownUntil == Seconds(until)
  {
    forall k | 0 <= k < |p.rows| && k != j
      ensures p.rows[k].id != p.rows[j].id
    {
      DistinctIds(p.rows, p.nextId, k, j);
    }
  }

  /** What the pool makes of an upstream answer at `now` for a key and its row. A 401 disables both. A 402, and a 429
      whose body says that the quota is used up, cool them down to the next Beijing midnight; any other 429 cools them
      down for exactly 90 seconds. A 2xx makes both active. Nothing else changes anything. */
  lemma ResultExactly(p: PoolState, i: nat, j: nat, status: int, body: Body, now: int)
    requires Mirror(p) && Paired(p, i, j) && now >= 0
    ensures
      var q := AfterResult(p, p.keys[i].id, status, body, now);
      && OnlyPair(p, q, i, j)
      && (if status == 401 then BothOff(q, i, j)
          else if status == 402 || (status == 429 && SaysAny(body.lower, QUOTA_TEXTS))
          then BothCooling(q, i, j, NextBeijingMidnight(now))
          else if status == 429 then BothCooling(q, i, j, now + 90 * SECOND)
          else if 200 <= status <= 299 then BothOn(q, i, j)
          else q == p)
  {
    FindsIndex(p, i);
    QuotaTextsExactly(status, body);
    NextMidnightIsLeast(now, 0);
    assert Agree(p.keys[i], p.rows[j]) && KeyOk(p.keys[i]);
    AssignPair(p, i, j, Disabled, ZERO_TIME);
    AssignPair(p, i, j, Cooldown, NextBeijingMidnight(now));
    AssignPair(p, i, j, Cooldown, now + 90 * SECOND);
    AssignPair(p, i, j, Active, ZERO_TIME);
  }

  /** An answer for a key that the pool does not hold, and disabling one, change nothing. */
  lemma UnknownKey(p: PoolState, id: int, status: int, body: Body, now: int)
    requires forall k | 0 <= k < |p.keys| :: p.keys[k].id != id
    ensures AfterResult(p, id, status, body, now) == p && AfterDisable(p, id) == p
  {
  }

  lemma DisableExactly(p: PoolState, i: nat, j: nat)
    requires Mirror(p) && Paired(p, i, j)
    ensures OnlyPair(p, AfterDisable(p, p.keys[i].id), i, j) && BothOff(AfterDisable(p, p.keys[i].id), i, j)
  {
    FindsIndex(p, i);
    AssignPair(p, i, j, Disabled, ZERO_TIME);
  }

  // ---------------------------------------------------------------- reloading

  /** A cooldown that ended before `now`. */
  predicate Ended(row: KeyRow, now: int) {
    row.status == Cooldown && 0 < row.cooldownUntil && row.cooldownUntil * 1_000_000_000 < now
  }

  /** The key and the row after a reload that found `row`: an ended cooldown is lifted from both, any other row stays
      and the key repeats it, a blank status as active. */
  ghost predicate Reloaded(row: KeyRow, row': KeyRow, k: KeyState, now: int) {
    && row'.id == row.id == k.id && row'.key == row.key == k.key && row'.checkedAt == row.checkedAt
    && (if Ended(row, now)
        then row'.status == Active && row'.cooldownUntil == 0 && k.status == Active && k.cooldownUntil == ZERO_TIME
        else && row' == row && k.status == (if row.status == Blank then Active else row.status)
             && k.cooldownUntil == (if row.cooldownUntil > 0 then row.cooldownUntil * 1_000_000_000 else ZERO_TIME))
  }

  lemma ReloadExactly(p: PoolState, now: int)
    ensures
      var q := AfterReload(p, now);
      && |q.rows| == |p.rows| == |q.keys| && q.nextId == p.nextId && q.rr == p.rr
      && forall j | 0 <= j < |p.rows| :: Reloaded(p.rows[j], q.rows[j], q.keys[j], now)
  {
  }

  /** After a plain 429 at `now`, a reload later than 90 seconds makes the key active again, and one at least a second
      before that does not. */
  lemma ShortCooldownLasts(p: PoolState, i: nat, j: nat, body: Body, now: int, later: int)
    requires Mirror(p) && Paired(p, i, j) && now >= 0 && !SaysAny(body.lower, QUOTA_TEXTS)
    ensures
      var q := AfterReload(AfterResult(p, p.keys[i].id, 429, body, now), later);
      && j < |q.keys| == |q.rows| && q.keys[j].id == p.keys[i].id == q.rows[j].id
      && (later > now + 90 * SECOND ==> q.keys[j].status == Active && q.rows[j].status == Active)
      && (later <= now + 89 * SECOND ==> q.keys[j].status == Cooldown && q.rows[j].status == Cooldown)
  {
    var cooled := AfterResult(p, p.keys[i].id, 429, body, now);
    ResultExactly(p, i, j, 429, body, now);
    ReloadExactly(cooled, later);
    assert Reloaded(cooled.rows[j], AfterReload(cooled, later).rows[j], AfterReload(cooled, later).keys[j], later);
  }

  // ---------------------------------------------------------------- quota checks and the admin

  /** A good check of a key writes the time of the check and takes its row out of cooldown, also out of one still
      running; it reloads the pool, so the key is active at once. A disabled key stays disabled. */
  lemma GoodCheckExactly(p: PoolState, j: nat, now: int)
    requires Mirror(p) && j < |p.rows|
    ensures
      var q := AfterCheck(p, p.rows[j].id, Good, now);
      && |q.rows| == |p.rows| == |q.keys| && q.nextId == p.nextId && q.rr == p.rr
      && q.rows[j].id == p.rows[j].id == q.keys[j].id && q.rows[j].checkedAt == now / 1_000_000_000
      && q.rows[j].status == (if p.rows[j].status == Cooldown then Active else p.rows[j].status)
      && q.keys[j].status == (if p.rows[j].status == Disabled then Disabled else Active)
      && q.rows[j].cooldownUntil == 0 && q.keys[j].cooldownUntil == ZERO_TIME
      && forall k | 0 <= k < |p.rows| && k != j :: Reloaded(p.rows[k], q.rows[k], q.keys[k], now)
  {
    RowOnItsOwn(p, j);
    assert RowOk(p.rows[j]);
    ReloadExactly(p.(rows := UpdateQuota(p.rows, p.rows[j].id, now)), now);
  }

  /** A 401 to a check disables key and row. */
  lemma RefusedCheckExactly(p: PoolState, j: nat, now: int)
    requires Mirror(p) && j < |p.rows|
    ensures
      var q := AfterCheck(p, p.rows[j].id, Unauthorized, now);
      && |q.rows| == |p.rows| == |q.keys| && q.nextId == p.nextId && q.rr == p.rr
      && q.rows[j].id == p.rows[j].id == q.keys[j].id && BothOff(q, j, j)
      && forall k | 0 <= k < |p.rows| && k != j :: Reloaded(p.rows[k], q.rows[k], q.keys[k], now)
  {
    RowOnItsOwn(p, j);
    ReloadExactly(p.(rows := SetStatus(p.rows, p.rows[j].id, Disabled, ZERO_TIME)), now);
  }

  /** Any other bad check changes nothing, nor does a check of a key without a row. */
  lemma BrokenCheckExactly(p: PoolState, id: int, result: CheckResult, now: int)
    requires result == Broken || forall j | 0 <= j < |p.rows| :: p.rows[j].id != id
    ensures AfterCheck(p, id, result, now) == p
  {
  }

  lemma RowOnItsOwn(p: PoolState, j: nat)
    requires Mirror(p) && j < |p.rows|
    ensures HasRow(p.rows, p.rows[j].id)
    ensures forall k | 0 <= k < |p.rows| && k != j :: p.rows[k].id != p.rows[j].id
  {
    forall k | 0 <= k < |p.rows| && k != j
      ensures p.rows[k].id != p.rows[j].id
    {
      DistinctIds(p.rows, p.nextId, k, j);
    }
  }

  /** The admin's switch: the row gets the status asked for and loses any cooldown, and key and row agree at once. */
  lemma SwitchExactly(p: PoolState, j: nat, enable: bool, now: int)
    requires Mirror(p) && j < |p.rows|
    ensures
      var q := Apply(p, AdminSet(p.rows[j].id, enable), now);
      && |q.rows| == |p.rows| == |q.keys| && q.rows[j].id == p.rows[j].id == q.keys[j].id
      && (if enable then BothOn(q, j, j) else BothOff(q, j, j))
      && forall k | 0 <= k < |p.rows| && k != j :: Reloaded(p.rows[k], q.rows[k], q.keys[k], now)
  {
    RowOnItsOwn(p, j);
    ReloadExactly(p.(rows := SetStatus(p.rows, p.rows[j].id, if enable then Active else Disabled, ZERO_TIME)), now);
  }

  /** A new key gets the next id and is active in the table; the pool learns of it by the next reload. A key that is
      there already is ignored. */
  lemma AddExactly(p: PoolState, key: string, now: int)
    ensures
      var q := Apply(p, AddRow(key), now);
      && q.keys == p.keys && q.rr == p.rr
      && (if exists j | 0 <= j < |p.rows| :: p.rows[j].key == key then q == p
          else && |q.rows| == |p.rows| + 1 && q.rows[..|p.rows|] == p.rows && q.nextId == p.nextId + 1
               && var row := q.rows[|p.rows|];
                  && row.id == p.nextId && row.key == key && row.status == Active
                  && row.cooldownUntil == 0 && row.checkedAt == 0)
  {
  }

  /** A deletion takes exactly the rows of that id, in the table only. */
  lemma DeleteExactly(p: PoolState, id: int, now: int)
    ensures
      var q := Apply(p, DeleteRow(id), now);
      && q.keys == p.keys && q.rr == p.rr && q.nextId == p.nextId
      && forall row :: row in q.rows <==> row in p.rows && row.id != id
  {
    WithoutExact(p.rows, id);
  }

  lemma {:induction false} WithoutExact(rows: seq<KeyRow>, id: int)
    ensures forall row :: row in KeyPoolSafety.Without(rows, id) <==> row in rows && row.id != id
  {
    if rows != [] {
      WithoutExact(rows[1..], id);
      assert rows == [rows[0]] + rows[1..];
    }
  }

  // ---------------------------------------------------------------- picks

  /** Active with no cooldown ahead. */
  predicate CanBePicked(k: KeyState, now: int) {
    k.status == Active && (k.cooldownUntil == ZERO_TIME || k.cooldownUntil <= now)
  }

  /** The key `d` places after the one that follows the counter, in circular order. */
  function PlaceAfter(p: PoolState, d: nat): nat
    requires p.keys != []
  {
    (p.rr + 1 + d) % |p.keys|
  }

  /** The pick is `d` places on, with none before it to be picked. */
  ghost predicate FirstPlace(p: PoolState, now: int, d: nat)
    requires p.keys != []
  {
    && d < |p.keys| && CanBePicked(p.keys[PlaceAfter(p, d)], now)
    && forall e: nat | e < d :: !CanBePicked(p.keys[PlaceAfter(p, e)], now)
  }

  /** A pick yields the first key that can be picked, from the place after the counter on in circular order, and fails
      exactly when there is none; it moves the counter on by one, unless the pool is empty. */
  lemma PickExactly(p: PoolState, now: int)
    ensures
      match Picked(p, now)
      case None => forall k | 0 <= k < |p.keys| :: !CanBePicked(p.keys[k], now)
      case Some(k) => p.keys != [] && exists d :: FirstPlace(p, now, d) && k == PlaceAfter(p, d)
    ensures AfterPick(p) == if p.keys == [] then p else p.(rr := p.rr + 1)
  {
    if p.keys != [] {
      var avail, c, n := Available(p.keys, now), p.rr + 1, |p.keys|;
      assert forall k | 0 <= k < n :: avail[k] == CanBePicked(p.keys[k], now);
      PickFailsIffNoneAvailable(avail, c);
      var at := FirstAt(avail, c, c + n);
      if at < c + n {
        ScanFinds(avail, c, 0, at);
        forall e: nat | e < at - c
          ensures !CanBePicked(p.keys[PlaceAfter(p, e)], now)
        {
          assert !At(avail, c + e);
        }
        assert At(avail, at) && FirstPlace(p, now, at - c);
      } else {
        ScanMisses(avail, c, 0);
      }
    }
  }

  // ---------------------------------------------------------------- counts

  /** The key is shown with this status: its own, but active once its cooldown is past. */
  predicate ShowsAs(k: KeyState, now: int, st: Status) {
    if k.status == Cooldown && k.cooldownUntil != ZERO_TIME && k.cooldownUntil < now then st == Active
    else st == k.status
  }

  function ShownAs(keys: seq<KeyState>, now: int, st: Status): set<nat> {
    set i: nat | i < |keys| && ShowsAs(keys[i], now, st)
  }

  /** The keys that are active with no cooldown from now on. */
  function Usable(keys: seq<KeyState>, now: int): set<nat> {
    set i: nat |
      i < |keys| && keys[i].status == Active && (keys[i].cooldownUntil == ZERO_TIME || keys[i].cooldownUntil < now)
  }

  lemma OneMoreShown(keys: seq<KeyState>, now: int, st: Status)
    requires keys != []
    ensures
      var front, last := keys[..|keys| - 1], |keys| - 1;
      |ShownAs(keys, now, st)| == |ShownAs(front, now, st)| + if ShowsAs(keys[last], now, st) then 1 else 0
  {
    var front, last: nat := keys[..|keys| - 1], |keys| - 1;
    var all, before, shows := ShownAs(keys, now, st), ShownAs(front, now, st), ShowsAs(keys[last], now, st);
    forall i: nat
      ensures i in all <==> i in before || (i == last && shows)
    {
      if i < last {
        assert front[i] == keys[i];
      }
    }
    assert last !in before && all == before + if shows then {last} else {};
  }

  /** CountByStatus, status by status. */
  lemma {:induction false} ShownExactly(keys: seq<KeyState>, now: int, st: Status)
    ensures CountShown(keys, now, st) == |ShownAs(keys, now, st)|
  {
    if keys != [] {
      ShownExactly(keys[..|keys| - 1], now, st);
      OneMoreShown(keys, now, st);
    }
  }

  lemma {:induction false} ActiveExactly(keys: seq<KeyState>, now: int)
    ensures CountActive(keys, now) == |Usable(keys, now)|
  {
    if keys != [] {
      var front, last := keys[..|keys| - 1], |keys| - 1;
      ActiveExactly(front, now);
      assert Usable(keys, now) == Usable(front, now) + (if last in Usable(keys, now) then {last} else {});
    }
  }
}
