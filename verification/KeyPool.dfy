/** The upstream key pool (internal/upstream/pool.go) over its table (internal/store/store.go). */
module KeyPool {
  import opened Basics
  import opened BeijingTime
  import opened Clock
  import opened ErrorClasses
  import opened RoundRobin

  /** A status column; blank only where something else wrote the table. */
  datatype Status = Active | Cooldown | Disabled | Blank

  /** The pool reads a blank status as active. */
  function Read(st: Status): Status {
    if st == Blank then Active else st
  }

  /** A row of upstream_keys; `cooldownUntil` and `checkedAt` are in seconds, 0 meaning none. */
  datatype KeyRow = KeyRow(id: int, key: string, status: Status, cooldownUntil: int, checkedAt: int)

  /** The pool's copy of a row; `cooldownUntil` is an instant, ZERO_TIME meaning none. */
  datatype KeyState = KeyState(id: int, key: string, status: Status, cooldownUntil: int)

  // ---------------------------------------------------------------- table statements

  function Seconds(until: int): int {
    if until == ZERO_TIME then 0 else Unix(until)
  }

  function WithStatus(row: KeyRow, status: Status, until: int): KeyRow {
    row.(status := status, cooldownUntil := Seconds(until))
  }

  /** UPDATE upstream_keys SET status, cooldown_until WHERE id. */
  function SetStatus(rows: seq<KeyRow>, id: int, status: Status, until: int): (r: seq<KeyRow>)
    ensures |r| == |rows|
    ensures forall i | 0 <= i < |rows| ::
      r[i] == if rows[i].id == id then WithStatus(rows[i], status, until) else rows[i]
  {
    seq(|rows|, i requires 0 <= i < |rows| => if rows[i].id == id then WithStatus(rows[i], status, until) else rows[i])
  }

  function Checked(row: KeyRow, now: int): KeyRow {
    row.(checkedAt := Unix(now),
         status := if row.status == Cooldown then Active else row.status,
         cooldownUntil := if row.status == Cooldown then 0 else row.cooldownUntil)
  }

  /** UpdateUpstreamQuota, without the quota figures. */
  function UpdateQuota(rows: seq<KeyRow>, id: int, now: int): (r: seq<KeyRow>)
    ensures |r| == |rows|
    ensures forall i | 0 <= i < |rows| :: r[i] == if rows[i].id == id then Checked(rows[i], now) else rows[i]
  {
    seq(|rows|, i requires 0 <= i < |rows| => if rows[i].id == id then Checked(rows[i], now) else rows[i])
  }

  predicate RowBefore(a: KeyRow, b: KeyRow) {
    a.id < b.id
  }

  /** PRIMARY KEY with ORDER BY id, AUTOINCREMENT. */
  ghost predicate TableOk(rows: seq<KeyRow>, nextId: int) {
    && (forall i, j {:trigger RowBefore(rows[i], rows[j])} | 0 <= i < j < |rows| :: RowBefore(rows[i], rows[j]))
    && (forall i | 0 <= i < |rows| :: rows[i].id < nextId)
  }

  lemma DistinctIds(rows: seq<KeyRow>, nextId: int, i: nat, j: nat)
    requires TableOk(rows, nextId) && i < |rows| && j < |rows| && i != j
    ensures rows[i].id != rows[j].id
  {
    assert if i < j then RowBefore(rows[i], rows[j]) else RowBefore(rows[j], rows[i]);
  }

  /** Updates that keep the ids keep the table well formed. */
  lemma SameIdsTableOk(rows: seq<KeyRow>, rows': seq<KeyRow>, nextId: int)
    requires TableOk(rows, nextId) && |rows'| == |rows| && forall i | 0 <= i < |rows| :: rows'[i].id == rows[i].id
    ensures TableOk(rows', nextId)
  {
    forall i, j | 0 <= i < j < |rows'|
      ensures RowBefore(rows'[i], rows'[j])
    {
      assert RowBefore(rows[i], rows[j]);
    }
  }

  class KeyStore {
    var rows: seq<KeyRow>
    var nextId: int

    ghost predicate Valid()
      reads this
    {
      TableOk(rows, nextId)
    }

    method SetUpstreamKeyStatus(id: int, status: Status, cooldownUntil: int)
      modifies this`rows
      ensures rows == SetStatus(old(rows), id, status, cooldownUntil)
    {
      rows := SetStatus(rows, id, status, cooldownUntil);
    }

    method UpdateUpstreamQuota(id: int, now: int)
      modifies this`rows
      ensures rows == UpdateQuota(old(rows), id, now)
    {
      rows := UpdateQuota(rows, id, now);
    }
  }

  // ---------------------------------------------------------------- pool operations on values

  datatype PoolState = PoolState(rows: seq<KeyRow>, nextId: int, keys: seq<KeyState>, rr: nat)

  /** A cooldown the pool finds to be over: strictly in the past. */
  predicate Due(row: KeyRow, now: int) {
    row.cooldownUntil > 0 && FromUnix(row.cooldownUntil) < now && row.status == Cooldown
  }

  function Revived(row: KeyRow, now: int): KeyRow {
    if Due(row, now) then WithStatus(row, Active, ZERO_TIME) else row
  }

  function Loaded(row: KeyRow, now: int): KeyState {
    if Due(row, now) then KeyState(row.id, row.key, Active, ZERO_TIME)
    else
      KeyState(row.id, row.key, Read(row.status),
               if row.cooldownUntil > 0 then FromUnix(row.cooldownUntil) else ZERO_TIME)
  }

  function AfterReload(p: PoolState, now: int): PoolState {
    p.(rows := seq(|p.rows|, i requires 0 <= i < |p.rows| => Revived(p.rows[i], now)),
       keys := seq(|p.rows|, i requires 0 <= i < |p.rows| => Loaded(p.rows[i], now)))
  }

  function Find(keys: seq<KeyState>, id: int, from: nat): (r: Option<nat>)
    requires from <= |keys|
    ensures r.Some? ==> from <= r.value < |keys| && keys[r.value].id == id
    ensures r.Some? ==> forall i | from <= i < r.value :: keys[i].id != id
    ensures r.None? ==> forall i | from <= i < |keys| :: keys[i].id != id
    decreases |keys| - from
  {
    if from == |keys| then None else if keys[from].id == id then Some(from) else Find(keys, id, from + 1)
  }

  /** The pool sets key and row alike. */
  function Assign(p: PoolState, i: nat, status: Status, until: int): PoolState
    requires i < |p.keys|
  {
    p.(keys := p.keys[i := p.keys[i].(status := status, cooldownUntil := until)],
       rows := SetStatus(p.rows, p.keys[i].id, status, until))
  }

  function AfterResult(p: PoolState, id: int, status: int, body: Body, now: int): PoolState {
    match Find(p.keys, id, 0)
    case None => p
    case Some(i) =>
      if status == 401 then Assign(p, i, Disabled, ZERO_TIME)
      else if status == 402 || QuotaSignal(status, body) then Assign(p, i, Cooldown, NextBeijingMidnight(now))
      else if status == 429 then Assign(p, i, Cooldown, now + 90 * SECOND)
      else if 200 <= status < 300 then
        if Read(p.keys[i].status) == Active then p.(keys := p.keys[i := p.keys[i].(cooldownUntil := ZERO_TIME)])
        else Assign(p, i, Active, ZERO_TIME)
      else p
  }

  function AfterDisable(p: PoolState, id: int): PoolState {
    match Find(p.keys, id, 0)
    case None => p
    case Some(i) => Assign(p, i, Disabled, ZERO_TIME)
  }

  predicate Pickable(k: KeyState, now: int) {
    k.status == Active && !(k.cooldownUntil != ZERO_TIME && k.cooldownUntil > now)
  }

  function Available(keys: seq<KeyState>, now: int): (r: seq<bool>)
    ensures |r| == |keys| && forall i | 0 <= i < |keys| :: r[i] == Pickable(keys[i], now)
  {
    seq(|keys|, i requires 0 <= i < |keys| => Pickable(keys[i], now))
  }

  /** Which key a pick yields; an empty pool does not even advance the counter. */
  function Picked(p: PoolState, now: int): Option<nat> {
    if p.keys == [] then None else Chosen(Available(p.keys, now), p.rr + 1)
  }

  function AfterPick(p: PoolState): PoolState {
    if p.keys == [] then p else p.(rr := p.rr + 1)
  }

  predicate Counts(k: KeyState, now: int) {
    k.status == Active && (k.cooldownUntil == ZERO_TIME || k.cooldownUntil < now)
  }

  function CountActive(keys: seq<KeyState>, now: int): nat {
    if keys == [] then 0 else CountActive(keys[..|keys| - 1], now) + if Counts(keys[|keys| - 1], now) then 1 else 0
  }

  /** The status CountByStatus reports for a key: a cooldown in the past shows as active. */
  function Shown(k: KeyState, now: int): Status {
    if k.status == Cooldown && k.cooldownUntil != ZERO_TIME && k.cooldownUntil < now then Active else k.status
  }

  function CountShown(keys: seq<KeyState>, now: int, st: Status): nat {
    if keys == [] then 0
    else CountShown(keys[..|keys| - 1], now, st) + if Shown(keys[|keys| - 1], now) == st then 1 else 0
  }

  // ---------------------------------------------------------------- the pool itself

  class Pool {
    var keys: seq<KeyState>
    var rr: nat
    const store: KeyStore

    constructor (st: KeyStore, now: int)
      requires st.Valid()
      modifies st
      ensures store == st && st.Valid()
      ensures View() == AfterReload(PoolState(old(st.rows), old(st.nextId), [], 0), now)
    {
      store := st;
      keys := [];
      rr := 0;
      new;
      this.Reload(now);
    }

    ghost function View(): PoolState
      reads this, store
    {
      PoolState(store.rows, store.nextId, keys, rr)
    }

    method Reload(now: int)
      requires store.Valid()
      modifies this`keys, store`rows
      ensures View() == AfterReload(old(View()), now) && store.Valid()
    {
      var rows := store.rows;
      var loaded := [];
      for n := 0 to |rows|
        invariant |store.rows| == |rows| && |loaded| == n
        invariant forall i | 0 <= i < n :: loaded[i] == Loaded(rows[i], now) && store.rows[i] == Revived(rows[i], now)
        invariant forall i | n <= i < |rows| :: store.rows[i] == rows[i]
        invariant forall i | 0 <= i < |rows| :: store.rows[i].id == rows[i].id
      {
        var r := rows[n];
        var st := KeyState(r.id, r.key, r.status, ZERO_TIME);
        if r.cooldownUntil > 0 {
          st := st.(cooldownUntil := FromUnix(r.cooldownUntil));
          if st.cooldownUntil < now && st.status == Cooldown {
            st := st.(status := Active, cooldownUntil := ZERO_TIME);
            forall i | 0 <= i < |rows| && i != n
              ensures rows[i].id != r.id
            {
              DistinctIds(rows, store.nextId, i, n);
            }
            store.SetUpstreamKeyStatus(r.id, Active, ZERO_TIME);
          }
        }
        if st.status == Blank {
          st := st.(status := Active);
        }
        loaded := loaded + [st];
      }
      keys := loaded;
      SameIdsTableOk(rows, store.rows, store.nextId);
      assert store.rows == AfterReload(old(View()), now).rows;
      assert keys == AfterReload(old(View()), now).keys;
    }

    method Pick(now: int) returns (k: Option<nat>)
      modifies this`rr
      ensures k == Picked(old(View()), now) && View() == AfterPick(old(View()))
    {
      var n := |keys|;
      if n == 0 {
        return None;
      }
      ghost var avail := Available(keys, now);
      rr := rr + 1;
      var start := rr % n;
      for i := 0 to n
        invariant Scan(avail, start, 0) == Scan(avail, start, i)
      {
        var at := (start + i) % n;
        if keys[at].status != Active {
          continue;
        }
        if keys[at].cooldownUntil != ZERO_TIME && keys[at].cooldownUntil > now {
          continue;
        }
        return Some(at);
      }
      return None;
    }

    method FindKey(id: int) returns (r: Option<nat>)
      ensures r == Find(keys, id, 0)
    {
      for i := 0 to |keys|
        invariant Find(keys, id, 0) == Find(keys, id, i)
      {
        if keys[i].id == id {
          return Some(i);
        }
      }
      return None;
    }

    method ReportResult(id: int, status: int, body: Body, now: int)
      modifies this`keys, store`rows
      ensures View() == AfterResult(old(View()), id, status, body, now)
    {
      var found := FindKey(id);
      if found == None {
        return;
      }
      var i := found.value;
      if status == 401 {
        keys := keys[i := keys[i].(status := Disabled, cooldownUntil := ZERO_TIME)];
        store.SetUpstreamKeyStatus(id, Disabled, ZERO_TIME);
      } else if status == 402 || QuotaSignal(status, body) {
        var until := NextBeijingMidnight(now);
        keys := keys[i := keys[i].(status := Cooldown, cooldownUntil := until)];
        store.SetUpstreamKeyStatus(id, Cooldown, until);
      } else if status == 429 {
        var until := now + 90 * SECOND;
        keys := keys[i := keys[i].(status := Cooldown, cooldownUntil := until)];
        store.SetUpstreamKeyStatus(id, Cooldown, until);
      } else if 200 <= status < 300 {
        keys := keys[i := keys[i].(cooldownUntil := ZERO_TIME)];
        if keys[i].status == Active || keys[i].status == Blank {
          return;
        }
        keys := keys[i := keys[i].(status := Active)];
        store.SetUpstreamKeyStatus(id, Active, ZERO_TIME);
      }
    }

    method DisableKey(id: int)
      modifies this`keys, store`rows
      ensures View() == AfterDisable(old(View()), id)
    {
      for i := 0 to |keys|
        invariant keys == old(keys) && store.rows == old(store.rows)
        invariant Find(keys, id, 0) == Find(keys, id, i)
      {
        if keys[i].id == id {
          keys := keys[i := keys[i].(status := Disabled, cooldownUntil := ZERO_TIME)];
          store.SetUpstreamKeyStatus(id, Disabled, ZERO_TIME);
          return;
        }
      }
    }

    method CountByStatus(now: int) returns (total: nat, active: nat, cooldown: nat, disabled: nat)
      ensures total == |keys|
      ensures active == CountShown(keys, now, Active)
      ensures cooldown == CountShown(keys, now, Cooldown)
      ensures disabled == CountShown(keys, now, Disabled)
    {
      total, active, cooldown, disabled := |keys|, 0, 0, 0;
      for i := 0 to |keys|
        invariant active == CountShown(keys[..i], now, Active)
        invariant cooldown == CountShown(keys[..i], now, Cooldown)
        invariant disabled == CountShown(keys[..i], now, Disabled)
      {
        assert keys[..i + 1][..i] == keys[..i];
        match Shown(keys[i], now) {
          case Active => active := active + 1;
          case Cooldown => cooldown := cooldown + 1;
          case Disabled => disabled := disabled + 1;
          case Blank =>
        }
      }
      assert keys[..|keys|] == keys;
    }

    method ActiveCount(now: int) returns (n: nat)
      ensures n == CountActive(keys, now)
    {
      n := 0;
      for i := 0 to |keys|
        invariant n == CountActive(keys[..i], now)
      {
        assert keys[..i + 1][..i] == keys[..i];
        if Counts(keys[i], now) {
          n := n + 1;
        }
      }
      assert keys[..|keys|] == keys;
    }
  }
}
