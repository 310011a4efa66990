/** The full quota check of internal/server/quota_auto.go and what it does for keys in cooldown. */
module QuotaRefresh {
  import opened BeijingTime
  import opened Clock
  import opened ErrorClasses
  import opened KeyPool
  import opened KeyPoolSafety

  const CHECK_INTERVAL: int := 300_000_000

  /** The upstream's answer to one check, and how long it took. */
  datatype Reply = Reply(result: CheckResult, elapsed: nat)

  /** Pool, table and clock after checking the keys `ids` one by one. */
  datatype Progress = Progress(pool: PoolState, clock: int)

  function CheckOne(g: Progress, id: int, reply: Reply): Progress {
    var at := g.clock + reply.elapsed;
    var pool := AfterCheck(g.pool, id, reply.result, at);
    Progress(pool, if reply.result.Good? && HasRow(g.pool.rows, id) then at + CHECK_INTERVAL else at)
  }

  /** ... after the first `n` of them. */
  function CheckFirst(g: Progress, ids: seq<int>, replies: seq<Reply>, n: nat): Progress
    requires |replies| == |ids| && n <= |ids|
  {
    if n == 0 then g else CheckOne(CheckFirst(g, ids, replies, n - 1), ids[n - 1], replies[n - 1])
  }

  function CheckAll(g: Progress, ids: seq<int>, replies: seq<Reply>): Progress
    requires |replies| == |ids|
  {
    CheckFirst(g, ids, replies, |ids|)
  }

  function Ids(rows: seq<KeyRow>): (r: seq<int>)
    ensures |r| == |rows| && forall i | 0 <= i < |rows| :: r[i] == rows[i].id
  {
    seq(|rows|, i requires 0 <= i < |rows| => rows[i].id)
  }

  // ---------------------------------------------------------------- the source's form

  class Server {
    const pool: Pool
    var clock: int
    var quotaChecking: bool

    constructor (pool: Pool, clock: int)
      ensures this.pool == pool && this.clock == clock && !quotaChecking
    {
      this.pool, this.clock, quotaChecking := pool, clock, false;
    }

    ghost predicate Valid()
      reads this, pool, pool.store
    {
      pool.store.Valid()
    }

    ghost function View(): Progress
      reads this, pool, pool.store
    {
      Progress(pool.View(), clock)
    }

    /** checkQuotaFor, given the upstream's reply; `ok` when it returned no error. */
    method CheckQuotaFor(id: int, reply: Reply) returns (ok: bool)
      requires Valid()
      modifies this`clock, pool`keys, pool.store`rows
      ensures Valid()
      ensures ok == (HasRow(old(pool.store.rows), id) && reply.result.Good?)
      ensures pool.View() == AfterCheck(old(pool.View()), id, reply.result, clock)
      ensures clock == old(clock) + reply.elapsed
    {
      clock := clock + reply.elapsed;
      var rows := pool.store.rows;
      if !(exists i | 0 <= i < |rows| :: rows[i].id == id) {
        return false;
      }
      SameIdsTableOk(rows, SetStatus(rows, id, Disabled, ZERO_TIME), pool.store.nextId);
      SameIdsTableOk(rows, UpdateQuota(rows, id, clock), pool.store.nextId);
      match reply.result {
        case Broken =>
          return false;
        case Unauthorized =>
          pool.store.SetUpstreamKeyStatus(id, Disabled, ZERO_TIME);
          pool.Reload(clock);
          return false;
        case Good =>
          pool.store.UpdateUpstreamQuota(id, clock);
          pool.Reload(clock);
          return true;
      }
    }

    /** One turn of the loop in checkAllQuotas, for the `n`-th of the keys listed at its start. */
    method CheckListed(ghost g: Progress, ids: seq<int>, replies: seq<Reply>, n: nat) returns (ok: bool)
      requires |replies| == |ids| && n < |ids| && ids == Ids(g.pool.rows)
      requires Valid() && View() == CheckFirst(g, ids, replies, n)
      modifies this`clock, pool`keys, pool.store`rows
      ensures Valid() && ok == replies[n].result.Good?
      ensures View() == CheckFirst(g, ids, replies, n + 1)
    {
      ListedIsChecked(g, ids, replies, n);
      ok := CheckQuotaFor(ids[n], replies[n]);
      if ok {
        clock := clock + CHECK_INTERVAL;
      }
    }

    /** checkAllQuotas: `results` says which checks returned no error. */
    method CheckAllQuotas(replies: seq<Reply>) returns (results: seq<bool>, okCount: nat, total: nat)
      requires Valid() && |replies| == |pool.store.rows|
      modifies this`clock, pool`keys, pool.store`rows
      ensures Valid() && View() == CheckAll(old(View()), Ids(old(pool.store.rows)), replies)
      ensures total == |results| == |replies| && Tells(results, replies)
      ensures okCount == CountTrue(results)
    {
      var ids := Ids(pool.store.rows);
      ghost var g := View();
      results, okCount := [], 0;
      for n := 0 to |ids|
        invariant Valid() && View() == CheckFirst(g, ids, replies, n)
        invariant |results| == n && Tells(results, replies)
        invariant okCount == CountTrue(results)
      {
        var ok := CheckListed(g, ids, replies, n);
        CountTrueSnoc(results, ok);
        TellsSnoc(results, replies);
        results := results + [ok];
        if ok {
          okCount := okCount + 1;
        }
      }
      total := |ids|;
    }

    /** runQuotaAutoRefresh: nothing happens while another full check holds the flag; the flag is given back. */
    method RunQuotaAutoRefresh(replies: seq<Reply>)
      requires Valid() && |replies| == |pool.store.rows|
      modifies this, pool`keys, pool.store`rows
      ensures Valid() && quotaChecking == old(quotaChecking)
      ensures View() == if old(quotaChecking) then old(View())
                        else CheckAll(old(View()), Ids(old(pool.store.rows)), replies)
    {
      if quotaChecking {
        return;
      }
      quotaChecking := true;
      var results, okCount, total := CheckAllQuotas(replies);
      quotaChecking := false;
    }
  }

  /** These checks, from the first on, returned no error exactly where the upstream's reply was good. */
  predicate Tells(results: seq<bool>, replies: seq<Reply>) {
    |results| <= |replies| && forall i | 0 <= i < |results| :: results[i] == replies[i].result.Good?
  }

  lemma TellsSnoc(results: seq<bool>, replies: seq<Reply>)
    requires Tells(results, replies) && |results| < |replies|
    ensures Tells(results + [replies[|results|].result.Good?], replies)
  {
  }

  function CountTrue(bs: seq<bool>): nat {
    if bs == [] then 0 else CountTrue(bs[..|bs| - 1]) + if bs[|bs| - 1] then 1 else 0
  }

  lemma CountTrueSnoc(bs: seq<bool>, b: bool)
    ensures CountTrue(bs + [b]) == CountTrue(bs) + if b then 1 else 0
  {
    assert (bs + [b])[..|bs|] == bs;
  }

  lemma StepKeepsMirrorNow(p: PoolState, id: int, result: CheckResult, now: int)
    requires Mirror(p)
    ensures Mirror(AfterCheck(p, id, result, now))
  {
    QuotaMirrors(p, id, now);
    SetMirrors(p, id, Disabled, now);
  }

  lemma CheckKeepsIds(p: PoolState, id: int, result: CheckResult, now: int)
    ensures var q := AfterCheck(p, id, result, now);
      |q.rows| == |p.rows| && forall i | 0 <= i < |p.rows| :: q.rows[i].id == p.rows[i].id
  {
  }

  // ---------------------------------------------------------------- recovery

  /** The check reached the upstream's verdict on the key, so it ends with a reload. */
  predicate Decides(r: Reply) {
    !r.result.Broken?
  }

  /** A deciding check takes every lapsed cooldown away; no check starts or shortens one. */
  lemma CheckEndsLapsed(p: PoolState, id: int, result: CheckResult, now: int, j: nat)
    requires Mirror(p) && j < |p.rows| && HasRow(p.rows, id)
    ensures var q := AfterCheck(p, id, result, now);
      && |q.rows| == |p.rows|
      && (q.rows[j].status == Cooldown ==> q.rows[j] == p.rows[j])
      && (!result.Broken? && FromUnix(p.rows[j].cooldownUntil) < now ==>
            q.rows[j].status != Cooldown
            && |q.keys| == |q.rows| && q.keys[j].id == q.rows[j].id && q.keys[j].status != Cooldown)
  {
    assert RowOk(p.rows[j]);
  }

  /** Once a check has been decided, row `j` and its key in the freshly loaded pool are out of cooldown; until then
      nothing has changed. */
  ghost predicate Tracked(p: PoolState, q: PoolState, j: nat, decided: bool) {
    if decided
    then j < |q.rows| == |q.keys| && q.keys[j].id == q.rows[j].id
         && q.rows[j].status != Cooldown && q.keys[j].status != Cooldown
    else q == p
  }

  /** A check leaves alone what is not in cooldown, in the table and in a pool loaded from it. */
  lemma CheckKeepsRecovered(q: PoolState, id: int, result: CheckResult, now: int, j: nat)
    requires Mirror(q) && j < |q.rows| && |q.keys| == |q.rows| && q.keys[j].id == q.rows[j].id
    requires q.rows[j].status != Cooldown && q.keys[j].status != Cooldown
    ensures var q' := AfterCheck(q, id, result, now);
      && |q'.rows| == |q.rows| == |q'.keys| && q'.keys[j].id == q'.rows[j].id
      && q'.rows[j].status != Cooldown && q'.keys[j].status != Cooldown
  {
    assert RowOk(q.rows[j]);
  }

  lemma OneCheckTracked(p: PoolState, g: Progress, j: nat, decided: bool, id: int, reply: Reply)
    requires Mirror(g.pool) && j < |p.rows| && Tracked(p, g.pool, j, decided) && HasRow(g.pool.rows, id)
    requires FromUnix(p.rows[j].cooldownUntil) < g.clock
    ensures Tracked(p, CheckOne(g, id, reply).pool, j, decided || Decides(reply))
  {
    var now := g.clock + reply.elapsed;
    if decided {
      CheckKeepsRecovered(g.pool, id, reply.result, now, j);
    } else if Decides(reply) {
      CheckEndsLapsed(g.pool, id, reply.result, now, j);
    }
  }

  lemma OneCheckMirrors(g: Progress, id: int, reply: Reply)
    requires Mirror(g.pool)
    ensures Mirror(CheckOne(g, id, reply).pool)
  {
    StepKeepsMirrorNow(g.pool, id, reply.result, g.clock + reply.elapsed);
  }

  lemma {:induction false} RoundMirrors(g: Progress, ids: seq<int>, replies: seq<Reply>, n: nat)
    requires Mirror(g.pool) && |replies| == |ids| && n <= |ids|
    ensures Mirror(CheckFirst(g, ids, replies, n).pool)
  {
    if n > 0 {
      RoundMirrors(g, ids, replies, n - 1);
      OneCheckMirrors(CheckFirst(g, ids, replies, n - 1), ids[n - 1], replies[n - 1]);
    }
  }

  /** A round neither adds nor removes rows, and time does not run backwards in it. */
  lemma {:induction false} RoundKeepsIds(g: Progress, ids: seq<int>, replies: seq<Reply>, n: nat)
    requires |replies| == |ids| && n <= |ids|
    ensures var h := CheckFirst(g, ids, replies, n);
      |h.pool.rows| == |g.pool.rows| && h.clock >= g.clock
      && forall i | 0 <= i < |g.pool.rows| :: h.pool.rows[i].id == g.pool.rows[i].id
  {
    if n > 0 {
      RoundKeepsIds(g, ids, replies, n - 1);
      var h := CheckFirst(g, ids, replies, n - 1);
      CheckKeepsIds(h.pool, ids[n - 1], replies[n - 1].result, h.clock + replies[n - 1].elapsed);
    }
  }

  lemma RoundKeepsRow(g: Progress, ids: seq<int>, replies: seq<Reply>, n: nat, id: int)
    requires |replies| == |ids| && n <= |ids| && HasRow(g.pool.rows, id)
    ensures HasRow(CheckFirst(g, ids, replies, n).pool.rows, id) && CheckFirst(g, ids, replies, n).clock >= g.clock
  {
    RoundKeepsIds(g, ids, replies, n);
    var i :| 0 <= i < |g.pool.rows| && g.pool.rows[i].id == id;
    assert CheckFirst(g, ids, replies, n).pool.rows[i].id == id;
  }

  /** Every key listed when the round began still has its row when its turn comes. */
  lemma ListedIsChecked(g: Progress, ids: seq<int>, replies: seq<Reply>, n: nat)
    requires |replies| == |ids| && n < |ids| && ids == Ids(g.pool.rows)
    ensures HasRow(CheckFirst(g, ids, replies, n).pool.rows, ids[n])
    ensures CheckFirst(g, ids, replies, n + 1) == CheckOne(CheckFirst(g, ids, replies, n), ids[n], replies[n])
  {
    assert g.pool.rows[n].id == ids[n];
    RoundKeepsRow(g, ids, replies, n, ids[n]);
  }

  predicate Decided(replies: seq<Reply>, n: nat) {
    exists i | 0 <= i < n && i < |replies| :: Decides(replies[i])
  }

  lemma {:induction false} RoundTracked(p: PoolState, start: int, ids: seq<int>, replies: seq<Reply>, n: nat, j: nat)
    requires Mirror(p) && j < |p.rows| && |replies| == |ids| && n <= |ids|
    requires forall i | 0 <= i < |ids| :: HasRow(p.rows, ids[i])
    requires FromUnix(p.rows[j].cooldownUntil) < start
    ensures Tracked(p, CheckFirst(Progress(p, start), ids, replies, n).pool, j, Decided(replies, n))
  {
    if n > 0 {
      var g := CheckFirst(Progress(p, start), ids, replies, n - 1);
      RoundTracked(p, start, ids, replies, n - 1, j);
      RoundMirrors(Progress(p, start), ids, replies, n - 1);
      RoundKeepsRow(Progress(p, start), ids, replies, n - 1, ids[n - 1]);
      assert Decided(replies, n) == (Decided(replies, n - 1) || Decides(replies[n - 1]));
      OneCheckTracked(p, g, j, Decided(replies, n - 1), ids[n - 1], replies[n - 1]);
    }
  }

  /** A full check that begins after a key's cooldown has ended takes the key out of cooldown, in the table and in
      memory, exactly when some check in the round succeeds or gets 401, be it another key's. */
  lemma RoundRecovers(p: PoolState, start: int, replies: seq<Reply>, j: nat)
    requires Mirror(p) && |replies| == |p.rows| && j < |p.rows|
    requires p.rows[j].status == Cooldown && FromUnix(p.rows[j].cooldownUntil) < start
    ensures var q := CheckAll(Progress(p, start), Ids(p.rows), replies).pool;
      && |q.rows| == |p.rows| && q.rows[j].id == p.rows[j].id && Mirror(q)
      && (q.rows[j].status != Cooldown <==> exists n | 0 <= n < |replies| :: Decides(replies[n]))
      && (q.rows[j].status != Cooldown ==> j < |q.keys| && q.keys[j].id == p.rows[j].id && q.keys[j].status != Cooldown)
  {
    forall n | 0 <= n < |p.rows|
      ensures HasRow(p.rows, Ids(p.rows)[n])
    {
      assert p.rows[n].id == Ids(p.rows)[n];
    }
    RoundTracked(p, start, Ids(p.rows), replies, |replies|, j);
    RoundMirrors(Progress(p, start), Ids(p.rows), replies, |replies|);
    RoundKeepsIds(Progress(p, start), Ids(p.rows), replies, |replies|);
  }

  /** How long the first `n` replies of a round take, with 300 ms of rest after each good one. */
  function Lasts(replies: seq<Reply>, n: nat): nat
    requires n <= |replies|
  {
    if n == 0 then 0
    else Lasts(replies, n - 1) + replies[n - 1].elapsed + if replies[n - 1].result == Good then 300_000_000 else 0
  }

  lemma {:induction false} FirstLast(g: Progress, ids: seq<int>, replies: seq<Reply>, n: nat)
    requires |replies| == |ids| && n <= |ids| && ids == Ids(g.pool.rows)
    ensures CheckFirst(g, ids, replies, n).clock == g.clock + Lasts(replies, n)
  {
    if n > 0 {
      FirstLast(g, ids, replies, n - 1);
      ListedIsChecked(g, ids, replies, n - 1);
    }
  }

  /** A full check ends when all its replies are in, 300 ms later for every good one. */
  lemma RoundTakes(p: PoolState, start: int, replies: seq<Reply>)
    requires |replies| == |p.rows|
    ensures CheckAll(Progress(p, start), Ids(p.rows), replies).clock == start + Lasts(replies, |replies|)
  {
    FirstLast(Progress(p, start), Ids(p.rows), replies, |replies|);
  }

  /** What a round does for a row without a cooldown that outlasts its beginning: as soon as one check is decided, row
      and key are out of cooldown. */
  lemma RoundFrees(p: PoolState, start: int, replies: seq<Reply>, j: nat)
    requires Mirror(p) && |replies| == |p.rows| && j < |p.rows| && FromUnix(p.rows[j].cooldownUntil) < start
    requires exists n | 0 <= n < |replies| :: Decides(replies[n])
    ensures var q := CheckAll(Progress(p, start), Ids(p.rows), replies).pool;
      && |q.rows| == |p.rows| == |q.keys| && q.rows[j].id == p.rows[j].id == q.keys[j].id
      && q.rows[j].status != Cooldown && q.keys[j].status != Cooldown
  {
    forall n | 0 <= n < |p.rows|
      ensures HasRow(p.rows, Ids(p.rows)[n])
    {
      assert p.rows[n].id == Ids(p.rows)[n];
    }
    RoundTracked(p, start, Ids(p.rows), replies, |replies|, j);
    RoundKeepsIds(Progress(p, start), Ids(p.rows), replies, |replies|);
  }

  /** The operation puts this key into cooldown. */
  predicate Cools(op: Op, id: int) {
    op.Result? && op.id == id && (op.status == 402 || op.status == 429)
  }

  /** When the cooldown ends that a result with this status and body starts at `now`. */
  function CooledUntil(status: int, body: Body, now: int): int {
    if status == 402 || QuotaSignal(status, body) then NextBeijingMidnight(now) else now + 90 * SECOND
  }

  /** If the operation cools this key, then for no longer than to `until`. */
  predicate CoolsBy(op: Op, now: int, id: int, until: int) {
    Cools(op, id) ==> CooledUntil(op.status, op.body, now) <= until
  }

  /** No row of this key has a cooldown beyond `until`. */
  ghost predicate EndsBy(rows: seq<KeyRow>, id: int, until: int) {
    forall i | 0 <= i < |rows| && rows[i].id == id :: FromUnix(rows[i].cooldownUntil) <= until
  }

  lemma ResultKeepsEndsBy(p: PoolState, op: Op, now: int, id: int, until: int)
    requires op.Result? && now >= 0 && CoolsBy(op, now, id, until) && until >= 0 && EndsBy(p.rows, id, until)
    ensures EndsBy(Apply(p, op, now).rows, id, until)
  {
    var q := Apply(p, op, now);
    forall i | 0 <= i < |q.rows| && q.rows[i].id == id
      ensures FromUnix(q.rows[i].cooldownUntil) <= until
    {
      assert p.rows[i].id == id;
    }
  }

  lemma StepKeepsEndsBy(p: PoolState, op: Op, now: int, id: int, until: int)
    requires now >= 0 && CoolsBy(op, now, id, until) && until >= 0 && EndsBy(p.rows, id, until)
    ensures EndsBy(Apply(p, op, now).rows, id, until)
  {
    if op.Result? {
      ResultKeepsEndsBy(p, op, now, id, until);
    } else {
      var q := Apply(p, op, now);
      forall i | 0 <= i < |q.rows| && q.rows[i].id == id
        ensures FromUnix(q.rows[i].cooldownUntil) <= until
      {
        if op.DeleteRow? {
          assert q.rows[i] in p.rows;
        }
      }
    }
  }

  lemma {:induction false} PlayKeepsEndsBy(p: PoolState, ops: seq<Timed>, id: int, until: int)
    requires until >= 0 && EndsBy(p.rows, id, until)
    requires forall n | 0 <= n < |ops| :: ops[n].at >= 0 && CoolsBy(ops[n].op, ops[n].at, id, until)
    ensures EndsBy(Play(p, ops).rows, id, until)
    decreases |ops|
  {
    if ops != [] {
      StepKeepsEndsBy(p, ops[0].op, ops[0].at, id, until);
      PlayKeepsEndsBy(Apply(p, ops[0].op, ops[0].at), ops[1..], id, until);
    }
  }

  /** The cooling itself: a quota answer at `t` puts row and key into cooldown up to the next Beijing midnight. */
  lemma QuotaCools(p: PoolState, t: int, i: nat, j: nat, status: int, body: Body)
    requires Mirror(p) && t >= 0 && i < |p.keys| && j < |p.rows| && p.keys[i].id == p.rows[j].id
    requires status == 402 || QuotaSignal(status, body)
    ensures var q := AfterResult(p, p.keys[i].id, status, body, t);
      && Mirror(q) && |q.rows| == |p.rows| && q.rows[j].id == p.rows[j].id
      && q.rows[j].status == Cooldown && FromUnix(q.rows[j].cooldownUntil) == NextBeijingMidnight(t)
      && EndsBy(q.rows, p.rows[j].id, NextBeijingMidnight(t))
  {
    FindsIndex(p, i);
    ResultMirrors(p, p.keys[i].id, status, body, t);
    NextMidnightWhole(t);
    NextMidnightIsLeast(t, 0);
  }

  /** A key cooled for quota at `t`: whatever happens next, any round begun after the Beijing midnight that ends the
      cooldown and after the end of every later one, such as the one at the next refresh slot, leaves row and key out of
      cooldown as soon as one check in it is decided. */
  lemma QuotaCooldownRecovers(p: PoolState, t: int, i: nat, j: nat, status: int, body: Body,
                              ops: seq<Timed>, start: int, replies: seq<Reply>, r: nat)
    requires Mirror(p) && t >= 0 && i < |p.keys| && j < |p.rows| && p.keys[i].id == p.rows[j].id
    requires status == 402 || QuotaSignal(status, body)
    requires forall n | 0 <= n < |ops| :: ops[n].at >= 0 && CoolsBy(ops[n].op, ops[n].at, p.rows[j].id, start - 1)
    requires var p' := Play(AfterResult(p, p.keys[i].id, status, body, t), ops);
      |replies| == |p'.rows| && r < |p'.rows| && p'.rows[r].id == p.rows[j].id
    requires start > NextBeijingMidnight(t) && exists n | 0 <= n < |replies| :: Decides(replies[n])
    ensures var p' := Play(AfterResult(p, p.keys[i].id, status, body, t), ops);
      var q := CheckAll(Progress(p', start), Ids(p'.rows), replies).pool;
      && r < |q.rows| == |q.keys| && q.rows[r].id == q.keys[r].id == p.rows[j].id
      && q.rows[r].status != Cooldown && q.keys[r].status != Cooldown
  {
    var id, cooled := p.rows[j].id, AfterResult(p, p.keys[i].id, status, body, t);
    QuotaCools(p, t, i, j, status, body);
    NextMidnightIsLeast(t, 0);
    MirrorAlways(cooled, ops);
    PlayKeepsEndsBy(cooled, ops, id, start - 1);
    RoundFrees(Play(cooled, ops), start, replies, r);
  }
}
