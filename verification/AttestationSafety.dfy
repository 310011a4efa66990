/** What every interleaving of the attestation cache keeps: mutual exclusion, provenance of tokens, freshness. */
module AttestationSafety {
  import opened AttestationMachine
  import opened Clock

  // ---------------------------------------------------------------- unconditional invariant

  /** Clock readings held by calls are never in the future. */
  ghost predicate ReadingOk(p: Phase, now: int) {
    && (p.Clocked? ==> p.t <= now)
    && (p.Failing? ==> ZERO_TIME < p.t <= now)
    && (p.Putting? ==> p.t <= now)
  }

  ghost predicate EntryOk(e: Entry) {
    e.notIssued ==> e.token == ""
  }

  ghost predicate PhaseEntryOk(p: Phase) {
    match p
    case Ready(_, prior) => EntryOk(prior)
    case Probing(_, prior) => EntryOk(prior)
    case Failing(_, prior, _) => EntryOk(prior)
    case Storing(_, e) => EntryOk(e)
    case Putting(_, e, _) => EntryOk(e)
    case _ => true
  }

  ghost predicate LockOk(s: State, c: Call) {
    c.phase.HasLock() ==>
      && c.phase.lock < s.nextLock
      && forall k | k in s.locks :: s.locks[k] == c.phase.lock ==> k == c.key
  }

  ghost predicate CallOk(s: State, c: Call) {
    ReadingOk(c.phase, s.now) && PhaseEntryOk(c.phase) && LockOk(s, c)
  }

  ghost predicate Exclusive(s: State) {
    forall i, j | i in s.calls && j in s.calls && s.calls[i].phase.Holds() && s.calls[j].phase.Holds() ::
      s.calls[i].phase.lock == s.calls[j].phase.lock ==> i == j
  }

  ghost predicate TableOk(s: State) {
    && (forall k | k in s.locks :: s.locks[k] < s.nextLock)
    && (forall j, k | j in s.locks && k in s.locks :: s.locks[j] == s.locks[k] ==> j == k)
  }

  ghost predicate Sound(s: State) {
    && s.now > ZERO_TIME
    && TableOk(s)
    && (forall k | k in s.cache :: EntryOk(s.cache[k]))
    && (forall id | id in s.calls :: CallOk(s, s.calls[id]))
    && Exclusive(s)
  }

  lemma StepGoesForward(s: State, a: Action)
    requires Enabled(s, a)
    ensures Next(s, a).now >= s.now && Next(s, a).nextLock >= s.nextLock
  {
  }

  /** The table gains at most one lock, and a new one. */
  lemma StepGrowsTable(s: State, a: Action, k: Key)
    requires Enabled(s, a) && k in Next(s, a).locks
    ensures if k in s.locks then Next(s, a).locks[k] == s.locks[k]
            else a.Advance? && s.calls[a.id] == Call(k, WantLock) && Next(s, a).locks[k] == s.nextLock
                 && Next(s, a).nextLock == s.nextLock + 1
  {
  }

  lemma StepKeepsTable(s: State, a: Action)
    requires Sound(s) && Enabled(s, a)
    ensures TableOk(Next(s, a))
  {
    var s' := Next(s, a);
    StepGoesForward(s, a);
    forall k | k in s'.locks
      ensures s'.locks[k] < s'.nextLock
    {
      StepGrowsTable(s, a, k);
    }
    forall j, k | j in s'.locks && k in s'.locks && s'.locks[j] == s'.locks[k]
      ensures j == k
    {
      StepGrowsTable(s, a, j);
      StepGrowsTable(s, a, k);
    }
  }

  lemma StepKeepsEntries(s: State, a: Action)
    requires Sound(s) && Enabled(s, a)
    ensures forall k | k in Next(s, a).cache :: EntryOk(Next(s, a).cache[k])
  {
    if a.Advance? {
      assert CallOk(s, s.calls[a.id]);
    }
  }

  lemma StepKeepsOthers(s: State, a: Action, id: CallId)
    requires Sound(s) && Enabled(s, a) && id in s.calls && a != Advance(id) && !(a.Respond? && a.id == id)
    ensures id in Next(s, a).calls && Next(s, a).calls[id] == s.calls[id] && CallOk(Next(s, a), s.calls[id])
  {
    var c := s.calls[id];
    assert CallOk(s, c);
    var s' := Next(s, a);
    forall k | k in s'.locks && c.phase.HasLock() && s'.locks[k] == c.phase.lock
      ensures k == c.key
    {
      StepGrowsTable(s, a, k);
    }
  }

  lemma StepKeepsMover(s: State, id: CallId)
    requires Sound(s) && Enabled(s, Advance(id))
    ensures CallOk(Step(s, id), Step(s, id).calls[id])
  {
    assert CallOk(s, s.calls[id]);
    var s' := Step(s, id);
    forall k | k in s'.locks && s'.calls[id].phase.HasLock() && s'.locks[k] == s'.calls[id].phase.lock
      ensures k == s.calls[id].key
    {
      StepGrowsTable(s, Advance(id), k);
    }
  }

  lemma StepKeepsCalls(s: State, a: Action)
    requires Sound(s) && Enabled(s, a)
    ensures forall id | id in Next(s, a).calls :: CallOk(Next(s, a), Next(s, a).calls[id])
  {
    var s' := Next(s, a);
    forall id | id in s'.calls
      ensures CallOk(s', s'.calls[id])
    {
      if a == Advance(id) {
        StepKeepsMover(s, id);
      } else if a.Respond? && a.id == id {
        assert CallOk(s, s.calls[id]);
      } else if id in s.calls {
        StepKeepsOthers(s, a, id);
      }
    }
  }

  /** Who holds a lock held it before, or has just taken it while it was free. */
  lemma HeldBefore(s: State, a: Action, id: CallId)
    requires Enabled(s, a) && id in Next(s, a).calls && Next(s, a).calls[id].phase.Holds()
    ensures id in s.calls && s.calls[id].phase.HasLock() && s.calls[id].phase.lock == Next(s, a).calls[id].phase.lock
    ensures !s.calls[id].phase.Holds() ==> a == Advance(id) && Free(s, s.calls[id].phase.lock)
  {
  }

  lemma StepKeepsExclusive(s: State, a: Action)
    requires Sound(s) && Enabled(s, a)
    ensures Exclusive(Next(s, a))
  {
    var s' := Next(s, a);
    forall i, j | i in s'.calls && j in s'.calls && s'.calls[i].phase.Holds() && s'.calls[j].phase.Holds()
                  && s'.calls[i].phase.lock == s'.calls[j].phase.lock
      ensures i == j
    {
      HeldBefore(s, a, i);
      HeldBefore(s, a, j);
    }
  }

  lemma StepKeepsSound(s: State, a: Action)
    requires Sound(s) && Enabled(s, a)
    ensures Sound(Next(s, a))
  {
    StepGoesForward(s, a);
    StepKeepsTable(s, a);
    StepKeepsEntries(s, a);
    StepKeepsCalls(s, a);
    StepKeepsExclusive(s, a);
  }

  lemma SoundOn(r: Run, i: nat)
    requires ValidRun(r) && i < |r.acts| && Sound(r.states[i])
    ensures Sound(r.states[i + 1])
  {
    StepKeepsSound(r.states[i], r.acts[i]);
  }

  lemma {:induction false} SoundAlways(r: Run, i: nat)
    requires ValidRun(r) && i < |r.states| && Sound(r.states[0])
    ensures Sound(r.states[i])
  {
    if i > 0 {
      SoundAlways(r, i - 1);
      SoundOn(r, i - 1);
    }
  }

  // ---------------------------------------------------------------- one lock for a key

  /** This call uses the lock the table holds for its key. */
  ghost predicate OnTableLock(s: State, id: CallId)
    requires id in s.calls && s.calls[id].phase.HasLock()
  {
    s.calls[id].key in s.locks && s.calls[id].phase.lock == s.locks[s.calls[id].key]
  }

  lemma TableKeepsLock(s: State, a: Action, k: Key)
    requires Enabled(s, a) && k in s.locks && !Sweeps(s, a, k)
    ensures k in Next(s, a).locks && Next(s, a).locks[k] == s.locks[k]
  {
  }

  /** A call gets its lock from the table and keeps it until it is done. */
  lemma MoverKeepsLock(s: State, a: Action, id: CallId)
    requires Enabled(s, a) && (a == Advance(id) || (a.Respond? && a.id == id))
    requires Next(s, a).calls[id].phase.HasLock()
    ensures Next(s, a).calls[id].key == s.calls[id].key
    ensures if s.calls[id].phase.WantLock? then OnTableLock(Next(s, a), id)
            else s.calls[id].phase.HasLock() && Next(s, a).calls[id].phase.lock == s.calls[id].phase.lock
  {
  }

  lemma MoverStaysBusy(s: State, a: Action, id: CallId)
    requires Enabled(s, a) && (a == Advance(id) || (a.Respond? && a.id == id)) && !s.calls[id].phase.WantLock?
    requires Next(s, a).calls[id].phase.Busy()
    ensures s.calls[id].phase.Busy() && (Next(s, a).calls[id].phase.Seeks() ==> s.calls[id].phase.Seeks())
    ensures a.Advance? ==> !s.calls[id].phase.Putting?
  {
  }

  /** A call that is on the table's lock stays on it, unless the step sweeps that lock away. */
  lemma StaysOnTableLock(s: State, a: Action, id: CallId)
    requires Sound(s) && Enabled(s, a) && id in Next(s, a).calls && Next(s, a).calls[id].phase.Busy()
    requires id in s.calls && (s.calls[id].phase.Busy() ==> OnTableLock(s, id) && !Sweeps(s, a, s.calls[id].key))
    ensures Next(s, a).calls[id].key == s.calls[id].key && OnTableLock(Next(s, a), id)
  {
    if a == Advance(id) || (a.Respond? && a.id == id) {
      MoverKeepsLock(s, a, id);
      if !s.calls[id].phase.WantLock? {
        MoverStaysBusy(s, a, id);
        TableKeepsLock(s, a, s.calls[id].key);
      }
    } else {
      StepKeepsOthers(s, a, id);
      TableKeepsLock(s, a, s.calls[id].key);
    }
  }

  /** A call still busy after the step is not the one that swept. */
  lemma SweeperIsDone(s: State, a: Action, id: CallId)
    requires Enabled(s, a) && id in s.calls && id in Next(s, a).calls && Next(s, a).calls[id].phase.Busy()
    ensures Next(s, a).calls[id].key == s.calls[id].key
    ensures Sweeps(s, a, s.calls[id].key) ==> a.id != id && Next(s, a).calls[id] == s.calls[id]
  {
  }

  /** Everyone busy with `k` uses the lock the table holds for `k`. */
  ghost predicate OneLock(s: State, k: Key) {
    forall id | id in s.calls && s.calls[id].key == k && s.calls[id].phase.Busy() :: OnTableLock(s, id)
  }

  lemma NewcomerIsNotBusy(s: State, a: Action, id: CallId)
    requires Enabled(s, a) && id in Next(s, a).calls && id !in s.calls
    ensures !Next(s, a).calls[id].phase.Busy()
  {
  }

  lemma StepKeepsOneLock(s: State, a: Action, k: Key)
    requires Sound(s) && OneLock(s, k) && Enabled(s, a) && !OrphansLock(s, a, k)
    ensures OneLock(Next(s, a), k)
  {
    var s' := Next(s, a);
    forall id | id in s'.calls && s'.calls[id].key == k && s'.calls[id].phase.Busy()
      ensures OnTableLock(s', id)
    {
      if id !in s.calls {
        NewcomerIsNotBusy(s, a, id);
      } else {
        SweeperIsDone(s, a, id);
        StaysOnTableLock(s, a, id);
      }
    }
  }

  lemma OneLockOn(r: Run, k: Key, i: nat)
    requires ValidRun(r) && i < |r.acts| && !OrphansLock(r.states[i], r.acts[i], k)
    requires Sound(r.states[i]) && OneLock(r.states[i], k)
    ensures OneLock(r.states[i + 1], k)
  {
    StepKeepsOneLock(r.states[i], r.acts[i], k);
  }

  lemma {:induction false} OneLockAlways(r: Run, k: Key, i: nat)
    requires ValidRun(r) && i < |r.states| && Sound(r.states[0]) && OneLock(r.states[0], k)
    requires forall j {:trigger r.acts[j]} | 0 <= j < i :: !OrphansLock(r.states[j], r.acts[j], k)
    ensures Sound(r.states[i]) && OneLock(r.states[i], k)
  {
    SoundAlways(r, i);
    if i > 0 {
      OneLockAlways(r, k, i - 1);
      OneLockOn(r, k, i - 1);
    }
  }

  // ---------------------------------------------------------------- single flight

  /** Everyone who may still probe for `k`, or is probing, uses the lock the table holds for `k`. */
  ghost predicate SeekersTogether(s: State, k: Key) {
    forall id | id in s.calls && s.calls[id].key == k && s.calls[id].phase.Seeks() :: OnTableLock(s, id)
  }

  lemma StepKeepsSeekersTogether(s: State, a: Action, k: Key)
    requires Sound(s) && SeekersTogether(s, k) && Enabled(s, a) && !OrphansProber(s, a, k)
    ensures SeekersTogether(Next(s, a), k)
  {
    var s' := Next(s, a);
    forall id | id in s'.calls && s'.calls[id].key == k && s'.calls[id].phase.Seeks()
      ensures OnTableLock(s', id)
    {
      if id !in s.calls {
        NewcomerIsNotBusy(s, a, id);
      } else {
        SweeperIsDone(s, a, id);
        SeekersSeekBefore(s, a, id);
        StaysOnTableLock(s, a, id);
      }
    }
  }

  lemma SeekersSeekBefore(s: State, a: Action, id: CallId)
    requires Enabled(s, a) && id in s.calls && id in Next(s, a).calls && Next(s, a).calls[id].phase.Seeks()
    ensures s.calls[id].phase.Busy() ==> s.calls[id].phase.Seeks()
  {
  }

  lemma SeekersTogetherOn(r: Run, k: Key, i: nat)
    requires ValidRun(r) && i < |r.acts| && !OrphansProber(r.states[i], r.acts[i], k)
    requires Sound(r.states[i]) && SeekersTogether(r.states[i], k)
    ensures SeekersTogether(r.states[i + 1], k)
  {
    StepKeepsSeekersTogether(r.states[i], r.acts[i], k);
  }

  lemma {:induction false} SeekersTogetherAlways(r: Run, k: Key, i: nat)
    requires ValidRun(r) && i < |r.states| && Init(r.states[0])
    requires forall j {:trigger r.acts[j]} | 0 <= j < i :: !OrphansProber(r.states[j], r.acts[j], k)
    ensures Sound(r.states[i]) && SeekersTogether(r.states[i], k)
  {
    SoundAlways(r, i);
    if i > 0 {
      SeekersTogetherAlways(r, k, i - 1);
      SeekersTogetherOn(r, k, i - 1);
    }
  }

  /** At most one probe per device token, unless a sweep took the lock away from another call that may still probe
      or is probing. Every such sweep has a continuation with two: `AttestationLimits.OrphaningBreaksSingleFlight`. */
  lemma SingleFlight(r: Run, k: Key, i: nat, a: CallId, b: CallId)
    requires ValidRun(r) && Init(r.states[0]) && i < |r.states|
    requires forall j {:trigger r.acts[j]} | 0 <= j < i :: !OrphansProber(r.states[j], r.acts[j], k)
    requires a in r.states[i].calls && r.states[i].calls[a].key == k && r.states[i].calls[a].phase.Probing?
    requires b in r.states[i].calls && r.states[i].calls[b].key == k && r.states[i].calls[b].phase.Probing?
    ensures a == b
  {
    SeekersTogetherAlways(r, k, i);
    OneProber(r.states[i], k, a, b);
  }

  lemma OneProber(s: State, k: Key, a: CallId, b: CallId)
    requires Sound(s) && SeekersTogether(s, k)
    requires a in s.calls && s.calls[a].key == k && s.calls[a].phase.Probing?
    requires b in s.calls && s.calls[b].key == k && s.calls[b].phase.Probing?
    ensures a == b
  {
    assert s.calls[a].phase.Seeks() && s.calls[b].phase.Seeks();
    assert s.calls[a].phase.Holds() && s.calls[b].phase.Holds();
  }

  // ---------------------------------------------------------------- a fresh token is shared

  ghost predicate Over(s: State, id: CallId) {
    id in s.calls && (s.calls[id].phase.Releasing? || s.calls[id].phase.Done?)
  }

  /** Not past the second lookup, or answered with `token`. */
  ghost predicate Agrees(p: Phase, token: string) {
    match p
    case Start => true
    case WantLock => true
    case Waiting(_) => true
    case Locked(_) => true
    case Releasing(_, result) => result == token
    case Done(result) => result == token
    case _ => false
  }

  /** `e` is cached for `k`, nobody is past the second lookup, and whoever has an answer has `e.token`.
      Calls in `past` were over before. */
  ghost predicate Settled(s: State, k: Key, e: Entry, past: set<CallId>) {
    && k in s.cache && s.cache[k] == e && past <= s.calls.Keys
    && forall id | id in s.calls && s.calls[id].key == k ::
      if id in past then Over(s, id) else Agrees(s.calls[id].phase, e.token)
  }

  /** A step that is not by the call itself leaves it alone. */
  lemma StepLeavesOthers(s: State, a: Action, id: CallId)
    requires Enabled(s, a) && id in Next(s, a).calls && a != Advance(id) && !(a.Respond? && a.id == id)
    ensures if id in s.calls then Next(s, a).calls[id] == s.calls[id]
            else (a.Enter? && Next(s, a).calls[id].key == a.key && Next(s, a).calls[id].phase.Carried() == ""
                  && (a.key != "" ==> Next(s, a).calls[id].phase.Start?))
  {
  }

  lemma StepKeepsKey(s: State, a: Action, id: CallId)
    requires Enabled(s, a) && id in s.calls
    ensures id in Next(s, a).calls && Next(s, a).calls[id].key == s.calls[id].key
  {
  }

  /** A call never disappears, never changes its key, and once over stays over. */
  lemma StepKeepsCall(s: State, a: Action, id: CallId)
    requires Enabled(s, a) && id in s.calls
    ensures id in Next(s, a).calls && Next(s, a).calls[id].key == s.calls[id].key
    ensures Over(s, id) ==> Over(Next(s, a), id)
  {
    StepKeepsKey(s, a, id);
  }

  lemma AdvanceKeepsAgrees(s: State, id: CallId, e: Entry)
    requires Enabled(s, Advance(id)) && Agrees(s.calls[id].phase, e.token)
    requires Hit(s.cache, s.calls[id].key, s.now) && s.cache[s.calls[id].key] == e
    ensures Agrees(Step(s, id).calls[id].phase, e.token)
  {
  }

  /** Only calls past the second lookup write an entry, and only expired entries are swept. */
  lemma LiveEntryStays(s: State, a: Action, k: Key)
    requires Enabled(s, a) && k in s.cache && a != Invalidate(k)
    requires a.Advance? ==> ReadingOk(s.calls[a.id].phase, s.now)
    requires a.Advance? && s.calls[a.id].key == k ==> !s.calls[a.id].phase.Failing? && !s.calls[a.id].phase.Putting?
    requires s.now <= s.cache[k].expires
    ensures k in Next(s, a).cache && Next(s, a).cache[k] == s.cache[k]
  {
  }

  lemma StepKeepsSettled(s: State, a: Action, k: Key, e: Entry, past: set<CallId>)
    requires Sound(s) && Enabled(s, a) && Settled(s, k, e, past) && k != ""
    requires Usable(e, s.now) && a != Invalidate(k)
    ensures Settled(Next(s, a), k, e, past)
  {
    var s' := Next(s, a);
    if a.Advance? {
      assert CallOk(s, s.calls[a.id]);
    }
    LiveEntryStays(s, a, k);
    forall id | id in past
      ensures id in s'.calls
    {
      StepKeepsCall(s, a, id);
    }
    forall id | id in s'.calls && s'.calls[id].key == k
      ensures if id in past then Over(s', id) else Agrees(s'.calls[id].phase, e.token)
    {
      if id in s.calls {
        StepKeepsCall(s, a, id);
      }
      if id !in past {
        if a == Advance(id) {
          AdvanceKeepsAgrees(s, id, e);
        } else {
          StepLeavesOthers(s, a, id);
        }
      }
    }
  }

  lemma {:induction false} NowGrows(r: Run, i: nat, j: nat)
    requires ValidRun(r) && i <= j < |r.states|
    ensures r.states[i].now <= r.states[j].now
  {
    if i < j {
      NowGrows(r, i, j - 1);
      assert r.states[j] == Next(r.states[j - 1], r.acts[j - 1]);
    }
  }

  lemma UsableBefore(r: Run, i: nat, e: Entry)
    requires ValidRun(r) && 0 < i < |r.states| && Usable(e, r.states[i].now)
    ensures Usable(e, r.states[i - 1].now)
  {
    NowGrows(r, i - 1, i);
  }

  /** The calls on `k` that are over before step `m`. */
  ghost function OverCalls(s: State, k: Key): set<CallId> {
    set id | id in s.calls && s.calls[id].key == k && Over(s, id)
  }

  lemma PutSettles(s: State, p: CallId, k: Key)
    requires Sound(s) && OneLock(s, k)
    requires p in s.calls && s.calls[p].key == k && s.calls[p].phase.Putting?
    requires Usable(s.calls[p].phase.entry, s.now)
    ensures Settled(Step(s, p), k, s.calls[p].phase.entry, OverCalls(s, k))
  {
    assert CallOk(s, s.calls[p]);
    var s' := Step(s, p);
    forall id | id in s'.calls && s'.calls[id].key == k && id != p && s.calls[id].phase.Busy()
      ensures s.calls[id].phase.Waiting?
    {
      assert s.calls[p].phase.Holds() && s.calls[p].phase.Busy();
    }
  }

  ghost predicate SettledState(s: State, k: Key, e: Entry, past: set<CallId>) {
    Sound(s) && Settled(s, k, e, past)
  }

  /** No step from `m` to `i` invalidates `k`. */
  ghost predicate Uninvalidated(r: Run, m: nat, i: nat, k: Key)
    requires ValidRun(r) && m <= i < |r.states|
  {
    forall j {:trigger r.acts[j]} | m <= j < i :: r.acts[j] != Invalidate(k)
  }

  lemma UninvalidatedBefore(r: Run, m: nat, i: nat, k: Key)
    requires ValidRun(r) && m < i < |r.states| && Uninvalidated(r, m, i, k)
    ensures Uninvalidated(r, m, i - 1, k)
  {
  }

  lemma SettledOn(r: Run, m: nat, i: nat, k: Key, e: Entry, past: set<CallId>)
    requires ValidRun(r) && m < i < |r.states| && k != "" && Uninvalidated(r, m, i, k)
    requires SettledState(r.states[i - 1], k, e, past) && Usable(e, r.states[i - 1].now)
    ensures SettledState(r.states[i], k, e, past)
  {
    StepKeepsSound(r.states[i - 1], r.acts[i - 1]);
    StepKeepsSettled(r.states[i - 1], r.acts[i - 1], k, e, past);
  }

  lemma {:induction false} SettledFrom(r: Run, m: nat, i: nat, k: Key, e: Entry, past: set<CallId>)
    requires ValidRun(r) && m <= i < |r.states| && k != "" && Uninvalidated(r, m, i, k)
    requires SettledState(r.states[m], k, e, past) && Usable(e, r.states[i].now)
    ensures SettledState(r.states[i], k, e, past)
  {
    if m < i {
      UsableBefore(r, i, e);
      UninvalidatedBefore(r, m, i, k);
      SettledFrom(r, m, i - 1, k, e, past);
      SettledOn(r, m, i, k, e, past);
    }
  }

  lemma PutSettlesOn(r: Run, m: nat, p: CallId, k: Key)
    requires ValidRun(r) && m < |r.acts| && Sound(r.states[m]) && OneLock(r.states[m], k)
    requires r.acts[m] == Advance(p) && r.states[m].calls[p].key == k && r.states[m].calls[p].phase.Putting?
    requires Usable(r.states[m].calls[p].phase.entry, r.states[m].now)
    ensures Settled(r.states[m + 1], k, r.states[m].calls[p].phase.entry, OverCalls(r.states[m], k))
  {
    PutSettles(r.states[m], p, k);
    assert r.states[m + 1] == Step(r.states[m], p);
  }

  /** Once a probe's outcome is stored, a token or "not issued", and as long as it is usable and not invalidated, no
      call on that key probes, and every call not yet over (waiting ones and later ones) answers with it. */
  lemma FreshTokenShared(r: Run, m: nat, i: nat, p: CallId, k: Key, id: CallId)
    requires ValidRun(r) && Init(r.states[0]) && m < i < |r.states| && k != ""
    requires forall j {:trigger r.acts[j]} | 0 <= j < m :: !OrphansLock(r.states[j], r.acts[j], k)
    requires r.acts[m] == Advance(p) && r.states[m].calls[p].key == k && r.states[m].calls[p].phase.Putting?
    requires Usable(r.states[m].calls[p].phase.entry, r.states[i].now)
    requires forall j | m < j < i :: r.acts[j] != Invalidate(k)
    requires id in r.states[i].calls && r.states[i].calls[id].key == k
    ensures !r.states[i].calls[id].phase.Ready? && !r.states[i].calls[id].phase.Probing?
    ensures !Over(r.states[m], id) && r.states[i].calls[id].phase.Done? ==>
      r.states[i].calls[id].phase.result == r.states[m].calls[p].phase.entry.token
  {
    OneLockAlways(r, k, m);
    NowGrows(r, m, i);
    PutSettlesOn(r, m, p, k);
    SoundAlways(r, m + 1);
    assert Uninvalidated(r, m + 1, i, k);
    SettledFrom(r, m + 1, i, k, r.states[m].calls[p].phase.entry, OverCalls(r.states[m], k));
    SameKey(r, m, i, id);
  }

  lemma {:induction false} SameKey(r: Run, m: nat, i: nat, id: CallId)
    requires ValidRun(r) && m <= i < |r.states|
    ensures id in r.states[m].calls ==>
      id in r.states[i].calls && r.states[i].calls[id].key == r.states[m].calls[id].key
  {
    if m < i {
      SameKey(r, m, i - 1, id);
      if id in r.states[m].calls {
        StepKeepsCall(r.states[i - 1], r.acts[i - 1], id);
      }
    }
  }

  // ---------------------------------------------------------------- provenance

  /** Some probe for `k` that ended at log position `n` or later issued `token`. */
  ghost predicate IssuedSince(log: seq<Event>, n: nat, k: Key, token: string) {
    exists i | n <= i < |log| ::
      log[i].ProbeEnd? && log[i].key == k && log[i].answer.Reply? && log[i].answer.token == token
  }

  ghost predicate TokenOk(log: seq<Event>, n: nat, k: Key, token: string) {
    token == "" || IssuedSince(log, n, k, token)
  }

  ghost predicate Provenance(s: State, k: Key, n: nat, past: set<CallId>) {
    && (k in s.cache ==> TokenOk(s.log, n, k, s.cache[k].token))
    && forall id | id in s.calls && s.calls[id].key == k ::
      if id in past then Over(s, id) else TokenOk(s.log, n, k, s.calls[id].phase.Carried())
  }

  lemma TokenOkGrows(log: seq<Event>, e: Event, n: nat, k: Key, token: string)
    requires TokenOk(log, n, k, token)
    ensures TokenOk(log + [e], n, k, token)
  {
    if token != "" {
      var i :| n <= i < |log| && log[i].ProbeEnd? && log[i].key == k
               && log[i].answer.Reply? && log[i].answer.token == token;
      assert (log + [e])[i] == log[i];
    }
  }

  /** A call takes its token from its own past or from the cache; an answer brings in a new one. */
  lemma StepMovesTokens(s: State, id: CallId)
    requires Enabled(s, Advance(id))
    ensures var c, c' := s.calls[id], Step(s, id).calls[id];
      && c'.key == c.key
      && (c'.phase.Carried() == "" || c'.phase.Carried() == c.phase.Carried()
          || c'.phase.Carried() == Lookup(s.cache, c.key).token)
      && (Over(s, id) ==> Over(Step(s, id), id))
      && (forall k | k in Step(s, id).cache ::
            || (k in s.cache && Step(s, id).cache[k].token == s.cache[k].token)
            || (k == c.key && Step(s, id).cache[k].token == c.phase.Carried()))
  {
  }

  lemma LogGrows(s: State, a: Action, k: Key, n: nat, token: string)
    requires Enabled(s, a) && TokenOk(s.log, n, k, token)
    ensures TokenOk(Next(s, a).log, n, k, token)
  {
    if Next(s, a).log != s.log {
      TokenOkGrows(s.log, Next(s, a).log[|s.log|], n, k, token);
    }
  }

  lemma AnswerCarriesIssued(s: State, id: CallId, answer: Answer, n: nat)
    requires Enabled(s, Respond(id, answer)) && n <= |s.log|
    requires TokenOk(s.log, n, s.calls[id].key, s.calls[id].phase.Carried())
    ensures var s' := Next(s, Respond(id, answer));
      s'.calls[id].key == s.calls[id].key && TokenOk(s'.log, n, s.calls[id].key, s'.calls[id].phase.Carried())
  {
    LogGrows(s, Respond(id, answer), s.calls[id].key, n, s.calls[id].phase.Carried());
    if answer.Reply? {
      assert Next(s, Respond(id, answer)).log[|s.log|] == ProbeEnd(s.calls[id].key, s.now, answer);
    }
  }

  lemma CacheKeepsProvenance(s: State, a: Action, k: Key, n: nat, past: set<CallId>)
    requires Enabled(s, a) && Provenance(s, k, n, past)
    ensures k in Next(s, a).cache ==> TokenOk(Next(s, a).log, n, k, Next(s, a).cache[k].token)
  {
    var s' := Next(s, a);
    if k in s.cache {
      LogGrows(s, a, k, n, s.cache[k].token);
    }
    if a.Advance? {
      StepMovesTokens(s, a.id);
      if s.calls[a.id].key == k && a.id !in past {
        LogGrows(s, a, k, n, s.calls[a.id].phase.Carried());
      }
    }
  }

  lemma CallKeepsProvenance(s: State, a: Action, k: Key, n: nat, past: set<CallId>, id: CallId)
    requires Enabled(s, a) && Provenance(s, k, n, past) && n <= |s.log| && past <= s.calls.Keys
    requires id in Next(s, a).calls && Next(s, a).calls[id].key == k
    ensures if id in past then Over(Next(s, a), id)
            else TokenOk(Next(s, a).log, n, k, Next(s, a).calls[id].phase.Carried())
  {
    if a == Advance(id) {
      StepMovesTokens(s, id);
      if id !in past {
        LogGrows(s, a, k, n, s.calls[id].phase.Carried());
        LogGrows(s, a, k, n, Lookup(s.cache, k).token);
      }
    } else if a.Respond? && a.id == id {
      assert !Over(s, id);
      AnswerCarriesIssued(s, id, a.answer, n);
    } else {
      StepLeavesOthers(s, a, id);
      if id in s.calls && id !in past {
        LogGrows(s, a, k, n, s.calls[id].phase.Carried());
      }
    }
  }

  lemma StepKeepsProvenance(s: State, a: Action, s': State, k: Key, n: nat, past: set<CallId>)
    requires Enabled(s, a) && s' == Next(s, a)
    requires Provenance(s, k, n, past) && n <= |s.log| && past <= s.calls.Keys
    ensures Provenance(s', k, n, past) && n <= |s'.log| && past <= s'.calls.Keys
  {
    CacheKeepsProvenance(s, a, k, n, past);
    forall id | id in Next(s, a).calls && Next(s, a).calls[id].key == k
      ensures if id in past then Over(Next(s, a), id)
              else TokenOk(Next(s, a).log, n, k, Next(s, a).calls[id].phase.Carried())
    {
      CallKeepsProvenance(s, a, k, n, past, id);
    }
  }

  lemma ProvenanceOn(r: Run, i: nat, k: Key, n: nat, past: set<CallId>)
    requires ValidRun(r) && i < |r.acts|
    requires Provenance(r.states[i], k, n, past) && n <= |r.states[i].log| && past <= r.states[i].calls.Keys
    ensures Provenance(r.states[i + 1], k, n, past) && n <= |r.states[i + 1].log| && past <= r.states[i + 1].calls.Keys
  {
    StepKeepsProvenance(r.states[i], r.acts[i], r.states[i + 1], k, n, past);
  }

  lemma {:induction false} ProvenanceFrom(r: Run, m: nat, i: nat, k: Key, n: nat, past: set<CallId>)
    requires ValidRun(r) && m <= i < |r.states|
    requires Provenance(r.states[m], k, n, past) && n <= |r.states[m].log| && past <= r.states[m].calls.Keys
    ensures Provenance(r.states[i], k, n, past) && n <= |r.states[i].log| && past <= r.states[i].calls.Keys
  {
    if m < i {
      ProvenanceFrom(r, m, i - 1, k, n, past);
      ProvenanceOn(r, i - 1, k, n, past);
    }
  }

  /** Whatever is returned or cached for a device token is empty or was issued by an earlier probe for it,
      and an entry marked "not issued" holds no token. */
  lemma TokenProvenance(r: Run, i: nat, k: Key)
    requires ValidRun(r) && Init(r.states[0]) && i < |r.states|
    ensures k in r.states[i].cache ==>
      && TokenOk(r.states[i].log, 0, k, r.states[i].cache[k].token)
      && (r.states[i].cache[k].notIssued ==> r.states[i].cache[k].token == "")
    ensures forall id | id in r.states[i].calls && r.states[i].calls[id].key == k
                        && r.states[i].calls[id].phase.Done? ::
      TokenOk(r.states[i].log, 0, k, r.states[i].calls[id].phase.result)
  {
    SoundAlways(r, i);
    ProvenanceFrom(r, 0, i, k, 0, {});
    forall id | id in r.states[i].calls && r.states[i].calls[id].key == k && r.states[i].calls[id].phase.Done?
      ensures TokenOk(r.states[i].log, 0, k, r.states[i].calls[id].phase.result)
    {
      assert TokenOk(r.states[i].log, 0, k, r.states[i].calls[id].phase.Carried());
    }
  }

  // ---------------------------------------------------------------- invalidation

  /** Some unfinished call on `k` still carries a token it may write back. */
  ghost predicate CarriesToken(s: State, k: Key) {
    exists id | id in s.calls :: s.calls[id].key == k && !Over(s, id) && s.calls[id].phase.Carried() != ""
  }

  /** If nobody carries a token when `k` is invalidated, then everything cached for `k` later, and everything
      returned by calls not over by then, is empty or was issued after the invalidation. */
  lemma InvalidateTakesEffect(r: Run, m: nat, i: nat, k: Key)
    requires ValidRun(r) && Init(r.states[0]) && m < i < |r.states| && k != ""
    requires r.acts[m] == Invalidate(k) && !CarriesToken(r.states[m], k)
    ensures k in r.states[i].cache ==> TokenOk(r.states[i].log, |r.states[m].log|, k, r.states[i].cache[k].token)
    ensures forall id | id in r.states[i].calls && r.states[i].calls[id].key == k
                        && r.states[i].calls[id].phase.Done? && !Over(r.states[m], id) ::
      TokenOk(r.states[i].log, |r.states[m].log|, k, r.states[i].calls[id].phase.result)
  {
    SoundAlways(r, m);
    var s, s' := r.states[m], r.states[m + 1];
    var n, past := |s.log|, OverCalls(s, k);
    assert s' == Next(s, Invalidate(k));
    forall id | id in s'.calls && s'.calls[id].key == k
      ensures if id in past then Over(s', id) else TokenOk(s'.log, n, k, s'.calls[id].phase.Carried())
    {
      assert s'.calls[id] == s.calls[id];
    }
    StepKeepsSound(s, r.acts[m]);
    ProvenanceFrom(r, m + 1, i, k, n, past);
    forall id | id in r.states[i].calls && r.states[i].calls[id].key == k
                && r.states[i].calls[id].phase.Done? && !Over(s, id)
      ensures TokenOk(r.states[i].log, n, k, r.states[i].calls[id].phase.result)
    {
      SameKey(r, m, i, id);
      assert id !in past;
      assert TokenOk(r.states[i].log, n, k, r.states[i].calls[id].phase.Carried());
    }
  }
}
