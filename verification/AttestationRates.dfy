/** How often one device token is probed while its entry stays in the cache and no probe obtains a token. */
module AttestationRates {
  import opened AttestationMachine
  import opened AttestationSafety
  import opened Clock

  // ---------------------------------------------------------------- the entry a probe started from

  /** A call about to probe, or probing, still has the cached entry in hand. */
  ghost predicate Held(s: State, k: Key) {
    forall id | id in s.calls && s.calls[id].key == k && (s.calls[id].phase.Ready? || s.calls[id].phase.Probing?) ::
      s.calls[id].phase.prior == Lookup(s.cache, k)
  }

  lemma StepKeepsHeld(s: State, a: Action, k: Key)
    requires Sound(s) && OneLock(s, k) && Held(s, k) && Enabled(s, a) && !Drops(s, a, k) && k != ""
    ensures Held(Next(s, a), k)
  {
    var s' := Next(s, a);
    forall id | id in s'.calls && s'.calls[id].key == k && (s'.calls[id].phase.Ready? || s'.calls[id].phase.Probing?)
      ensures s'.calls[id].phase.prior == Lookup(s'.cache, k)
    {
      EntryAfter(s, a, k);
      if a == Advance(id) {
        AdvanceHolds(s, id);
      } else if !(a.Respond? && a.id == id) {
        StepLeavesOthers(s, a, id);
        if a.Advance? && s.calls[a.id].key == k {
          OthersWait(s, k, id, a.id);
        }
      }
    }
  }

  lemma AdvanceHolds(s: State, id: CallId)
    requires Enabled(s, Advance(id)) && (Step(s, id).calls[id].phase.Ready? || Step(s, id).calls[id].phase.Probing?)
    requires s.calls[id].phase.Ready? ==> s.calls[id].phase.prior == Lookup(s.cache, s.calls[id].key)
    ensures Step(s, id).calls[id].phase.prior == Lookup(s.cache, s.calls[id].key) && Step(s, id).cache == s.cache
  {
  }

  ghost predicate HeldState(s: State, k: Key) {
    Sound(s) && OneLock(s, k) && Held(s, k)
  }

  /** No step from `m` to `i` drops the entry of `k`. */
  ghost predicate Undropped(r: Run, m: nat, i: nat, k: Key)
    requires ValidRun(r) && m <= i < |r.states|
  {
    forall j {:trigger r.acts[j]} | m <= j < i :: !Drops(r.states[j], r.acts[j], k)
  }

  lemma HeldOn(r: Run, m: nat, i: nat, k: Key)
    requires ValidRun(r) && m < i < |r.states| && k != "" && Undropped(r, m, i, k) && HeldState(r.states[i - 1], k)
    ensures HeldState(r.states[i], k)
  {
    var s, a := r.states[i - 1], r.acts[i - 1];
    StepKeepsSound(s, a);
    StepKeepsOneLock(s, a, k);
    StepKeepsHeld(s, a, k);
  }

  lemma UndroppedBefore(r: Run, m: nat, i: nat, k: Key)
    requires ValidRun(r) && m < i < |r.states| && Undropped(r, m, i, k)
    ensures Undropped(r, m, i - 1, k)
  {
  }

  lemma {:induction false} HeldFrom(r: Run, m: nat, i: nat, k: Key)
    requires ValidRun(r) && m <= i < |r.states| && k != "" && Undropped(r, m, i, k) && HeldState(r.states[m], k)
    ensures HeldState(r.states[i], k)
  {
    if m < i {
      UndroppedBefore(r, m, i, k);
      HeldFrom(r, m, i - 1, k);
      HeldOn(r, m, i, k);
    }
  }

  /** From the failed answer on, the call carries the token it had before the probe. */
  lemma {:induction false} FailureKeepsToken(r: Run, m: nat, i: nat, id: CallId)
    requires ValidRun(r) && m < i < |r.states| && r.acts[m] == Respond(id, Failure)
    ensures id in r.states[i].calls
    ensures r.states[i].calls[id].phase.Failing? || Over(r.states[i], id)
    ensures r.states[i].calls[id].phase.Carried() == r.states[m].calls[id].phase.prior.token
  {
    if m + 1 < i {
      FailureKeepsToken(r, m, i - 1, id);
      FailureStepKeepsToken(r.states[i - 1], r.acts[i - 1], id);
    }
  }

  lemma FailureStepKeepsToken(s: State, a: Action, id: CallId)
    requires Enabled(s, a) && id in s.calls && (s.calls[id].phase.Failing? || Over(s, id))
    ensures id in Next(s, a).calls && (Next(s, a).calls[id].phase.Failing? || Over(Next(s, a), id))
    ensures Next(s, a).calls[id].phase.Carried() == s.calls[id].phase.Carried()
  {
    StepKeepsCall(s, a, id);
    if a != Advance(id) {
      StepLeavesOthers(s, a, id);
    }
  }

  /** Past the cooldown check, and with this entry in hand. */
  ghost predicate InHand(s: State, id: CallId, e: Entry) {
    id in s.calls && (s.calls[id].phase.Ready? || s.calls[id].phase.Probing?) && s.calls[id].phase.prior == e
  }

  lemma StepKeepsInHand(s: State, a: Action, id: CallId, e: Entry)
    requires Enabled(s, a) && InHand(s, id, e) && !(a.Respond? && a.id == id)
    ensures InHand(Next(s, a), id, e) && Next(s, a).calls[id].key == s.calls[id].key
  {
    StepKeepsCall(s, a, id);
    if a != Advance(id) {
      StepLeavesOthers(s, a, id);
    }
  }

  /** Until its probe is answered, a call keeps the entry it has in hand. */
  lemma {:induction false} InHandUntilAnswer(r: Run, j: nat, m: nat, id: CallId, e: Entry)
    requires ValidRun(r) && j <= m < |r.states| && InHand(r.states[j], id, e)
    requires forall x | j <= x < m :: !(r.acts[x].Respond? && r.acts[x].id == id)
    ensures InHand(r.states[m], id, e) && r.states[m].calls[id].key == r.states[j].calls[id].key
  {
    if j < m {
      InHandUntilAnswer(r, j, m - 1, id, e);
      StepKeepsInHand(r.states[m - 1], r.acts[m - 1], id, e);
    }
  }

  /** At step `j` the call reads its entry and finds it outside the cooldown. */
  ghost predicate ReadsAt(r: Run, j: nat, id: CallId)
    requires ValidRun(r)
  {
    && j < |r.acts| && r.acts[j] == Advance(id)
    && r.states[j].calls[id].phase.Clocked? && r.states[j + 1].calls[id].phase.Ready?
  }

  lemma ReadIsInHand(r: Run, j: nat, id: CallId)
    requires ValidRun(r) && ReadsAt(r, j, id)
    ensures var k := r.states[j].calls[id].key;
      && r.states[j + 1].calls[id].key == k && r.states[j + 1].cache == r.states[j].cache
      && InHand(r.states[j + 1], id, Lookup(r.states[j].cache, k))
  {
    assert r.states[j + 1] == Next(r.states[j], r.acts[j]);
  }

  /** In every run, a call whose probe fails returns the token it read before the probe, whatever happened since. */
  lemma FailedProbeReturnsTokenRead(r: Run, j: nat, m: nat, i: nat, id: CallId)
    requires ValidRun(r) && j < m < i < |r.states| && ReadsAt(r, j, id)
    requires forall x | j < x < m :: !(r.acts[x].Respond? && r.acts[x].id == id)
    requires r.acts[m] == Respond(id, Failure)
    requires id in r.states[i].calls && r.states[i].calls[id].phase.Done?
    ensures r.states[i].calls[id].phase.result == Lookup(r.states[j].cache, r.states[j].calls[id].key).token
  {
    ReadIsInHand(r, j, id);
    InHandUntilAnswer(r, j + 1, m, id, Lookup(r.states[j].cache, r.states[j].calls[id].key));
    FailureKeepsToken(r, m, i, id);
  }

  /** Whoever has just read the entry of `k` is the only one at work on `k`. */
  lemma HeldAtRead(s: State, k: Key, id: CallId)
    requires Sound(s) && OneLock(s, k) && id in s.calls && s.calls[id].key == k
    requires InHand(s, id, Lookup(s.cache, k))
    ensures Held(s, k)
  {
    forall x | x in s.calls && s.calls[x].key == k && (s.calls[x].phase.Ready? || s.calls[x].phase.Probing?)
      ensures s.calls[x].phase.prior == Lookup(s.cache, k)
    {
      if x != id {
        OthersWait(s, k, id, x);
      }
    }
  }

  /** That is the token cached when the probe starts, at step `n`, if the entry is not dropped between the read and
      the start, and nobody's lock was swept away before. */
  lemma FailedProbeReturnsHeldToken(r: Run, k: Key, j: nat, n: nat, m: nat, i: nat, id: CallId)
    requires ValidRun(r) && Init(r.states[0]) && j < n < m < i < |r.states| && k != ""
    requires ReadsAt(r, j, id) && r.states[j].calls[id].key == k
    requires r.acts[n] == Advance(id) && r.states[n].calls[id].phase.Ready?
    requires forall x | j < x < m :: !(r.acts[x].Respond? && r.acts[x].id == id)
    requires r.acts[m] == Respond(id, Failure)
    requires forall x {:trigger r.acts[x]} | 0 <= x <= j :: !OrphansLock(r.states[x], r.acts[x], k)
    requires forall x {:trigger r.acts[x]} | j < x < n :: !Drops(r.states[x], r.acts[x], k)
    requires id in r.states[i].calls && r.states[i].calls[id].phase.Done?
    ensures r.states[i].calls[id].phase.result == Lookup(r.states[n].cache, k).token
  {
    var e := Lookup(r.states[j].cache, k);
    FailedProbeReturnsTokenRead(r, j, m, i, id);
    ReadIsInHand(r, j, id);
    OneLockAlways(r, k, j + 1);
    HeldAtRead(r.states[j + 1], k, id);
    HeldFrom(r, j + 1, n, k);
    InHandUntilAnswer(r, j + 1, n, id, e);
  }

  // ---------------------------------------------------------------- when the next probe may start

  function Max(a: int, b: int): int {
    if a < b then b else a
  }

  /** What one event means for the next probe of `k`: 30 s after a start, an hour after "not issued". */
  function Delay(e: Event, k: Key): int {
    if e.key != k then ZERO_TIME
    else match e
         case ProbeStart(_, at, _) => at + FAIL_COOLDOWN
         case ProbeEnd(_, at, answer) =>
           if answer.Reply? && answer.token == "" then at + NOT_ISSUED_TTL else ZERO_TIME
  }

  function NextAllowed(log: seq<Event>, k: Key): int {
    if log == [] then ZERO_TIME
    else Max(NextAllowed(log[..|log| - 1], k), Delay(log[|log| - 1], k))
  }

  lemma NextAllowedSnoc(log: seq<Event>, e: Event, k: Key)
    ensures NextAllowed(log + [e], k) == Max(NextAllowed(log, k), Delay(e, k))
  {
    assert (log + [e])[..|log|] == log;
  }

  lemma {:induction false} NextAllowedCovers(log: seq<Event>, i: nat, k: Key)
    requires i < |log|
    ensures Delay(log[i], k) <= NextAllowed(log, k)
  {
    if i < |log| - 1 {
      NextAllowedCovers(log[..|log| - 1], i, k);
    }
  }

  /** Every probe of `k` in the log came late enough after everything before it. */
  ghost predicate Spaced(log: seq<Event>, k: Key) {
    forall j | 0 <= j < |log| && log[j].ProbeStart? && log[j].key == k :: NextAllowed(log[..j], k) <= log[j].at
  }

  /** With this entry cached, no probe starts before `t`. */
  ghost predicate Guards(e: Entry, t: int) {
    || (e.lastFailure != ZERO_TIME && t <= e.lastFailure + FAIL_COOLDOWN)
    || (e.notIssued && t <= e.expires)
  }

  ghost predicate Guarded(s: State, k: Key, t: int) {
    t <= s.now || (k in s.cache && Guards(s.cache[k], t))
  }

  ghost predicate Lapsed(s: State, k: Key) {
    k in s.cache && s.cache[k].notIssued ==> s.cache[k].expires <= s.now
  }

  /** The probe is under way, or its outcome is not in the cache yet. */
  predicate InFlight(p: Phase) {
    p.Probing? || p.Failing? || p.Storing? || p.Putting?
  }

  /** No probe of `k` is under way, or has an outcome still to be written. */
  ghost predicate Grounded(s: State, k: Key) {
    forall id | id in s.calls && s.calls[id].key == k :: !InFlight(s.calls[id].phase)
  }

  ghost predicate Timely(s: State, k: Key, p: Phase, t: int) {
    match p
    case Missed(_) => Lapsed(s, k)
    case Clocked(_, _) => Lapsed(s, k)
    case Ready(_, _) => t <= s.now
    case Failing(_, _, f) => t == ZERO_TIME || t <= f + FAIL_COOLDOWN
    case Storing(_, e) => t == ZERO_TIME || (e.notIssued && t <= e.expires)
    case Putting(_, e, _) => t == ZERO_TIME || (e.notIssued && t <= e.expires)
    case Probing(_, _) => t <= s.now + FAIL_COOLDOWN
    case _ => true
  }

  ghost predicate Paced(s: State, k: Key, base: nat) {
    && base <= |s.log|
    && var t := NextAllowed(s.log[base..], k);
    && Spaced(s.log[base..], k)
    && (forall id | id in s.calls && s.calls[id].key == k :: Timely(s, k, s.calls[id].phase, t))
    && (Grounded(s, k) ==> Guarded(s, k, t))
  }

  /** The gateway answers this probe of `k` with a token. */
  predicate Obtains(s: State, a: Action, k: Key) {
    a.Respond? && a.id in s.calls && s.calls[a.id].key == k && a.answer.Reply? && a.answer.token != ""
  }

  lemma OthersWait(s: State, k: Key, i: CallId, j: CallId)
    requires Sound(s) && OneLock(s, k) && i in s.calls && j in s.calls && i != j
    requires s.calls[i].key == k && s.calls[j].key == k && s.calls[i].phase.Holds() && s.calls[i].phase.Busy()
    ensures !(s.calls[j].phase.Holds() && s.calls[j].phase.Busy())
  {
  }

  ghost function Allowed(s: State, k: Key, base: nat): int
    requires base <= |s.log|
  {
    NextAllowed(s.log[base..], k)
  }

  /** Only a probe step on `k` itself moves the bound. */
  lemma StepMovesBound(s: State, a: Action, k: Key, base: nat)
    requires Enabled(s, a) && base <= |s.log|
    ensures base <= |Next(s, a).log|
    ensures Allowed(Next(s, a), k, base) ==
      if Next(s, a).log == s.log then Allowed(s, k, base)
      else Max(Allowed(s, k, base), Delay(Next(s, a).log[|s.log|], k))
  {
    var s' := Next(s, a);
    if s'.log != s.log {
      var e := s'.log[|s.log|];
      assert s'.log == s.log + [e];
      assert s'.log[base..] == s.log[base..] + [e];
      NextAllowedSnoc(s.log[base..], e, k);
    } else {
      assert s'.log[base..] == s.log[base..];
    }
  }

  lemma {:induction false} BoundNotBeforeZero(log: seq<Event>, k: Key)
    ensures ZERO_TIME <= NextAllowed(log, k)
  {
    if log != [] {
      BoundNotBeforeZero(log[..|log| - 1], k);
    }
  }

  lemma StepKeepsSpaced(s: State, a: Action, k: Key, base: nat)
    requires Enabled(s, a) && base <= |s.log| && Spaced(s.log[base..], k)
    requires a.Advance? && s.calls[a.id].key == k && s.calls[a.id].phase.Ready? ==> Allowed(s, k, base) <= s.now
    ensures Spaced(Next(s, a).log[base..], k)
  {
    var log, log' := s.log[base..], Next(s, a).log[base..];
    if Next(s, a).log != s.log {
      assert log' == log + [Next(s, a).log[|s.log|]];
    } else {
      assert log' == log;
    }
    forall j | 0 <= j < |log'| && log'[j].ProbeStart? && log'[j].key == k
      ensures NextAllowed(log'[..j], k) <= log'[j].at
    {
      assert log'[..j] == log[..j];
      assert j < |log| ==> log'[j] == log[j];
      assert log[..|log|] == log;
    }
  }

  /** Unless a call on `k` writes its entry, the entry stays or goes. */
  lemma WritesAreOwn(s: State, a: Action, k: Key)
    requires Enabled(s, a)
    requires a.Advance? && s.calls[a.id].key == k ==> !s.calls[a.id].phase.Failing? && !s.calls[a.id].phase.Putting?
    ensures k in Next(s, a).cache ==> k in s.cache && Next(s, a).cache[k] == s.cache[k]
    ensures s.now <= Next(s, a).now
  {
  }

  /** What happens to the entry of `k` when it is not dropped. */
  lemma EntryAfter(s: State, a: Action, k: Key)
    requires Enabled(s, a) && !Drops(s, a, k) && k != ""
    ensures
      if a.Advance? && s.calls[a.id].key == k && s.calls[a.id].phase.Failing?
      then k in Next(s, a).cache
           && Next(s, a).cache[k] == s.calls[a.id].phase.prior.(lastFailure := s.calls[a.id].phase.t)
      else if a.Advance? && s.calls[a.id].key == k && s.calls[a.id].phase.Putting?
      then k in Next(s, a).cache && Next(s, a).cache[k] == s.calls[a.id].phase.entry
      else (k in Next(s, a).cache <==> k in s.cache) && (k in s.cache ==> Next(s, a).cache[k] == s.cache[k])
  {
  }

  /** The step drops the entry of `k` while the bound is still ahead and no call is about to write a new one. */
  ghost predicate Forgets(s: State, a: Action, k: Key, base: nat) {
    Drops(s, a, k) && base <= |s.log| && Allowed(s, k, base) > s.now && Grounded(s, k)
  }

  ghost predicate Calm(s: State, a: Action, k: Key, base: nat) {
    Enabled(s, a) && !Forgets(s, a, k, base) && !OrphansLock(s, a, k) && !Obtains(s, a, k)
  }

  ghost predicate Good(s: State, k: Key, base: nat) {
    Sound(s) && OneLock(s, k) && Paced(s, k, base) && k != ""
  }

  /** A step that is not by a call at work on `k` does not move the bound and writes no entry of `k`. */
  lemma ElsewhereMovesNothing(s: State, a: Action, k: Key, base: nat)
    requires Enabled(s, a) && base <= |s.log| && k != ""
    requires a.Advance? || a.Respond? ==>
      s.calls[a.id].key != k || !s.calls[a.id].phase.Holds() || !s.calls[a.id].phase.Busy()
    ensures base <= |Next(s, a).log| && NextAllowed(Next(s, a).log[base..], k) == NextAllowed(s.log[base..], k)
    ensures Next(s, a).now >= s.now
    ensures k in Next(s, a).cache ==> k in s.cache && Next(s, a).cache[k] == s.cache[k]
  {
    StepMovesBound(s, a, k, base);
    BoundNotBeforeZero(s.log[base..], k);
    WritesAreOwn(s, a, k);
  }

  /** Another call's phase stays timely: if anyone moved the bound or the entry, this call was only waiting. */
  lemma OtherStaysTimely(s: State, a: Action, k: Key, base: nat, id: CallId)
    requires Good(s, k, base) && Calm(s, a, k, base)
    requires id in s.calls && s.calls[id].key == k && a != Advance(id) && !(a.Respond? && a.id == id)
    requires id in Next(s, a).calls && Next(s, a).calls[id] == s.calls[id]
    ensures base <= |Next(s, a).log| && Timely(Next(s, a), k, s.calls[id].phase, NextAllowed(Next(s, a).log[base..], k))
  {
    StepMovesBound(s, a, k, base);
    assert Timely(s, k, s.calls[id].phase, Allowed(s, k, base));
    if (a.Advance? || a.Respond?) && s.calls[a.id].key == k
       && s.calls[a.id].phase.Holds() && s.calls[a.id].phase.Busy() {
      OthersWait(s, k, a.id, id);
    } else {
      ElsewhereMovesNothing(s, a, k, base);
    }
  }

  /** A call past the second lookup is alone in flight on `k`, so the cached entry guards the bound. */
  lemma ClockedIsGuarded(s: State, k: Key, base: nat, id: CallId)
    requires Good(s, k, base) && id in s.calls && s.calls[id].key == k && s.calls[id].phase.Clocked?
    ensures Guarded(s, k, Allowed(s, k, base)) && Lapsed(s, k)
  {
    assert Timely(s, k, s.calls[id].phase, Allowed(s, k, base));
    forall j | j in s.calls && s.calls[j].key == k
      ensures !InFlight(s.calls[j].phase)
    {
      if j != id {
        OthersWait(s, k, id, j);
      }
    }
  }

  /** Guarded by the entry, outside the cooldown and past any "not issued" mark, the bound has been reached. */
  lemma GuardReached(s: State, k: Key, bound: int, t: int)
    requires Guarded(s, k, bound) && Lapsed(s, k) && t <= s.now && ZERO_TIME < s.now
    requires !InCooldown(Lookup(s.cache, k), t)
    ensures bound <= s.now
  {
  }

  lemma AdvanceStaysTimely(s: State, k: Key, bound: int, id: CallId)
    requires Enabled(s, Advance(id)) && s.calls[id].key == k && !s.calls[id].phase.Ready?
    requires ZERO_TIME < s.now && ReadingOk(s.calls[id].phase, s.now) && Timely(s, k, s.calls[id].phase, bound)
    requires s.calls[id].phase.Clocked? ==> Guarded(s, k, bound) && Lapsed(s, k)
    ensures Timely(Step(s, id), k, Step(s, id).calls[id].phase, bound)
  {
    if s.calls[id].phase.Clocked? && Step(s, id).calls[id].phase.Ready? {
      GuardReached(s, k, bound, s.calls[id].phase.t);
    }
  }

  lemma RespondStaysTimely(s: State, a: Action, k: Key, base: nat)
    requires Good(s, k, base) && Calm(s, a, k, base) && a.Respond? && s.calls[a.id].key == k
    ensures var t := Max(Allowed(s, k, base), Delay(ProbeEnd(k, s.now, a.answer), k));
      Timely(Next(s, a), k, Next(s, a).calls[a.id].phase, t)
  {
    assert Timely(s, k, s.calls[a.id].phase, Allowed(s, k, base));
    assert CallOk(s, s.calls[a.id]);
    BoundNotBeforeZero(s.log[base..], k);
  }

  lemma MoverStaysTimely(s: State, a: Action, k: Key, base: nat, id: CallId)
    requires Good(s, k, base) && Calm(s, a, k, base)
    requires a == Advance(id) || (a.Respond? && a.id == id)
    requires s.calls[id].key == k
    ensures base <= |Next(s, a).log|
    ensures Timely(Next(s, a), k, Next(s, a).calls[id].phase, Allowed(Next(s, a), k, base))
  {
    StepMovesBound(s, a, k, base);
    BoundNotBeforeZero(s.log[base..], k);
    if a.Respond? {
      RespondStaysTimely(s, a, k, base);
    } else {
      assert Timely(s, k, s.calls[id].phase, Allowed(s, k, base));
      assert CallOk(s, s.calls[id]);
      if s.calls[id].phase.Clocked? {
        ClockedIsGuarded(s, k, base, id);
      }
      if !s.calls[id].phase.Ready? {
        AdvanceStaysTimely(s, k, Allowed(s, k, base), id);
      }
    }
  }

  /** The call that ends its flight leaves an entry that guards the bound, or the bound has been reached. */
  lemma LandingGuards(s: State, a: Action, k: Key, base: nat)
    requires Good(s, k, base) && Calm(s, a, k, base)
    requires a.Advance? && s.calls[a.id].key == k && (s.calls[a.id].phase.Failing? || s.calls[a.id].phase.Putting?)
    ensures base <= |Next(s, a).log| && Guarded(Next(s, a), k, Allowed(Next(s, a), k, base))
  {
    StepMovesBound(s, a, k, base);
    assert Timely(s, k, s.calls[a.id].phase, Allowed(s, k, base));
    assert CallOk(s, s.calls[a.id]);
    if !Drops(s, a, k) {
      EntryAfter(s, a, k);
    }
  }

  /** A step by nobody in flight, with nobody in flight on `k` before or after, keeps the bound guarded. */
  lemma GroundedStaysGuarded(s: State, a: Action, k: Key, base: nat)
    requires Good(s, k, base) && Calm(s, a, k, base)
    requires Grounded(s, k)
    requires a.Advance? && s.calls[a.id].key == k ==> !s.calls[a.id].phase.Ready?
    ensures base <= |Next(s, a).log| && Guarded(Next(s, a), k, Allowed(Next(s, a), k, base))
  {
    StepMovesBound(s, a, k, base);
    BoundNotBeforeZero(s.log[base..], k);
    WritesAreOwn(s, a, k);
    if !Drops(s, a, k) {
      EntryAfter(s, a, k);
    }
  }

  lemma StaysGuarded(s: State, a: Action, k: Key, base: nat)
    requires Good(s, k, base) && Calm(s, a, k, base)
    requires Grounded(Next(s, a), k)
    ensures base <= |Next(s, a).log| && Guarded(Next(s, a), k, Allowed(Next(s, a), k, base))
  {
    if (a.Advance? || a.Respond?) && s.calls[a.id].key == k && InFlight(s.calls[a.id].phase) {
      StepKeepsCall(s, a, a.id);
      assert !InFlight(Next(s, a).calls[a.id].phase);
      LandingGuards(s, a, k, base);
    } else {
      forall id | id in s.calls && s.calls[id].key == k
        ensures !InFlight(s.calls[id].phase)
      {
        StepKeepsCall(s, a, id);
        if !a.Advance? || a.id != id {
          StepLeavesOthers(s, a, id);
        }
      }
      if a.Advance? && s.calls[a.id].key == k {
        StepKeepsCall(s, a, a.id);
        assert !InFlight(Next(s, a).calls[a.id].phase);
      }
      GroundedStaysGuarded(s, a, k, base);
    }
  }

  lemma StepKeepsPaced(s: State, a: Action, k: Key, base: nat)
    requires Good(s, k, base) && Calm(s, a, k, base)
    ensures Paced(Next(s, a), k, base)
  {
    var s' := Next(s, a);
    if a.Advance? {
      assert s.calls[a.id].key == k ==> Timely(s, k, s.calls[a.id].phase, Allowed(s, k, base));
    }
    StepMovesBound(s, a, k, base);
    StepKeepsSpaced(s, a, k, base);
    forall id | id in s'.calls && s'.calls[id].key == k
      ensures Timely(s', k, s'.calls[id].phase, NextAllowed(s'.log[base..], k))
    {
      if id !in s.calls {
      } else if a == Advance(id) || (a.Respond? && a.id == id) {
        MoverStaysTimely(s, a, k, base, id);
      } else {
        StepLeavesOthers(s, a, id);
        OtherStaysTimely(s, a, k, base, id);
      }
    }
    if Grounded(s', k) {
      StaysGuarded(s, a, k, base);
    }
  }

  /** A call past a missing second lookup sees no live "not issued" entry. */
  ghost predicate MissesLapsed(s: State, k: Key) {
    forall id | id in s.calls && s.calls[id].key == k && (s.calls[id].phase.Missed? || s.calls[id].phase.Clocked?) ::
      Lapsed(s, k)
  }

  lemma MissIsLapsed(s: State, id: CallId)
    requires Enabled(s, Advance(id)) && (s.calls[id].phase.Missed? ==> Lapsed(s, s.calls[id].key))
    requires Step(s, id).calls[id].phase.Missed? || Step(s, id).calls[id].phase.Clocked?
    ensures s.calls[id].key == Step(s, id).calls[id].key && Lapsed(Step(s, id), s.calls[id].key)
  {
  }

  lemma StepKeepsMissesLapsed(s: State, a: Action, k: Key)
    requires Sound(s) && OneLock(s, k) && MissesLapsed(s, k) && Enabled(s, a) && k != ""
    ensures MissesLapsed(Next(s, a), k)
  {
    var s' := Next(s, a);
    forall id | id in s'.calls && s'.calls[id].key == k && (s'.calls[id].phase.Missed? || s'.calls[id].phase.Clocked?)
      ensures Lapsed(s', k)
    {
      if a == Advance(id) {
        MissIsLapsed(s, id);
      } else {
        StepLeavesOthers(s, a, id);
        if a.Advance? && s.calls[a.id].key == k {
          OthersWait(s, k, id, a.id);
        }
        WritesAreOwn(s, a, k);
      }
    }
  }

  lemma {:induction false} MissesLapsedAlways(r: Run, k: Key, i: nat)
    requires ValidRun(r) && Init(r.states[0]) && i < |r.states| && k != ""
    requires forall j {:trigger r.acts[j]} | 0 <= j < i :: !OrphansLock(r.states[j], r.acts[j], k)
    ensures MissesLapsed(r.states[i], k)
  {
    if i > 0 {
      MissesLapsedAlways(r, k, i - 1);
      OneLockAlways(r, k, i - 1);
      StepKeepsMissesLapsed(r.states[i - 1], r.acts[i - 1], k);
    }
  }

  /** Counted from now on, nothing has been probed yet. */
  lemma PacedAtStart(s: State, k: Key)
    requires Sound(s) && OneLock(s, k) && MissesLapsed(s, k) && k != ""
    ensures Good(s, k, |s.log|)
  {
    assert s.log[|s.log|..] == [];
    forall id | id in s.calls && s.calls[id].key == k
      ensures Timely(s, k, s.calls[id].phase, ZERO_TIME)
    {
      assert CallOk(s, s.calls[id]);
    }
  }

  lemma StepKeepsGood(s: State, a: Action, k: Key, base: nat)
    requires Good(s, k, base) && Calm(s, a, k, base)
    ensures Good(Next(s, a), k, base)
  {
    StepKeepsPaced(s, a, k, base);
    StepKeepsSound(s, a);
    StepKeepsOneLock(s, a, k);
  }

  lemma GoodOn(r: Run, i: nat, k: Key, base: nat)
    requires ValidRun(r) && i < |r.acts| && Good(r.states[i], k, base) && Calm(r.states[i], r.acts[i], k, base)
    ensures Good(r.states[i + 1], k, base)
  {
    StepKeepsGood(r.states[i], r.acts[i], k, base);
  }

  lemma {:induction false} PacedFrom(r: Run, m: nat, i: nat, k: Key)
    requires ValidRun(r) && m <= i < |r.states| && k != ""
    requires Sound(r.states[m]) && OneLock(r.states[m], k) && MissesLapsed(r.states[m], k)
    requires forall j {:trigger r.acts[j]} | m <= j < i :: Calm(r.states[j], r.acts[j], k, |r.states[m].log|)
    ensures Good(r.states[i], k, |r.states[m].log|)
  {
    if m == i {
      PacedAtStart(r.states[m], k);
    } else {
      PacedFrom(r, m, i - 1, k);
      GoodOn(r, i - 1, k, |r.states[m].log|);
    }
  }

  // ---------------------------------------------------------------- the bounds

  /** No lock of `k` is swept away from its users, and from step `m` on no step forgets the entry that holds the next
      probe back and no probe of `k` obtains a token. Then after any probe start the next comes at least 30 seconds
      later, and after a "not issued" answer the next start comes at least an hour later. */
  lemma ProbesAreSpaced(r: Run, k: Key, m: nat, i: nat, x: nat, y: nat)
    requires ValidRun(r) && Init(r.states[0]) && m <= i < |r.states| && k != ""
    requires forall j {:trigger r.acts[j]} | 0 <= j < i :: !OrphansLock(r.states[j], r.acts[j], k)
    requires forall j {:trigger r.acts[j]} | m <= j < i ::
      !Forgets(r.states[j], r.acts[j], k, |r.states[m].log|) && !Obtains(r.states[j], r.acts[j], k)
    requires |r.states[m].log| <= x < y < |r.states[i].log|
    requires r.states[i].log[x].key == k && r.states[i].log[y].key == k && r.states[i].log[y].ProbeStart?
    ensures var log := r.states[i].log;
      match log[x]
      case ProbeStart(_, at, _) => log[y].at >= at + FAIL_COOLDOWN
      case ProbeEnd(_, at, answer) => answer.Reply? ==> log[y].at >= at + NOT_ISSUED_TTL
  {
    OneLockAlways(r, k, m);
    MissesLapsedAlways(r, k, m);
    PacedFrom(r, m, i, k);
    var base := |r.states[m].log|;
    var tail := r.states[i].log[base..];
    assert tail[x - base] == r.states[i].log[x] && tail[y - base] == r.states[i].log[y];
    NextAllowedCovers(tail[..y - base], x - base, k);
    assert NextAllowed(tail[..y - base], k) <= tail[y - base].at;
    if r.states[i].log[x].ProbeEnd? && r.states[i].log[x].answer.Reply? {
      NoTokenObtained(r, m, i, k, x);
    }
  }

  lemma LogStep(s: State, a: Action)
    requires Enabled(s, a)
    ensures s.log <= Next(s, a).log && |Next(s, a).log| <= |s.log| + 1
    ensures Next(s, a).log != s.log && Next(s, a).log[|s.log|].ProbeEnd? ==>
      a.Respond? && Next(s, a).log[|s.log|] == ProbeEnd(s.calls[a.id].key, s.now, a.answer)
  {
  }

  lemma {:induction false} NoTokenObtained(r: Run, m: nat, i: nat, k: Key, x: nat)
    requires ValidRun(r) && m <= i < |r.states|
    requires forall j {:trigger r.acts[j]} | m <= j < i :: !Obtains(r.states[j], r.acts[j], k)
    requires |r.states[m].log| <= x < |r.states[i].log|
    requires r.states[i].log[x].key == k && r.states[i].log[x].ProbeEnd? && r.states[i].log[x].answer.Reply?
    ensures r.states[i].log[x].answer.token == ""
  {
    if m < i {
      LogStep(r.states[i - 1], r.acts[i - 1]);
      if x < |r.states[i - 1].log| {
        NoTokenObtained(r, m, i - 1, k, x);
      }
    }
  }

  function CountStarts(log: seq<Event>, k: Key, lo: int, hi: int): nat {
    if log == [] then 0
    else
      var e := log[|log| - 1];
      CountStarts(log[..|log| - 1], k, lo, hi) + if e.ProbeStart? && e.key == k && lo <= e.at <= hi then 1 else 0
  }

  /** Starts later than `mid` do not count up to `mid`, so narrowing the window to `mid` loses nothing. */
  lemma {:induction false} CountNarrow(log: seq<Event>, k: Key, lo: int, mid: int, hi: int)
    requires mid <= hi
    requires forall j | 0 <= j < |log| && log[j].ProbeStart? && log[j].key == k :: log[j].at <= mid
    ensures CountStarts(log, k, lo, hi) == CountStarts(log, k, lo, mid)
  {
    if log != [] {
      var front := log[..|log| - 1];
      assert forall j | 0 <= j < |front| :: front[j] == log[j];
      CountNarrow(front, k, lo, mid, hi);
    }
  }

  lemma {:induction false} CountEmptyWindow(log: seq<Event>, k: Key, lo: int, hi: int)
    requires hi < lo
    ensures CountStarts(log, k, lo, hi) == 0
  {
    if log != [] {
      CountEmptyWindow(log[..|log| - 1], k, lo, hi);
    }
  }

  lemma {:induction false} SpacedCount(log: seq<Event>, k: Key, lo: int, hi: int)
    requires Spaced(log, k) && lo <= hi
    ensures CountStarts(log, k, lo, hi) <= 1 + (hi - lo) / FAIL_COOLDOWN
    decreases |log|
  {
    if log != [] {
      var front, e := log[..|log| - 1], log[|log| - 1];
      assert Spaced(front, k) by {
        forall j | 0 <= j < |front| && front[j].ProbeStart? && front[j].key == k
          ensures NextAllowed(front[..j], k) <= front[j].at
        {
          assert front[..j] == log[..j] && front[j] == log[j];
        }
      }
      if e.ProbeStart? && e.key == k && lo <= e.at <= hi {
        var mid := e.at - FAIL_COOLDOWN;
        forall j | 0 <= j < |front| && front[j].ProbeStart? && front[j].key == k
          ensures front[j].at <= mid
        {
          NextAllowedCovers(front, j, k);
        }
        CountNarrow(front, k, lo, mid, hi);
        if mid < lo {
          CountEmptyWindow(front, k, lo, mid);
        } else {
          SpacedCount(front, k, lo, mid);
        }
      } else {
        SpacedCount(front, k, lo, hi);
      }
    }
  }

  /** Under the same conditions at most 1 + floor((hi - lo) / 30 s) probes of `k` start between `lo` and `hi`. */
  lemma ProbeRateBound(r: Run, k: Key, m: nat, i: nat, lo: int, hi: int)
    requires ValidRun(r) && Init(r.states[0]) && m <= i < |r.states| && k != "" && lo <= hi
    requires forall j {:trigger r.acts[j]} | 0 <= j < i :: !OrphansLock(r.states[j], r.acts[j], k)
    requires forall j {:trigger r.acts[j]} | m <= j < i ::
      !Forgets(r.states[j], r.acts[j], k, |r.states[m].log|) && !Obtains(r.states[j], r.acts[j], k)
    ensures |r.states[m].log| <= |r.states[i].log|
    ensures CountStarts(r.states[i].log[|r.states[m].log|..], k, lo, hi) <= 1 + (hi - lo) / FAIL_COOLDOWN
  {
    OneLockAlways(r, k, m);
    MissesLapsedAlways(r, k, m);
    PacedFrom(r, m, i, k);
    SpacedCount(r.states[i].log[|r.states[m].log|..], k, lo, hi);
  }

  // ---------------------------------------------------------------- the hour after "not issued"

  /** `e` is cached for `k` and nobody on `k` is past the second lookup. */
  ghost predicate Quiet(s: State, k: Key, e: Entry) {
    && k in s.cache && s.cache[k] == e
    && forall id | id in s.calls && s.calls[id].key == k ::
      s.calls[id].phase.Busy() ==> s.calls[id].phase.Waiting? || s.calls[id].phase.Locked?
  }

  /** This call is about to cache `e` for `k`. */
  ghost predicate Writes(s: State, q: CallId, k: Key, e: Entry) {
    && q in s.calls && s.calls[q].key == k
    && (s.calls[q].phase.Storing? || s.calls[q].phase.Putting?) && s.calls[q].phase.entry == e
  }

  lemma StepKeepsQuiet(s: State, a: Action, k: Key, e: Entry)
    requires Sound(s) && Enabled(s, a) && Quiet(s, k, e) && Usable(e, s.now) && a != Invalidate(k) && k != ""
    ensures Quiet(Next(s, a), k, e)
  {
    var s' := Next(s, a);
    if a.Advance? {
      assert CallOk(s, s.calls[a.id]);
    }
    LiveEntryStays(s, a, k);
    forall id | id in s'.calls && s'.calls[id].key == k && s'.calls[id].phase.Busy()
      ensures s'.calls[id].phase.Waiting? || s'.calls[id].phase.Locked?
    {
      if a == Advance(id) {
        StepKeepsCall(s, a, id);
      } else {
        StepLeavesOthers(s, a, id);
      }
    }
  }

  lemma StepKeepsWrites(s: State, a: Action, q: CallId, k: Key, e: Entry)
    requires Sound(s) && OneLock(s, k) && Enabled(s, a) && Writes(s, q, k, e) && Usable(e, s.now)
    ensures Writes(Next(s, a), q, k, e) || Quiet(Next(s, a), k, e)
  {
    StepKeepsCall(s, a, q);
    if a != Advance(q) {
      StepLeavesOthers(s, a, q);
    } else if s.calls[q].phase.Putting? {
      PutSettles(s, q, k);
      var s' := Next(s, a);
      forall id | id in s'.calls && s'.calls[id].key == k && s'.calls[id].phase.Busy()
        ensures s'.calls[id].phase.Waiting? || s'.calls[id].phase.Locked?
      {
        assert id in OverCalls(s, k) ==> Over(s', id);
      }
    }
  }

  ghost predicate Hushed(s: State, q: CallId, k: Key, e: Entry) {
    Writes(s, q, k, e) || Quiet(s, k, e)
  }

  /** In these steps `k` is not invalidated, but while an outcome is still to be written, and no lock of `k` is swept
      away from its users. */
  ghost predicate LeftAlone(r: Run, m: nat, i: nat, k: Key)
    requires ValidRun(r) && m <= i < |r.states|
  {
    forall j {:trigger r.acts[j]} | m <= j < i ::
      !(r.acts[j] == Invalidate(k) && Grounded(r.states[j], k)) && !OrphansLock(r.states[j], r.acts[j], k)
  }

  lemma LeftAloneBefore(r: Run, m: nat, i: nat, k: Key)
    requires ValidRun(r) && m < i < |r.states| && LeftAlone(r, m, i, k)
    ensures LeftAlone(r, m, i - 1, k)
  {
  }

  ghost predicate HushedState(s: State, q: CallId, k: Key, e: Entry) {
    Sound(s) && OneLock(s, k) && Hushed(s, q, k, e)
  }

  lemma HushedOn(r: Run, m: nat, i: nat, q: CallId, k: Key, e: Entry)
    requires ValidRun(r) && m < i < |r.states| && k != "" && LeftAlone(r, m, i, k)
    requires HushedState(r.states[i - 1], q, k, e) && Usable(e, r.states[i].now)
    ensures HushedState(r.states[i], q, k, e)
  {
    var s, a := r.states[i - 1], r.acts[i - 1];
    NowGrows(r, i - 1, i);
    StepKeepsSound(s, a);
    StepKeepsOneLock(s, a, k);
    if Writes(s, q, k, e) {
      StepKeepsWrites(s, a, q, k, e);
    } else {
      StepKeepsQuiet(s, a, k, e);
    }
  }

  ghost function NotIssued(now: int): Entry {
    Entry("", now + NOT_ISSUED_TTL, true, ZERO_TIME)
  }

  /** At step `m` the probe of call `q` for `k` is answered without a token. */
  ghost predicate NotIssuedAt(r: Run, m: nat, q: CallId, k: Key) {
    && m < |r.acts| && m < |r.states|
    && r.acts[m].Respond? && r.acts[m].id == q && r.acts[m].answer.Reply? && r.acts[m].answer.token == ""
    && q in r.states[m].calls && r.states[m].calls[q].key == k
  }

  lemma {:induction false} HushedFrom(r: Run, m: nat, i: nat, q: CallId, k: Key, e: Entry)
    requires ValidRun(r) && m <= i < |r.states| && k != "" && LeftAlone(r, m, i, k)
    requires HushedState(r.states[m], q, k, e) && Usable(e, r.states[i].now)
    ensures HushedState(r.states[i], q, k, e)
  {
    if m < i {
      UsableBefore(r, i, e);
      LeftAloneBefore(r, m, i, k);
      HushedFrom(r, m, i - 1, q, k, e);
      HushedOn(r, m, i, q, k, e);
    }
  }

  lemma LogOn(r: Run, i: nat)
    requires ValidRun(r) && i < |r.acts|
    ensures r.states[i].log <= r.states[i + 1].log && |r.states[i + 1].log| <= |r.states[i].log| + 1
    ensures |r.states[i + 1].log| > |r.states[i].log| ==> r.states[i + 1].log[|r.states[i].log|].at == r.states[i].now
  {
    LogStep(r.states[i], r.acts[i]);
  }

  /** Step `i` of the run starts no probe of `k`, unless `e` is no longer usable by then. */
  ghost predicate StartsNothing(r: Run, i: nat, k: Key, e: Entry)
    requires i + 1 < |r.states|
  {
    var log, log' := r.states[i].log, r.states[i + 1].log;
    && log <= log' && |log'| <= |log| + 1
    && (|log'| > |log| && log'[|log|].ProbeStart? && log'[|log|].key == k ==> !Usable(e, log'[|log|].at))
  }

  lemma HushedStartsNothing(r: Run, i: nat, q: CallId, k: Key, e: Entry)
    requires ValidRun(r) && i < |r.acts| && HushedState(r.states[i], q, k, e)
    ensures StartsNothing(r, i, k, e)
  {
    LogOn(r, i);
    var s, a := r.states[i], r.acts[i];
    if a.Advance? && s.calls[a.id].phase.Ready? && s.calls[a.id].key == k && Writes(s, q, k, e) {
      OthersWait(s, k, q, a.id);
    }
  }

  lemma UsableStartsNothing(r: Run, m: nat, i: nat, q: CallId, k: Key, e: Entry)
    requires ValidRun(r) && m <= i < |r.acts| && k != "" && LeftAlone(r, m, i, k)
    requires HushedState(r.states[m], q, k, e)
    ensures StartsNothing(r, i, k, e)
  {
    LogOn(r, i);
    if Usable(e, r.states[i].now) {
      HushedFrom(r, m, i, q, k, e);
      HushedStartsNothing(r, i, q, k, e);
    }
  }

  lemma NothingStarts(r: Run, m: nat, i: nat, q: CallId, k: Key, e: Entry)
    requires ValidRun(r) && m <= i < |r.states| && k != "" && LeftAlone(r, m, i, k)
    requires HushedState(r.states[m], q, k, e)
    ensures forall j | m <= j < i :: StartsNothing(r, j, k, e)
  {
    forall j | m <= j < i
      ensures StartsNothing(r, j, k, e)
    {
      UsableStartsNothing(r, m, j, q, k, e);
    }
  }

  /** A probe start in the log was made by some step. */
  lemma {:induction false} StartedWhenUnusable(r: Run, m: nat, i: nat, k: Key, e: Entry, y: nat)
    requires m < i < |r.states| && forall j | m <= j < i :: StartsNothing(r, j, k, e)
    requires |r.states[m].log| <= y < |r.states[i].log| && r.states[i].log[y].ProbeStart? && r.states[i].log[y].key == k
    ensures !Usable(e, r.states[i].log[y].at)
  {
    assert StartsNothing(r, i - 1, k, e);
    if y < |r.states[i - 1].log| {
      StartedWhenUnusable(r, m, i - 1, k, e, y);
    }
  }

  lemma AnswerHushes(r: Run, m: nat, q: CallId, k: Key)
    requires ValidRun(r) && NotIssuedAt(r, m, q, k) && Sound(r.states[m]) && OneLock(r.states[m], k)
    ensures HushedState(r.states[m + 1], q, k, NotIssued(r.states[m].now))
    ensures |r.states[m + 1].log| == |r.states[m].log| + 1
  {
    var s, a := r.states[m], r.acts[m];
    StepKeepsSound(s, a);
    StepKeepsOneLock(s, a, k);
  }

  /** After a "not issued" answer at step `m` no probe of `k` starts within the hour, as long as `k` is not invalidated
      once the answer is cached and no lock of `k` is swept away from its users. Other sweeps do no harm: the entry
      outlives the hour. */
  lemma HourAfterNotIssued(r: Run, m: nat, i: nat, q: CallId, k: Key, y: nat)
    requires ValidRun(r) && Init(r.states[0]) && m < i < |r.states| && k != "" && NotIssuedAt(r, m, q, k)
    requires forall j {:trigger r.acts[j]} | 0 <= j < m :: !OrphansLock(r.states[j], r.acts[j], k)
    requires LeftAlone(r, m + 1, i, k)
    requires |r.states[m].log| < y < |r.states[i].log| && r.states[i].log[y].ProbeStart? && r.states[i].log[y].key == k
    ensures r.states[i].log[y].at >= r.states[m].now + NOT_ISSUED_TTL
  {
    var e := NotIssued(r.states[m].now);
    OneLockAlways(r, k, m);
    AnswerHushes(r, m, q, k);
    NothingStarts(r, m + 1, i, q, k, e);
    StartedWhenUnusable(r, m + 1, i, k, e, y);
  }
}
