/** Schedules in which one `Token` call runs while nobody else moves. */
module AttestationSchedules {
  import opened AttestationMachine
  import opened AttestationSafety
  import opened Clock

  lemma Overwrite(calls: map<CallId, Call>, id: CallId, x: Call, y: Call)
    ensures calls[id := x][id := y] == calls[id := y]
  {
  }

  lemma Go2(k: Key, s0: State, a1: Action, s1: State, a2: Action, s2: State)
    requires Enabled(s0, a1) && Own(s0, a1, k) && Next(s0, a1) == s1
    requires Enabled(s1, a2) && Own(s1, a2, k) && Next(s1, a2) == s2
    ensures LeadsBy(s0, s2, k)
  {
    LeadsByStep(s1, a2, k);
    LeadsByFirst(s0, a1, s2, k);
  }

  lemma Go3(k: Key, s0: State, a1: Action, s1: State, a2: Action, s2: State, a3: Action, s3: State)
    requires Enabled(s0, a1) && Own(s0, a1, k) && Next(s0, a1) == s1
    requires Enabled(s1, a2) && Own(s1, a2, k) && Next(s1, a2) == s2
    requires Enabled(s2, a3) && Own(s2, a3, k) && Next(s2, a3) == s3
    ensures LeadsBy(s0, s3, k)
  {
    Go2(k, s1, a2, s2, a3, s3);
    LeadsByFirst(s0, a1, s3, k);
  }

  /** A newcomer on `k` would get the lock at once. */
  ghost predicate Available(s: State, k: Key) {
    k in s.locks ==> Free(s, s.locks[k])
  }

  ghost function LockOf(s: State, k: Key): LockId {
    if k in s.locks then s.locks[k] else s.nextLock
  }

  /** `s` after a new call `b` has taken the lock of `k`, in phase `p`. */
  ghost function Joined(s: State, k: Key, b: CallId, p: Phase): State {
    s.(calls := s.calls[b := Call(k, p)],
       locks := s.locks[k := LockOf(s, k)],
       nextLock := if k in s.locks then s.nextLock else s.nextLock + 1)
  }

  ghost function With(s: State, b: CallId, k: Key, p: Phase): State {
    s.(calls := s.calls[b := Call(k, p)])
  }

  lemma EnterAndQueue(s: State, k: Key, b: CallId)
    requires k != "" && b !in s.calls && !Hit(s.cache, k, s.now)
    ensures LeadsBy(s, Joined(s, k, b, Waiting(LockOf(s, k))), k)
  {
    assert k in s.locks ==> s.locks == s.locks[k := LockOf(s, k)];
    Go3(k, s, Enter(b, k), With(s, b, k, Start), Advance(b), With(s, b, k, WantLock), Advance(b),
        Joined(s, k, b, Waiting(LockOf(s, k))));
  }

  lemma QueuedIsFree(s: State, k: Key, b: CallId)
    requires Sound(s) && Available(s, k) && b !in s.calls
    ensures Free(Joined(s, k, b, Waiting(LockOf(s, k))), LockOf(s, k))
  {
    var s' := Joined(s, k, b, Waiting(LockOf(s, k)));
    forall id | id in s'.calls
      ensures !(s'.calls[id].phase.Holds() && s'.calls[id].phase.lock == LockOf(s, k))
    {
      assert id in s.calls ==> CallOk(s, s.calls[id]);
    }
  }

  lemma EnterAndLock(s: State, k: Key, b: CallId)
    requires Sound(s) && k != "" && b !in s.calls && !Hit(s.cache, k, s.now) && Available(s, k)
    ensures LeadsBy(s, Joined(s, k, b, Missed(LockOf(s, k))), k)
  {
    var lock := LockOf(s, k);
    EnterAndQueue(s, k, b);
    QueuedIsFree(s, k, b);
    Go2(k, Joined(s, k, b, Waiting(lock)), Advance(b), Joined(s, k, b, Locked(lock)), Advance(b),
        Joined(s, k, b, Missed(lock)));
    LeadsByOn(s, Joined(s, k, b, Waiting(lock)), Joined(s, k, b, Missed(lock)), k);
  }

  /** `s` with `b` having just started its probe from the entry cached now. */
  ghost function Probes(s: State, b: CallId): State
    requires b in s.calls && s.calls[b].phase.HasLock()
  {
    var k := s.calls[b].key;
    With(s, b, k, Probing(s.calls[b].phase.lock, Lookup(s.cache, k))).(
      log := s.log + [ProbeStart(k, s.now, k in s.cache)])
  }

  /** From a miss outside the cooldown the call goes on to probe, with nobody else moving. */
  lemma MissedToProbing(s: State, b: CallId)
    requires b in s.calls && s.calls[b].phase.Missed? && !InCooldown(Lookup(s.cache, s.calls[b].key), s.now)
    ensures LeadsBy(s, Probes(s, b), s.calls[b].key)
  {
    var k, lock := s.calls[b].key, s.calls[b].phase.lock;
    Go3(k, s, Advance(b), With(s, b, k, Clocked(lock, s.now)), Advance(b),
        With(s, b, k, Ready(lock, Lookup(s.cache, k))), Advance(b), Probes(s, b));
  }

  /** So does a miss outside the cooldown in a sound state, and time, cache and locks stay as they are. */
  lemma GoStart(s: State, b: CallId) returns (t: State)
    requires Sound(s) && b in s.calls && s.calls[b].phase.Missed?
    requires !InCooldown(Lookup(s.cache, s.calls[b].key), s.now)
    ensures Leads(s, t) && Sound(t) && t.now == s.now && t.cache == s.cache
    ensures t.locks == s.locks && t.nextLock == s.nextLock
    ensures var k, lock := s.calls[b].key, s.calls[b].phase.lock;
      && t.calls == s.calls[b := Call(k, Probing(lock, Lookup(s.cache, k)))]
      && t.log == s.log + [ProbeStart(k, s.now, k in s.cache)]
  {
    MissedToProbing(s, b);
    t := Probes(s, b);
    LeadsKeepsSound(s, t);
  }

  /** A newcomer that misses, finds the lock free and is not held back by a cooldown goes on to probe. */
  lemma GoProbe(s: State, k: Key, b: CallId) returns (t: State)
    requires Sound(s) && k != "" && b !in s.calls && Available(s, k)
    requires !Hit(s.cache, k, s.now) && !InCooldown(Lookup(s.cache, k), s.now)
    ensures LeadsBy(s, t, k) && Sound(t)
    ensures t == Joined(s, k, b, Probing(LockOf(s, k), Lookup(s.cache, k))).(
                   log := s.log + [ProbeStart(k, s.now, k in s.cache)])
  {
    var m := Joined(s, k, b, Missed(LockOf(s, k)));
    EnterAndLock(s, k, b);
    MissedToProbing(m, b);
    t := Probes(m, b);
    Overwrite(s.calls, b, m.calls[b], t.calls[b]);
    LeadsByOn(s, m, t, k);
    LeadsKeepsSound(s, t);
  }

  /** The entry made of a reply. */
  function Outcome(token: string, expires: int, now: int): Entry {
    if token == "" then Entry("", now + NOT_ISSUED_TTL, true, ZERO_TIME) else Entry(token, expires, false, ZERO_TIME)
  }

  lemma GoUntilPut(s: State, p: CallId, token: string, expires: int) returns (t: State)
    requires p in s.calls && s.calls[p].phase.Probing?
    ensures LeadsBy(s, t, s.calls[p].key)
    ensures var k, e := s.calls[p].key, Outcome(token, expires, s.now);
      t == s.(calls := s.calls[p := Call(k, Putting(s.calls[p].phase.lock, e, s.now))],
              log := s.log + [ProbeEnd(k, s.now, Reply(token, expires))])
  {
    var k, lock, e := s.calls[p].key, s.calls[p].phase.lock, Outcome(token, expires, s.now);
    var s1 := With(s, p, k, Storing(lock, e)).(log := s.log + [ProbeEnd(k, s.now, Reply(token, expires))]);
    t := s1.(calls := s.calls[p := Call(k, Putting(lock, e, s.now))]);
    Go2(k, s, Respond(p, Reply(token, expires)), s1, Advance(p), t);
  }

  lemma GoWrite(s: State, p: CallId) returns (t: State)
    requires p in s.calls && s.calls[p].phase.Putting?
    ensures LeadsBy(s, t, s.calls[p].key)
    ensures var k, e, c := s.calls[p].key, s.calls[p].phase.entry, s.calls[p].phase.t;
      t == s.(calls := s.calls[p := Call(k, Done(e.token))],
              cache := PutCache(s.cache, k, e, c), locks := PutLocks(s.cache, s.locks, k, e, c))
  {
    var k, lock, e, c := s.calls[p].key, s.calls[p].phase.lock, s.calls[p].phase.entry, s.calls[p].phase.t;
    var s1 := With(s, p, k, Releasing(lock, e.token)).(
                cache := PutCache(s.cache, k, e, c), locks := PutLocks(s.cache, s.locks, k, e, c));
    t := s1.(calls := s.calls[p := Call(k, Done(e.token))]);
    Go2(k, s, Advance(p), s1, Advance(p), t);
  }

  /** The gateway replies; the outcome is stored and returned. */
  lemma GoReply(s: State, p: CallId, token: string, expires: int) returns (t: State)
    requires Sound(s) && p in s.calls && s.calls[p].phase.Probing?
    ensures LeadsBy(s, t, s.calls[p].key) && Sound(t)
    ensures var k, e := s.calls[p].key, Outcome(token, expires, s.now);
      t == s.(calls := s.calls[p := Call(k, Done(e.token))],
              cache := PutCache(s.cache, k, e, s.now),
              locks := PutLocks(s.cache, s.locks, k, e, s.now),
              log := s.log + [ProbeEnd(k, s.now, Reply(token, expires))])
  {
    var k := s.calls[p].key;
    var m := GoUntilPut(s, p, token, expires);
    t := GoWrite(m, p);
    Overwrite(s.calls, p, m.calls[p], t.calls[p]);
    LeadsByOn(s, m, t, k);
    LeadsKeepsSound(s, t);
  }

  /** The gateway answers with a token, which is stored and returned. */
  lemma GoIssue(s: State, p: CallId, token: string, expires: int) returns (t: State)
    requires Sound(s) && p in s.calls && s.calls[p].phase.Probing? && token != ""
    ensures LeadsBy(s, t, s.calls[p].key) && Sound(t)
    ensures var k, e := s.calls[p].key, Entry(token, expires, false, ZERO_TIME);
      t == s.(calls := s.calls[p := Call(k, Done(token))],
              cache := PutCache(s.cache, k, e, s.now),
              locks := PutLocks(s.cache, s.locks, k, e, s.now),
              log := s.log + [ProbeEnd(k, s.now, Reply(token, expires))])
  {
    t := GoReply(s, p, token, expires);
  }

  /** The gateway answers without a token; that is cached for an hour. */
  lemma GoNotIssued(s: State, p: CallId, expires: int) returns (t: State)
    requires Sound(s) && p in s.calls && s.calls[p].phase.Probing?
    ensures LeadsBy(s, t, s.calls[p].key) && Sound(t)
    ensures var k, e := s.calls[p].key, Entry("", s.now + NOT_ISSUED_TTL, true, ZERO_TIME);
      t == s.(calls := s.calls[p := Call(k, Done(""))],
              cache := PutCache(s.cache, k, e, s.now),
              locks := PutLocks(s.cache, s.locks, k, e, s.now),
              log := s.log + [ProbeEnd(k, s.now, Reply("", expires))])
  {
    t := GoReply(s, p, "", expires);
  }

  /** The probe fails; the failure is recorded over whatever is cached now. */
  lemma GoFail(s: State, p: CallId) returns (t: State)
    requires Sound(s) && p in s.calls && s.calls[p].phase.Probing?
    ensures LeadsBy(s, t, s.calls[p].key) && Sound(t)
    ensures var k, prior := s.calls[p].key, s.calls[p].phase.prior;
      t == s.(calls := s.calls[p := Call(k, Done(prior.token))],
              cache := s.cache[k := prior.(lastFailure := s.now)],
              log := s.log + [ProbeEnd(k, s.now, Failure)])
  {
    var k, lock, prior := s.calls[p].key, s.calls[p].phase.lock, s.calls[p].phase.prior;
    var s1 := With(s, p, k, Failing(lock, prior, s.now)).(log := s.log + [ProbeEnd(k, s.now, Failure)]);
    t := GoRecord(s1, p);
    LeadsByFirst(s, Respond(p, Failure), t, k);
    LeadsKeepsSound(s, t);
  }

  lemma GoRecord(s: State, p: CallId) returns (t: State)
    requires p in s.calls && s.calls[p].phase.Failing?
    ensures LeadsBy(s, t, s.calls[p].key)
    ensures var k, prior, f := s.calls[p].key, s.calls[p].phase.prior, s.calls[p].phase.t;
      t == s.(calls := s.calls[p := Call(k, Done(prior.token))], cache := s.cache[k := prior.(lastFailure := f)])
  {
    var k, lock, prior, f := s.calls[p].key, s.calls[p].phase.lock, s.calls[p].phase.prior, s.calls[p].phase.t;
    var s1 := With(s, p, k, Releasing(lock, prior.token)).(cache := s.cache[k := prior.(lastFailure := f)]);
    t := s1.(calls := s.calls[p := Call(k, Done(prior.token))]);
    Go2(k, s, Advance(p), s1, Advance(p), t);
  }

  lemma {:induction false} FollowsKeepsSound(s: State, sc: Script)
    requires Sound(s) && Follows(s, sc)
    ensures Sound(EndOf(s, sc))
    decreases sc
  {
    if sc.Do? {
      StepKeepsSound(s, sc.a);
      FollowsKeepsSound(sc.next, sc.rest);
    }
  }

  lemma LeadsKeepsSound(s: State, t: State)
    requires Sound(s) && Leads(s, t)
    ensures Sound(t)
  {
    var sc :| Follows(s, sc) && EndOf(s, sc) == t;
    FollowsKeepsSound(s, sc);
  }

  /** A credential without a device token gets no attestation. */
  lemma EmptyToken(s: State, b: CallId) returns (t: State)
    requires b !in s.calls
    ensures Leads(s, t) && t == With(s, b, "", Done(""))
  {
    t := With(s, b, "", Done(""));
    LeadsNowhere(t);
    LeadsFirst(s, Enter(b, ""), t);
  }

  /** The fast path. */
  lemma ServedFromCache(s: State, k: Key, b: CallId) returns (t: State)
    requires k != "" && b !in s.calls && Hit(s.cache, k, s.now)
    ensures LeadsBy(s, t, k) && t == With(s, b, k, Done(s.cache[k].token))
  {
    t := With(s, b, k, Done(s.cache[k].token));
    Go2(k, s, Enter(b, k), With(s, b, k, Start), Advance(b), t);
  }

  /** The slow path within 30 seconds of a failure. */
  lemma ServedInCooldown(s: State, k: Key, b: CallId) returns (t: State)
    requires Sound(s) && k != "" && b !in s.calls && Available(s, k) && k in s.cache
    requires !Hit(s.cache, k, s.now) && InCooldown(s.cache[k], s.now)
    ensures LeadsBy(s, t, k) && t == Joined(s, k, b, Done(s.cache[k].token))
  {
    var m := Joined(s, k, b, Missed(LockOf(s, k)));
    EnterAndLock(s, k, b);
    t := CooldownAnswers(m, b);
    LeadsByOn(s, m, t, k);
    Overwrite(s.calls, b, m.calls[b], t.calls[b]);
  }

  /** After a miss within the cooldown the call gives the old token. */
  lemma CooldownAnswers(s: State, b: CallId) returns (t: State)
    requires b in s.calls && s.calls[b].phase.Missed? && InCooldown(Lookup(s.cache, s.calls[b].key), s.now)
    ensures var k := s.calls[b].key; LeadsBy(s, t, k) && t == With(s, b, k, Done(Lookup(s.cache, k).token))
  {
    var k, lock, token := s.calls[b].key, s.calls[b].phase.lock, Lookup(s.cache, s.calls[b].key).token;
    t := With(s, b, k, Done(token));
    Go3(k, s, Advance(b), With(s, b, k, Clocked(lock, s.now)), Advance(b), With(s, b, k, Releasing(lock, token)),
        Advance(b), t);
  }
}
