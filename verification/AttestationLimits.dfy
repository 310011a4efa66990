/** The side conditions of single flight, spacing and invalidation are needed: after any step that breaks one some
continuation breaks the conclusion; and such states are reached from an empty manager. */
module AttestationLimits {
  import opened AttestationMachine
  import opened AttestationRates
  import opened AttestationSafety
  import opened AttestationSchedules
  import opened Clock

  // ---------------------------------------------------------------- orphaned locks

  /** How many steps the call needs to be probing once it can have its lock. */
  ghost function StepsToProbe(p: Phase): nat {
    match p
    case Waiting(_) => 5
    case Locked(_) => 4
    case Missed(_) => 3
    case Clocked(_, _) => 2
    case Ready(_, _) => 1
    case _ => 0
  }

  /** A seeker that nobody keeps from its lock. */
  ghost predicate WillProbe(s: State, id: CallId) {
    && id in s.calls && s.calls[id].phase.Seeks()
    && (s.calls[id].phase.Waiting? ==> Free(s, s.calls[id].phase.lock))
  }

  /** The cached entry neither answers a call nor holds it back, now or at the clock reading it has made. */
  ghost predicate Stale(s: State, id: CallId)
    requires id in s.calls
  {
    var k := s.calls[id].key;
    && !Hit(s.cache, k, s.now) && !InCooldown(Lookup(s.cache, k), s.now)
    && (s.calls[id].phase.Clocked? ==> !InCooldown(Lookup(s.cache, k), s.calls[id].phase.t))
  }

  /** What the log says if this call starts its probe now. */
  ghost function StartOf(s: State, id: CallId): Event
    requires id in s.calls
  {
    ProbeStart(s.calls[id].key, s.now, s.calls[id].key in s.cache)
  }

  lemma OneStepCloser(s: State, a: CallId)
    requires WillProbe(s, a) && Stale(s, a) && !s.calls[a].phase.Probing?
    ensures Enabled(s, Advance(a))
    ensures var t := Next(s, Advance(a));
      && WillProbe(t, a) && Stale(t, a) && t.calls[a].key == s.calls[a].key && t.calls.Keys == s.calls.Keys
      && StepsToProbe(t.calls[a].phase) < StepsToProbe(s.calls[a].phase)
      && t.cache == s.cache && t.locks == s.locks && t.now == s.now
      && t.log == s.log + (if s.calls[a].phase.Ready? then [StartOf(s, a)] else [])
      && (t.calls[a].phase.Probing? <==> s.calls[a].phase.Ready?)
  {
  }

  /** Left alone, such a call goes on to probe at this very instant. */
  lemma {:induction false} DriveToProbe(s: State, a: CallId) returns (t: State)
    requires WillProbe(s, a) && Stale(s, a)
    ensures LeadsBy(s, t, s.calls[a].key) && t.calls.Keys == s.calls.Keys
    ensures t.cache == s.cache && t.locks == s.locks && t.now == s.now
    ensures t.calls[a].key == s.calls[a].key && t.calls[a].phase.Probing?
    ensures t.log == s.log + if s.calls[a].phase.Probing? then [] else [StartOf(s, a)]
    decreases if a in s.calls then StepsToProbe(s.calls[a].phase) else 0
  {
    if s.calls[a].phase.Probing? {
      t := s;
      LeadsByNowhere(s, s.calls[a].key);
    } else {
      OneStepCloser(s, a);
      t := DriveToProbe(Next(s, Advance(a)), a);
      LeadsByFirst(s, Advance(a), t, s.calls[a].key);
    }
  }

  /** Whoever holds a lock but is past its probe finishes, which frees the lock. Nothing new enters the table. */
  lemma DriveToDone(s: State, h: CallId) returns (t: State)
    requires Sound(s) && h in s.calls && s.calls[h].phase.Holds() && !s.calls[h].phase.Seeks()
    ensures Leads(s, t) && Sound(t) && t.locks.Keys <= s.locks.Keys
    ensures h in t.calls && t.calls == s.calls[h := t.calls[h]] && t.calls[h].phase.Done?
    ensures Free(t, s.calls[h].phase.lock)
  {
    match s.calls[h].phase {
      case Failing(_, _, _) =>
        t := GoRecord(s, h);
      case Storing(_, _) =>
        var u := Next(s, Advance(h));
        LeadsNowhere(u);
        LeadsFirst(s, Advance(h), u);
        t := GoWrite(u, h);
        Overwrite(s.calls, h, u.calls[h], t.calls[h]);
        LeadsOn(s, u, t);
      case Putting(_, _, _) =>
        t := GoWrite(s, h);
      case Releasing(_, _) =>
        t := Next(s, Advance(h));
        LeadsNowhere(t);
        LeadsFirst(s, Advance(h), t);
    }
    LeadsKeepsSound(s, t);
  }

  /** In time any entry goes stale. */
  lemma Staleness(s: State, k: Key) returns (d: nat)
    ensures !Hit(s.cache, k, s.now + d) && !InCooldown(Lookup(s.cache, k), s.now + d)
  {
    var e := Lookup(s.cache, k);
    var until := Max(e.expires, e.lastFailure + FAIL_COOLDOWN);
    d := if until > s.now then until - s.now else 0;
  }

  /** Two calls on `k` probe at once. */
  ghost predicate TwoProbe(s: State, k: Key, a: CallId, b: CallId) {
    && a != b && a in s.calls && s.calls[a].key == k && s.calls[a].phase.Probing?
    && b in s.calls && s.calls[b].key == k && s.calls[b].phase.Probing?
  }

  /** A seeker that can have its lock and a newcomer that finds none in the table probe at once. */
  lemma SeekerAndNewcomer(s: State, k: Key, a: CallId, b: CallId) returns (t: State)
    requires Sound(s) && k != "" && b !in s.calls && k !in s.locks
    requires WillProbe(s, a) && s.calls[a].key == k && Stale(s, a)
    ensures Leads(s, t) && TwoProbe(t, k, a, b)
  {
    var v := DriveToProbe(s, a);
    LeadsKeepsSound(s, v);
    t := GoProbe(v, k, b);
    LeadsOn(s, v, t);
  }

  /** The same for a seeker whose lock is held by a call past its probe: that call finishes, the entry goes stale. */
  lemma WaiterAndNewcomer(s: State, k: Key, h: CallId, a: CallId, b: CallId) returns (t: State)
    requires Sound(s) && k != "" && b !in s.calls && k !in s.locks
    requires a in s.calls && s.calls[a].key == k && s.calls[a].phase.Waiting?
    requires h in s.calls && s.calls[h].phase.Holds() && s.calls[h].phase.lock == s.calls[a].phase.lock
    requires !s.calls[h].phase.Seeks()
    ensures Leads(s, t) && TwoProbe(t, k, a, b)
  {
    var u := DriveToDone(s, h);
    var d := Staleness(u, k);
    var v := Next(u, Tick(d));
    LeadsNowhere(v);
    LeadsFirst(u, Tick(d), v);
    LeadsOn(s, u, v);
    LeadsKeepsSound(s, v);
    t := SeekerAndNewcomer(v, k, a, b);
    LeadsOn(s, v, t);
  }

  /** After a sweep of `k` there is a seeker that can have its lock, or the lock's holder is past its probe. */
  lemma SeekerOrHolder(s: State, x: Action, k: Key, a: CallId) returns (c: CallId, h: CallId)
    requires Sound(s) && SeekersTogether(s, k) && Enabled(s, x) && Sweeps(s, x, k)
    requires a in s.calls && a != x.id && s.calls[a].key == k && s.calls[a].phase.Seeks()
    ensures var u := Next(s, x);
      && c in u.calls && u.calls[c].key == k && u.calls[c].phase.Seeks()
      && (WillProbe(u, c)
          || (u.calls[c].phase.Waiting? && h in u.calls && u.calls[h].phase.Holds()
              && u.calls[h].phase.lock == u.calls[c].phase.lock && !u.calls[h].phase.Seeks()))
  {
    var u := Next(s, x);
    c, h := a, a;
    assert u.calls[a] == s.calls[a];
    if !WillProbe(u, a) {
      var lock := s.calls[a].phase.lock;
      h :| h in u.calls && u.calls[h].phase.Holds() && u.calls[h].phase.lock == lock;
      assert h in s.calls && s.calls[h].phase.Holds() && s.calls[h].phase.lock == lock;
      assert OnTableLock(s, a) && CallOk(s, s.calls[h]);
      if u.calls[h].phase.Seeks() {
        c := h;
      }
    }
  }

  lemma SweptIsGone(s: State, x: Action, k: Key, b: CallId)
    requires Enabled(s, x) && Sweeps(s, x, k) && b !in s.calls
    ensures k !in Next(s, x).cache && k !in Next(s, x).locks && b !in Next(s, x).calls
  {
  }

  /** Whenever a sweep takes the lock of `k` from a call that may still probe or is probing, some continuation has two
      calls probing the same device token at once: so the condition of `SingleFlight` is exact. */
  lemma OrphaningBreaksSingleFlight(s: State, x: Action, k: Key, b: CallId) returns (t: State, c: CallId)
    requires Sound(s) && SeekersTogether(s, k) && Enabled(s, x) && OrphansProber(s, x, k) && k != "" && b !in s.calls
    ensures Leads(Next(s, x), t) && TwoProbe(t, k, c, b)
  {
    var u := Next(s, x);
    var a :| a in s.calls && a != x.id && s.calls[a].key == k && s.calls[a].phase.Seeks();
    var h;
    c, h := SeekerOrHolder(s, x, k, a);
    StepKeepsSound(s, x);
    SweptIsGone(s, x, k, b);
    if WillProbe(u, c) {
      t := SeekerAndNewcomer(u, k, c, b);
    } else {
      t := WaiterAndNewcomer(u, k, h, c, b);
    }
  }

  const EMPTY: State := State(0, map[], map[], 0, map[], [])

  lemma FirstProbing() returns (t: State)
    ensures Init(EMPTY) && Leads(EMPTY, t) && Sound(t) && t.now == 0 && t.cache == map[] && t.locks == map["a" := 0]
    ensures t.calls.Keys == {0} && t.calls[0].key == "a" && t.calls[0].phase.Probing?
  {
    t := GoProbe(EMPTY, "a", 0);
  }

  /** From an empty manager: "a" obtains a one-hour token. */
  lemma TokenStored() returns (t: State)
    ensures Init(EMPTY) && Leads(EMPTY, t) && Sound(t) && t.now == 0 && t.calls == map[0 := Call("a", Done("tok-a"))]
    ensures t.cache == map["a" := Entry("tok-a", HOUR, false, ZERO_TIME)] && t.locks == map["a" := 0]
  {
    var s := FirstProbing();
    t := GoIssue(s, 0, "tok-a", HOUR);
    LeadsOn(EMPTY, s, t);
  }

  /** Two hours later call 1 is refreshing it. */
  lemma RefreshUnderWay() returns (t: State)
    ensures Leads(EMPTY, t) && Sound(t)
    ensures t.now == 2 * HOUR && t.cache == map["a" := Entry("tok-a", HOUR, false, ZERO_TIME)]
    ensures t.locks == map["a" := 0]
    ensures t.calls.Keys == {0, 1} && t.calls[0].phase.Done? && t.calls[1].key == "a" && t.calls[1].phase.Probing?
  {
    var s0 := TokenStored();
    var s := s0.(now := 2 * HOUR);
    LeadsNowhere(s);
    LeadsFirst(s0, Tick(2 * HOUR), s);
    LeadsKeepsSound(s0, s);
    t := GoProbe(s, "a", 1);
    LeadsOn(EMPTY, s0, s);
    LeadsOn(EMPTY, s, t);
  }

  lemma SecondKeyProbing() returns (t: State)
    ensures Leads(EMPTY, t) && Sound(t) && t.now == 2 * HOUR
    ensures t.cache == map["a" := Entry("tok-a", HOUR, false, ZERO_TIME)]
    ensures 3 !in t.calls && 2 in t.calls && t.calls[2].key == "b" && t.calls[2].phase.Probing?
    ensures 1 in t.calls && t.calls[1].key == "a" && t.calls[1].phase.Probing?
  {
    var s := RefreshUnderWay();
    t := GoProbe(s, "b", 2);
    LeadsOn(EMPTY, s, t);
  }

  /** Meanwhile "b" is about to store its first token. */
  lemma StoreUnderWay() returns (t: State)
    ensures Leads(EMPTY, t) && Sound(t) && 3 !in t.calls
    ensures Enabled(t, Advance(2)) && Sweeps(t, Advance(2), "a")
    ensures 1 in t.calls && t.calls[1].key == "a" && t.calls[1].phase.Probing?
  {
    var s := SecondKeyProbing();
    t := GoUntilPut(s, 2, "tok-b", 1000 * HOUR);
    assert t.cache["b" := t.calls[2].phase.entry]["a"].expires == HOUR;
    LeadsOn(EMPTY, s, t);
    LeadsKeepsSound(s, t);
  }

  /** That store sweeps "a" away with its lock, and the next caller for "a", call 3, probes alongside call 1. So the
      condition of `SingleFlight` is needed from an empty manager on. */
  lemma DoubleProbeReachable() returns (t: State)
    ensures Init(EMPTY) && Leads(EMPTY, t)
    ensures 1 in t.calls && t.calls[1].key == "a" && t.calls[1].phase.Probing?
    ensures 3 in t.calls && t.calls[3].key == "a" && t.calls[3].phase.Probing?
  {
    var s := StoreUnderWay();
    StepKeepsSound(s, Advance(2));
    t := SeekerAndNewcomer(Next(s, Advance(2)), "a", 1, 3);
    LeadsFirst(s, Advance(2), t);
    LeadsOn(EMPTY, s, t);
  }

  // ---------------------------------------------------------------- dropped cooldowns

  /** Some probe of `k` is under way. */
  ghost predicate Probed(s: State, k: Key) {
    exists c :: c in s.calls && s.calls[c].key == k && s.calls[c].phase.Probing?
  }

  /** Once the entry of `k` is gone and its lock can be had, a newcomer probes at that very instant. */
  lemma NewcomerProbes(s: State, k: Key, b: CallId) returns (t: State)
    requires Sound(s) && k != "" && b !in s.calls && k !in s.cache && Available(s, k)
    ensures Leads(s, t) && t.log == s.log + [ProbeStart(k, s.now, false)] && Probed(t, k)
  {
    t := GoProbe(s, k, b);
    assert t.calls[b].key == k;
  }

  /** A sweep drops entry and lock, an invalidation the entry only. */
  lemma DroppedIsProbed(s: State, x: Action, k: Key, b: CallId) returns (t: State)
    requires Sound(s) && Enabled(s, x) && k != "" && b !in s.calls
    requires Sweeps(s, x, k) || (x == Invalidate(k) && Available(s, k))
    ensures Leads(Next(s, x), t) && t.log == s.log + [ProbeStart(k, s.now, false)] && Probed(t, k)
  {
    StepKeepsSound(s, x);
    t := NewcomerProbes(Next(s, x), k, b);
  }

  /** The same after an invalidation with the lock held, if the holder has no probe in flight: a seeker probes itself,
      a call past its probe gives the lock free. */
  lemma HolderOrNewcomerProbes(s: State, k: Key, h: CallId, b: CallId) returns (t: State)
    requires Sound(s) && k != "" && b !in s.calls && k !in s.cache
    requires h in s.calls && s.calls[h].key == k && s.calls[h].phase.Holds() && !InFlight(s.calls[h].phase)
    requires k in s.locks && s.calls[h].phase.lock == s.locks[k]
    ensures Leads(s, t) && t.log == s.log + [ProbeStart(k, s.now, false)] && Probed(t, k)
  {
    if s.calls[h].phase.Seeks() {
      t := DriveToProbe(s, h);
      assert t.calls[h].key == k;
    } else {
      var u := Next(s, Advance(h));
      StepKeepsSound(s, Advance(h));
      assert Free(u, s.locks[k]);
      LeadsNowhere(u);
      LeadsFirst(s, Advance(h), u);
      t := NewcomerProbes(u, k, b);
      LeadsOn(s, u, t);
    }
  }

  /** After an invalidation that finds nobody in flight on `k` a continuation probes at that very instant, whoever holds
      the lock. */
  lemma InvalidatedIsProbed(s: State, k: Key, b: CallId) returns (t: State)
    requires Sound(s) && Grounded(s, k) && k != "" && b !in s.calls
    ensures Leads(Next(s, Invalidate(k)), t) && t.log == s.log + [ProbeStart(k, s.now, false)] && Probed(t, k)
  {
    if Available(s, k) {
      t := DroppedIsProbed(s, Invalidate(k), k, b);
    } else {
      var h :| h in s.calls && s.calls[h].phase.Holds() && s.calls[h].phase.lock == s.locks[k];
      assert CallOk(s, s.calls[h]);
      StepKeepsSound(s, Invalidate(k));
      t := HolderOrNewcomerProbes(Next(s, Invalidate(k)), k, h, b);
    }
  }

  /** So an invalidation ends the sharing of an outcome at once: the condition of `FreshTokenShared` on invalidations is
      exact. */
  lemma InvalidationEndsSharing(s: State, k: Key, e: Entry, past: set<CallId>, b: CallId) returns (t: State)
    requires Sound(s) && Settled(s, k, e, past) && k != "" && b !in s.calls
    ensures Leads(Next(s, Invalidate(k)), t) && t.log == s.log + [ProbeStart(k, s.now, false)] && Probed(t, k)
  {
    t := InvalidatedIsProbed(s, k, b);
  }

  lemma StartNotSpaced(log: seq<Event>, e: Event, k: Key, base: nat)
    requires base <= |log| && e.ProbeStart? && e.key == k && e.at < NextAllowed(log[base..], k)
    ensures !Spaced((log + [e])[base..], k)
  {
    var tail, j := (log + [e])[base..], |log| - base;
    assert tail == log[base..] + [e];
    assert tail[..j] == log[base..] && tail[j] == e;
  }

  /** Whenever a step forgets the entry that holds the next probe of `k` back, a continuation probes at that very
      instant, before the bound: so the condition on drops in `ProbesAreSpaced` is exact. */
  lemma ForgottenIsProbedTooSoon(s: State, x: Action, k: Key, base: nat, b: CallId) returns (t: State)
    requires Good(s, k, base) && Enabled(s, x) && Forgets(s, x, k, base) && b !in s.calls
    ensures Leads(Next(s, x), t) && t.log == s.log + [ProbeStart(k, s.now, false)] && s.now < Allowed(s, k, base)
    ensures !Spaced(t.log[base..], k)
  {
    if x.Invalidate? {
      t := InvalidatedIsProbed(s, k, b);
    } else {
      t := DroppedIsProbed(s, x, k, b);
    }
    StartNotSpaced(s.log, ProbeStart(k, s.now, false), k, base);
  }

  /** After a first failure the entry has no expiry, so any `put` drops it, and its cooldown with it. */
  lemma FirstFailureIsSwept(s: State, k: Key, p: CallId)
    requires k in s.cache && s.cache[k].expires == ZERO_TIME
    requires p in s.calls && s.calls[p].phase.Putting? && s.calls[p].key != k && s.calls[p].phase.t > ZERO_TIME
    ensures Sweeps(s, Advance(p), k) && Lookup(Step(s, p).cache, k) == NO_ENTRY
  {
  }

  /** So after a first failure any store for another key can be followed by a probe at that very instant. */
  lemma FirstFailureIsProbedAgain(s: State, k: Key, p: CallId, b: CallId) returns (t: State)
    requires Sound(s) && k != "" && b !in s.calls && k in s.cache && s.cache[k].expires == ZERO_TIME
    requires p in s.calls && s.calls[p].phase.Putting? && s.calls[p].key != k && s.calls[p].phase.t > ZERO_TIME
    ensures Leads(Step(s, p), t) && t.log == s.log + [ProbeStart(k, s.now, false)]
  {
    FirstFailureIsSwept(s, k, p);
    t := DroppedIsProbed(s, Advance(p), k, b);
  }

  lemma FailureRecorded() returns (t: State)
    ensures Init(EMPTY) && Leads(EMPTY, t) && Sound(t) && t.now == 0 && t.calls.Keys == {0} && t.calls[0].phase.Done?
    ensures t.cache == map["a" := NO_ENTRY.(lastFailure := 0)] && t.locks == map["a" := 0]
    ensures t.log == [ProbeStart("a", 0, false), ProbeEnd("a", 0, Failure)]
  {
    var s := GoProbe(EMPTY, "a", 0);
    t := GoFail(s, 0);
    LeadsOn(EMPTY, s, t);
  }

  lemma FailureThenSecondKey() returns (t: State)
    ensures Leads(EMPTY, t) && Sound(t) && t.now == 0
    ensures t.calls.Keys == {0, 1} && t.calls[1].key == "b" && t.calls[1].phase.Probing?
    ensures t.cache == map["a" := NO_ENTRY.(lastFailure := 0)]
    ensures t.log == [ProbeStart("a", 0, false), ProbeEnd("a", 0, Failure), ProbeStart("b", 0, false)]
  {
    var s := FailureRecorded();
    t := GoProbe(s, "b", 1);
    LeadsOn(EMPTY, s, t);
  }

  lemma FailureSwept() returns (t: State)
    ensures Leads(EMPTY, t) && Sound(t) && t.now == 0 && t.calls.Keys == {0, 1} && "a" !in t.cache && "a" !in t.locks
    ensures t.log == [ProbeStart("a", 0, false), ProbeEnd("a", 0, Failure),
                      ProbeStart("b", 0, false), ProbeEnd("b", 0, Reply("tok-b", DAY))]
  {
    var s := FailureThenSecondKey();
    t := GoIssue(s, 1, "tok-b", DAY);
    assert "a" in Expired(s.cache["b" := Entry("tok-b", DAY, false, ZERO_TIME)], 0);
    LeadsOn(EMPTY, s, t);
  }

  /** From an empty manager, without an invalidation: the probe for "a" fails, "b" stores its first token, and "a"
      is probed again in the same instant. So the bounds on probes need the entry not to be swept. */
  lemma CooldownLostReachable() returns (t: State)
    ensures Init(EMPTY) && Leads(EMPTY, t)
    ensures t.log == [
      ProbeStart("a", 0, false), ProbeEnd("a", 0, Failure),
      ProbeStart("b", 0, false), ProbeEnd("b", 0, Reply("tok-b", DAY)),
      ProbeStart("a", 0, false)]
  {
    var s := FailureSwept();
    t := GoProbe(s, "a", 2);
    LeadsOn(EMPTY, s, t);
  }

  // ---------------------------------------------------------------- tokens that come back

  /** A log that grew by nothing but starts and failures brought no token. */
  lemma NothingIssued(log: seq<Event>, more: seq<Event>, k: Key, token: string)
    requires token != "" && forall i | 0 <= i < |more| :: more[i].ProbeStart? || more[i].answer.Failure?
    ensures !TokenOk(log + more, |log|, k, token)
  {
    forall j | |log| <= j < |log + more|
      ensures (log + more)[j] == more[j - |log|]
    {
    }
  }

  lemma ReadyFails(s: State, p: CallId) returns (t: State)
    requires Sound(s) && p in s.calls && s.calls[p].phase.Ready?
    ensures Leads(s, t) && p in t.calls && t.calls[p] == Call(s.calls[p].key, Done(s.calls[p].phase.Carried()))
    ensures var k := s.calls[p].key;
      t.log == s.log + [ProbeStart(k, s.now, k in s.cache)] + [ProbeEnd(k, s.now, Failure)]
  {
    var u := Next(s, Advance(p));
    StepKeepsSound(s, Advance(p));
    t := GoFail(u, p);
    LeadsFirst(s, Advance(p), t);
  }

  /** A call about to probe probes, fails, and returns the token it has in hand. */
  lemma ReadyReturns(s: State, p: CallId) returns (t: State)
    requires Sound(s) && p in s.calls && s.calls[p].phase.Ready? && s.calls[p].phase.Carried() != ""
    ensures Leads(s, t) && p in t.calls && t.calls[p] == Call(s.calls[p].key, Done(s.calls[p].phase.Carried()))
    ensures !TokenOk(t.log, |s.log|, s.calls[p].key, s.calls[p].phase.Carried())
  {
    var k := s.calls[p].key;
    t := ReadyFails(s, p);
    var more := [ProbeStart(k, s.now, k in s.cache), ProbeEnd(k, s.now, Failure)];
    assert t.log == s.log + more;
    NothingIssued(s.log, more, k, s.calls[p].phase.Carried());
  }

  /** Any call that carries a token and is not over can return it with nothing issued in between. */
  lemma CarrierReturns(s: State, p: CallId) returns (t: State)
    requires Sound(s) && p in s.calls && !Over(s, p) && s.calls[p].phase.Carried() != ""
    ensures Leads(s, t) && p in t.calls && t.calls[p] == Call(s.calls[p].key, Done(s.calls[p].phase.Carried()))
    ensures !TokenOk(t.log, |s.log|, s.calls[p].key, s.calls[p].phase.Carried())
  {
    var k, token := s.calls[p].key, s.calls[p].phase.Carried();
    match s.calls[p].phase {
      case Ready(_, _) =>
        t := ReadyReturns(s, p);
      case Probing(_, _) =>
        t := GoFail(s, p);
        NothingIssued(s.log, [ProbeEnd(k, s.now, Failure)], k, token);
      case Failing(_, _, _) =>
        t := GoRecord(s, p);
        NothingIssued(s.log, [], k, token);
      case Storing(_, _) =>
        var u := Next(s, Advance(p));
        LeadsNowhere(u);
        LeadsFirst(s, Advance(p), u);
        t := GoWrite(u, p);
        LeadsOn(s, u, t);
        NothingIssued(s.log, [], k, token);
      case Putting(_, _, _) =>
        t := GoWrite(s, p);
        NothingIssued(s.log, [], k, token);
    }
  }

  /** Whenever some unfinished call carries a token as `k` is invalidated, a continuation has that call return it
      afterwards, although nothing was issued since: so the condition of `InvalidateTakesEffect` is exact. */
  lemma CarriedTokenComesBack(s: State, k: Key) returns (t: State, p: CallId)
    requires Sound(s) && k != "" && CarriesToken(s, k)
    ensures Leads(Next(s, Invalidate(k)), t)
    ensures p in s.calls && !Over(s, p) && p in t.calls && t.calls[p].key == k && t.calls[p].phase.Done?
    ensures !TokenOk(t.log, |s.log|, k, t.calls[p].phase.result)
  {
    StepKeepsSound(s, Invalidate(k));
    p :| p in s.calls && s.calls[p].key == k && !Over(s, p) && s.calls[p].phase.Carried() != "";
    t := CarrierReturns(Next(s, Invalidate(k)), p);
  }

  /** A cached token, live or not, can be served to a newcomer: from the cache, in the cooldown, or after a failed
      refresh. */
  lemma CachedTokenIsServed(s: State, k: Key, b: CallId) returns (t: State)
    requires Sound(s) && k != "" && b !in s.calls && Available(s, k) && k in s.cache
    ensures Leads(s, t) && b in t.calls && t.calls[b] == Call(k, Done(s.cache[k].token))
  {
    if Hit(s.cache, k, s.now) {
      t := ServedFromCache(s, k, b);
    } else if InCooldown(s.cache[k], s.now) {
      t := ServedInCooldown(s, k, b);
    } else {
      var m := GoProbe(s, k, b);
      t := GoFail(m, b);
      LeadsOn(s, m, t);
    }
  }

  /** Whoever probes `k` under its lock is the only holder, so once it is done the lock is available. */
  lemma ProberDoneFreesLock(s: State, s': State, k: Key, p: CallId)
    requires Sound(s) && OneLock(s, k) && p in s.calls && s.calls[p].key == k && s.calls[p].phase.Probing?
    requires s'.locks == s.locks && p in s'.calls && s'.calls[p].phase.Done? && s'.calls == s.calls[p := s'.calls[p]]
    ensures Available(s', k)
  {
    assert s.calls[p].phase.Holds() && s.calls[p].phase.Busy();
  }

  /** Even a call that enters only afterwards can get the old token: if a probe that started from it is in flight when
      `k` is invalidated, the failing probe writes it back. */
  lemma InvalidatedTokenComesBack(s: State, k: Key, p: CallId, b: CallId) returns (t: State)
    requires Sound(s) && OneLock(s, k) && k != "" && b !in s.calls
    requires p in s.calls && s.calls[p].key == k && s.calls[p].phase.Probing? && s.calls[p].phase.prior.token != ""
    ensures CarriesToken(s, k) && Leads(Next(s, Invalidate(k)), t)
    ensures b in t.calls && t.calls[b] == Call(k, Done(s.calls[p].phase.prior.token))
  {
    assert s.calls[p].phase.Carried() != "";
    var u := Next(s, Invalidate(k));
    StepKeepsSound(s, Invalidate(k));
    var v := GoFail(u, p);
    ProberDoneFreesLock(s, v, k, p);
    t := CachedTokenIsServed(v, k, b);
    LeadsOn(u, v, t);
  }
}
