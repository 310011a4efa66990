/** The attestation cache of internal/upstream/attestation.go as a machine over interleavings.

One step is one critical section (or one lock operation, or one clock reading outside a critical section) of
one `Token` call, one `Invalidate`, or a passage of time. Any number of calls may be under way. */
module AttestationMachine {
  import opened Clock

  type Key = string
  type CallId = nat
  type LockId = nat

  const REFRESH_SKEW: int := 24 * HOUR
  const FAIL_COOLDOWN: int := 30 * SECOND
  const NOT_ISSUED_TTL: int := HOUR

  // ---------------------------------------------------------------- cache entries

  datatype Entry = Entry(token: string, expires: int, notIssued: bool, lastFailure: int)

  /** What Go's `m.cache[key]` yields for an absent key. */
  const NO_ENTRY: Entry := Entry("", ZERO_TIME, false, ZERO_TIME)

  predicate Usable(e: Entry, now: int) {
    if e.notIssued then now < e.expires else e.token != "" && now + REFRESH_SKEW < e.expires
  }

  predicate InCooldown(e: Entry, now: int) {
    e.lastFailure != ZERO_TIME && now - e.lastFailure < FAIL_COOLDOWN
  }

  type Cache = map<Key, Entry>
  type Locks = map<Key, LockId>

  function Lookup(cache: Cache, key: Key): Entry {
    if key in cache then cache[key] else NO_ENTRY
  }

  predicate Hit(cache: Cache, key: Key, now: int) {
    key in cache && Usable(cache[key], now)
  }

  /** The keys `put` sweeps away at time `t`, from the cache it has just written. */
  function Expired(cache: Cache, t: int): set<Key> {
    set k | k in cache && t > cache[k].expires
  }

  function PutCache(cache: Cache, key: Key, e: Entry, t: int): Cache {
    var written := cache[key := e];
    written - Expired(written, t)
  }

  function PutLocks(cache: Cache, locks: Locks, key: Key, e: Entry, t: int): Locks {
    locks - Expired(cache[key := e], t)
  }

  // ---------------------------------------------------------------- calls in progress

  /** What the gateway's GET /v1/models gave: an error, or a reply whose token is empty when none was issued. */
  datatype Answer = Failure | Reply(token: string, expires: int)

  /** Where a `Token` call stands, with the local variables that are live there. */
  datatype Phase =
    | Start                                      // before the fast-path lookup
    | WantLock                                   // fast path missed, before lockFor
    | Waiting(lock: LockId)                      // blocked in l.Lock()
    | Locked(lock: LockId)                       // holds the lock, before the second lookup
    | Missed(lock: LockId)                       // second lookup missed, before reading the clock
    | Clocked(lock: LockId, t: int)              // clock read, before reading the old entry
    | Ready(lock: LockId, prior: Entry)            // not in cooldown, before auxUA and the probe
    | Probing(lock: LockId, prior: Entry)          // GET /v1/models in flight
    | Failing(lock: LockId, prior: Entry, t: int)  // recordFailure: clock read, before the write
    | Storing(lock: LockId, entry: Entry)        // entry built, before put reads the clock
    | Putting(lock: LockId, entry: Entry, t: int) // put: clock read, before write and sweep
    | Releasing(lock: LockId, result: string)    // before the deferred l.Unlock()
    | Done(result: string)
  {
    predicate HasLock() {
      !Start? && !WantLock? && !Done?
    }

    predicate Holds() {
      HasLock() && !Waiting?
    }

    /** Waiting for the lock, or holding it with work left that reads or writes the entry. */
    predicate Busy() {
      HasLock() && !Releasing?
    }

    /** Waiting for the lock, or holding it with its probe still to come or in flight. */
    predicate Seeks() {
      Busy() && !Failing? && !Storing? && !Putting?
    }

    /** The token this call would still return or store, "" if it carries none. */
    function Carried(): string {
      match this
      case Ready(_, prior) => prior.token
      case Probing(_, prior) => prior.token
      case Failing(_, prior, _) => prior.token
      case Storing(_, e) => e.token
      case Putting(_, e, _) => e.token
      case Releasing(_, r) => r
      case Done(r) => r
      case _ => ""
    }
  }

  datatype Call = Call(key: Key, phase: Phase)

  /** What the outside could observe of the probes; `seen` decides the User-Agent (auxUA). */
  datatype Event =
    | ProbeStart(key: Key, at: int, seen: bool)
    | ProbeEnd(key: Key, at: int, answer: Answer)

  datatype State = State(
    now: int,
    cache: Cache,
    locks: Locks,
    nextLock: LockId,
    calls: map<CallId, Call>,
    log: seq<Event>)

  datatype Action =
    | Tick(d: nat)
    | Invalidate(key: Key)
    | Enter(id: CallId, key: Key)
    | Advance(id: CallId)
    | Respond(id: CallId, answer: Answer)

  ghost predicate Init(s: State) {
    s.now > ZERO_TIME && s.cache == map[] && s.locks == map[] && s.calls == map[] && s.log == []
  }

  // ---------------------------------------------------------------- steps

  predicate Free(s: State, lock: LockId) {
    forall id | id in s.calls :: !(s.calls[id].phase.Holds() && s.calls[id].phase.lock == lock)
  }

  predicate Enabled(s: State, a: Action) {
    match a
    case Tick(_) => true
    case Invalidate(_) => true
    case Enter(id, _) => id !in s.calls
    case Advance(id) =>
      && id in s.calls
      && !s.calls[id].phase.Done?
      && !s.calls[id].phase.Probing?
      && (s.calls[id].phase.Waiting? ==> Free(s, s.calls[id].phase.lock))
    case Respond(id, _) => id in s.calls && s.calls[id].phase.Probing?
  }

  function Move(s: State, id: CallId, p: Phase): State
    requires id in s.calls
  {
    s.(calls := s.calls[id := Call(s.calls[id].key, p)])
  }

  function Next(s: State, a: Action): State
    requires Enabled(s, a)
  {
    match a
    case Tick(d) => s.(now := s.now + d)
    case Invalidate(key) => if key == "" then s else s.(cache := s.cache - {key})
    case Enter(id, key) => s.(calls := s.calls[id := Call(key, if key == "" then Done("") else Start)])
    case Advance(id) => Step(s, id)
    case Respond(id, answer) =>
      var Call(key, Probing(lock, prior)) := s.calls[id];
      var s' := s.(log := s.log + [ProbeEnd(key, s.now, answer)]);
      Move(s', id, AfterAnswer(lock, prior, answer, s.now))
  }

  function AfterAnswer(lock: LockId, prior: Entry, answer: Answer, now: int): Phase {
    match answer
    case Failure => Failing(lock, prior, now)
    case Reply(token, expires) =>
      if token == ""
      then Storing(lock, Entry("", now + NOT_ISSUED_TTL, true, ZERO_TIME))
      else Storing(lock, Entry(token, expires, false, ZERO_TIME))
  }

  function Step(s: State, id: CallId): State
    requires Enabled(s, Advance(id))
  {
    var key := s.calls[id].key;
    match s.calls[id].phase
    case Start =>
      Move(s, id, if Hit(s.cache, key, s.now) then Done(s.cache[key].token) else WantLock)
    case WantLock =>
      if key in s.locks then Move(s, id, Waiting(s.locks[key]))
      else Move(s.(locks := s.locks[key := s.nextLock], nextLock := s.nextLock + 1), id, Waiting(s.nextLock))
    case Waiting(lock) =>
      Move(s, id, Locked(lock))
    case Locked(lock) =>
      Move(s, id, if Hit(s.cache, key, s.now) then Releasing(lock, s.cache[key].token) else Missed(lock))
    case Missed(lock) =>
      Move(s, id, Clocked(lock, s.now))
    case Clocked(lock, t) =>
      var prior := Lookup(s.cache, key);
      Move(s, id, if InCooldown(prior, t) then Releasing(lock, prior.token) else Ready(lock, prior))
    case Ready(lock, prior) =>
      Move(s.(log := s.log + [ProbeStart(key, s.now, key in s.cache)]), id, Probing(lock, prior))
    case Failing(lock, prior, t) =>
      Move(s.(cache := s.cache[key := prior.(lastFailure := t)]), id, Releasing(lock, prior.token))
    case Storing(lock, e) =>
      Move(s, id, Putting(lock, e, s.now))
    case Putting(lock, e, t) =>
      Move(s.(cache := PutCache(s.cache, key, e, t), locks := PutLocks(s.cache, s.locks, key, e, t)),
           id, Releasing(lock, e.token))
    case Releasing(_, result) =>
      Move(s, id, Done(result))
  }

  /** The sweep in this step drops `k` from the cache (and the lock table). */
  predicate Sweeps(s: State, a: Action, k: Key) {
    && a.Advance? && a.id in s.calls && s.calls[a.id].phase.Putting?
    && var c := s.calls[a.id];
    && k in Expired(s.cache[c.key := c.phase.entry], c.phase.t)
  }

  /** The sweep drops the lock of `k` while a call other than the sweeping one waits for it or works under it. */
  predicate OrphansLock(s: State, a: Action, k: Key) {
    && Sweeps(s, a, k)
    && exists id | id in s.calls :: id != a.id && s.calls[id].key == k && s.calls[id].phase.Busy()
  }

  /** The sweep drops the lock of `k` while a call other than the sweeping one may still probe, or is probing. */
  predicate OrphansProber(s: State, a: Action, k: Key) {
    && Sweeps(s, a, k)
    && exists id | id in s.calls :: id != a.id && s.calls[id].key == k && s.calls[id].phase.Seeks()
  }

  /** The entry of `k` is dropped, by `Invalidate` or by a sweep. */
  predicate Drops(s: State, a: Action, k: Key) {
    (a == Invalidate(k) && k != "") || Sweeps(s, a, k)
  }

  // ---------------------------------------------------------------- runs

  datatype Run = Run(states: seq<State>, acts: seq<Action>)

  ghost predicate ValidRun(r: Run) {
    && |r.states| == |r.acts| + 1
    && forall i {:trigger r.acts[i]} | 0 <= i < |r.acts| ::
      Enabled(r.states[i], r.acts[i]) && r.states[i + 1] == Next(r.states[i], r.acts[i])
  }

  // ---------------------------------------------------------------- continuations

  /** A finite schedule with the states it passes through; it invalidates nothing. */
  datatype Script = End | Do(a: Action, next: State, rest: Script)

  ghost predicate Follows(s: State, sc: Script)
    decreases sc
  {
    match sc
    case End => true
    case Do(a, t, rest) => Enabled(s, a) && !a.Invalidate? && Next(s, a) == t && Follows(t, rest)
  }

  function EndOf(s: State, sc: Script): State
    decreases sc
  {
    match sc
    case End => s
    case Do(_, t, rest) => EndOf(t, rest)
  }

  /** Some schedule without invalidations takes `s` to `t`. */
  ghost predicate Leads(s: State, t: State) {
    exists sc :: Follows(s, sc) && EndOf(s, sc) == t
  }

  /** A step of time, or of a call on `k`. */
  predicate Own(s: State, a: Action, k: Key) {
    match a
    case Tick(_) => true
    case Invalidate(_) => false
    case Enter(_, key) => key == k
    case Advance(id) => id in s.calls && s.calls[id].key == k
    case Respond(id, _) => id in s.calls && s.calls[id].key == k
  }

  ghost predicate Owned(s: State, sc: Script, k: Key)
    decreases sc
  {
    match sc
    case End => true
    case Do(a, t, rest) => Own(s, a, k) && Owned(t, rest, k)
  }

  /** Some schedule in which nobody moves but calls on `k` takes `s` to `t`. */
  ghost predicate LeadsBy(s: State, t: State, k: Key) {
    exists sc :: Follows(s, sc) && EndOf(s, sc) == t && Owned(s, sc, k)
  }

  lemma LeadsNowhere(s: State)
    ensures Leads(s, s)
  {
    assert Follows(s, End) && EndOf(s, End) == s;
  }

  lemma LeadsFirst(s: State, a: Action, t: State)
    requires Enabled(s, a) && !a.Invalidate? && Leads(Next(s, a), t)
    ensures Leads(s, t)
  {
    var sc :| Follows(Next(s, a), sc) && EndOf(Next(s, a), sc) == t;
    assert Follows(s, Do(a, Next(s, a), sc)) && EndOf(s, Do(a, Next(s, a), sc)) == t;
  }

  lemma {:induction false} FollowsOn(s: State, sc: Script, u: State)
    requires Follows(s, sc) && Leads(EndOf(s, sc), u)
    ensures Leads(s, u)
    decreases sc
  {
    if sc.Do? {
      FollowsOn(sc.next, sc.rest, u);
      LeadsFirst(s, sc.a, u);
    }
  }

  lemma LeadsOn(s: State, t: State, u: State)
    requires Leads(s, t) && Leads(t, u)
    ensures Leads(s, u)
  {
    var sc :| Follows(s, sc) && EndOf(s, sc) == t;
    FollowsOn(s, sc, u);
  }

  lemma LeadsByNowhere(s: State, k: Key)
    ensures LeadsBy(s, s, k)
  {
    assert Follows(s, End) && EndOf(s, End) == s && Owned(s, End, k);
  }

  lemma LeadsByFirst(s: State, a: Action, t: State, k: Key)
    requires Enabled(s, a) && Own(s, a, k) && LeadsBy(Next(s, a), t, k)
    ensures LeadsBy(s, t, k)
  {
    var u := Next(s, a);
    var sc :| Follows(u, sc) && EndOf(u, sc) == t && Owned(u, sc, k);
    assert Follows(s, Do(a, u, sc)) && EndOf(s, Do(a, u, sc)) == t && Owned(s, Do(a, u, sc), k);
  }

  /** One step. */
  lemma LeadsByStep(s: State, a: Action, k: Key)
    requires Enabled(s, a) && Own(s, a, k)
    ensures LeadsBy(s, Next(s, a), k)
  {
    LeadsByNowhere(Next(s, a), k);
    LeadsByFirst(s, a, Next(s, a), k);
  }

  lemma {:induction false} OwnedOn(s: State, sc: Script, u: State, k: Key)
    requires Follows(s, sc) && Owned(s, sc, k) && LeadsBy(EndOf(s, sc), u, k)
    ensures LeadsBy(s, u, k)
    decreases sc
  {
    if sc.Do? {
      OwnedOn(sc.next, sc.rest, u, k);
      LeadsByFirst(s, sc.a, u, k);
    }
  }

  lemma LeadsByOn(s: State, t: State, u: State, k: Key)
    requires LeadsBy(s, t, k) && LeadsBy(t, u, k)
    ensures LeadsBy(s, u, k)
  {
    var sc :| Follows(s, sc) && EndOf(s, sc) == t && Owned(s, sc, k);
    OwnedOn(s, sc, u, k);
  }

  /** A schedule is the tail of a run: whatever run ends in `s` can be continued to `t`. */
  lemma {:induction false} RunFollows(r: Run, sc: Script) returns (longer: Run)
    requires ValidRun(r) && Follows(r.states[|r.acts|], sc)
    ensures ValidRun(longer) && r.states <= longer.states && r.acts <= longer.acts
    ensures longer.states[|longer.acts|] == EndOf(r.states[|r.acts|], sc)
    decreases sc
  {
    match sc
    case End => longer := r;
    case Do(a, t, rest) =>
      longer := Run(r.states + [t], r.acts + [a]);
      longer := RunFollows(longer, rest);
  }
}
