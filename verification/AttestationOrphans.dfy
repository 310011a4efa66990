/** Every sweep that takes a lock in use away has continuations in which probes come too soon, in which the hour after
"not issued" is not kept and in which a fresh token is not shared, whatever the orphaned call is doing. */
module AttestationOrphans {
  import opened AttestationLimits
  import opened AttestationMachine
  import opened AttestationRates
  import opened AttestationSafety
  import opened AttestationSchedules
  import opened Clock

  // ---------------------------------------------------------------- the orphan with its write still to come

  /** This call on `k` is past its probe, and its entry is not written yet. */
  ghost predicate PastProbe(s: State, k: Key, c: CallId) {
    && c in s.calls && s.calls[c].key == k
    && (s.calls[c].phase.Failing? || s.calls[c].phase.Storing? || s.calls[c].phase.Putting?)
  }

  /** ... and its next step is the write. */
  ghost predicate Pending(s: State, k: Key, c: CallId) {
    c in s.calls && s.calls[c].key == k && (s.calls[c].phase.Failing? || s.calls[c].phase.Putting?)
  }

  /** The entry a pending call will write. */
  function Write(p: Phase): Entry
    requires p.Failing? || p.Putting?
  {
    if p.Failing? then p.prior.(lastFailure := p.t) else p.entry
  }

  /** This entry neither answers a call at `now` nor holds it back. */
  predicate Idle(e: Entry, now: int) {
    !Usable(e, now) && !InCooldown(e, now)
  }

  /** All probes answered since log position `n` failed. */
  ghost predicate OnlyFailures(log: seq<Event>, n: nat) {
    forall j | n <= j < |log| && log[j].ProbeEnd? :: log[j].answer.Failure?
  }

  /** Who holds the lock that the orphan `a` waits for. */
  lemma HolderOf(s: State, x: Action, k: Key, a: CallId) returns (h: CallId)
    requires Sound(s) && OneLock(s, k) && Enabled(s, x) && Sweeps(s, x, k)
    requires a in s.calls && a != x.id && s.calls[a].key == k && s.calls[a].phase.Waiting?
    requires !Free(Next(s, x), s.calls[a].phase.lock)
    ensures var u := Next(s, x);
      h in u.calls && u.calls[h].key == k && u.calls[h].phase.Holds() && u.calls[h].phase.lock == s.calls[a].phase.lock
  {
    var u, lock := Next(s, x), s.calls[a].phase.lock;
    h :| h in u.calls && u.calls[h].phase.Holds() && u.calls[h].phase.lock == lock;
    assert h in s.calls && s.calls[h].phase.Holds() && s.calls[h].phase.lock == lock;
    assert OnTableLock(s, a) && CallOk(s, s.calls[h]);
  }

  /** Once the holder of a lock is releasing it, the lock is free. */
  lemma ReleaseFrees(s: State, h: CallId)
    requires Sound(s) && h in s.calls && s.calls[h].phase.Releasing?
    ensures Enabled(s, Advance(h)) && Free(Next(s, Advance(h)), s.calls[h].phase.lock)
    ensures Next(s, Advance(h)) == s.(calls := s.calls[h := Call(s.calls[h].key, Done(s.calls[h].phase.result))])
  {
  }

  /** Same time, cache, locks and log, and the same calls, though maybe further on. */
  ghost predicate SameBut(u: State, v: State) {
    v.now == u.now && v.cache == u.cache && v.locks == u.locks && v.log == u.log && v.calls.Keys == u.calls.Keys
  }

  /** After an orphaning sweep some call on `k` can go on to probe or is past its probe, at once or after the lock it
      waits for has been released. */
  lemma FindOrphan(s: State, x: Action, k: Key) returns (v: State, c: CallId)
    requires Sound(s) && OneLock(s, k) && Enabled(s, x) && OrphansLock(s, x, k)
    ensures var u := Next(s, x);
      && LeadsBy(u, v, k) && SameBut(u, v)
      && c in v.calls && v.calls[c].key == k && (WillProbe(v, c) || PastProbe(v, k, c))
  {
    var u := Next(s, x);
    v := u;
    LeadsByNowhere(u, k);
    c :| c in s.calls && c != x.id && s.calls[c].key == k && s.calls[c].phase.Busy();
    assert u.calls[c] == s.calls[c];
    if !WillProbe(u, c) && !PastProbe(u, k, c) {
      var h := HolderOf(s, x, k, c);
      if u.calls[h].phase.Releasing? {
        StepKeepsSound(s, x);
        ReleaseFrees(u, h);
        v := Next(u, Advance(h));
        LeadsByStep(u, Advance(h), k);
      } else {
        c := h;
      }
    }
  }

  lemma AnswerFails(s: State, k: Key, c: CallId) returns (t: State)
    requires c in s.calls && s.calls[c].key == k && s.calls[c].phase.Probing?
    ensures LeadsBy(s, t, k) && Pending(t, k, c) && t.calls.Keys == s.calls.Keys
    ensures t.cache == s.cache && t.locks == s.locks && t.log == s.log + [ProbeEnd(k, s.now, Failure)]
  {
    t := Next(s, Respond(c, Failure));
    LeadsByStep(s, Respond(c, Failure), k);
  }

  lemma EmptyIsStale(s: State, k: Key, c: CallId)
    requires Sound(s) && k !in s.cache && c in s.calls && s.calls[c].key == k
    ensures Stale(s, c)
  {
  }

  lemma StartedAndFailed(log: seq<Event>, starts: seq<Event>, k: Key, at: int)
    requires forall j | 0 <= j < |starts| :: starts[j].ProbeStart?
    ensures var log' := log + starts + [ProbeEnd(k, at, Failure)]; log <= log' && OnlyFailures(log', |log|)
  {
  }

  lemma ProbeAndFail(s: State, k: Key, c: CallId) returns (t: State)
    requires Sound(s) && k !in s.cache && WillProbe(s, c) && s.calls[c].key == k
    ensures LeadsBy(s, t, k) && Pending(t, k, c) && t.calls.Keys == s.calls.Keys
    ensures t.cache == s.cache && t.locks == s.locks && s.log <= t.log && OnlyFailures(t.log, |s.log|)
  {
    EmptyIsStale(s, k, c);
    var p := DriveToProbe(s, c);
    t := AnswerFails(p, k, c);
    LeadsByOn(s, p, t, k);
    var more := if s.calls[c].phase.Probing? then [] else [ProbeStart(k, s.now, k in s.cache)];
    assert p.log == s.log + more;
    StartedAndFailed(s.log, more, k, p.now);
  }

  /** With nothing of `k` cached such a call comes to its write, its probe failing if it has one to make. */
  lemma DriveToWrite(s: State, k: Key, c: CallId) returns (t: State)
    requires Sound(s) && k !in s.cache && c in s.calls && s.calls[c].key == k
    requires WillProbe(s, c) || PastProbe(s, k, c)
    ensures LeadsBy(s, t, k) && Pending(t, k, c) && t.calls.Keys == s.calls.Keys
    ensures t.cache == s.cache && t.locks == s.locks && s.log <= t.log && OnlyFailures(t.log, |s.log|)
  {
    if s.calls[c].phase.Storing? {
      t := Next(s, Advance(c));
      LeadsByStep(s, Advance(c), k);
    } else if Pending(s, k, c) {
      t := s;
      LeadsByNowhere(s, k);
    } else {
      t := ProbeAndFail(s, k, c);
    }
  }

  /** A call is about to write an entry that is of no use any more, under a lock that is not in the table, and nothing
      of `k` is cached. */
  ghost predicate Loose(s: State, k: Key, c: CallId) {
    Sound(s) && k !in s.cache && k !in s.locks && Pending(s, k, c) && Idle(Write(s.calls[c].phase), s.now)
  }

  /** In time any entry is idle. */
  lemma IdleLater(e: Entry, now: int) returns (d: nat)
    ensures Idle(e, now + d)
  {
    var until := Max(e.expires, e.lastFailure + FAIL_COOLDOWN);
    d := if until > now then until - now else 0;
  }

  lemma WaitUntilIdle(s: State, k: Key, c: CallId) returns (t: State)
    requires Sound(s) && k !in s.cache && k !in s.locks && Pending(s, k, c)
    ensures LeadsBy(s, t, k) && Loose(t, k, c) && t.calls == s.calls && t.log == s.log
  {
    var d := IdleLater(Write(s.calls[c].phase), s.now);
    StepKeepsSound(s, Tick(d));
    t := Next(s, Tick(d));
    LeadsByStep(s, Tick(d), k);
  }

  lemma OrphanComesToWrite(s: State, x: Action, k: Key) returns (t: State, c: CallId)
    requires Sound(s) && OneLock(s, k) && Enabled(s, x) && OrphansLock(s, x, k)
    ensures LeadsBy(Next(s, x), t, k) && Sound(t) && k !in t.cache && k !in t.locks && Pending(t, k, c)
    ensures t.calls.Keys == s.calls.Keys && s.log <= t.log && OnlyFailures(t.log, |s.log|)
  {
    var v;
    v, c := FindOrphan(s, x, k);
    SweepLeavesNothing(s, x, k);
    LeadsKeepsSound(Next(s, x), v);
    t := DriveToWrite(v, k, c);
    LeadsByOn(Next(s, x), v, t, k);
    LeadsKeepsSound(v, t);
  }

  lemma SweepLeavesNothing(s: State, x: Action, k: Key)
    requires Sound(s) && Enabled(s, x) && Sweeps(s, x, k)
    ensures var u := Next(s, x);
      Sound(u) && k !in u.cache && k !in u.locks && u.calls.Keys == s.calls.Keys && u.log == s.log
  {
    StepKeepsSound(s, x);
  }

  /** Every orphaning sweep leads to such a state, with nothing obtained on the way. */
  lemma OrphanComesLoose(s: State, x: Action, k: Key) returns (t: State, c: CallId)
    requires Sound(s) && OneLock(s, k) && Enabled(s, x) && OrphansLock(s, x, k)
    ensures LeadsBy(Next(s, x), t, k) && Loose(t, k, c) && t.calls.Keys == s.calls.Keys
    ensures s.log <= t.log && OnlyFailures(t.log, |s.log|)
  {
    var v;
    v, c := OrphanComesToWrite(s, x, k);
    t := WaitUntilIdle(v, k, c);
    LeadsByOn(Next(s, x), v, t, k);
  }

  // ---------------------------------------------------------------- the late write

  /** The pending write finds the lock of `k` free for whoever comes next. */
  ghost predicate Undercut(s: State, k: Key, c: CallId) {
    Sound(s) && Available(s, k) && Pending(s, k, c) && Idle(Write(s.calls[c].phase), s.now)
  }

  lemma LandWrite(s: State, k: Key, c: CallId) returns (t: State)
    requires Undercut(s, k, c)
    ensures LeadsBy(s, t, k) && Sound(t) && Available(t, k) && t.now == s.now && t.log == s.log
    ensures t.calls.Keys == s.calls.Keys && Idle(Lookup(t.cache, k), t.now)
  {
    if s.calls[c].phase.Failing? {
      t := GoRecord(s, c);
    } else {
      t := GoWrite(s, c);
    }
    LeadsKeepsSound(s, t);
  }

  /** The write lands over whatever is cached, and a newcomer probes at that very instant. */
  lemma LateWrite(s: State, k: Key, c: CallId, d: CallId) returns (t: State)
    requires Undercut(s, k, c) && k != "" && d !in s.calls
    ensures LeadsBy(s, t, k) && t.now == s.now && d in t.calls && t.calls[d].key == k && t.calls[d].phase.Probing?
    ensures exists seen :: t.log == s.log + [ProbeStart(k, s.now, seen)]
  {
    var v := LandWrite(s, k, c);
    t := GoProbe(v, k, d);
    LeadsByOn(s, v, t, k);
  }

  /** Next to a loose call a newcomer probes, under a lock of its own. */
  lemma ProbeBeside(s: State, k: Key, c: CallId, b: CallId) returns (t: State)
    requires Loose(s, k, c) && k != "" && b !in s.calls
    ensures LeadsBy(s, t, k) && Sound(t) && t.now == s.now && k in t.locks
    ensures t.calls == s.calls[b := Call(k, Probing(t.locks[k], NO_ENTRY))]
    ensures t.log == s.log + [ProbeStart(k, s.now, false)]
  {
    t := GoProbe(s, k, b);
  }

  /** Once it is done, the loose call's write can land. */
  lemma DoneIsUndercut(s: State, t: State, k: Key, c: CallId, b: CallId)
    requires Sound(s) && Sound(t) && t.now == s.now && k in s.locks && b != c && b in s.calls && b in t.calls
    requires s.calls[b].phase.Holds() && s.calls[b].phase.lock == s.locks[k]
    requires t.calls == s.calls[b := t.calls[b]] && t.calls[b].phase.Done?
    requires k in t.locks ==> t.locks[k] == s.locks[k]
    requires Pending(s, k, c) && Idle(Write(s.calls[c].phase), s.now)
    ensures Undercut(t, k, c)
  {
  }

  // ---------------------------------------------------------------- spacing

  lemma TooSoon(log: seq<Event>, k: Key, base: nat, i: nat, j: nat)
    requires base <= i < j < |log| && log[i].ProbeStart? && log[i].key == k && log[j].ProbeStart? && log[j].key == k
    requires log[j].at < log[i].at + FAIL_COOLDOWN
    ensures !Spaced(log[base..], k)
  {
    var tail := log[base..];
    assert tail[i - base] == log[i] && tail[j - base] == log[j];
    NextAllowedCovers(tail[..j - base], i - base, k);
  }

  /** Along this schedule no step forgets the entry of `k` that holds the next probe back, and no probe of `k` obtains a
      token. */
  ghost predicate Spared(s: State, sc: Script, k: Key, base: nat)
    decreases sc
  {
    match sc
    case End => true
    case Do(a, t, rest) => !Forgets(s, a, k, base) && !Obtains(s, a, k) && Spared(t, rest, k, base)
  }

  lemma OwnForgetsNothing(s: State, a: Action, k: Key, base: nat)
    requires Enabled(s, a) && Own(s, a, k)
    ensures !Forgets(s, a, k, base)
  {
    if Sweeps(s, a, k) {
      assert s.calls[a.id].key == k && InFlight(s.calls[a.id].phase);
    }
  }

  lemma {:induction false} LogGrows(s: State, sc: Script)
    requires Follows(s, sc)
    ensures s.log <= EndOf(s, sc).log
    decreases sc
  {
    if sc.Do? {
      LogStep(s, sc.a);
      LogGrows(sc.next, sc.rest);
    }
  }

  /** A schedule of calls on `k` alone whose probes all fail is such a schedule. */
  lemma {:induction false} OwnFailuresSpare(s: State, sc: Script, k: Key, base: nat)
    requires Follows(s, sc) && Owned(s, sc, k) && OnlyFailures(EndOf(s, sc).log, |s.log|)
    ensures Spared(s, sc, k, base)
    decreases sc
  {
    if sc.Do? {
      OwnForgetsNothing(s, sc.a, k, base);
      LogStep(s, sc.a);
      LogGrows(sc.next, sc.rest);
      OwnFailuresSpare(sc.next, sc.rest, k, base);
    }
  }

  lemma FailuresSpare(s: State, t: State, k: Key, base: nat) returns (sc: Script)
    requires LeadsBy(s, t, k) && OnlyFailures(t.log, |s.log|)
    ensures Follows(s, sc) && EndOf(s, sc) == t && Spared(s, sc, k, base)
  {
    sc :| Follows(s, sc) && EndOf(s, sc) == t && Owned(s, sc, k);
    OwnFailuresSpare(s, sc, k, base);
  }

  /** Two probes of `k` start at log positions `n` and `n + 2`, at one instant, and one fails in between. */
  ghost predicate FailedTwice(log: seq<Event>, n: nat, k: Key) {
    && |log| == n + 3 && log[n].ProbeStart? && log[n].key == k && log[n + 1] == ProbeEnd(k, log[n].at, Failure)
    && log[n + 2].ProbeStart? && log[n + 2].key == k && log[n + 2].at == log[n].at
  }

  lemma TwoStarts(log: seq<Event>, k: Key, at: int, seen: bool)
    ensures var log' := log + [ProbeStart(k, at, false)] + [ProbeEnd(k, at, Failure)] + [ProbeStart(k, at, seen)];
      FailedTwice(log', |log|, k)
  {
  }

  lemma NewcomerFails(w: State, k: Key, c: CallId, b: CallId) returns (z: State)
    requires Loose(w, k, c) && k != "" && b !in w.calls
    ensures LeadsBy(w, z, k) && Undercut(z, k, c) && z.now == w.now && z.calls.Keys == w.calls.Keys + {b}
    ensures z.log == w.log + [ProbeStart(k, w.now, false)] + [ProbeEnd(k, w.now, Failure)]
  {
    var p := ProbeBeside(w, k, c, b);
    z := GoFail(p, b);
    DoneIsUndercut(p, z, k, c, b);
    LeadsByOn(w, p, z, k);
  }

  /** Beside a loose call one newcomer probes and fails, and after the late write another probes. */
  lemma FailBeside(w: State, k: Key, c: CallId, b: CallId, d: CallId) returns (t: State)
    requires Loose(w, k, c) && k != "" && b !in w.calls && d !in w.calls && b != d
    ensures LeadsBy(w, t, k) && w.log <= t.log && FailedTwice(t.log, |w.log|, k)
  {
    var z := NewcomerFails(w, k, c, b);
    t := LateWrite(z, k, c, d);
    LeadsByOn(w, z, t, k);
    var seen :| t.log == z.log + [ProbeStart(k, z.now, seen)];
    TwoStarts(w.log, k, w.now, seen);
  }

  lemma FailuresGoOn(log: seq<Event>, log': seq<Event>, n: nat, k: Key)
    requires n <= |log| && log <= log' && OnlyFailures(log, n) && FailedTwice(log', |log|, k)
    ensures OnlyFailures(log', n)
  {
    forall j | n <= j < |log'| && log'[j].ProbeEnd?
      ensures log'[j].answer.Failure?
    {
      assert j < |log| ==> log'[j] == log[j];
    }
  }

  lemma FailuresInARow(s: State, x: Action, k: Key, b: CallId, d: CallId) returns (t: State, n: nat)
    requires Sound(s) && OneLock(s, k) && Enabled(s, x) && OrphansLock(s, x, k) && k != ""
    requires b !in s.calls && d !in s.calls && b != d
    ensures LeadsBy(Next(s, x), t, k) && s.log <= t.log && OnlyFailures(t.log, |s.log|)
    ensures |s.log| <= n && FailedTwice(t.log, n, k)
  {
    var w, c := OrphanComesLoose(s, x, k);
    t := FailBeside(w, k, c, b, d);
    LeadsByOn(Next(s, x), w, t, k);
    n := |w.log|;
    FailuresGoOn(w.log, t.log, |s.log|, k);
  }

  /** After a sweep that takes the lock of `k` from a call at work on it, whatever that call is doing, some continuation
      starts two probes of `k` at one instant although no step forgets an entry and no probe obtains a token: so the
      condition of `ProbesAreSpaced` on locks is needed. */
  lemma OrphaningBreaksSpacing(s: State, x: Action, k: Key, base: nat, b: CallId, d: CallId)
    returns (t: State, sc: Script)
    requires Sound(s) && OneLock(s, k) && Enabled(s, x) && OrphansLock(s, x, k) && k != "" && base <= |s.log|
    requires b !in s.calls && d !in s.calls && b != d
    ensures Follows(Next(s, x), sc) && EndOf(Next(s, x), sc) == t && Spared(Next(s, x), sc, k, base)
    ensures s.log <= t.log && !Spaced(t.log[base..], k)
  {
    var n;
    t, n := FailuresInARow(s, x, k, b, d);
    TooSoon(t.log, k, base, n, n + 2);
    SweepLeavesNothing(s, x, k);
    sc := FailuresSpare(Next(s, x), t, k, base);
  }

  // ---------------------------------------------------------------- the hour

  lemma ReplyBeside(w: State, k: Key, c: CallId, b: CallId, d: CallId) returns (t: State)
    requires Loose(w, k, c) && k != "" && b !in w.calls && d !in w.calls && b != d
    ensures LeadsBy(w, t, k)
    ensures exists seen ::
      t.log == w.log + [ProbeStart(k, w.now, false)] + [ProbeEnd(k, w.now, Reply("", 0))] + [ProbeStart(k, w.now, seen)]
  {
    var p := ProbeBeside(w, k, c, b);
    var z := GoNotIssued(p, b, 0);
    DoneIsUndercut(p, z, k, c, b);
    t := LateWrite(z, k, c, d);
    LeadsByOn(w, p, z, k);
    LeadsByOn(w, z, t, k);
  }

  /** After such a sweep some continuation answers a probe of `k` with "not issued", at log position `n`, and starts the
      next at the same instant: so the condition of `HourAfterNotIssued` on locks is needed. */
  lemma OrphaningBreaksHour(s: State, x: Action, k: Key, b: CallId, d: CallId) returns (t: State, n: nat)
    requires Sound(s) && OneLock(s, k) && Enabled(s, x) && OrphansLock(s, x, k) && k != ""
    requires b !in s.calls && d !in s.calls && b != d
    ensures LeadsBy(Next(s, x), t, k) && s.log <= t.log && |s.log| <= n && |t.log| == n + 2
    ensures t.log[n] == ProbeEnd(k, t.log[n].at, Reply("", 0))
    ensures t.log[n + 1].ProbeStart? && t.log[n + 1].key == k && t.log[n + 1].at == t.log[n].at
  {
    var w, c := OrphanComesLoose(s, x, k);
    t := ReplyBeside(w, k, c, b, d);
    LeadsByOn(Next(s, x), w, t, k);
    n := |w.log| + 1;
  }

  // ---------------------------------------------------------------- sharing

  /** A day and a bit: a token that expires so late is usable. */
  const LATER: int := REFRESH_SKEW + SECOND

  /** Beside a loose call a newcomer comes to the store of a usable token. */
  lemma PutBeside(w: State, k: Key, c: CallId, b: CallId) returns (m: State)
    requires Loose(w, k, c) && k != "" && b !in w.calls
    ensures LeadsBy(w, m, k) && Sound(m) && m.calls.Keys == w.calls.Keys + {b}
    ensures k in m.locks && m.calls[b].key == k && m.calls[b].phase.Putting? && m.calls[b].phase.lock == m.locks[k]
    ensures Usable(m.calls[b].phase.entry, m.now) && b != c && Pending(m, k, c) && Idle(Write(m.calls[c].phase), m.now)
  {
    var p := ProbeBeside(w, k, c, b);
    m := GoUntilPut(p, b, "token", p.now + LATER);
    LeadsByOn(w, p, m, k);
    LeadsKeepsSound(p, m);
  }

  lemma StoreBeside(m: State, k: Key, c: CallId, b: CallId, d: CallId) returns (t: State)
    requires Sound(m) && k != "" && k in m.locks && b != c && d !in m.calls && b in m.calls && m.calls[b].key == k
    requires m.calls[b].phase.Putting? && m.calls[b].phase.lock == m.locks[k]
    requires Pending(m, k, c) && Idle(Write(m.calls[c].phase), m.now)
    ensures LeadsBy(Step(m, b), t, k) && t.now == m.now
    ensures d in t.calls && t.calls[d].key == k && t.calls[d].phase.Probing?
  {
    var u := Step(m, b);
    StepKeepsSound(m, Advance(b));
    ReleaseFrees(u, b);
    StepKeepsSound(u, Advance(b));
    var z := Next(u, Advance(b));
    Overwrite(m.calls, b, u.calls[b], z.calls[b]);
    DoneIsUndercut(m, z, k, c, b);
    t := LateWrite(z, k, c, d);
    LeadsByFirst(u, Advance(b), t, k);
  }

  lemma PutAndProbe(w: State, k: Key, c: CallId, b: CallId, d: CallId) returns (m: State, t: State)
    requires Loose(w, k, c) && k != "" && b !in w.calls && d !in w.calls && b != d
    ensures LeadsBy(w, m, k) && b in m.calls && m.calls[b].key == k && m.calls[b].phase.Putting?
    ensures Usable(m.calls[b].phase.entry, m.now) && Enabled(m, Advance(b))
    ensures LeadsBy(Step(m, b), t, k) && t.now == m.now
    ensures d !in m.calls && d in t.calls && t.calls[d].key == k && t.calls[d].phase.Probing?
  {
    m := PutBeside(w, k, c, b);
    t := StoreBeside(m, k, c, b, d);
  }

  /** After such a sweep some continuation comes to a store of a usable token by call `b`, at `m`, after which call `d`,
      which enters only then, probes at that very instant: so the condition of `FreshTokenShared` is needed. */
  lemma OrphaningBreaksSharing(s: State, x: Action, k: Key, b: CallId, d: CallId) returns (m: State, t: State)
    requires Sound(s) && OneLock(s, k) && Enabled(s, x) && OrphansLock(s, x, k) && k != ""
    requires b !in s.calls && d !in s.calls && b != d
    ensures LeadsBy(Next(s, x), m, k) && b in m.calls && m.calls[b].key == k && m.calls[b].phase.Putting?
    ensures Usable(m.calls[b].phase.entry, m.now) && Enabled(m, Advance(b))
    ensures LeadsBy(Step(m, b), t, k) && t.now == m.now
    ensures d !in m.calls && d in t.calls && t.calls[d].key == k && t.calls[d].phase.Probing?
  {
    var w, c := OrphanComesLoose(s, x, k);
    m, t := PutAndProbe(w, k, c, b, d);
    LeadsByOn(Next(s, x), w, m, k);
  }
}
