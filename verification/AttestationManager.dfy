/** `AttestationManager` as the source writes it: two maps updated and swept in place. Each method is proved to make
the corresponding step of the machine in AttestationMachine. */
module AttestationCache {
  import opened AttestationAnswers
  import opened AttestationMachine
  import opened AttestationSafety
  import opened AttestationSchedules
  import opened Clock

  lemma Later(u: State, elapsed: nat) returns (v: State)
    requires Sound(u)
    ensures Leads(u, v) && Sound(v) && v == u.(now := u.now + elapsed)
  {
    v := u.(now := u.now + elapsed);
    LeadsNowhere(v);
    LeadsFirst(u, Tick(elapsed), v);
    LeadsKeepsSound(u, v);
  }

  /** The gateway answers after `elapsed`. */
  lemma Answered(u: State, id: CallId, elapsed: nat, answer: Answer) returns (t: State)
    requires Sound(u) && id in u.calls && u.calls[id].phase.Probing?
    ensures Leads(u, t) && t.now == u.now + elapsed && t.nextLock == u.nextLock
    ensures var Call(k, Probing(_, prior)) := u.calls[id];
      && t.calls == u.calls[id := Call(k, Done(if answer.Failure? then prior.token else answer.token))]
      && t.log == u.log + [ProbeEnd(k, t.now, answer)]
      && match answer
         case Failure => t.cache == u.cache[k := prior.(lastFailure := t.now)] && t.locks == u.locks
         case Reply(token, expires) =>
           var e := Outcome(token, expires, t.now);
           t.cache == PutCache(u.cache, k, e, t.now) && t.locks == PutLocks(u.cache, u.locks, k, e, t.now)
  {
    var v := Later(u, elapsed);
    match answer {
      case Failure => t := GoFail(v, id);
      case Reply(token, expires) => t := GoReply(v, id, token, expires);
    }
    LeadsOn(u, v, t);
  }

  /** A call's start and answer, put together. */
  lemma StartedAndAnswered(m: State, u: State, t: State, id: CallId, c: Call, c': Call, start: Event, end: Event)
    requires Leads(m, u) && u.calls == m.calls[id := c] && u.log == m.log + [start]
    requires Leads(u, t) && t.calls == u.calls[id := c'] && t.log == u.log + [end]
    ensures Leads(m, t) && t.calls == m.calls[id := c'] && t.log == m.log + [start, end]
  {
    LeadsOn(m, u, t);
    Overwrite(m.calls, id, c, c');
  }

  class AttestationManager {
    var now: int               // nowFunc
    var cache: Cache
    var keyMu: Locks           // locks are known by number
    var created: LockId        // how many locks have been created

    constructor (start: int)
      requires start > ZERO_TIME
      ensures Matches(State(start, map[], map[], 0, map[], []))
      ensures Init(State(start, map[], map[], 0, map[], []))
    {
      now := start;
      cache := map[];
      keyMu := map[];
      created := 0;
    }

    /** The machine state `s` has this manager's memory. */
    ghost predicate Matches(s: State)
      reads this
    {
      s.now == now && s.cache == cache && s.locks == keyMu && s.nextLock == created
    }

    method LockFor(key: Key) returns (l: LockId)
      modifies this`keyMu, this`created
      ensures key in keyMu && l == keyMu[key]
      ensures if key in old(keyMu) then keyMu == old(keyMu) && created == old(created)
              else l == old(created) && keyMu == old(keyMu)[key := l] && created == old(created) + 1
    {
      if key in keyMu {
        return keyMu[key];
      }
      l := created;
      created := created + 1;
      keyMu := keyMu[key := l];
    }

    method Cached(key: Key) returns (token: string, ok: bool)
      ensures ok == Hit(cache, key, now)
      ensures ok <==>
        && key in cache
        && (if cache[key].notIssued then now < cache[key].expires
            else cache[key].token != "" && cache[key].expires - now > 86_400 * SECOND)
      ensures token == if ok then cache[key].token else ""
    {
      if key !in cache || !Usable(cache[key], now) {
        return "", false;
      }
      return cache[key].token, true;
    }

    method RecordFailure(key: Key, prior: Entry)
      modifies this`cache
      ensures cache == old(cache)[key := prior.(lastFailure := now)]
    {
      var e := prior.(lastFailure := now);
      cache := cache[key := e];
    }

    method AuxUA(key: Key) returns (undici: bool)
      ensures undici == (key in cache)
    {
      undici := key in cache;
    }

    method Invalidate(key: Key)
      modifies this`cache
      ensures forall s: State | old(Matches(s)) :: Matches(Next(s, AttestationMachine.Invalidate(key)))
    {
      if key == "" {
        return;
      }
      cache := cache - {key};
    }

    /** Write, then drop every expired entry together with its lock. */
    method Put(key: Key, e: Entry)
      modifies this`cache, this`keyMu
      ensures cache == PutCache(old(cache), key, e, now)
      ensures keyMu == PutLocks(old(cache), old(keyMu), key, e, now)
    {
      var t := now;
      cache := cache[key := e];
      cache, keyMu := Sweep(cache, keyMu, t);
    }

    /** The loop of `put`: visit every entry once, dropping the expired ones and their locks. */
    static method Sweep(written: Cache, locks: Locks, t: int) returns (c: Cache, l: Locks)
      ensures c == written - Expired(written, t) && l == locks - Expired(written, t)
    {
      c, l := written, locks;
      var rest := written.Keys;
      while rest != {}
        invariant rest <= written.Keys
        invariant forall k :: k in c <==> k in written && (k in rest || t <= written[k].expires)
        invariant forall k :: k in l <==> k in locks && (k in rest || k !in written || t <= written[k].expires)
        invariant forall k | k in c :: c[k] == written[k]
        invariant forall k | k in l :: l[k] == locks[k]
        decreases |rest|
      {
        var k :| k in rest;
        if t > c[k].expires {
          c := c - {k};
          l := l - {k};
        }
        rest := rest - {k};
      }
    }

    /** One call with nobody else at work on its key: the gateway gives `answer` after `elapsed`, if it is asked. */
    method Token(key: Key, answer: Answer, elapsed: nat, ghost id: CallId, ghost s: State)
      returns (token: string, ghost t: State)
      requires Matches(s) && Sound(s) && id !in s.calls && Available(s, key)
      modifies this
      ensures Matches(t) && Leads(s, t) && t.calls == s.calls[id := Call(key, Done(token))]
      ensures token == if key == "" then "" else Served(old(cache), key, old(now), answer)
      ensures t.log == s.log + if key == "" then [] else Exchange(old(cache), key, old(now), answer, elapsed)
      ensures cache == CacheAfter(old(cache), key, old(now), answer, elapsed)
      ensures t.log == s.log <==>
        || key == ""
        || (&& key in old(cache)
            && (|| (old(cache)[key].notIssued && old(now) < old(cache)[key].expires)
                || (old(cache)[key].token != "" && old(cache)[key].expires - old(now) > 86_400 * SECOND)
                || (old(cache)[key].lastFailure != ZERO_TIME
                    && old(now) - old(cache)[key].lastFailure < 30 * SECOND)))
    {
      AskedExactly(cache, key, now);
      if key == "" {
        t := EmptyToken(s, id);
        return "", t;
      }
      var tok, ok := Cached(key);
      if ok {
        t := ServedFromCache(s, key, id);
        return tok, t;
      }
      ghost var m := Acquire(key, id, s);
      token, t := Slow(key, answer, elapsed, id, m);
      LeadsOn(s, m, t);
      Overwrite(s.calls, id, m.calls[id], Call(key, Done(token)));
    }

    /** lockFor and l.Lock(), up to the second lookup. */
    method Acquire(key: Key, ghost id: CallId, ghost s: State) returns (ghost m: State)
      requires Matches(s) && Sound(s) && key != "" && id !in s.calls && Available(s, key) && !Hit(cache, key, now)
      modifies this`keyMu, this`created
      ensures Matches(m) && Sound(m) && Leads(s, m)
      ensures m.calls == s.calls[id := Call(key, Missed(LockOf(s, key)))] && m.log == s.log && m.now == s.now
    {
      var l := LockFor(key);
      EnterAndLock(s, key, id);
      m := Joined(s, key, id, Missed(LockOf(s, key)));
      LeadsKeepsSound(s, m);
    }

    /** The call once it has the lock. */
    method Slow(key: Key, answer: Answer, elapsed: nat, ghost id: CallId, ghost m: State)
      returns (token: string, ghost t: State)
      requires Matches(m) && Sound(m) && id in m.calls && m.calls[id].key == key && m.calls[id].phase.Missed?
      requires !Hit(cache, key, now)
      modifies this
      ensures Matches(t) && Leads(m, t) && t.calls == m.calls[id := Call(key, Done(token))]
      ensures token == Served(old(cache), key, old(now), answer)
      ensures t.log == m.log + Exchange(old(cache), key, old(now), answer, elapsed)
      ensures key != "" ==> cache == CacheAfter(old(cache), key, old(now), answer, elapsed)
    {
      var tok, ok := Cached(key);
      var prior := Lookup(cache, key);
      if InCooldown(prior, now) {
        t := CooldownAnswers(m, id);
        return prior.token, t;
      }
      token, t := Ask(key, prior, answer, elapsed, id, m);
    }

    /** The call once it is past the cooldown check. */
    method Ask(key: Key, prior: Entry, answer: Answer, elapsed: nat, ghost id: CallId, ghost m: State)
      returns (token: string, ghost t: State)
      requires Matches(m) && Sound(m) && id in m.calls && m.calls[id].key == key && m.calls[id].phase.Missed?
      requires prior == Lookup(cache, key) && !InCooldown(prior, now)
      modifies this
      ensures Matches(t) && Leads(m, t) && t.calls == m.calls[id := Call(key, Done(token))]
      ensures token == if answer.Failure? then prior.token else answer.token
      ensures t.log == m.log + [ProbeStart(key, m.now, key in m.cache), ProbeEnd(key, m.now + elapsed, answer)]
      ensures cache == Recorded(m.cache, key, prior, answer, m.now + elapsed)
    {
      ghost var start, end := ProbeStart(key, m.now, key in m.cache), ProbeEnd(key, m.now + elapsed, answer);
      ghost var u := GoStart(m, id);
      token, t := Probe(key, prior, answer, elapsed, id, u);
      StartedAndAnswered(m, u, t, id, u.calls[id], Call(key, Done(token)), start, end);
    }

    /** The rest of a call, from auxUA on, under the lock. */
    method Probe(key: Key, prior: Entry, answer: Answer, elapsed: nat, ghost id: CallId, ghost u: State)
      returns (token: string, ghost t: State)
      requires Matches(u) && Sound(u) && id in u.calls && u.calls[id].key == key
      requires u.calls[id].phase.Probing? && u.calls[id].phase.prior == prior
      modifies this
      ensures Matches(t) && Leads(u, t) && t.calls == u.calls[id := Call(key, Done(token))]
      ensures token == if answer.Failure? then prior.token else answer.token
      ensures t.log == u.log + [ProbeEnd(key, u.now + elapsed, answer)]
      ensures cache == Recorded(u.cache, key, prior, answer, u.now + elapsed)
    {
      var undici := AuxUA(key);
      now := now + elapsed;
      t := Answered(u, id, elapsed, answer);
      match answer {
        case Failure =>
          RecordFailure(key, prior);
          token := prior.token;
        case Reply(issued, expires) =>
          if issued == "" {
            Put(key, Entry("", now + NOT_ISSUED_TTL, true, ZERO_TIME));
          } else {
            Put(key, Entry(issued, expires, false, ZERO_TIME));
          }
          token := issued;
      }
    }
  }
}
