/** When a call is answered without asking the gateway, and what it leaves behind, in hours and seconds. */
module AttestationAnswers {
  import opened AttestationMachine
  import opened AttestationSafety
  import opened AttestationSchedules
  import opened Clock

  // ---------------------------------------------------------------- one call alone on its key

  /** The gateway is asked only when there is no usable entry and no recent failure. */
  predicate Asks(cache: Cache, key: Key, now: int) {
    !Hit(cache, key, now) && !InCooldown(Lookup(cache, key), now)
  }

  function Served(cache: Cache, key: Key, now: int, answer: Answer): string {
    if Asks(cache, key, now) && answer.Reply? then answer.token else Lookup(cache, key).token
  }

  function Exchange(cache: Cache, key: Key, now: int, answer: Answer, elapsed: nat): seq<Event> {
    if Asks(cache, key, now)
    then [ProbeStart(key, now, key in cache), ProbeEnd(key, now + elapsed, answer)]
    else []
  }

  /** The cache after an answer that comes at `at` to a probe made with the entry `prior` in hand. */
  function Recorded(cache: Cache, key: Key, prior: Entry, answer: Answer, at: int): Cache {
    match answer
    case Failure => cache[key := prior.(lastFailure := at)]
    case Reply(token, expires) => PutCache(cache, key, Outcome(token, expires, at), at)
  }

  /** The cache after a call that finds it at `now` and, if it asks, is answered after `elapsed`. */
  function CacheAfter(cache: Cache, key: Key, now: int, answer: Answer, elapsed: nat): Cache {
    if key == "" || !Asks(cache, key, now) then cache
    else Recorded(cache, key, Lookup(cache, key), answer, now + elapsed)
  }

  /** "Not issued" entries hold no token. */
  ghost predicate CacheOk(cache: Cache) {
    forall k | k in cache :: EntryOk(cache[k])
  }

  /** The gateway is not asked exactly when the entry says "not issued" and is not over yet, holds a token that lasts
      more than 24 hours still, or saw a failure less than 30 seconds ago. */
  lemma AskedExactly(cache: Cache, key: Key, now: int)
    requires CacheOk(cache)
    ensures Asks(cache, key, now) <==>
      !(&& key in cache
        && (|| (cache[key].notIssued && now < cache[key].expires)
            || (cache[key].token != "" && cache[key].expires - now > 86_400 * SECOND)
            || (cache[key].lastFailure != ZERO_TIME && now - cache[key].lastFailure < 30 * SECOND)))
  {
  }

  /** After a call that asked, the next call on the key asks again: after a failure from 30 seconds later on, after a
      "not issued" answer from an hour later on, after a token once that has no more than 24 hours left. */
  lemma NextAsksExactly(cache: Cache, key: Key, now: int, answer: Answer, elapsed: nat, later: int)
    requires CacheOk(cache) && key != "" && now > ZERO_TIME && Asks(cache, key, now) && later >= now + elapsed
    ensures
      Asks(CacheAfter(cache, key, now, answer, elapsed), key, later) <==>
      match answer
      case Failure => later - (now + elapsed) >= 30 * SECOND
      case Reply(token, expires) =>
        if token == "" then later - (now + elapsed) >= 3_600 * SECOND else expires - later <= 86_400 * SECOND
  {
  }

  /** What the call leaves under its own key: after a failure the old token and expiry, which a first call has none
      of; after a reply that reply, unless it is over already. */
  lemma OwnEntryExactly(cache: Cache, key: Key, now: int, answer: Answer, elapsed: nat)
    requires key != "" && Asks(cache, key, now)
    ensures
      var after, at := CacheAfter(cache, key, now, answer, elapsed), now + elapsed;
      match answer
      case Failure =>
        && key in after && after[key].lastFailure == at
        && (if key in cache
            then after[key].token == cache[key].token && after[key].expires == cache[key].expires
                 && after[key].notIssued == cache[key].notIssued
            else after[key].token == "" && after[key].expires == ZERO_TIME && !after[key].notIssued)
      case Reply(token, expires) =>
        if token == "" then
          key in after && after[key].token == "" && after[key].notIssued && after[key].expires == at + 3_600 * SECOND
        else if at > expires then key !in after
        else key in after && after[key].token == token && !after[key].notIssued && after[key].expires == expires
  {
  }

  /** What it does to the others: only a reply drops entries, exactly those whose expiry is past. */
  lemma OtherEntriesExactly(cache: Cache, key: Key, now: int, answer: Answer, elapsed: nat, other: Key)
    requires other != key
    ensures
      var after, at := CacheAfter(cache, key, now, answer, elapsed), now + elapsed;
      && (other in after ==> other in cache && after[other] == cache[other])
      && (other in cache && other !in after
          <==> other in cache && key != "" && Asks(cache, key, now) && answer.Reply? && cache[other].expires < at)
  {
  }

  // ---------------------------------------------------------------- every call, in every run

  /** In every run, at either lookup: the call is answered exactly when the entry says "not issued" and is not over yet,
      or holds a token that lasts more than 24 hours still, and then with that entry's token. */
  lemma LookupAnswersExactly(r: Run, i: nat, id: CallId)
    requires ValidRun(r) && Init(r.states[0]) && i < |r.acts| && r.acts[i] == Advance(id)
    requires r.states[i].calls[id].phase.Start? || r.states[i].calls[id].phase.Locked?
    ensures
      var s, s', k := r.states[i], r.states[i + 1], r.states[i].calls[id].key;
      && id in s'.calls
      && (Over(s', id) <==>
            && k in s.cache
            && (|| (s.cache[k].notIssued && s.now < s.cache[k].expires)
                || (s.cache[k].token != "" && s.cache[k].expires - s.now > 86_400 * SECOND)))
      && (Over(s', id) ==> s'.calls[id].phase.result == s.cache[k].token)
  {
    SoundAlways(r, i);
  }

  /** Past both lookups it turns back, with the old token, exactly when the failure was less than 30 seconds old as it
      read the clock. */
  lemma CooldownAnswersExactly(r: Run, i: nat, id: CallId)
    requires ValidRun(r) && i < |r.acts| && r.acts[i] == Advance(id) && r.states[i].calls[id].phase.Clocked?
    ensures
      var s, s', k := r.states[i], r.states[i + 1], r.states[i].calls[id].key;
      var held := if k in s.cache then s.cache[k].token else "";
      && id in s'.calls
      && (Over(s', id) <==>
            && k in s.cache && s.cache[k].lastFailure != ZERO_TIME
            && s.calls[id].phase.t - s.cache[k].lastFailure < 30 * SECOND)
      && (Over(s', id) ==> s'.calls[id].phase.result == held)
  {
    assert r.states[i + 1] == Next(r.states[i], r.acts[i]);
  }

  /** A store sweeps, in the cache it has just written, exactly the entries whose expiry is past at its clock reading,
      its own included, and the locks of those keys; a lock without an entry stays. */
  lemma StoreSweepsExactly(s: State, p: CallId, k: Key)
    requires p in s.calls && s.calls[p].phase.Putting?
    ensures
      var s', written := Next(s, Advance(p)), s.cache[s.calls[p].key := s.calls[p].phase.entry];
      && (k in s'.cache <==> k in written && s.calls[p].phase.t <= written[k].expires)
      && (k in s'.cache ==> s'.cache[k] == written[k])
      && (k in s'.locks <==> k in s.locks && (k in written ==> s.calls[p].phase.t <= written[k].expires))
      && (k in s'.locks ==> s'.locks[k] == s.locks[k])
  {
  }
}
