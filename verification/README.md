# Verified model of the gateway's stateful cores

The gateway hides several small protocols behind its HTTP handlers. This project models them in Dafny and proves what
they keep over every interleaving, every run, every file, every tree.

* **Attestation cache** (`Attestation*.dfy`). One cache of attestation tokens with a lock per device token, a double
  check, a failure cooldown, an expiry sweep that also drops locks, and a concurrent `Invalidate`.
  `AttestationMachine` is a state machine whose steps are the critical sections; clocks only move forward.
  `AttestationManager` is the class with its maps, proved to follow the machine when one call runs alone.
  `AttestationSafety` and `AttestationRates` prove the guarantees under their side conditions. `AttestationLimits` and
  `AttestationOrphans` prove, for single flight, spacing, the hour after "not issued", sharing and invalidation, that
  after any step that breaks the condition on locks, dropped entries or carried tokens some continuation breaks the
  guarantee.
* **Device-account scheduler** (`ErrorClasses.dfy`, `Device*.dfy` but `DeviceEncoding.dfy`). One chat request over the
  accounts table, with upstream answers as an arbitrary script; then whole runs of requests, model tests,
  authorizations, admin actions and waiting.
* **Key pool and quota refresh** (`BeijingTime.dfy`, `RoundRobin.dfy`, `KeyPool*.dfy`, `QuotaRefresh.dfy`). The rotation,
  the status machine, the pool as a mirror of its table, midnights and refresh slots, the daily loop.
* **Smaller cores**. `LoginThrottle.dfy`, `DeviceEncoding.dfy` (ES256 raw signatures, section 3.4 of RFC 7518;
  base64url, section 5 of RFC 4648; JSON web keys), `Changelog.dfy`, `LocalKeys.dfy`, and the settings file:
  `Text.dfy`, `Decimal.dfy`, `EnvFile.dfy`, `Settings.dfy`.

Instants are integers, nanoseconds since 1970; database columns hold whole seconds. Where the source changes objects
in place there is a class whose methods are proved equal to a function of the old state; the properties are lemmas
about that function; those named `...Exactly`, `...Outcomes` and `...InSeconds` tell what it gives in literal statuses,
texts and durations. The network, the clock, the order in which goroutines move and the order in which a map is
visited are arbitrary inputs.

Where code and comments disagree, the model follows the code:

* An account whose quota is unknown is tried first, not last (`DeviceOrder.UnknownQuotaFirst`).
* The exemption of quota-like 400 bodies never makes the scheduler rotate (`ErrorClasses.RotationReadsStatusOnly`).
* A 2xx makes a disabled key active again (`KeyPoolSafety.SuccessActivates`).
* A key whose cooldown has expired stays out of the rotation until something sets it active
  (`KeyPoolSafety.ExpiredCooldownNotPicked`), although it is shown as active (`KeyPoolSafety.ShownActive`).

Where a promise is false as stated, there is an input that breaks it and the condition under which it holds, both ways:

* Pool and table agree on cooldowns only to the second, and to the instant exactly when the cooldown ends on a whole
  second (`KeyPoolSafety.SubSecondDrift`, `KeyPoolSafety.CoherentToTheInstant`).
* Probes for one device token are single as long as no sweep takes the token's lock away while a call other than the
  sweeping one may still probe or is probing (`AttestationSafety.SingleFlight`). After any sweep that does, some
  continuation has two in flight (`AttestationLimits.OrphaningBreaksSingleFlight`), and from an empty manager one is
  reached (`AttestationLimits.DoubleProbeReachable`).
* A failure cooldown holds, with no lock in use swept away, as long as no step drops the entry while the time allowed
  for the next probe lies ahead and no probe of the key is in flight (`AttestationRates.ProbesAreSpaced`). After any
  drop of that kind a continuation probes at that very instant (`AttestationLimits.ForgottenIsProbedTooSoon`); a first
  failure and a store for another key are enough (`AttestationLimits.FirstFailureIsProbedAgain`,
  `AttestationLimits.CooldownLostReachable`). After any sweep of a lock in use, whatever its user is doing, a
  continuation starts two probes at one instant though it drops no such entry and obtains no token
  (`AttestationOrphans.OrphaningBreaksSpacing`).
* For the same reason an hour after "not issued" and the sharing of a fresh token
  (`AttestationRates.HourAfterNotIssued`, `AttestationSafety.FreshTokenShared`) hold only as long as no lock in use is
  swept away and the stored outcome is not invalidated (`AttestationOrphans.OrphaningBreaksHour`,
  `AttestationOrphans.OrphaningBreaksSharing`, `AttestationLimits.InvalidationEndsSharing`).
* An invalidated token is not seen again if no unfinished call carries one (`AttestationSafety.InvalidateTakesEffect`).
  If any call does, a continuation has it return that token (`AttestationLimits.CarriedTokenComesBack`); and if its
  probe is in flight even a call that enters later can get it (`AttestationLimits.InvalidatedTokenComesBack`).
* The login throttle's limit per window holds without a success of the address in the window. With k of them up to
  k * (limit - 1) + limit failures fit (`LoginThrottle.FailuresPerWindow`), and that bound is reached for every limit and
  every k (`LoginThrottle.BoundReached`).
* An S wider than its half overwrites R (`DeviceEncoding.SignatureReadsBack`); a zero secret does not read back
  (`DeviceEncoding.KeyRoundTrip`).
* A patch with unclean keys or values, and settings not in normal form, do not survive the settings file
  (`EnvFile.SaveReadsBack`, `Settings.SettingsRoundTrip`).

## Model

| member | source | states |
|---|---|---|
| AttestationSafety.StepKeepsSound | internal/upstream/attestation.go:93-212 | Every critical section, in every interleaving, keeps locks exclusive, clock readings in the past and "not issued" entries without a token. |
| AttestationSafety.SoundAlways | internal/upstream/attestation.go:67-212 | That holds in every state of every run from an empty manager. |
| AttestationSafety.StepKeepsOneLock | internal/upstream/attestation.go:93-102 | Every step but one that takes a lock in use away leaves all calls busy with a key on the one lock the table holds for it. |
| AttestationSafety.OneLockAlways | internal/upstream/attestation.go:93-154 | So it is throughout a run without such a step. |
| AttestationSafety.StepKeepsSeekersTogether | internal/upstream/attestation.go:93-212 | Every step but a sweep that takes the lock of a key from a call that may still probe leaves all such calls on the one lock the table holds. |
| AttestationSafety.SeekersTogetherAlways | internal/upstream/attestation.go:93-212 | So it is throughout a run without such a sweep, whatever locks calls past their probe lose. |
| AttestationSafety.SingleFlight | internal/upstream/attestation.go:93-154 | At most one probe per device token is in flight as long as no sweep removes its lock while another call may still probe or is probing. |
| AttestationSafety.LiveEntryStays | internal/upstream/attestation.go:200-212 | An unexpired entry survives every sweep and every step of calls on other keys. |
| AttestationSafety.FreshTokenShared | internal/upstream/attestation.go:104-154 | Once a probe's outcome is stored, a token or "not issued", until it enters the refresh window or is invalidated, nobody probes for that key and every waiting or later call returns that outcome. |
| AttestationSafety.TokenProvenance | internal/upstream/attestation.go:104-212 | Whatever is cached or returned for a device token is empty or was issued by an earlier probe for that same token; "not issued" entries hold none. |
| AttestationSafety.InvalidateTakesEffect | internal/upstream/attestation.go:180-188 | If no call carries a token when a key is invalidated, everything cached or returned for it later was issued after the invalidation. |
| AttestationRates.FailedProbeReturnsTokenRead | internal/upstream/attestation.go:126-143 | In every run a call whose probe fails returns the token it read before the probe, whatever others did meanwhile. |
| AttestationRates.FailedProbeReturnsHeldToken | internal/upstream/attestation.go:126-163 | That token is the one cached when the probe starts, if the entry is not dropped between the read and the start. |
| AttestationRates.ProbesAreSpaced | internal/upstream/attestation.go:126-163 | Without orphaned locks, while no probe obtains a token and no step drops the entry with the next allowed start ahead and no probe in flight, probe starts are 30 s apart and the next start after a "not issued" answer is at least an hour later. |
| AttestationRates.ProbeRateBound | internal/upstream/attestation.go:126-163 | Under the same condition at most 1 + floor((e-s)/30 s) probes start in [s, e]. |
| AttestationRates.HourAfterNotIssued | internal/upstream/attestation.go:145-149 | After a "not issued" answer the next probe starts at least an hour later, whatever is swept, if the key is not invalidated once the answer is cached and its lock not taken from a user. |
| AttestationLimits.OrphaningBreaksSingleFlight | internal/upstream/attestation.go:200-212 | Whenever a sweep takes the lock of a key from a call that may still probe, waiting ones included, some continuation has two probes of that key in flight: the condition of SingleFlight is exact. |
| AttestationLimits.DoubleProbeReachable | internal/upstream/attestation.go:200-212 | Two probes for one device token at once are reachable from an empty manager. |
| AttestationLimits.ForgottenIsProbedTooSoon | internal/upstream/attestation.go:156-163 | Whenever an entry is dropped with the next allowed start ahead and no probe in flight, a continuation starts a probe at that instant, which breaks the spacing: the condition on drops in ProbesAreSpaced is exact. |
| AttestationLimits.FirstFailureIsProbedAgain | internal/upstream/attestation.go:156-163 | After a first failure any store for another key can be followed by a probe at that instant: such an entry has no expiry and is swept. |
| AttestationLimits.InvalidationEndsSharing | internal/upstream/attestation.go:180-188 | Whenever a shared outcome is invalidated, a continuation probes at that very instant, whoever holds the lock: the condition of FreshTokenShared on invalidations is exact. |
| AttestationOrphans.OrphaningBreaksSpacing | internal/upstream/attestation.go:200-212 | After any sweep that takes the lock of a key from a call at work on it, some continuation that forgets no entry and obtains no token starts two probes of the key at one instant: the condition of ProbesAreSpaced on locks is exact. |
| AttestationOrphans.OrphaningBreaksHour | internal/upstream/attestation.go:200-212 | After any such sweep some continuation starts a probe in the instant in which another was answered "not issued". |
| AttestationOrphans.OrphaningBreaksSharing | internal/upstream/attestation.go:200-212 | After any such sweep some continuation stores a usable token and in the same instant has a later call probe for the key. |
| AttestationLimits.CooldownLostReachable | internal/upstream/attestation.go:156-163 | From an empty manager, without an invalidation, a failed probe is repeated in the same instant after another key's first token is stored. |
| AttestationLimits.CarriedTokenComesBack | internal/upstream/attestation.go:106-188 | If any unfinished call carries a token at the invalidation, whatever its phase, some continuation has it return a token issued before: the condition of InvalidateTakesEffect is exact. |
| AttestationLimits.InvalidatedTokenComesBack | internal/upstream/attestation.go:156-188 | If a probe started from a cached token is in flight at the invalidation, some continuation serves that very token to a call that enters afterwards. |
| AttestationLimits.CachedTokenIsServed | internal/upstream/attestation.go:108-154 | A cached token, live or expired, can be returned to a newcomer. |
| AttestationMachine.RunFollows | internal/upstream/attestation.go:104-212 | Every schedule that starts where a run ends extends it to a run: the witnesses above are runs. |
| AttestationSchedules.GoProbe | internal/upstream/attestation.go:108-139 | A newcomer that misses, finds its lock free and no cooldown probes, with the cached entry in hand. |
| AttestationSchedules.GoIssue | internal/upstream/attestation.go:150-153 | A token in the answer is stored, returned, and the store sweeps expired entries and their locks. |
| AttestationSchedules.GoNotIssued | internal/upstream/attestation.go:145-149 | An answer without a token is cached for an hour and returned as an empty token. |
| AttestationSchedules.GoFail | internal/upstream/attestation.go:139-144 | A failed probe writes its old entry back with the time of failure and returns the old token. |
| AttestationSchedules.ServedFromCache | internal/upstream/attestation.go:190-198 | The fast path returns the cached token and changes nothing. |
| AttestationSchedules.ServedInCooldown | internal/upstream/attestation.go:126-134 | Within 30 s of a failure a call returns the old token without probing. |
| AttestationCache.AttestationManager.constructor | internal/upstream/attestation.go:81-90 | A new manager is the machine's initial state. |
| AttestationCache.AttestationManager.LockFor | internal/upstream/attestation.go:92-102 | Returns the key's lock, created on first use and never replaced. |
| AttestationCache.AttestationManager.Cached | internal/upstream/attestation.go:190-198 | A hit exactly when a "not issued" entry is not over, or a token lasts more than 24 hours still. |
| AttestationSchedules.GoRecord | internal/upstream/attestation.go:156-163 | A recorded failure caches the entry read before the probe with the time of failure, whatever is cached by then, and the call returns that entry's token. |
| AttestationCache.AttestationManager.Invalidate | internal/upstream/attestation.go:180-188 | Is the machine's invalidation step. |
| AttestationCache.AttestationManager.Sweep | internal/upstream/attestation.go:205-210 | The loop drops exactly the expired entries and their locks. |
| AttestationCache.AttestationManager.Put | internal/upstream/attestation.go:200-212 | Stores the entry, then sweeps. |
| AttestationCache.AttestationManager.Token | internal/upstream/attestation.go:104-154 | A call alone on its key follows the machine, returns the served token, leaves the cache `CacheAfter` and asks the gateway exactly once, or not at all: exactly if the key is empty, a "not issued" entry is not over, a token lasts more than 24 hours still, or a failure is less than 30 s old. |
| AttestationAnswers.AskedExactly | internal/upstream/attestation.go:104-134 | The same of the cache: when the gateway is asked, in hours and seconds. |
| AttestationAnswers.NextAsksExactly | internal/upstream/attestation.go:126-163 | After a call that asked, the next one asks again from 30 s after a failure, an hour after "not issued", and once the token has at most 24 hours left. |
| AttestationAnswers.OwnEntryExactly | internal/upstream/attestation.go:139-163 | What is cached under the key afterwards: the reply, unless it is over already; after a failure the old token and expiry, or none, with the time. |
| AttestationAnswers.OtherEntriesExactly | internal/upstream/attestation.go:200-212 | Of other keys a reply drops exactly the entries whose expiry is past; nothing else drops any. |
| AttestationAnswers.LookupAnswersExactly | internal/upstream/attestation.go:108-120 | In every run a lookup answers a call exactly if the entry is an unexpired "not issued" or a token with more than 24 hours left, and with that entry's token. |
| AttestationAnswers.CooldownAnswersExactly | internal/upstream/attestation.go:126-134 | In every run a call that missed turns back with the old token exactly if the failure is less than 30 s old at its clock reading. |
| AttestationAnswers.StoreSweepsExactly | internal/upstream/attestation.go:200-212 | A store drops exactly the expired entries and their locks, its own included, and no lock without an entry. |
| ErrorClasses.RotationReadsStatusOnly | internal/upstream/client.go:254-423 | Whether the scheduler goes on depends on the status alone (401, 402, 429); only 403 disables; only a 429 quota signal cools down. |
| DeviceRuns.CallKeepsMarks | internal/server/chat.go:166-182 | Whatever the answer, a call keeps marks and signals matched: a mark is the latest of its account's quota signals' midnights, and every signal has one. |
| DeviceOrder.ReplayCalls | internal/server/chat.go:497-518 | After n of a request's calls exactly n calls and n records have been added, the i-th with the i-th answer's status and usage. |
| DeviceScheduler.Server.OnApiError | internal/server/chat.go:272-338 | What each upstream error does to the table, the marks and the records, and whether the loop goes on. |
| DeviceScheduler.Server.Call | internal/server/chat.go:257-362 | One account's turn has the effect of `AfterCall`, and is the last exactly when the answer does not rotate. |
| DeviceScheduler.Server.FilterCandidates | internal/server/chat.go:237-247 | Keeps the accounts not in their daily cooldown. |
| DeviceScheduler.Server.TryDeviceChatCompletion | internal/server/chat.go:230-367 | The method with its loops, early returns and hints computes `TryDeviceChat`. |
| DeviceScheduler.Server.BestDevice | internal/server/chat.go:186-213 | The filter, stable sort and search return the account `Best` names. |
| DeviceScheduler.Server.ChatTest | internal/server/admin.go:727-775 | A model test sends one call to that account, if there is one, and touches neither table nor marks nor records. |
| DeviceOrder.OrderUnique | internal/server/chat.go:249-254 | Quota descending, id ascending is an order with one arrangement only: nothing depends on the sorting algorithm. |
| DeviceOrder.SortInOrder | internal/server/chat.go:249-254 | The stable sort of a list that comes by id yields that arrangement of the same accounts. |
| DeviceOrder.EligibleExact | internal/server/chat.go:230-265 | The eligible list holds, in that order, exactly the accounts that are authorized, enabled, parsable and not in cooldown. |
| DeviceOrder.BestIsFirstEligible | internal/server/chat.go:184-213 | The account a model test uses is the one a request would call first, and there is none exactly when a request has nobody to call. |
| DeviceOrder.UnknownQuotaFirst | internal/server/chat.go:157-164 | An account of unknown quota comes before every account of known quota. |
| DeviceOrder.CalledExactly | internal/server/chat.go:230-367 | A request's whole effect is that of calling, in order, the eligible accounts up to the first answer that does not rotate; it is served exactly when there is one. |
| DeviceOrder.RequestCalls | internal/server/chat.go:257-361 | Each of these calls is on record once, with its status and usage, and nothing else is. |
| DeviceOrder.BodiesDoNotSteer | internal/upstream/client.go:317-364 | Two runs whose answers differ only in bodies, usage and timing call the same accounts and agree on served. |
| DeviceOrder.OneBanAtMost | internal/server/chat.go:278-298 | A request disables at most the account it called last, exactly by a 403, and calls nobody after a 403. |
| DeviceOutcomes.QuotaTextsExactly | internal/upstream/client.go:260-272 | A quota signal is a 429 whose body, in lower case, holds one of four texts. |
| DeviceOutcomes.LoginTextsExactly | internal/upstream/client.go:381-421 | A 403 asks for a new login exactly if its body holds a review text and none of the client-only ones. |
| DeviceOutcomes.CallableInOrder | internal/server/chat.go:230-265 | Who is called and in which order, told by the columns: authorized, enabled, keys that parse, no mark ahead; unknown quota as the largest, then by quota, then by id. |
| DeviceOutcomes.RequestSequence | internal/server/chat.go:230-366 | A request calls these accounts in turn, at the times the answers take, until one is not a network error, 401, 402 or 429, and is served exactly if there is one. |
| DeviceOutcomes.RequestRows | internal/server/chat.go:278-350 | Every row after a request: a 401 takes the authorization; a 403 disables, as needing a new login if the body asks for one and else as banned; used tokens are counted with one request; nothing else changes. |
| DeviceOutcomes.RequestMarks | internal/server/chat.go:320-326 | An account's mark is the Beijing midnight after its last answer that said its quota was used up, or what it was. |
| DeviceOutcomes.RequestRecords | internal/server/chat.go:294-361 | Each call's record has its status, usage and success. |
| DeviceOutcomes.RequestHint | internal/server/chat.go:230-366 | The hint of an unserved request: none without listed accounts, all exhausted, unavailable, or the account called last and what it brought. |
| DeviceOutcomes.TestExactly | internal/server/admin.go:727-775 | A model test makes one call to the account a request would call first, and changes nothing else. |
| DeviceRuns.StepKeepsCoherence | internal/server/chat.go:166-367 | Requests, model tests, authorizations, admin actions and time keep marks, calls and records coherent. |
| DeviceRuns.CoherentAlways | internal/server/chat.go:166-367 | So they are in every state of every run of a gateway just started. |
| DeviceRuns.ExhaustedExactlyOnSignalDay | internal/server/chat.go:166-182 | An account is in cooldown exactly when one of its quota signals is of the current Beijing day: no later mark shortens it. |
| DeviceRuns.NoCallUntilMidnight | internal/server/chat.go:237-260 | After a quota signal no call, by a request or a model test, is sent to the account before the next Beijing midnight. |
| DeviceRuns.OneRecordPerCall | internal/server/chat.go:295-362 | Over whole runs the records are, in order, those of the calls that requests made; model tests leave none. |
| DeviceQuarantine.RequestQuarantines | internal/server/chat.go:278-309 | A 401 leaves its account unauthorized, a 403 leaves it disabled. |
| DeviceQuarantine.RequestSparesQuarantined | internal/store/store.go:1027-1043 | A request calls no account that is unauthorized or disabled. |
| DeviceQuarantine.TestSparesQuarantined | internal/server/chat.go:186-213 | Nor does a model test. |
| DeviceQuarantine.StepKeepsQuarantine | internal/store/store.go:952-1075 | Only a new authorization, or for a 403 an admin enabling the account, ends that. |
| DeviceQuarantine.RefusedAccountsRest | internal/server/chat.go:278-309 | After a request's 401 or 403 no later step of a run, model tests included, calls that account until such an event. |
| DeviceQuarantine.AuthorizeRestores | internal/store/store.go:952-963 | A new authorization makes the account callable again unless it is in its daily cooldown. |
| DeviceOutcomes.EventRows | internal/store/store.go:952-1112 | What authorizing, enabling, a quota update and a new account do to every row, column by column. |
| DeviceOutcomes.OnlyAuthorizationClears | internal/store/store.go:952-985 | Over whole runs an account needing a login or banned goes back to normal only by a new authorization; enabling it does not clear it. |
| DeviceMetering.MeteringConserved | internal/store/store.go:1077-1082 | Over any part of a run without deletions the tokens added to accounts equal the records' TotalTokens exactly when no record's total is negative. |
| DeviceMetering.ChargesAddUp | internal/server/chat.go:344-361 | In any case they equal the sum of the positive totals. |
| BeijingTime.NextMidnightIsLeast | internal/upstream/client.go:423-429 | The next Beijing midnight is the least midnight after now. |
| BeijingTime.NextMidnightInSeconds | internal/upstream/client.go:423-429 | It is the one instant in the next 86,400 s that is 28,800 s short of a multiple of 86,400. |
| BeijingTime.NextMidnightMonotone | internal/upstream/client.go:423-429 | It never moves back as time goes on. |
| BeijingTime.SameDay | internal/upstream/client.go:423-429 | Two instants share it exactly when they are on one Beijing day. |
| BeijingTime.RefreshTimeIsLeastSlot | internal/server/quota_auto.go:30-41 | The refresh time is the least instant from now on that is two minutes past a Beijing midnight. |
| BeijingTime.RefreshTimeInSeconds | internal/server/quota_auto.go:30-41 | It is the one instant in the next 86,400 s that is 120 s past such a midnight. |
| BeijingTime.FirstSlotAfterMidnight | internal/server/quota_auto.go:30-41 | The first slot after a quota cooldown's midnight is two minutes after it. |
| BeijingTime.QuotaAutoRefreshLoop | internal/server/quota_auto.go:43-60 | In every finite stretch of the loop each round has the slot computed when the last one ended, sleeps up to it, or for a second if it is not ahead, and ends after its delay and duration. |
| BeijingTime.NextDaysSlot | internal/server/quota_auto.go:43-60 | The next slot is the following day's exactly when the round ended after its slot and within a day of it. |
| BeijingTime.NoSlotSkipped | internal/server/quota_auto.go:43-60 | While rounds end so, no day's slot is skipped. |
| BeijingTime.SlotsAdvance | internal/server/quota_auto.go:43-60 | Slots never go back and advance exactly when the round ended after its slot. |
| RoundRobin.PickFailsIffNoneAvailable | internal/upstream/pool.go:68-89 | A pick fails exactly when no key is available. |
| RoundRobin.ExactShare | internal/upstream/pool.go:68-89 | Any n consecutive counter values pick an available key once for itself and once for every unavailable key directly before it. |
| KeyPoolSafety.AssignMirrors | internal/store/store.go:235-244 | Setting a key and its row to one status and instant leaves pool and table in agreement: the statement reaches that row alone, to the second. |
| KeyPoolSafety.QuotaMirrors | internal/store/store.go:246-255 | A quota update keeps the table loadable, and a reload after it leaves pool and table in agreement. |
| KeyPool.Pool.constructor | internal/upstream/pool.go:27-35 | A new pool is loaded from its table. |
| KeyPool.Pool.Reload | internal/upstream/pool.go:37-64 | Memory becomes the table, expired cooldowns set active in both, a blank status read as active. |
| KeyPool.Pool.Pick | internal/upstream/pool.go:68-89 | Advances the counter by one and returns the first available key from there in circular order. |
| KeyPool.Pool.ReportResult | internal/upstream/pool.go:91-152 | Memory and table become those of `AfterResult`. |
| KeyPool.Pool.DisableKey | internal/upstream/pool.go:190-205 | Memory and table become those of `AfterDisable`. |
| KeyPool.Pool.CountByStatus | internal/upstream/pool.go:160-174 | Counts the keys by the status they show. |
| KeyPool.Pool.ActiveCount | internal/upstream/pool.go:176-188 | Counts keys that are active with no cooldown ahead. |
| KeyPoolSafety.StepKeepsMirror | internal/upstream/pool.go:37-205 | Every operation keeps status and cooldown in memory those of the row, a blank status being active, for every key in both. |
| KeyPoolSafety.MirrorAlways | internal/upstream/pool.go:37-205 | So they are in every sequential run from a freshly loaded pool. |
| KeyPoolSafety.CoherentToTheInstant | internal/store/store.go:235-244 | Memory and row hold the same instant exactly when the cooldown ends on a whole second; they are never a second apart. |
| KeyPoolSafety.SubSecondDrift | internal/upstream/pool.go:128-134 | A plain 429 in the middle of a second leaves them apart. |
| KeyPoolSafety.ReloadIdempotent | internal/upstream/pool.go:37-64 | Reload changes exactly the cooldowns strictly in the past; a second one at the same time changes nothing. |
| KeyPoolSafety.ReloadRevivesOnTime | internal/upstream/pool.go:44-54 | Reload ends a cooldown no later than the first instant after its end, and less than a second early. |
| KeyPoolSafety.ExpiredCooldownNotPicked | internal/upstream/pool.go:68-89 | Every picked key is active: an expired cooldown alone does not put a key back. |
| KeyPoolSafety.ActiveCountTellsPick | internal/upstream/pool.go:176-188 | ActiveCount is positive exactly when a pick succeeds. |
| KeyPoolSafety.ShownActive | internal/upstream/pool.go:160-188 | The counts shown cover all keys, and exceed ActiveCount exactly by expired cooldowns. |
| KeyPoolSafety.PicksShareExactly | internal/upstream/pool.go:68-89 | On an unchanged pool of n keys any n consecutive picks return each active key 1 + (inactive keys directly before it) times. |
| KeyPoolSafety.SuccessActivates | internal/upstream/pool.go:136-146 | A 2xx leaves the key active in memory and table (a blank row reads so) whatever it was, disabled included. |
| KeyPoolOutcomes.ResultExactly | internal/upstream/pool.go:91-152 | A 401 disables key and row; a 402 or quota 429 cools both to the next midnight, any other 429 for exactly 90 s; a 2xx makes both active; anything else changes nothing, and no other key or row ever changes. |
| KeyPoolOutcomes.ShortCooldownLasts | internal/upstream/pool.go:128-134 | After a plain 429 a reload more than 90 s later makes key and row active, one at most 89 s later does not. |
| KeyPoolOutcomes.UnknownKey | internal/upstream/pool.go:99-111 | Results for and disabling of a key the pool does not hold change nothing. |
| KeyPoolOutcomes.DisableExactly | internal/upstream/pool.go:190-205 | Disables that key and its row, without a cooldown, and nothing else. |
| KeyPoolOutcomes.ReloadExactly | internal/upstream/pool.go:37-64 | What every row and key are after a reload. |
| KeyPoolOutcomes.GoodCheckExactly | internal/server/admin.go:339-384 | A good check takes key and row out of cooldown, a running one too, notes the time, and leaves a disabled key disabled. |
| KeyPoolOutcomes.RefusedCheckExactly | internal/server/admin.go:360-368 | A check that gets 401 disables key and row. |
| KeyPoolOutcomes.BrokenCheckExactly | internal/server/admin.go:339-384 | Any other failed check, or one of a missing row, changes nothing. |
| KeyPoolOutcomes.SwitchExactly | internal/server/admin.go:314-336 | The admin's switch sets row and key alike and ends any cooldown. |
| KeyPoolOutcomes.AddExactly | internal/store/store.go:200-209 | A new key gets the next id and is active in the table; a known one is ignored. |
| KeyPoolOutcomes.DeleteExactly | internal/store/store.go:230-233 | A deletion takes the rows of that id, in the table only. |
| KeyPoolOutcomes.PickExactly | internal/upstream/pool.go:68-89 | The first key with no cooldown ahead from the place after the counter on, in circular order, or none exactly if there is none. |
| KeyPoolOutcomes.ShownExactly | internal/upstream/pool.go:160-174 | Each count is the number of keys with that status, those whose cooldown is past among the active ones. |
| KeyPoolOutcomes.ActiveExactly | internal/upstream/pool.go:176-188 | ActiveCount is the number of active keys with no cooldown from now on. |
| QuotaRefresh.Server.CheckQuotaFor | internal/server/admin.go:339-384 | A good check or a 401 updates the row and reloads the pool; other failures change nothing. |
| QuotaRefresh.Server.CheckAllQuotas | internal/server/quota_auto.go:97-116 | Checks every listed key in turn and counts the successes. |
| QuotaRefresh.Server.RunQuotaAutoRefresh | internal/server/quota_auto.go:73-95 | Does nothing while another full check runs, and gives the flag back. |
| QuotaRefresh.RoundTakes | internal/server/quota_auto.go:97-116 | A full check ends when all replies are in, 300 ms later for every good one. |
| QuotaRefresh.RoundRecovers | internal/server/quota_auto.go:97-116 | A round begun after a cooldown's end lifts it, in table and memory, exactly when some check in the round succeeds or gets 401, be it another key's. |
| QuotaRefresh.RoundFrees | internal/server/quota_auto.go:97-116 | Whatever its status, a row whose cooldown does not outlast the round's beginning is out of cooldown, as is its key, once a check is decided. |
| QuotaRefresh.QuotaCools | internal/upstream/pool.go:120-126 | A quota answer puts row and key into cooldown up to exactly the next Beijing midnight. |
| QuotaRefresh.QuotaCooldownRecovers | internal/upstream/pool.go:120-134 | So a key cooled for quota at t, whatever operations follow, is out of cooldown in table and memory after any round in which a check is decided, if it begins after the next Beijing midnight and after the end of every later cooldown of the key. |
| LoginThrottle.Throttle.RecordFail | internal/server/server.go:451-464 | Counts the failure and starts a block at the limit. |
| LoginThrottle.AttemptKeeps | internal/server/server.go:444-470 | Every attempt keeps an address's entry the count and block of its failures since its last success, counted from the attempts themselves, and of any limit + 1 of these the last comes a window after the first or later. |
| LoginThrottle.Throttle.HandleAdminLogin | internal/server/admin.go:24-42 | The method computes `Decide` and `AfterLogin`. |
| LoginThrottle.AttemptExactly | internal/server/admin.go:24-42 | In every run an attempt turned away or not JSON leaves the map as it is, the right key forgets the address, a wrong one is counted against it alone. |
| LoginThrottle.FailuresBounded | internal/server/server.go:428-470 | Between two successes of an address every half-open interval of the window's length holds at most maxFails failed checks (one, if maxFails is below one), whatever other addresses do. |
| LoginThrottle.FailuresPerWindow | internal/server/server.go:428-470 | In every run an interval of the window's length with k successes of an address holds at most k * (limit - 1) + limit of its failures. |
| LoginThrottle.OneFailurePerWindow | internal/server/server.go:451-464 | With a limit of one or less, one failure per window, whatever succeeds. |
| LoginThrottle.FiveFailuresPerWindow | internal/server/server.go:90 | With the gateway's settings: five in any fifteen minutes that hold no success of the address. |
| LoginThrottle.BlockedExactly | internal/server/server.go:444-464 | An address is blocked exactly while its wrong keys since its last right one, those let through, are a full multiple of the limit and the last is less than a window old. |
| LoginThrottle.GatewayBlocks | internal/server/server.go:90 | With the gateway's settings: blocked at every fifth failure since the last success, for 900 seconds. |
| LoginThrottle.BoundReached | internal/server/server.go:451-470 | For every limit, window and number of successes a run reaches that bound. |
| DeviceEncoding.RawSignature | internal/upstream/device.go:235-245 | The in-place copies compute `Signature`, and panic exactly when R is wider than its half or S than both. |
| DeviceEncoding.SignatureReadsBack | internal/upstream/device.go:235-245 | The halves read big-endian as r and s exactly when s fits in its half. |
| DeviceEncoding.SignaturePanics | internal/upstream/device.go:235-245 | There is no signature exactly if R does not fit its half or S both. |
| DeviceEncoding.SignatureRoundTrip | internal/upstream/device.go:235-245 | For r, s below 2^bits there is a signature of 2 * ceil(bits/8) bytes whose halves read as r and s. |
| DeviceEncoding.SignatureInjective | internal/upstream/device.go:235-245 | Different pairs have different signatures. |
| DeviceEncoding.FirstByteCountsMost | internal/upstream/device.go:235-245 | Bytes are read big-endian. |
| DeviceEncoding.SextetsRoundTrip | internal/upstream/device.go:134-135 | Regrouping bytes in sixes and back gives the same bytes, whatever their number. |
| DeviceEncoding.SameBits | internal/upstream/device.go:134-135 | Four sextets hold the 24 bits of their three bytes, most significant first; the rest is filled with zero bits. |
| DeviceEncoding.DigitTable | internal/upstream/device.go:134-135 | The digits are A-Z, a-z, 0-9, - and _, in this order. |
| DeviceEncoding.DecodeEncode | internal/upstream/device.go:134-160 | Decoding an encoding gives the bytes back, with line breaks added anywhere. |
| DeviceEncoding.DecodeRefuses | internal/upstream/device.go:145-160 | Without line breaks a text is refused exactly for a foreign character or a single digit left over. |
| DeviceEncoding.CoordinateRoundTrip | internal/upstream/device.go:134-163 | A coordinate reads back whether written minimally or padded to any width. |
| DeviceEncoding.KeyRoundTrip | internal/upstream/device.go:145-180 | A written public key reads back; a private key does exactly when its secret is not zero. |
| DeviceEncoding.KeyRefusals | internal/upstream/device.go:145-180 | Which keys are refused, and as what. |
| Changelog.FindIsFirst | internal/sitefeed/sitefeed.go:213-224 | The search returns the first element of that name in document order, and none only if there is none. |
| Changelog.CutOnce | internal/sitefeed/sitefeed.go:276-284 | Appending a line to a summary cut so far equals cutting all the lines once. |
| Changelog.Splitter.OpenBlock | internal/sitefeed/sitefeed.go:242-245 | A heading opens a block and becomes the current one. |
| Changelog.Splitter.AddLine | internal/sitefeed/sitefeed.go:246-257 | A line goes to the current block's summary, or nowhere before the first heading. |
| Changelog.Splitter.Walk | internal/sitefeed/sitefeed.go:231-263 | Walking a node takes its items in document order. |
| Changelog.Splitter.DropUntitled | internal/sitefeed/sitefeed.go:266-273 | Filtering in place keeps the titled blocks in order. |
| Changelog.SplitChangelogBlocks | internal/sitefeed/sitefeed.go:226-274 | The walk with its pointer and incremental cuts equals grouping the pruned items by heading, joining and cutting each block once, and dropping the untitled. |
| Changelog.EntriesReport | internal/sitefeed/sitefeed.go:226-284 | The entries are the titled blocks in order, each with its lines joined by byte 10 if these are at most 500 bytes, else the first 500 of them and E2 80 A6. |
| Changelog.ItemsSaid | internal/sitefeed/sitefeed.go:231-263 | The walk takes what the visible nodes say in document order: h2 opens a block, h3 in brackets, li and p are lines, nothing under h1 or inside these. |
| Changelog.BlocksKeepItems | internal/sitefeed/sitefeed.go:226-274 | Read in order the blocks are the page's items again, less the lines before the first heading. |
| Changelog.FetchChangelog | internal/sitefeed/sitefeed.go:198-211 | Errors exactly when there is no main element or no titled block. |
| LocalKeys.Store.CreateLocalKey | internal/store/store.go:333-358 | Takes the smallest free name of the series after at most one try more than there are rows; fails exactly on a duplicate key. |
| LocalKeys.FirstNames | internal/store/store.go:333-350 | The names tried for x are x, x-2, x-3; a blank name is "default". |
| LocalKeys.TakenAtMostRows | internal/store/store.go:340-350 | The names tried are distinct, so a table of n rows cannot take n + 1 of them. |
| Decimal.AtoiOfItoa | internal/config/config.go:246-253 | Every 64-bit integer reads back. |
| Decimal.DigitsArePlaces | internal/config/config.go:246-253 | Digits count from the left, each ten times the next. |
| Decimal.AtoiReads | internal/config/config.go:246-253 | Digits, with + or - or without, read as their value if 64 bits hold it. |
| Decimal.AtoiRefuses | internal/config/config.go:246-253 | Nothing else reads as a number. |
| Text.TrimExact | internal/config/config.go:200-212 | Trimming leaves nothing to trim and changes nothing that needs none. |
| Text.TrimBetween | internal/config/config.go:200-212 | A text between characters that are cut is left, whole. |
| Text.CutExactly | internal/config/config.go:200-212 | Which characters are cut. |
| Text.SplitJoin | internal/config/config.go:147-152 | Splitting joined lines gives the lines back. |
| EnvFile.Dir.ReadEnvLines | internal/config/config.go:216-237 | A missing file is created and read as no lines. |
| EnvFile.Dir.ReadEnvFile | internal/config/config.go:200-214 | The loop computes the map of the file's settings, the later of two lines winning. |
| EnvFile.Dir.RewriteLines | internal/config/config.go:121-141 | Rewrites exactly the lines that set a key of the patch and tells which keys it met. |
| EnvFile.Dir.AddLines | internal/config/config.go:142-146 | Adds a line for every other key, in any order. |
| EnvFile.Dir.Save | internal/config/config.go:115-152 | The file written is `Written` for some order of the missing keys, and is what is read back. |
| EnvFile.OtherLinesKept | internal/config/config.go:115-141 | Comments and lines for other keys stay as they are. |
| EnvFile.PatchedLine | internal/config/config.go:121-141 | A line for a key of the patch becomes the key, an equals sign and the new value. |
| EnvFile.AddedLine | internal/config/config.go:142-146 | So does each line that is added. |
| EnvFile.WrittenSplits | internal/config/config.go:147-152 | The file is these lines, each with a line break after it. |
| EnvFile.LaterLineWins | internal/config/config.go:200-214 | Of two lines for a key the later one wins. |
| EnvFile.LineForEveryKey | internal/config/config.go:200-214 | Nothing but a line sets a key. |
| EnvFile.ParseLineOf | internal/config/config.go:200-212 | A line written for a clean key reads as that key and the value without surrounding spaces and quotes. |
| EnvFile.PaddedLineReads | internal/config/config.go:200-212 | White space anywhere around key and value and quotes around the value do not matter. |
| EnvFile.LinesThatSetNothing | internal/config/config.go:200-210 | Blank lines, comments and lines without = set nothing. |
| EnvFile.SaveReadsBack | internal/config/config.go:115-214 | For every file, patch and order, reading what Save wrote gives the old map overridden by the patch exactly when the patch is clean. |
| EnvFile.TemplateSetsNothing | internal/config/config.go:216-236 | A file just created reads as empty. |
| Settings.PatchHoldsAllFields | internal/config/config.go:173-191 | The map holds all fourteen fields, each under a key of its own. |
| Settings.KeysOfSettings | internal/config/config.go:173-191 | The lines written are for the fourteen known keys and no other. |
| Settings.TextsOfSettings | internal/config/config.go:173-191 | Which key carries which text. |
| Settings.NumbersOfSettings | internal/config/config.go:173-198 | Which key carries which number or flag. |
| Settings.StrComesBack | internal/config/config.go:239-244 | A text field comes back exactly when it is clean, and not empty unless its default is. |
| Settings.IntComesBack | internal/config/config.go:246-253 | A number comes back. |
| Settings.BoolComesBack | internal/config/config.go:255-267 | A flag comes back. |
| Settings.FlagReads | internal/config/config.go:255-267 | 1, true, yes, on and 0, false, no, off in any letter case; anything else leaves the default. |
| Settings.NumberReads | internal/config/config.go:246-253 | Digits with at most one sign, within 64 bits; anything else leaves the default. |
| Settings.DefaultSettings | internal/config/config.go:78-96 | The settings of a file that sets nothing. |
| Settings.EnvironmentDecides | internal/config/config.go:101-113 | Host, port and password come from the environment where it has them; a port that is no number is ignored. |
| Settings.Save | internal/config/config.go:115-171 | Writes the patched file and returns the settings read from it with the environment's overrides; given `PatchableFields(s)` it returns s, FirstRun aside, exactly when s survives. |
| Settings.SettingsRoundTrip | internal/config/config.go:101-191 | Written and read back, settings are the same, FirstRun aside, exactly when each field the environment overrides is overridden by itself and the rest is in normal form, whatever else the file holds. |
| Settings.NothingReplaced | internal/config/config.go:101-113 | Under an empty environment that is exactly the normal form. |

## Left out

- HTTP, TLS, proxies, SSE, JSON and HTML parsing, SQL text and SQLite: upstream answers and parsed trees are arbitrary values, statements are updates of a sequence of rows, and writes succeed.
- Attestation: locks are numbers with one holder, not mutex objects; context deadlines, a nil manager or credential and the user-agent text are not modelled; a failure to sign the request counts as a failed probe.
- Attestation: the machine has no fairness, so nothing is said about waiting calls getting their turn.
- Attestation: the class's own methods are proved for a call alone on its key; interleavings are the machine's.
- Device scheduler: requests run one after the other; a request that overlaps another may read the accounts before the other marks one.
- Device scheduler: restarts are not among the events; the daily marks live in memory only, so after one an exhausted account is callable again before midnight.
- Device scheduler: cost, duration, model and error texts of a record, `last_error`-like reason texts, alerts and log lines.
- Device scheduler: a negative usage is possible in the model; the upstream is not known to send one.
- Device scheduler: a hint names the kind of trouble and the account, not the Chinese text.
- Key pool: the rotation counter and the row counters do not overflow; `last_error`, masks and statistics are not modelled; the picked key is its index, not a pointer into the pool.
- Key pool: `strings.ToLower` of an error body is a parameter next to the body itself.
- Quota refresh: the catch-up at start and the device accounts' own quota refresh are not part of this model.
- Quota refresh: no other result is reported while a round is under way.
- Login throttle: entries are values in the map; concurrent attempts that pass the check together before either fails are not modelled.
- Device keys: curve arithmetic, hashing and signing; whether a decoded point lies on the curve is not checked by the source either.
- Changelog: the current block is an index into the list; the source holds a pointer into the growing slice, taken anew after each append.
- Changelog: how an element's text is collected and its white space collapsed; the text of an element is an arbitrary byte string.
- Settings file: strings are sequences of code points, so a file is valid UTF-8; the text of the template is a parameter; `ToLower` is modelled on ASCII letters, which decides the eight words compared.
- Settings: first start and its random password.
- SettingsRoundTrip: an environment variable that holds a line break is outside the statement.
- Statistics queries, Bark push, site-feed fetching, fingerprints, captcha and web check-in, admin CRUD handlers and the front end: plumbing around the modelled cores.
