# Verification of the Letterlock custody, limiter and queue code

A Dafny model of the parts of Letterlock whose correctness spans more than one function, and proofs
about it. `dafny verify dfyconfig.toml` checks the whole project.

Letterlock keeps each account's mail tokens and documents encrypted under a data key that is sealed
twice: once by the enclave, and once more by a separate co-signer box that meters every unwrap. The
model covers that split, the co-signer's rate limiter and its audit log, and the stores, queues and
sequential cores around them.

| file | models |
|---|---|
| `AuditLog.dfy` | the co-signer's two tables, BACKFILL, the counts, the prune |
| `Limiter.dfy`, `LimiterBounds.dfy`, `LimiterExact.dfy`, `Retention.dfy` | `authorize` as a machine of atomic steps; what every run keeps; that it refuses only what it must; exactly when pruning changes no decision |
| `CoSigner.dfy` | `authorize` as it is written, over an audit-log object, with the rest of the box acting between its reads |
| `KeyCache.dfy`, `DekCache.dfy` | the cache of opened keys: over many processes together with the limiter, and one process call by call |
| `Layers.dfy`, `Keyring.dfy` | the two layers as a statement about knowledge, and as bytes, versions and rotation |
| `Breach.dfy` | the layers, the limiter and the cache together: what an attacker who owns the enclave gets |
| `Shredding.dfy`, `LateStores.dfy` | rewrap and create in their parts, with destroys, retirements and each other in between: when a destroyed record stays so, and when every record still opens |
| `Manifest.dfy`, `ManifestLock.dfy` | `accounts.json`: every mutator, and the locked read-modify-write transaction |
| `WakeProtocol.dfy`, `Spool.dfy`, `BillingQueue.dfy` | the FIFO wake, the locked spool, the bounded-attempt billing queue |
| `Sanitizer.dfy`, `SanitizerRoundTrip.dfy` | model text made safe for Telegram |
| `SignedValues.dfy` | signed cookies and tokens |
| `Scheduler.dfy` | the schedule's date arithmetic and its passes |
| `ContactBucket.dfy` | the contact form's token bucket and its sweep |
| `ChatLink.dfy` | changing an account's Telegram chat |
| `Reachability.dfy` | the two worklists of the dead-code tool |

How the concurrent parts are modelled: a machine whose steps are the atomic actions of the code
(one audit call under its lock, one system call of a receiver, one locked file operation), and a run
is any list of steps at all, a step that is not possible where it stands changing nothing. Theorems
are about every run. Where the code is a sequence of statements over fields, it is also written as a
class, and its contracts tie each call to the machine: `CoSigner.Policy`, `BillingQueue.Daemon` and
`ChatLink.ChatLinks` are runs of their machines by contract.

Ideal pieces: AES-GCM opens to what was sealed or to nothing; HKDF (section 2 of RFC 5869) and HMAC
are opaque; a nonce from the system is one not used before. Clocks do not go back, though a thread may
use a sample late. The five ceilings are fixed for a run. Attestation is a boolean input.

## Where the code and what is said of it part

- Pruning is transparent to the limiter only while no prune lands in a decision older than the
  retention of an ALLOW row less the longest window. `Retention.PrunesUnseenIffWithinSlack` says
  exactly that: for every `d`, all runs whose prunes land in decisions no older than `d` answer as if
  nothing were pruned if and only if `d` is within that slack. Past it,
  `Retention.StalledDecisionIsChanged` is a run from an empty box that answers differently.
- `backend/daemons/scheduler.py` says a scheduled time that passed unobserved runs at the next tick.
  A firing that passes while its own job is running does not: the mark is the time the run ended, so
  no later pass finds the firing due. `Scheduler.LongRunSwallowsAFiring` is the billing poller losing
  its 06:00 that way. `Scheduler.AttendedIffNotSwallowed` is the exact condition for one firing and
  `Scheduler.PunctualIffRunsEndInTime` for a job: it loses none if and only if every run ends before
  the first firing after it began.
- `_contact_allowed` in `frontend/web_server.py` samples the clock before it takes the lock, and the
  server is threaded, so a visit can be answered after one sampled later. The later one's sweep may
  then forget a bucket that is not yet full by the earlier one's clock, and a source is admitted four
  times in under twenty minutes (`ContactBucket.OvertakenBreaksAll`). The bound, the sweep's being
  unseen and the budget deciding hold in every run late by at most `d` if and only if `d` is not
  positive: `ContactBucket.BoundKeptIffInOrder`, `SweepUnseenIffInOrder`, `BudgetDecidesIffInOrder`.
- `backend/custody/keyring.py` says a destroyed account's data stays ciphertext even if its directory
  is restored. `rewrap` reads the record, calls the co-signer and stores the answer with no lock over
  the three, so one under way writes the destroyed record back, whether the destroy fell before the
  answer or after it (`Shredding.LateStoreRestores`). `Shredding.DestroyedForGoodIff` is the exact
  condition, at any moment of any run: no rewrap of the account is between its read and its store
  with a record the co-signer can still open, and no create of it is between its test and its store
  with a wrap it has, or can still get once.
- `cosigner/keys.py` says an old version may go once `rotate` reports every record at the current one.
  A call that has its answer and has not stored it holds a record that no such report sees; stored
  after the version is gone, it opens for nobody (`LateStores.RotationMissesACreate`, for a create
  answered before the bump). And a rewrap of an earlier record can overwrite a new key's.
  `LateStores.RecordsOpenIffCareful` says that those two, and no other step, cost a record its meaning.
- `backend/custody/keyring.py` calls `DEK_TTL` how long an opened data key stays in enclave memory. It
  is how long one is served from there. Nothing evicts an expired entry: it stays until the key is
  opened again or `forget` is called (`KeyCache.OnlyForgetDrops`), so what a breach finds in memory
  is bounded by how long the processes have run (`KeyCache.MemoryIsNamed`), not by the TTL.

## Model

| member | source | states |
|---|---|---|
| `LimiterBounds.SweepCeilingOverRuns` | cosigner/policy.py:208-233 | in every run, with prunes, restarts and other connections between any two reads, every closed 900 s interval of the never-pruned history releases keys of at most `distinct` accounts, both actions together |
| `LimiterBounds.SweepOverSpan` | cosigner/policy.py:208-233 | so a span of D seconds releases keys of at most distinct * (floor(D / 900) + 1) accounts |
| `LimiterBounds.CountedAccountHasRoom` | cosigner/policy.py:225-227 | the early return for an account already counted does not break the sweep ceiling |
| `LimiterBounds.HourlyCeilingsOverRuns` | cosigner/policy.py:236-279 | in every run, every closed 3600 s interval, not only those ending at a decision, respects the four hourly ceilings |
| `LimiterBounds.WrapOnceOverRuns` | cosigner/policy.py:192-205 | at most one wrap is ever allowed per account, and `grants` is exactly the pairs ever allowed with the earliest time of each, across prunes and restarts |
| `LimiterBounds.StepKeepsInv` | cosigner/policy.py:301-333 | every atomic step keeps the ceilings, the tables' relation to the history, and what the decision in flight has established |
| `LimiterBounds.CeilingWithRow` | cosigner/policy.py:236-279 | a row that was allowed under the limit keeps every interval of the window within it |
| `LimiterBounds.OldDatabaseIsSound` | cosigner/audit.py:101-123 | a database from before `grants` existed is sound after its first connect |
| `Retention.PrunesChangeNoDecision` | cosigner/retention.py:75-104 | a run with prunes anywhere, mid-decision included, writes the same rows, grants and answers as the run with none, if no prune lands in a decision past the slack |
| `Retention.PrunesUnseenIffWithinSlack` | cosigner/policy.py:176-180 | for every d, runs whose prunes land in decisions no older than d all answer as without prunes if and only if d is within the slack |
| `Retention.StalledDecisionIsChanged` | cosigner/policy.py:176-180 | for every stall past the slack, a run from an empty box in which the prune lets a decision go on that the full log refuses |
| `LimiterExact.GrantedIffCeilingsKept` | cosigner/policy.py:301-333 | taken without a pause, a decision past the gates is granted if and only if the history with its grant keeps every ceiling and wrap-once |
| `LimiterExact.AnswerIsARun` | cosigner/policy.py:301-333 | that decision is a run of the machine with no other event between its reads |
| `LimiterExact.UnwrapAnswerNamed` | cosigner/policy.py:236-279 | taken without a pause, an unwrap of either kind is refused as per-user, sweep or aggregate exactly when that rule is the first at its ceiling, with the number it counted in its own window |
| `LimiterExact.OtherAnswersNamed` | cosigner/policy.py:236-279 | a proof alone is refused by the sign ceiling, a rewrap by the rewrap ceiling and a wrap by wrap-once, each exactly when it is met |
| `LimiterExact.RefusedHasNoRoom` | cosigner/policy.py:192-279 | each refusal, by whichever rule, is one a grant would have broken a ceiling or wrap-once for |
| `Retention.RunTogether` | cosigner/retention.py:80-104 | the simulation behind it: the pruned log and the full log stay twins step by step |
| `Audit.PruneKeepsCountsIff` | cosigner/retention.py:75-104 | a prune leaves every windowed count of every log alone if and only if its cutoff has not passed the window's start |
| `Audit.BackfillRecoversOldLog` | cosigner/audit.py:78-81 | BACKFILL recovers every first grant from an old log, and running it again on any part of the log changes nothing |
| `Audit.BackfillIsIdle` | cosigner/audit.py:78-81 | once `grants` is exact, BACKFILL from a pruned log is a no-op |
| `Audit.ExactWithRow` | cosigner/audit.py:158-181 | recording a row with its first grant keeps `grants` exact |
| `Audit.CountedRows` | cosigner/audit.py:223-265 | which rows and which accounts a windowed query counts, row by row |
| `Audit.AuditLog.constructor` | cosigner/audit.py:101-123 | an opened database holds exactly what was stored |
| `Audit.AuditLog.Connect` | cosigner/audit.py:101-123 | the scan at connect computes BACKFILL and touches nothing else |
| `Audit.AuditLog.Record` | cosigner/audit.py:158-181 | one new row, and a grant only for the first ALLOW of its pair |
| `Audit.AuditLog.GrantedSince` | cosigner/audit.py:223-243 | the per-action counts summed are the number of granted rows over all the actions named, repeated names counted once |
| `Audit.AuditLog.DistinctUidsSince` | cosigner/audit.py:246-265 | the number of distinct accounts over the actions together, not the sum of the counts |
| `Audit.AuditLog.EverGranted` | cosigner/audit.py:268-281 | for any full history `grants` is exact for, whether some row of it allowed the action, pruned from the log or not |
| `Audit.AuditLog.Prune` | cosigner/retention.py:80-104 | keeps exactly the ALLOW rows of the last 30 days and the DENY rows of the last 365, unchanged, and reports how many of each decision went |
| `CoSigner.Policy.constructor` | cosigner/policy.py:301-333 | a fresh co-signer is the machine's starting point |
| `CoSigner.Policy.SweepRefusal` | cosigner/policy.py:208-233 | the two reads as written, with anything between them, are steps of the machine; a refusal is the sweep's and names the accounts counted at its last read, a ceiling's worth of them |
| `CoSigner.Policy.FirstCount` | cosigner/policy.py:239-262 | sign, rewrap and the per-user count answered from one read, each refusing with its own ceiling and the number read exactly at or over it |
| `CoSigner.Policy.WrapOnceRefusal` | cosigner/policy.py:192-205 | with anything happening before its read, a step of the machine that refuses exactly when a wrap was granted |
| `CoSigner.Policy.RateRefusal` | cosigner/policy.py:236-279 | a wrap passes untouched; for the rest the whole rate decision is a run of the machine ending in the refusal it returns, which is the ceiling's that the last read met, with the number read and the window it names |
| `CoSigner.Policy.Decide` | cosigner/policy.py:301-333 | kill switch, then attestation, then the request's own check, then wrap-once or the rates; a wrap is refused exactly when one was granted, by the grants of the moment and, in a sound run, of the start; any other refusal is the rate rule's own |
| `CoSigner.Policy.RecordDecision` | cosigner/policy.py:301-333 | one row, ALLOW or DENY, stamped with the time sampled for it |
| `CoSigner.Policy.Authorize` | cosigner/policy.py:301-333 | one row is added, stamped between call and return, and it says what was answered; past the gates the answer is one of the action's own refusals, at or over its own ceiling |
| `CoSigner.Policy.CeilingsHold` | cosigner/policy.py:301-333 | however many decisions an object has made, the sweep ceiling, all four hourly ceilings and wrap-once hold of all it allowed |
| `KeyCache.CacheCannotHideSweep` | backend/custody/keyring.py:278-292 | over any number of processes, document reads inside any 600 s touch at most `distinct` accounts, apart from keys `create` seeded |
| `KeyCache.SeededReadsFollowCreate` | backend/custody/keyring.py:175-201 | a read served by a seeded key follows a create of that account by at most the TTL |
| `KeyCache.OnlyForgetDrops` | backend/custody/keyring.py:278-303 | a key once in memory is there after any run without a `forget` for it, however much later, and is gone after one |
| `KeyCache.MemoryIsNamed` | backend/custody/keyring.py:278-292 | every account with a key in any process's memory has an ALLOW row for an unwrap, or a create, since the processes started; T seconds on, beside created ones, they are at most distinct * (floor(T / 900) + 1) |
| `KeyCache.NextKeepsInv` | backend/custody/keyring.py:278-292 | every key in memory and every read served traces to a metered grant or a create within the TTL, the expiry counting from before the unwrap |
| `DekCache.Process.Create` | backend/custody/keyring.py:175-201 | on success the new key is stored and seeded with its TTL; on failure nothing changed |
| `DekCache.Process.OpenUncached` | backend/custody/keyring.py:204-210 | how an unwrap ends in every case: with a record, its own handle and leave, the account's own key after one metered unwrap; else the right error |
| `DekCache.Process.DekFor` | backend/custody/keyring.py:278-292 | answers with the account's own key whether remembered or not; a live entry costs no unwrap; a miss is asked for, ends as that unwrap does, and when it succeeds is remembered until TTL after the sample taken first |
| `DekCache.Process.ReleaseForRefresh` | backend/custody/keyring.py:213-223 | a token refresh is never served from memory, and ends as its own unwrap does |
| `DekCache.Process.Rewrap` | backend/custody/keyring.py:226-235 | exactly when it succeeds; the record moves to the current outer version and no cached key goes stale |
| `DekCache.Process.Forget` | backend/custody/keyring.py:295-303 | exactly the named entry, or all of them, is dropped |
| `DekCache.Process.Destroy` | backend/custody/keyring.py:159-169 | afterwards neither disk nor memory opens the account under any handle |
| `Layers.CoSignerLearnsNothing` | cosigner/__init__.py:13-21 | no data key, refresh token or enclave secret is in the closure of all the co-signer holds, received and sent, over every run of wraps, unwraps and rewraps |
| `Layers.CoSignerHoldsTheSealed` | cosigner/__init__.py:13-21 | though it does hold its own keys and, for good, every account's data key as the enclave sealed it |
| `Layers.AnswersOpenOnlyTheirAccounts` | backend/custody/wrapping.py:137-184 | with the enclave's disk and secret, the data keys within reach are exactly those of the accounts the co-signer answered for |
| `Layers.TokensNeedAnAnswer` | cosigner/server.py:129-169 | and the refresh tokens within reach are exactly those of the accounts answered for |
| `Layers.SafetyIsClosed` | cosigner/keys.py:217-291 | nothing derivable from safe terms is unsafe: opening, sealing and deriving cannot break the invariant |
| `Breach.BreachIsBoundedAndNamed` | cosigner/__init__.py:23-30 | an attacker with the enclave's secret and disk, and with the data keys in its memory at the start or drawn by a create meanwhile, who sends any term it can make under any handle for D seconds, reaches the data key of an account if and only if it was one of those or an ALLOW row of those seconds names it, so beside those at most distinct * (floor(D / 900) + 1) accounts |
| `Breach.WarmBreachIsBoundedAndNamed` | backend/custody/keyring.py:52-68 | where memory is what the cache holds after any run since the processes started: every account reached has an ALLOW row or a create since then, and those with no create are at most distinct * (floor(T / 900) + 1), T from that start to the end of the breach |
| `Breach.KeysReachedAreThoseAnswered` | cosigner/server.py:103-192 | with the enclave's secret, disk and memory and unlimited wraps and rewraps, the data keys in reach are exactly those in memory and those of accounts an unwrap was answered for |
| `Breach.TokensReachedAreThoseAnswered` | cosigner/server.py:103-192 | and so are the refresh tokens |
| `Breach.ReachIsClean` | cosigner/keys.py:217-291 | nothing the attacker can make, ask for or open holds anything of an account neither in memory nor answered for outside a layer only that account's answer or key removes |
| `Layers.ReversedOrderLeaks` | cosigner/__init__.py:13-21 | with the layers the other way round the co-signer alone would hold the data key |
| `Keyring.RecordRoundTrip` | backend/custody/keyring.py:108-128 | decoding inverts encoding byte for byte and accepts nothing encoding does not produce |
| `Keyring.RecordsKeepTheirMeaning` | backend/custody/keyring.py:204-235 | each call taken whole, after any creates, bumps, rewraps, destroys and retirements of unnamed versions every record opens under its own handle to the key drawn for it, and under no other handle |
| `Keyring.DrawnKeyIsFixed` | backend/custody/rotate.py:57-72 | while a record exists no operation changes the key it stands for |
| `Keyring.RetiredVersionIsRefused` | cosigner/keys.py:244-273 | a record naming a version that is not there is refused by unwrap and by rewrap |
| `Keyring.OneHandlePerSeal` | cosigner/keys.py:244-291 | the outer layer opens if and only if the handle is the record's own |
| `Keyring.CreateKeepsInv` | backend/custody/keyring.py:175-201 | a created record opens, and every other still does |
| `Keyring.CreateSucceedsIff` | backend/custody/keyring.py:175-201 | a create succeeds exactly for a legal handle with no record yet, with leave, while the current version's key is there; else the right error |
| `Keyring.RewrapSucceedsIff` | backend/custody/keyring.py:226-235 | and a rewrap exactly for a record under its own handle, with leave, while that key is there |
| `Keyring.RewrapKeepsInv` | cosigner/keys.py:276-291 | a rewrapped record opens to the same key at the current version, and every other still opens |
| `Keyring.KnownVersions` | cosigner/keys.py:199-214 | exactly the versions whose key is present and not newer than the current one, newest first |
| `Keyring.WithRecordsPick` | backend/custody/rotate.py:44-54 | of all accounts exactly those with a handle and a record are taken, in order |
| `Keyring.Enclave.Candidates` | backend/custody/rotate.py:44-54 | the accounts with a handle and a record, in order |
| `Keyring.Enclave.RewrapOne` | backend/custody/keyring.py:226-235 | succeeds exactly for a record under its own handle, with leave, while the current version's key is there; then one record is at the current version and no other moved; else nothing changed |
| `Keyring.Enclave.Rotate` | backend/custody/rotate.py:57-72 | stops at the first candidate that cannot be moved and at no other; the first `rewrapped` are at the current version and every other record is untouched |
| `Keyring.RotationIsHarmless` | backend/custody/rotate.py:57-72 | stopped anywhere or not, every record opens to the key it opened to before |
| `Shredding.PartsMakeRewrap` | backend/custody/keyring.py:226-235 | read, answer and store with nothing between them are the whole rewrap, refusals included |
| `Shredding.PartsMakeCreate` | backend/custody/keyring.py:175-201 | and so for a create that succeeds |
| `Shredding.LateStoreRestores` | backend/custody/keyring.py:226-235 | a destroy after the read, before the answer or after it, leaves exactly what the rewrap alone leaves: the record is back and opens to the destroyed key |
| `Shredding.DestroyedForGoodIff` | backend/custody/keyring.py:159-169 | at any moment of any run, a destroy is for good under all later steps, creates begun later apart, if and only if no rewrap of the account is between its read and its store with a record the co-signer can still open, and no create of it between its test and its store with a wrap it has or can still get |
| `LateStores.RecordsOpenIffCareful` | cosigner/keys.py:50-52 | after any careful run of parts every record opens to its own key; a step keeps that true of all careful runs after it if and only if it retires no version an unstored answer is on and stores no new key that a rewrap of an earlier record can still overwrite |
| `LateStores.RotationMissesACreate` | cosigner/keys.py:38-52 | the procedure carried out while a create is between its answer and its store: stored before, the record opens; stored after, its version is refused |
| `LateStores.HeldVersionIsLost` | cosigner/keys.py:244-273 | retiring a version no record names, while an unstored answer is on it, leads to a stored record that does not open |
| `LateStores.OvertakenKeyIsLost` | backend/custody/keyring.py:175-201 | storing a new key while a rewrap of the earlier record can still be stored leads to a record that does not open to the new key |
| `LateStores.RunKeepsSound` | backend/custody/keyring.py:226-235 | every careful step, from any process, keeps every record opening and every call's record in hand fitting its account |
| `Manifest.NormIsStable` | backend/accounts/account.py:752-757 | normalizing an id twice is normalizing it once |
| `Manifest.NormCutsAndLowers` | backend/accounts/account.py:752-757 | an id is what stands between the blanks at its ends, letter for letter in lower case |
| `Manifest.MutationsKeepSound` | backend/accounts/account.py:622-971 | every mutator keeps normalized ids and Polar customers unique, never grows past the ceiling, and leaves each account its place and its handle |
| `Manifest.ReconsentKeepsConfiguration` | backend/accounts/account.py:676-725 | a re-consent keeps handle, plan, settings, chat and customer of the account |
| `Manifest.NewEntryFields` | backend/accounts/account.py:655-686 | what each field of a fresh entry holds |
| `Manifest.ReconsentedFields` | backend/accounts/account.py:692-723 | what each field of a re-consented entry holds: the user's own, or the signup's where there was none |
| `Manifest.SettingsWritten` | backend/accounts/account.py:881-900 | the preferences left: what was asked over what was there, and the calendar set, cleared or refused |
| `Manifest.WithoutPicks` | backend/accounts/account.py:945-949 | a deletion leaves the entries of every other id in their order |
| `Manifest.OnlyRegisterIntroduces` | backend/accounts/account.py:622-734 | no other mutator brings an id into the manifest |
| `Manifest.AccountStore.EntryFor` | backend/accounts/account.py:752-757 | the first entry with the normalized id |
| `Manifest.AccountStore.RegisterAccount` | backend/accounts/account.py:622-734 | registers exactly what is legal and within the ceiling; a new address is appended, a known one rewritten in its place, and nothing else moves; else the right error |
| `Manifest.AccountStore.Held` | backend/accounts/account.py:806-809 | whether another account already carries the customer |
| `Manifest.AccountStore.SetPolar` | backend/accounts/account.py:785-816 | the first entry of the id carries the customer and nothing else changed, unless another entry holds it; the right error in every other case |
| `Manifest.AccountStore.SetPlan` | backend/accounts/account.py:737-749 | the first entry of the id has exactly the status asked for and nothing else changed; returns the status before; the right error in every other case |
| `Manifest.AccountStore.SetTarget` | backend/accounts/account.py:760-782 | each field given is taken over into the block and the others kept, or the block is cleared; no other entry changed; the right error in every other case |
| `Manifest.AccountStore.SetVoiceFile` | backend/accounts/account.py:819-837 | the first entry of the id points at the file, or at none, and nothing else changed; the right error in every other case |
| `Manifest.AccountStore.SetPreferences` | backend/accounts/account.py:840-903 | the first entry of the id has the preferences asked for over those it had and nothing else changed, the offered providers being an input; the right error in every other case |
| `Manifest.AccountStore.Dropping` | backend/accounts/account.py:946-949 | every entry but the account's, in order |
| `Manifest.AccountStore.DeleteAccount` | backend/accounts/account.py:926-971 | exactly the entries of the id go, and the answer says whether there was one |
| `ManifestLock.WritersAreSerial` | backend/accounts/account.py:358-398 | with any number of threads and processes the file is the mutations one after another in lock order, an unlocked reader only saw a version already committed, and never one older than an earlier reader's |
| `ManifestLock.HistoryIsSound` | backend/accounts/account.py:358-398 | every version of a serial history is sound and within the ceiling or the size it started at |
| `ManifestLock.ReappearsOnlyByRegister` | backend/accounts/account.py:926-971 | an id that was deleted comes back only through a later registration of it |
| `ManifestLock.HandleIsFixed` | backend/accounts/account.py:676-700 | while an account stays in the manifest its handle never changes, re-consents included |
| `ManifestLock.CommitKeepsHandle` | backend/accounts/account.py:676-700 | one transaction never changes the handle of an account it leaves in place |
| `WakeProtocol.NoWakeIsLost` | backend/daemons/gmail_hook_server.py:258-299 | in every interleaving an address whose receiver is done is drained, or a byte is pending, or the daemon is still before its drain, or the last pass raised early |
| `WakeProtocol.DrainTakesAll` | backend/daemons/wake_queue.py:33-48 | an address spooled stays spooled or drained, and any later drain takes it |
| `WakeProtocol.NextPassDrains` | backend/daemons/daemon_loop.py:167-182 | from one poll to a later one a pass that was begun, by a byte or by the timeout, drained all that was spooled, unless a pass raised early |
| `WakeProtocol.AlwaysGetsToDrain` | backend/daemons/daemon_loop.py:167-182 | from any state whatever the daemon's own steps, nothing failing, lead to a drain that takes all that is spooled |
| `WakeProtocol.PushIsFinished` | backend/daemons/gmail_hook_server.py:258-299 | with the reader open a push is spooled, pokes for one byte if there is room, and is finished |
| `Spool.FrameRoundTrip` | backend/spool.py:70-101 | what appends framed, a drain reads back entry for entry |
| `Spool.NothingLostOrDoubled` | backend/spool.py:70-101 | in every interleaving the entries appended, in lock order, are the drained batches followed by what the file holds |
| `Spool.CallsComplete` | backend/spool.py:70-101 | with the lock free an append and a drain each run to their end, with their effect on the file, and give the lock back |
| `Spool.SpoolFile.constructor` | backend/spool.py:42-76 | a new spool has nothing waiting |
| `Spool.SpoolFile.Append` | backend/spool.py:70-76 | the entry is last of those waiting |
| `Spool.SpoolFile.Pending` | backend/spool.py:78-90 | with the lock held, true exactly when a drain would return something |
| `Spool.SpoolFile.Drain` | backend/spool.py:92-101 | returns everything waiting in order and leaves nothing |
| `Spool.DrainWakes` | backend/daemons/wake_queue.py:33-48 | every email queued, and the older field of an entry without one, is there once, in the order of first arrival, and nothing else is |
| `Common.DedupKeepsArrivalOrder` | backend/daemons/wake_queue.py:33-48 | and in the order each first arrived |
| `BillingQueue.ParseEntries` | backend/billing/billing_queue.py:77-94 | the loop over spooled entries, the two older shapes included |
| `BillingQueue.ParsedInvertsSpooled` | backend/billing/billing_queue.py:65-115 | what was spooled is read back in order |
| `BillingQueue.ParsedIsExact` | backend/billing/billing_queue.py:70-95 | each entry holding an event gives one item, in order, with its count where that is a natural number and none otherwise |
| `BillingQueue.EachEventInOnePlace` | backend/daemons/daemon_loop.py:81-120 | in every run each event that arrived is in exactly one of waiting, in hand, applied, dropped, and was tried at most five times |
| `BillingQueue.FailureSpendsOne` | backend/billing/billing_queue.py:97-115 | each failure lowers the attempts remaining by one and nothing but an arrival raises them |
| `BillingQueue.FailuresAreBounded` | backend/billing/billing_queue.py:62-115 | so a run has at most five failures per arrival |
| `BillingQueue.PermanentFailureEmpties` | backend/daemons/daemon_loop.py:81-120 | a queue whose every event keeps failing is empty after five passes |
| `BillingQueue.Daemon.constructor` | backend/billing/billing_queue.py:56-62 | an empty queue is where runs start |
| `BillingQueue.Daemon.Receive` | backend/billing/billing_queue.py:65-67 | a receiver only adds at the end |
| `BillingQueue.Daemon.Retry` | backend/billing/billing_queue.py:97-115 | requeued with one more attempt, or dropped exactly when the attempts are spent |
| `BillingQueue.Daemon.Attempt` | backend/daemons/daemon_loop.py:81-120 | a handler that returns applies the event; one that raises puts it back with one more failure, or drops it at the fifth, which is when it alerts |
| `BillingQueue.Daemon.ProcessBilling` | backend/daemons/daemon_loop.py:81-120 | nothing is drained without a client; else each waiting event is tried once and applied, requeued or dropped by how its handler ended, with one alert for each dropped |
| `Sanitizer.EscapeIsWhole` | backend/integrations/telegram.py:138-138 | escaped text has no bracket and no broken entity |
| `Sanitizer.CutIsWhole` | backend/integrations/telegram.py:106-116 | a cut at any length leaves whole entities |
| `Sanitizer.TruncateIsWhole` | backend/integrations/telegram.py:106-116 | truncation leaves whole entities and a bounded length |
| `Sanitizer.TruncateIsExact` | backend/integrations/telegram.py:106-116 | text within the limit is left; longer text is its longest beginning that splits no entity, then the mark |
| `Sanitizer.BalancedHasNoForbiddenTag` | backend/integrations/telegram.py:155-157 | whatever the independent reader accepts satisfies the assertion the function ends with |
| `Sanitizer.PermitTags` | backend/integrations/telegram.py:140-157 | the output is well nested over the tags, at most eight deep, has no forbidden bracket and no broken entity; undoing its tags and trailing closers gives the input; and exactly the tags the rule allows are restored |
| `Sanitizer.SanitizeModelHtml` | backend/integrations/telegram.py:119-157 | the same for every input string, within 3800 + 12 + 24 characters |
| `SanitizerRoundTrip.UntouchedIff` | backend/integrations/telegram.py:119-157 | text that is not cut is sent as written if and only if it is in the permitted markup, nested within the limit, with no ampersand |
| `Sanitizer.SanitizedIsSafe` | backend/integrations/telegram.py:119-157 | the reference reading of the loop makes every input safe to send |
| `SanitizerRoundTrip.WellNestedSurvives` | backend/integrations/telegram.py:140-157 | permitting back inverts escaping on well-nested text, from any depth |
| `SanitizerRoundTrip.EscapeOne` | backend/integrations/telegram.py:138 | what each character is escaped to |
| `SanitizerRoundTrip.UnescapeInvertsEscape` | backend/integrations/telegram.py:138 | reading the entities back gives the text that was escaped |
| `SignedValues.JoinSplit` | frontend/session.py:143-147 | joining what a split made gives the string back |
| `SignedValues.ParseInvertsRender` | frontend/session.py:126-147 | the time is read back as it was written |
| `SignedValues.ParseIgnoresBlanks` | frontend/session.py:126-147 | and so with blanks on either side, as int() reads it |
| `SignedValues.KeyForFinds` | frontend/session.py:89-100 | a kid in the ring finds its key |
| `SignedValues.FindKey` | frontend/session.py:89-100 | the loop that compares every key answers as the lookup |
| `SignedValues.OpenInvertsSigned` | frontend/session.py:122-156 | for every value, colons included, opening inverts signing for the same purpose within the TTL, at once and after a rotation that keeps the key |
| `SignedValues.RaisesIff` | frontend/session.py:130-156 | a presented string raises exactly when its key id or signature leaves ASCII, its fields are there and it has not expired |
| `SignedValues.MessageIsInjective` | frontend/session.py:103-127 | the colon-joined string under the MAC determines purpose, kid, value and time |
| `SignedValues.OnlyMintedValuesOpen` | frontend/session.py:130-156 | a value comes back for a purpose only if exactly it was minted for exactly that purpose, under the named key, at the stated time, within its TTL |
| `SignedValues.LiveInvertsRender` | frontend/session.py:280-293 | parsing a rendered cookie gives the first three entries given, which are the newest, in order |
| `SignedValues.LivePicks` | frontend/session.py:280-288 | of any cookie's entries exactly those that are not empty and open are live, in order |
| `SignedValues.LiveEntriesWereMinted` | frontend/session.py:280-288 | nothing is live that was not minted for that purpose within its TTL |
| `SignedValues.AddingPutsFirst` | frontend/session.py:302-307 | the entry just added is first, and behind it stand the first two of the other live ones, in order |
| `SignedValues.RemovingDropsExactly` | frontend/session.py:309-317 | removing drops exactly the named entry, one that no longer opens included, and keeps the others' order |
| `SignedValues.ConsumedIsGone` | frontend/session.py:309-317 | a consumed entry does not answer again |
| `SignedValues.SignedEntriesAreUsable` | frontend/session.py:295-300 | an entry the class minted is one its own cookie keeps |
| `Scheduler.FiresEveryWeek` | backend/daemons/scheduler.py:73-80 | every legal cadence fires in every span of a week, by arithmetic modulo 168 hours |
| `Scheduler.FiresMeans` | backend/daemons/scheduler.py:73-107 | a cadence fires at its minute of its hours, on its weekday counted from Monday 5 January 1970 |
| `Scheduler.NextAfter` | backend/daemons/scheduler.py:91-107 | returns the least firing strictly later, within a week, and never reaches its raise |
| `Scheduler.NextIsUnique` | backend/daemons/scheduler.py:91-107 | there is only one such moment |
| `Scheduler.DueOfIsExact` | backend/daemons/scheduler.py:181-194 | due are exactly the marked jobs with a firing in (mark, now], each once |
| `Scheduler.ServedAtMostOnce` | backend/daemons/scheduler.py:217-234 | over any run of passes, marks lost or not, no firing is used up by two runs; an outage has one catch-up run |
| `Scheduler.ServedExactlyOnce` | backend/daemons/scheduler.py:217-234 | while the marks survive, every firing since a job was seeded is used up by exactly one run, which it made due, or which covered it before starting or while under way |
| `Scheduler.AttendedIffNotSwallowed` | backend/daemons/scheduler.py:25-38 | the documented promise for one firing, a run that began at or after it, holds if and only if no run of the job was under way when it passed |
| `Scheduler.PunctualIffRunsEndInTime` | backend/daemons/scheduler.py:25-38 | and for a job, if and only if every run since the seeding ended before the first firing after it began |
| `Scheduler.LongRunSwallowsAFiring` | backend/daemons/scheduler.py:217-234 | the promise fails: a poller run from 03:00 to 06:30 leaves its 06:00 firing with no run, and nothing owed at 08:00 |
| `Scheduler.RunKeepsInv` | backend/daemons/scheduler.py:228-231 | running a due job and moving its mark misses no firing and doubles none |
| `Scheduler.Runner.constructor` | backend/daemons/scheduler.py:249-258 | nothing is marked and nothing has run |
| `Scheduler.Runner.LoseMarks` | backend/daemons/scheduler.py:144-168 | a missing or unparseable mark loses nothing but itself |
| `Scheduler.Runner.Due` | backend/daemons/scheduler.py:181-194 | the due jobs in the schedule's order |
| `Scheduler.Runner.Seed` | backend/daemons/scheduler.py:222-226 | exactly the unmarked jobs are marked, with now |
| `Scheduler.Runner.RunJob` | backend/daemons/scheduler.py:197-231 | one run, begun at the present clock, for the first firing after the old mark; the new mark is when it ended |
| `Scheduler.Runner.RunAll` | backend/daemons/scheduler.py:228-231 | one run for each due job and nobody else's mark moves |
| `Scheduler.Runner.Tick` | backend/daemons/scheduler.py:217-234 | runs exactly what was due and leaves no job with a firing between its mark and the pass's now |
| `Scheduler.ShippedScheduleIsLegal` | backend/daemons/scheduler.py:124-131 | the product's three jobs are a legal schedule |
| `ContactBucket.BoundKeptIffInOrder` | frontend/web_server.py:191-205 | every run late by at most d admits each source at most floor(3 + (t - s) / 1200) times in any interval, if and only if d is not positive |
| `ContactBucket.SweepUnseenIffInOrder` | frontend/web_server.py:215-225 | in every run late by at most d the next visit is answered as by a table that forgets nobody, if and only if d is not positive |
| `ContactBucket.BudgetDecidesIffInOrder` | frontend/web_server.py:199-232 | in every run late by at most d a visit is admitted exactly when every span ending at it has an admission left, if and only if d is not positive |
| `ContactBucket.OvertakenBreaksAll` | frontend/web_server.py:221-232 | a visit overtaken by a later sample, however little later, breaks all three: the run and its fourth admission |
| `ContactBucket.SweptRefinesUnswept` | frontend/web_server.py:223-225 | the simulation for runs in order: a source not in the swept table is full in the other |
| `ContactBucket.BucketMeasures` | frontend/web_server.py:209-213 | in order, what a bucket holds is the least allowance left over all spans ending now |
| `ContactBucket.ContactForm.constructor` | frontend/web_server.py:206-208 | no source has a bucket |
| `ContactBucket.ContactForm.Sweep` | frontend/web_server.py:223-225 | of the other sources exactly those in deficit stay |
| `ContactBucket.ContactForm.Answer` | frontend/web_server.py:222-232 | under the lock, with a sample from any time before: the answer the run's table gives, and nobody else's full bucket kept |
| `ContactBucket.ContactForm.Others` | frontend/web_server.py:215-232 | other threads' visits, any number and with any earlier samples, extend the run |
| `ContactBucket.ContactForm.ContactAllowed` | frontend/web_server.py:215-232 | the clock first, then the lock with any visits answered in between; the visit joins the run with that sample and gets the run's answer |
| `ChatLink.PostedSinceIsExact` | backend/accounts/chat_link.py:258-269 | a chat is found if and only if a new enough post of the code, from the pinned chat if any, is in view |
| `ChatLink.MentionsIff` | backend/accounts/chat_link.py:258-269 | a text mentions a code exactly when the code stands somewhere in it |
| `ChatLink.NeverReplacedDirectly` | backend/accounts/chat_link.py:272-332 | no step takes a target from one chat to another |
| `ChatLink.UnlinkNeedsTheOldChat` | backend/accounts/chat_link.py:208-314 | a target goes from A to none, the operator apart, only after A posted the code minted while A was the target, not before that begin and before the entry expired |
| `ChatLink.LinkNeedsTheNewChat` | backend/accounts/chat_link.py:208-314 | and from none to B only after B posted a code minted while there was none |
| `ChatLink.SilentChatKeepsItsTarget` | backend/accounts/chat_link.py:272-314 | a chat that posts nothing stays the target through any calls, posts by others and restarts |
| `ChatLink.CompletesAtMostOnce` | backend/accounts/chat_link.py:249-314 | given fresh codes each pending entry completes at most one change |
| `ChatLink.FinishSucceedsIff` | backend/accounts/chat_link.py:272-314 | exactly when finish succeeds |
| `ChatLink.AnsweredChangeCompletes` | backend/accounts/chat_link.py:208-314 | a change whose code was posted in time by the right chat goes through |
| `ChatLink.ChatLinks.constructor` | backend/accounts/chat_link.py:78-79 | nothing is pending |
| `ChatLink.ChatLinks.Prune` | backend/accounts/chat_link.py:162-164 | exactly the expired entries go |
| `ChatLink.ChatLinks.Begin` | backend/accounts/chat_link.py:208-246 | a step of the machine, or the right refusal and no change; the new entry expires in fifteen minutes, and every other account's unexpired one stays |
| `ChatLink.ChatLinks.FirstAnswer` | backend/accounts/chat_link.py:258-269 | the loop over posts, newest first |
| `ChatLink.ChatLinks.Finish` | backend/accounts/chat_link.py:272-314 | a step of the machine, with the answer it gives; nobody else's target or unexpired entry changes, and a completed change is written and its entry gone |
| `ChatLink.ChatLinks.ForceUnlink` | backend/accounts/chat_link.py:323-332 | the operator's step: the chat and any pending change are gone |
| `Reachability.LeastIffReached` | tools/reachability.py:323-342 | a set is the least closed one if and only if it holds exactly what some path of edges reaches |
| `Reachability.Worklist` | tools/reachability.py:328-342 | the loop ends on cycles and finds the least closed set |
| `Reachability.ReachableModules` | tools/reachability.py:323-342 | exactly the names that imports and enclosing packages reach from the roots |
| `Reachability.NeedsAre` | tools/reachability.py:323-342 | a module leads to what it imports and to those of its dotted prefixes that are modules |
| `Reachability.ReachableFunctions` | tools/reachability.py:392-413 | exactly the functions that calls reach from the modules' bodies |
| `Reachability.BodyTargetsAre` | tools/reachability.py:392-399 | the search starts from what the modules' own bodies call |
| `Reachability.CallsAre` | tools/reachability.py:400-413 | and a function leads to what it calls |

## Left out

- SQLite, `flock`, file modes, chown and sockets: atomic tables, an atomic rename and a mutex stand for them.
- Real cryptography, attestation quotes and JWT checking; `quote_policy`, `tee_boot`, `pseudonymizer` and `gmail_gcal` are not part of this model.
- Alerts and their spacing (`_alert`, `notify_once`): nothing is claimed about them.
- The `fingerprint`, `measurement` and `attested` columns of the audit log, which no count reads; requests with no uid, which the server's field parsing refuses.
- Changing a ceiling between decisions and the parsing in `_limit`.
- The co-signer's in-memory cache of master keys: retiring a version takes effect here at once, there at the next start.
- KeyCache and Breach: of memory only data keys, those cached and those drawn by a create. A key that only a call under way holds when the breach begins is not among them, though its unwrap has its row; nor are documents and tokens in plain.
- Zeroizing and aliasing of key buffers: keys are values, so a caller holding a buffer that `forget` wiped is not modelled.
- Keyring: a `create` refused by the co-signer leaves a sealed text nobody stored; the whole call drops it there, its parts in Shredding keep it.
- Shredding: of the co-signer's refusals only wrap-once, which is for good, is a rule here; the others pass with time and are an input. `store_record` is one step.
- Crashes between a drain and the re-spooling of what was drained, which the code does not protect.
- WakeProtocol.NextPassDrains: says nothing when a pass in between raised before its drain or the process exited; NoWakeIsLost covers what is then owed.
- Manifest: the audit rows and the data files an account owns. Which inference providers a box has a key for is an input, `offered`.
- Manifest.NormIsStable: for ids in ASCII; no case folding beyond it.
- Which settings field carries which Python type: `asked` is a map of names to rendered values.
- SignedValues: header parsing of cookies, timing of comparisons, integers written in digits other than ASCII, and strings that cannot be encoded.
- A cookie holding an entry whose comparison raises (`OpenSigned` is then TypeError) makes `PendingValues.live` raise; the cookie lemmas are about cookies without one.
- Scheduler.Runner.Tick: the marker file is taken to be written; a pass that dies between a run and the save would run that job again.
- The end of the calendar, where `next_after` would overflow the date type.
- KeyCache: the handle stands for the account; that an account has one handle and shares it with nobody is taken from onboarding, which draws it at random.
- ContactBucket over floating point: time and tokens are real numbers.
- ChatLink: account ids are the stored ones, not other addresses of the account; per-account bot tokens and an operator's registration with a chat id.
- Reachability: parsing sources into graphs and resolving a call site by scope; `calls` is the resolved graph.
- HTTP handlers, page builders, mail parsing, model calls and the remaining command-line tools.
