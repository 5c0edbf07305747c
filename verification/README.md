# Coder SSH gateway: a verified model

A Dafny model of the stateful core of the gateway: the flat-file credential store and
the clients that race on it, the verification cache, the rate limiter and admission
counters, the deferred session bridge, the tunnel supervisor and the key-management
session. `dafny verify dfyconfig.toml` checks everything.

## How it is organised

**Credential protocol.** `Texts` holds the texts that serve as identities (UUID text,
decimal integers, the associated data of a ciphertext, the flight key) and proves each
of them lossless. `Records` gives the records, an ideal AEAD, and the effect of every
locked store operation as a function of the directory. A durable write has a *fate*: it
does not happen, it happens, or it happens and still reports an error
(`internal/store/store.go:294-302`). `StateDirectory` is the store as an object whose
methods scan, write and unlink, proved against those functions. `Protocol` lets an
administrator and any number of rechecks, renewals and enrollments interleave, one
locked store call or verifier call per step. `StoreInvariant` and `ProtocolInvariant`
carry the invariant: a part that holds along every run, with the guarantee every step
gives to the others, and a part about one account that holds until a deletion of that
account stops between its last two unlinks in a process that lives on.
`StoreAnswers` says what the store answers and leaves behind, `Clients` what each client
achieves when it meets no obstacle. `CredentialTheorems` and `DeletionTheorems` state the
results over whole runs, `Runs` puts runs together, and `HalfDeletion` says exactly what such an interrupted deletion
makes possible. `VerifyCache` runs the cache and its shared flights beside a store run,
and `CacheService` says what its callers get.

**Limits.** `TokenBuckets`, `Eviction` and `RateLimits` model the gates; `Counters` the
self-deleting semaphores; `Admission` the acquire and release skeleton of a connection,
for any number of interleaved connections.

**Sessions.** `TerminalModes`, `SessionBridge` and `DeferredBridge` model the bridge and
`SessionPayloads` pins what each payload asks for;
`Supervisor` the tunnel loop; `LineReader` and `KeyMenu` the key-management session.

## What the proofs brought to light

- **A half-finished account deletion resets a generation.** `DeleteAccount` unlinks the
  credential file before the account file. An unlink can take effect and still report an
  error (`internal/store/store.go:758-771`), and the server then lives on
  (`internal/keymgmt/service.go:180-185`). The generation of the surviving account falls
  back to zero; `GenerationDropsIffHalved` shows that nothing else lowers one. In that
  process recheck safety and cache agreement fail: `OneProcessMarksTheWrongToken` is a run
  from the empty directory in which a token is marked invalid although the verifier never
  refused it, and `OneProcessMixesVerdicts` one in which the cache answers for another
  token. `StaleMarkPossibleIffHalved`, `SnapshotReusedIffHalved` and `VerdictsMixIffHalved`
  prove that a deletion that stops makes this possible iff it stops between its last two
  unlinks, so the results that fail carry that condition, for the account at hand only.
  Identity binding, enrollment and key ownership need no condition and hold in every run.
- **The bare mark breaks the record format.** `MarkCredentialInvalid` on the generation
  of a tombstone writes a record with a state but no ciphertext (`BareMarkKeepsRuleIff`);
  only the rechecker's earlier load keeps this from happening (`MarkLandsOnRejectedToken`).
- **An early window change can be told.** The comment at
  `internal/tunnel/workspace_session_deferred.go:88-93` says such a request is acknowledged
  and dropped; the code refuses it, and the live bridge accepts it (`DecisionsAgreeIff`,
  `EarlyResizeIsObservable`). The model follows the code.
- **A replay that fails after a start leaves its wait behind.** `abortSession` promises
  that the wait is collected before the bridge returns; the replay loop returns without
  it, exactly when an acknowledged queue goes on after an accepted start
  (`WaitUncollectedIff`).
- **Echo needs printable input.** A byte outside the printable range goes into the line
  without echo, so from then on the display is off (`EchoShowsLineIff`).
- The comment at `internal/sshauth/renewal.go:393-395` says a duplicate Coder user lands
  in the wrong-identity branch; the store reports it with another error, so it lands in
  the default branch, as modelled.
- **"Already updated" can mean cleared.** A renewal that loses to a clear reports the same
  success on a missing credential (`RenewalSucceedsOnNothing`, `UpdatedToNothing`); it is
  on a valid one iff the last write was a replace (`LoserOnValidIffReplacedLast`).
- **An eviction shows iff the bucket is not full again** by the key's next call
  (`EvictionToldIff`); idle entries always are.

## Modelling decisions

UUIDs are 128-bit numbers; new ones are fresh and not nil (the duplicate check of
`AddAccount` excludes the nil UUID). A key file is named by a digest taken to be
injective, so keys are indexed by their canonical bytes. Generations are unbounded
integers. Nonces, clocks, verifier verdicts, write fates, select choices, store answers
and the inner session's consent are parameters or nondeterministic choices. Errors that
end a client early (a cancelled context, a closed store, a rate limit, an exhausted
attempt count) are the step `Abandoning`, possible at any time.

## Model

| member | source | states |
|---|---|---|
| Texts.UuidTextInjective | internal/secretbox/aad.go:14-23 | distinct UUIDs have distinct canonical texts |
| Texts.UuidTextShape | internal/secretbox/aad.go:14-23 | the text is 32 digits in order with dashes after the 8th, 12th, 16th and 20th |
| Texts.IntTextInjective | internal/secretbox/aad.go:21-22 | distinct integers have distinct decimal texts |
| Texts.AtoiOfText | internal/keymgmt/service.go:98-127 | Atoi undoes Itoa on every 64-bit int |
| Texts.CredentialAadInjective | internal/secretbox/aad.go:14-23 | equal associated data means the same deployment, account and generation |
| Texts.CredentialAadLines | internal/secretbox/aad.go:14-23 | the associated data is the six documented lines joined with newlines |
| Texts.FlightKeyInjective | internal/coderapi/cache.go:47-49 | distinct (deployment, account, generation) triples never share a flight key |
| Records.OpenChecksText | internal/secretbox/aad.go:14-23 | a ciphertext opens iff key, nonce and the text of its associated data are those it was sealed with |
| StateDirectory.Store.CheckDuplicateCoderUser | internal/store/store.go:444-470 | the scan answers whether another account of the deployment is bound to the user |
| StateDirectory.Store.AddAccount | internal/store/store.go:478-497 | new state and result for every fate of the write, duplicates refused |
| StateDirectory.Store.LookupOrCreateAccount | internal/store/enroll.go:26-81 | stops at an account bound to the identity or creates one when there is none, with the state and result of that branch |
| StateDirectory.Store.ReplaceCredential | internal/store/credential.go:203-287 | an account that may not take the token is left alone; on a record that loads, with both writes working, it succeeds iff the account may take it, the expected generation loads, the active key is there and no other account has the user; then the token loads under the next generation |
| StateDirectory.Store.MarkCredentialInvalid | internal/store/credential.go:293-322 | no generation or token of any account changes and no other account loads differently; a snapshot of the addressed generation loads as invalid, any other as before |
| StateDirectory.Store.ClearCredential | internal/store/credential.go:330-362 | success leaves nothing to load under the next generation; a conflict is reported iff a load gives another generation; a refusal changes nothing, and no other account loads differently |
| StateDirectory.Store.ReencryptAll | internal/store/credential.go:372-447 | wherever the pass stops, visited records are re-sealed and the others untouched; success means all were visited, and a failure is that of a visited record or a missing active key |
| StateDirectory.PassSucceeds | internal/store/credential.go:372-447 | over records that load a pass has nothing to stop at but a failing write |
| StateDirectory.PassIsInvisible | internal/store/credential.go:372-447 | no load can tell how far a re-encryption pass got |
| StateDirectory.PassReachesActiveKey | internal/store/credential.go:372-447 | after a pass that succeeds every stored token is sealed under the active key |
| StateDirectory.Store.AddKey | internal/store/store.go:649-686 | afterwards the key authenticates as the account and every other key as before; an existing key is left alone; deleting it again restores the directory |
| StateDirectory.Store.DeleteKey | internal/store/store.go:718-805 | the scan finds the key by ID; only a key of the given account is unlinked |
| StateDirectory.Store.DeleteAccount | internal/store/store.go:816-856 | every early end is a crash point of the cascade, success is the whole cascade, and it succeeds when every unlink does |
| StoreAnswers.ReplaceChangesOnlyWhenAllowed | internal/store/credential.go:203-249 | nothing changes for an account that is missing, disabled, bound to another user or unbound without bind-on-first, whatever becomes of the writes |
| StoreAnswers.ReplaceSucceedsIff | internal/store/credential.go:203-287 | the exact condition of success, said through loads and account records |
| StoreAnswers.ReplacedLoads | internal/store/credential.go:250-287 | after success the token loads under the next generation and the account is bound to its user |
| StoreAnswers.ReplaceLeavesOthers | internal/store/credential.go:203-287 | no other account or credential is touched |
| StoreAnswers.DisabledNeverReplaced | internal/store/credential.go:222-228 | no replace of any client changes the directory for a disabled or missing account |
| StoreAnswers.ReencryptSucceeds | internal/store/credential.go:404-447 | re-sealing a record that loads cannot fail but for its write |
| StoreAnswers.SealedWithNewNonce | internal/store/credential.go:250-281 | every write of a ciphertext seals it under the active key and the nonce drawn for it |
| StoreAnswers.AccountAddedIff | internal/store/store.go:478-497 | an account is added iff its UUID is new and its user is bound nowhere in the deployment |
| StoreAnswers.ResolvedAccountWorks | internal/store/enroll.go:26-81 | the resolved account is on file, bound and renamed; it is new iff nobody was bound, and a new one is enabled and can take the token at once |
| StoreAnswers.AuthenticatesIff | internal/store/store.go:880-924 | a key authenticates, as its owner, iff it is enabled and its account exists, is enabled and belongs to the deployment |
| StoreAnswers.DisabledKeyIsUnknown | internal/store/store.go:739-751 | a disabled key is unknown, other keys answer as before, and enabling it restores its answer |
| StoreAnswers.DisabledAccountIsRefused | internal/store/store.go:552-567 | the enabled keys of a disabled account are refused as such, none authenticates as it, and enabling undoes that |
| StoreAnswers.DeletedKeyIsUnknown | internal/store/store.go:779-798 | a key is deleted iff it belongs to the account; it is then unknown and the others answer as before |
| StoreAnswers.DeletionIsComplete | internal/store/store.go:816-856 | a finished deletion leaves no record of the account, nothing to load and no key that authenticates as it |
| StoreAnswers.DisabledKeyStaysUnknown | internal/store/store.go:880-904 | in every run a key disabled and neither enabled nor deleted since is found by no lookup |
| StoreAnswers.DisabledKeyNeverLinks | internal/sshauth/enrollment.go:539-559 | no enrollment links or re-links a disabled key |
| StoreAnswers.DisabledAccountStaysOut | internal/store/store.go:880-924 | in every run no key authenticates as an account disabled and not enabled since |
| StoreAnswers.ForeignTokenNeverSubmitted | internal/sshauth/renewal.go:355-369 | in no run does a renewal submit a token of a user other than the one its account is bound to |
| StoreInvariant.ReplaceKeeps | internal/store/credential.go:203-287 | for every pair of write fates a replace keeps the directory invariant and moves the credential only forward |
| StoreInvariant.MarkKeeps | internal/store/credential.go:293-322 | every mark keeps the directory invariant, the generation and the token |
| StoreInvariant.ClearKeeps | internal/store/credential.go:330-362 | a clear keeps the invariant and moves to the next generation |
| StoreInvariant.ReencryptKeeps | internal/store/credential.go:404-447 | re-sealing one record changes no generation, state or token |
| StoreInvariant.AddAccountKeeps | internal/store/store.go:478-497 | adding an account never creates a second account for a bound user |
| StoreInvariant.ResolveKeeps | internal/store/enroll.go:26-81 | lookup-or-create keeps the invariant and returns an account bound to the identity |
| StoreInvariant.EnableKeeps | internal/store/store.go:552-567 | enabling or disabling an account keeps the invariant |
| StoreInvariant.AddKeyKeeps | internal/store/store.go:649-686 | adding a key keeps the invariant and never changes an existing key's owner |
| StoreInvariant.SetKeyEnabledKeeps | internal/store/store.go:739-751 | enabling or disabling a key keeps the invariant and the key's owner and ID |
| StoreInvariant.DeleteKeyKeeps | internal/store/store.go:779-805 | deleting a key keeps the invariant and all other keys |
| StoreInvariant.CascadeKeeps | internal/store/store.go:816-856 | every crash point of the cascade keeps the directory invariant |
| ProtocolInvariant.LoadIsIdeal | internal/store/credential.go:135-193 | a load returns what a plain map holds, and reports corruption iff the entry has a state other than missing and no token |
| ProtocolInvariant.Stable | internal/sshauth/enrollment.go:445-572 | no step of another party invalidates what a waiting client knows about identities |
| ProtocolInvariant.AbreastStable | internal/tunnel/recheck.go:36-108 | nor what it knows about generations of its account, half deletions of that account excepted |
| ProtocolInvariant.LoadingStep | internal/sshauth/renewal.go:377-391 | every load of a recheck, renewal or enrollment keeps the invariant |
| ProtocolInvariant.LoadedAbreast | internal/sshauth/renewal.go:377-391 | and leaves its client with a snapshot that is on file |
| ProtocolInvariant.MarkingStep | internal/tunnel/recheck.go:74-93 | the rechecker's mark keeps the invariant |
| ProtocolInvariant.MarkSound | internal/tunnel/recheck.go:36-93 | and never lands on a tombstone of an account in order |
| ProtocolInvariant.ReplacingStep | internal/sshauth/renewal.go:371-409 | a client's replace keeps the invariant, whatever it returns |
| ProtocolInvariant.ReplacedAbreast | internal/sshauth/renewal.go:371-409 | a conflict leaves it knowing that the generation has moved on, and another failure lets it try again |
| ProtocolInvariant.ResolvingStep | internal/sshauth/enrollment.go:445-572 | account resolution leaves an enrollment with an account bound to its identity |
| ProtocolInvariant.LinkingStep | internal/sshauth/enrollment.go:445-572 | linking the key keeps the invariant |
| ProtocolInvariant.StepInv | internal/store/credential.go:203-362 | every step of every party keeps the invariant and gives the guarantee the others rely on |
| ProtocolInvariant.AccountStep | internal/store/store.go:816-856 | every step but a half deletion of the account in a live process keeps what holds for that account |
| ProtocolInvariant.RunInv | internal/store/credential.go:203-362 | the invariant holds in every reachable state |
| ProtocolInvariant.AccountRun | internal/store/credential.go:203-362 | what holds for one account holds in every state reached without such a half deletion |
| CredentialTheorems.LoadRefinesPlainMap | internal/store/credential.go:135-287 | after any run, rotations and interrupted re-encryptions included, LoadCredential gives exactly the generation, state and token of a plain map of the writes that took effect; it fails iff that entry is ill formed, which takes a half deletion of the account in a live process |
| CredentialTheorems.TransplantNeverOpens | internal/store/credential.go:135-193 | a ciphertext moved to another deployment, account or generation never loads |
| CredentialTheorems.GoneForever | internal/store/store.go:816-856 | a deleted account never comes back under its UUID |
| CredentialTheorems.GenerationsOnlyGrow | internal/store/credential.go:203-362 | while an account exists and is not half deleted its generation never decreases and one generation never names two tokens |
| CredentialTheorems.GenerationDropsIffHalved | internal/store/store.go:816-856 | a step lowers the generation of a surviving account iff it removes its credential file and not its account file |
| CredentialTheorems.SnapshotsAgree | internal/store/credential.go:135-193 | two snapshots of one account and generation carry the same token, unless the account was half deleted in between |
| CredentialTheorems.RenameAdvances | internal/store/credential.go:203-287 | a replace that reaches its rename found the expected generation and leaves the next |
| CredentialTheorems.AtMostOneReplaceCommits | internal/store/credential.go:203-287 | of any two replaces with the same expected generation, repeated attempts included, at most one reaches its rename and at most one succeeds, unless the account was half deleted in between |
| CredentialTheorems.LoserContinuesOnNewerGeneration | internal/sshauth/renewal.go:264-409 | a renewal that lost the race continues on a strictly larger generation unless the account was deleted, or half deleted in a live process |
| CredentialTheorems.StateTellsLastWrite | internal/store/credential.go:203-362 | in every run the state on file tells which kind of write came last: replace, mark or clear |
| CredentialTheorems.LoserOnValidIffReplacedLast | internal/sshauth/renewal.go:377-391 | in every run the "already updated" continuation is on a valid credential iff the last write was a replace |
| CredentialTheorems.RenewalSucceedsOnNothing | internal/sshauth/renewal.go:371-391 | from every state in which a renewal is about to succeed, a clear before its replace makes it report success on a missing credential |
| CredentialTheorems.UpdatedToNothing | internal/sshauth/renewal.go:371-391 | such a run from the empty directory |
| CredentialTheorems.BindingsSound | internal/store/store.go:444-497 | in every reachable state no two accounts of a deployment share a bound user, and a stored token verified as its account's user |
| CredentialTheorems.BindingForever | internal/store/store.go:579-597 | a binding once set never changes |
| CredentialTheorems.RejectionCameFirst | internal/tunnel/recheck.go:74-82 | a client about to mark has seen the verifier refuse exactly the token it carries |
| CredentialTheorems.MarkLandsOnRejectedToken | internal/tunnel/recheck.go:36-108 | under every interleaving a mark that takes effect lands on a record that still holds exactly the rejected token, if its account was not half deleted in a live process |
| CredentialTheorems.MissingIffNoCiphertext | internal/store/credential.go:90-105 | in every reachable state a missing record has no ciphertext, and conversely unless its account was half deleted in a live process |
| CredentialTheorems.BareMarkKeepsRuleIff | internal/store/credential.go:293-322 | the method alone keeps that rule iff the addressed generation is not a tombstone |
| CredentialTheorems.EnrollmentLinksKey | internal/sshauth/enrollment.go:445-572 | an enrollment that succeeds ends with the proven key owned by the returned account, which is bound to the token's identity |
| CredentialTheorems.EnrollmentNeverWrongIdentity | internal/sshauth/enrollment.go:445-572 | in every run an enrollment's replace never fails on identity or on a duplicate user, nor on a corrupt record unless its account was half deleted in a live process |
| CredentialTheorems.KeyOwnerForever | internal/store/store.go:649-686 | a key record never changes owner while it exists |
| Clients.RecheckMarksRefusedToken | internal/tunnel/recheck.go:36-93 | a recheck whose token is refused marks exactly that stored token invalid |
| Clients.RenewalSucceeds | internal/sshauth/renewal.go:264-409 | from every state in which the account may take the token, a renewal stores it under the next generation |
| Clients.FirstEnrollmentSucceeds | internal/sshauth/enrollment.go:445-572 | an identity without an account and a free key end enrolled: the key authenticates as a new account that holds the token |
| Clients.ReenrollmentSucceeds | internal/sshauth/enrollment.go:445-572 | whoever connects with a key can enroll it again with a new token |
| Clients.LosingEnrollmentStillLinks | internal/sshauth/enrollment.go:514-559 | an enrollment that loses the race stores nothing and still links its key |
| Clients.ForeignKeyEndsEnrollment | internal/sshauth/enrollment.go:467-481 | a key bound to another identity ends the enrollment before anything is written |
| DeletionTheorems.CascadeCrashSafe | internal/store/store.go:753-856 | at every crash point all key and credential records refer to existing accounts and other accounts' records are untouched |
| DeletionTheorems.NoKeyOutlivesCredential | internal/store/store.go:880-924 | once the credential file is gone no key authenticates as the account |
| DeletionTheorems.CascadeRerun | internal/store/store.go:816-856 | rerunning from a crash point before the last unlink passes the same points and reaches the same directory |
| HalfDeletion.StaleMarkPossibleIffHalved | internal/store/store.go:816-856 | in a process that survives a deletion that stopped, a waiting mark can reach a tombstone, and any other token that nobody refused, iff the cascade stopped between its last two unlinks |
| HalfDeletion.SnapshotReusedIffHalved | internal/store/store.go:816-856 | the generation on file can come to name another token in a later snapshot iff it stopped there |
| HalfDeletion.OneProcessMarksTheWrongToken | internal/store/store.go:758-856 | a run from the empty directory, without a crash, in which one generation names two tokens and the second is marked invalid though never refused |
| VerifyCache.RunInv | internal/coderapi/cache.go:63-131 | every cache entry and every replied flight repeats a verdict given earlier for its key's token |
| VerifyCache.AgreesIffOneTokenPerKey | internal/coderapi/cache.go:63-131 | the cache agrees with the verifier, whatever is called in whatever order, iff no two callers bring different tokens for one key |
| VerifyCache.AnswersAgreeWithVerifier | internal/coderapi/cache.go:63-131 | for tokens from snapshots of accounts not half deleted in the life of the process, every answer, cached or shared, is a verdict the verifier gave for the caller's own token; a cached one is younger than ttl and a success or a 401 |
| VerifyCache.VerdictsMixIffHalved | internal/store/store.go:816-856 | after a deletion that stopped in a live process the cache can come to disagree with the verifier iff it stopped between its last two unlinks |
| VerifyCache.OneProcessMixesVerdicts | internal/coderapi/cache.go:63-131 | a run without a crash in which a caller is served the verdict on another token |
| CacheService.EveryCallAnsweredOnce | internal/coderapi/cache.go:70-119 | in every run each call has been answered exactly once or still waits in its flight |
| CacheService.StoredVerdictServes | internal/coderapi/cache.go:71-114 | until it is ttl old or invalidated, a stored success or 401 answers everyone who waits for its key, and the verifier is not asked |
| CacheService.FailureIsNotStored | internal/coderapi/cache.go:86-92 | what the verifier could not decide is not stored |
| TokenBuckets.RefillRate | internal/limits/rate.go:24 | the interval is the longest with which a full refill takes at most one minute |
| TokenBuckets.TakeSpendsSupply | internal/limits/rate.go:28-47 | every allowed call uses up one unit of what the bucket can still supply until the end of a window |
| TokenBuckets.AllowedAtOnce | internal/limits/rate.go:28-47 | of n attempts at one moment exactly the first min(max, tokens + elapsed/interval) are allowed |
| TokenBuckets.FullAgainIsNew | internal/limits/rate.go:37-47 | a refill leaves a bucket like a new one iff it is full again |
| TokenBuckets.ReplacementToldIff | internal/limits/rate.go:28-47 | putting a new bucket in the place of another can be told by later attempts iff that one is not full again by the first of them |
| Eviction.LeastUnique | internal/limits/rate.go:186-193 | the k least entries by last use and key are one definite set |
| Eviction.LexLessIff | internal/limits/rate.go:186-193 | keys compare by their first difference, a prefix first |
| Eviction.EvictsLeastRecent | internal/limits/rate.go:145-193 | what goes was unused longer than any unprotected entry that stays, or as long and under a smaller key |
| Eviction.Sort | internal/limits/rate.go:186-193 | the candidates in ascending order of last use, then key: an ordered permutation |
| Eviction.Classify | internal/limits/rate.go:271-286 | the two candidate lists hold each unprotected key once, split by idleness |
| Eviction.Evict | internal/limits/rate.go:252-314 | the two-list eviction removes exactly the quota of least unprotected entries |
| RateLimits.Gate.Allow | internal/limits/rate.go:213-245 | an attempt makes room, consumes an allowance or charges the bucket; whole new state and answer |
| RateLimits.Gate.Grant | internal/limits/rate.go:325-346 | a grant makes room and sets the allowance, or does nothing when there is no room |
| RateLimits.CallsStampTheirKey | internal/limits/rate.go:213-245 | a call leaves its own key seen now and every other remaining entry as it was |
| RateLimits.RoomIffUnprotected | internal/limits/rate.go:252-314 | room is made iff the map is not full or some entry is unprotected |
| RateLimits.EvictionLeaves | internal/limits/rate.go:127-184 | how many entries an eviction leaves: the protected ones, or just under half the limit |
| RateLimits.AllowanceIsProtected | internal/limits/rate.go:213-314 | a pending allowance survives every call but its own account's attempt, which it allows without touching the bucket |
| RateLimits.NewKeyRefusedIff | internal/limits/rate.go:217-222 | a new account is refused iff the map is full and every entry is protected |
| RateLimits.SpacedNeverDenied | internal/limits/rate.go:28-47 | in every run a key whose attempts are at least one interval apart is never denied, evictions or not, unless the map is full of protected entries |
| RateLimits.GrantPaysNextAttempt | internal/limits/rate.go:213-245 | in every run a granted allowance pays for the account's next attempt, whatever comes between |
| RateLimits.RunInv | internal/limits/rate.go:127-346 | over any run the map never exceeds its hard limit |
| RateLimits.WindowBound | internal/limits/rate.go:28-47 | in any window without eviction of its entry a key is allowed at most max + 1 + window/interval attempts, plus a pending allowance and the grants |
| RateLimits.IdleEvictionUnobservable | internal/limits/rate.go:104-184 | with maxIdle of at least a minute, a key evicted only when idle gets the answers of a gate that never evicts |
| RateLimits.FullEvictionUnobservable | internal/limits/rate.go:104-184 | in every run a key whose bucket would be full again each time it comes back gets the answers of a gate that never evicts |
| RateLimits.EvictionToldIff | internal/limits/rate.go:127-184 | evicting an unprotected entry can be told by the later attempts of its key iff its bucket is not full again by the first of them |
| RateLimits.FreshEvictionIsObservable | internal/limits/rate.go:127-184 | a run of the gate in which it is told |
| Counters.CounterMap.Acquire | internal/limits/limits.go:52-77 | a ticket is given iff fewer than max are live for the key |
| Counters.CounterMap.Release | internal/limits/limits.go:79-93 | exactly that ticket is given back, and a second release changes nothing |
| Counters.CounterMap.EntryIffLive | internal/limits/limits.go:52-94 | an entry exists iff a ticket of its key is live |
| Counters.CounterMap.Usage | internal/limits/limits.go:190-198 | usage lists exactly the keys with live tickets, each with their number |
| Admission.CountersMatchHolders | internal/server/connection.go:54-201 | in every interleaving each counter equals the number of connections holding it |
| Admission.HoldersWithinLimit | internal/server/connection.go:54-201 | and no slot has more holders than its limit |
| Admission.PhaseTellsHoldings | internal/server/connection.go:54-201 | in every run a connection holds exactly the places that its phase says |
| Admission.ServedWithinLimits | internal/server/connection.go:181-201 | at most so many connections are served for one account, one key and one address |
| Admission.UnauthenticatedWithinLimits | internal/server/connection.go:54-91 | at most so many connections are not authenticated yet or shake hands |
| Admission.AdmittedIff | internal/server/connection.go:54-201 | a connection gets what it asks for iff fewer hold it than the limit allows |
| Admission.EveryExitGivesBack | internal/server/connection.go:54-201 | whichever way a connection ends it has given back exactly what it took, each once |
| Admission.IdleServerHoldsNothing | internal/server/connection.go:54-201 | once every connection has ended all counters are zero |
| TerminalModes.ParseTerminalModes | internal/tunnel/workspace_session.go:339-357 | the loop returns the last-write-wins map of the groups, or an error when there is no such reading |
| TerminalModes.GroupsIffEncoded | internal/tunnel/workspace_session.go:339-357 | a byte string reads as given groups iff it is their encoding and no opcode is zero |
| TerminalModes.AcceptedIffEncoded | internal/tunnel/workspace_session.go:339-357 | accepted are exactly the strings of five-byte groups with nonzero opcode and one final zero byte |
| TerminalModes.ModesRoundTrip | internal/tunnel/workspace_session.go:339-357 | parsing undoes encoding on every mode map, in whatever order it is listed |
| SessionBridge.QueueAcceptsIff | internal/tunnel/workspace_session_deferred.go:94-129 | the queue accepts exactly what the live bridge passes on before the start, window changes excepted; nothing is acknowledged and dropped |
| SessionBridge.DecisionsAgreeIff | internal/tunnel/workspace_session_deferred.go:94-129 | with a consenting inner session the early and the live decision agree iff the request is not a well-formed window change |
| SessionBridge.ReplaySucceedsIff | internal/tunnel/workspace_session.go:86-105 | replay of an acknowledged queue succeeds iff nothing follows its first start and the inner session consents; the inner session then saw each queued request once, in order |
| SessionBridge.ForwardSessionRequests | internal/tunnel/workspace_session.go:86-147 | the two loops compute the replay followed by the live run: decisions, inner calls, end and whether the wait was collected |
| SessionPayloads.BeforeStartIff | internal/tunnel/workspace_session.go:185-260 | before the start the bridge passes on exactly the call that the encoded payload asks for: env, agent, subsystem, pty, resize, shell, exec; every other payload is refused |
| SessionPayloads.AfterStartIff | internal/tunnel/workspace_session.go:166-183 | the same once started: a resize or one of the thirteen signals |
| SessionPayloads.PtyRoundTrip | internal/tunnel/workspace_session.go:317-337 | every pty request in range, with its modes in any order, arrives with rows as rows and columns as columns |
| SessionPayloads.AppliedIff | internal/tunnel/workspace_session.go:165-260 | a request that asks for a call is accepted iff the inner session consents to that one call; only an accepted subsystem, shell or exec starts the session |
| SessionPayloads.RefusedOtherwise | internal/tunnel/workspace_session.go:165-260 | a request that asks for nothing is refused unheard |
| SessionPayloads.LiveEnds | internal/tunnel/workspace_session.go:106-147 | the branch that ends the live loop tells its result and exit status; without one every request is answered |
| DeferredBridge.BridgePendingSession | internal/tunnel/workspace_session_deferred.go:32-79 | the loop answers every early request by its decision and hands over exactly the acknowledged ones, in arrival order |
| DeferredBridge.WaitUncollectedIff | internal/tunnel/workspace_session.go:91-159 | a bridge that ends leaves its wait uncollected iff an acknowledged queue goes on after an accepted start |
| DeferredBridge.DeferralTransparentIff | internal/tunnel/workspace_session_deferred.go:32-79 | answering early and replaying cannot be told from a transport that was there all along iff nothing queued follows a start, the inner session consents, and nothing refused early would have been passed on live |
| DeferredBridge.EarlyResizeIsObservable | internal/tunnel/workspace_session_deferred.go:126-127 | a well-formed window change before the transport can always be told |
| Supervisor.TracesAreExactly | internal/tunnel/supervisor.go:118-168 | the loop can receive exactly the traces described without its variables, and ends up in the state they determine |
| Supervisor.SelectLoop | internal/tunnel/supervisor.go:130-168 | for every choice of ready channels the loop ends, by a measure on its one-shot channels, with a trace that can be no longer continued |
| Supervisor.CancelChild | internal/tunnel/supervisor.go:218-238 | stdin is closed, the child asked to terminate and the channel closed, in that order, before its exit is received, exactly once and last; it is killed iff the grace ran out |
| Supervisor.Supervise | internal/tunnel/supervisor.go:118-213 | each result code holds iff its condition on the trace does: empty iff the child's exit ended the loop after a first byte with both streams clean |
| Supervisor.RunsAreShort | internal/tunnel/supervisor.go:130-168 | at most three receives precede the last, and a startup timeout never follows a first byte |
| Supervisor.EveryResultOnce | internal/tunnel/supervisor.go:170-187 | the child's exit, both copy results and the end of stderr are received exactly once |
| Supervisor.ClosedBeforeCollected | internal/tunnel/supervisor.go:177-187 | channel and stdin are closed after the receive that ends the loop and before any copy result that follows is received; the end of stderr comes last |
| Supervisor.SignalsOnlyLiveChild | internal/tunnel/supervisor.go:215-238 | signals are sent iff something other than the child's exit ended the loop, only before the child is reaped, and a kill only after terminate and grace |
| LineReader.Reader.ReadLine | internal/keymgmt/reader.go:42-93 | one call returns the first line of what is pending, takes nothing beyond the first byte of its terminator, and echoes its editing |
| LineReader.CutTakesHead | internal/keymgmt/reader.go:42-93 | each call takes the head of one global split and leaves its tail |
| LineReader.ReadAll | internal/keymgmt/reader.go:42-93 | repeated calls return exactly the lines of one global split in which CRLF, CR and LF are each one terminator |
| LineReader.PlainLine | internal/keymgmt/reader.go:65-91 | without a terminal a line is its bytes, or overlong beyond 256 |
| LineReader.LinesCons | internal/keymgmt/reader.go:59-73 | a line, one LF, CR LF or CR, and the rest split into that line and the lines of the rest |
| LineReader.LastLine | internal/keymgmt/reader.go:47-55 | what follows the last separator is a line too, unless it is empty |
| LineReader.TerminalLine | internal/keymgmt/reader.go:76-91 | on a terminal a line without erasing bytes is what it is without one |
| LineReader.EraseNothing | internal/keymgmt/reader.go:76-83 | there is nothing to erase at the start of a line |
| LineReader.OverlongStays | internal/keymgmt/reader.go:74-86 | a line that became too long stays so, whatever is erased |
| LineReader.ErasureCancels | internal/keymgmt/reader.go:76-83 | on a terminal a byte and its erasure leave no trace |
| LineReader.EchoShowsLineIff | internal/keymgmt/reader.go:76-90 | the echo, shown on a terminal row, is the pending line at every moment iff every byte that went into it is printable |
| KeyMenu.Service.Run | internal/keymgmt/service.go:58-93 | terminates on every input and every pattern of store answers, and does what an automaton over the lines does |
| KeyMenu.Service.RunKeyRemoval | internal/keymgmt/service.go:97-148 | the removal dialogue is two steps of that automaton |
| KeyMenu.Service.RunAccountDeletion | internal/keymgmt/service.go:153-194 | the deletion dialogue is two steps of that automaton |
| KeyMenu.DestructiveCallsAreAsked | internal/keymgmt/service.go:58-215 | a key is deleted exactly where a line selected it on the last loaded listing and the next repeated its number, never the session key, always of the session account; the account is deleted at most once, after "d" and "DELETE", as the last call |
| KeyMenu.AccountDeletedIff | internal/keymgmt/service.go:153-194 | from the menu two lines delete the account iff they are "d" and "DELETE" and the listing between them loads |
| KeyMenu.RemovableIff | internal/keymgmt/service.go:97-148 | from the menu, typing the number of a displayed key twice removes it iff it is not the session's own |
| KeyMenu.SessionEnds | internal/keymgmt/service.go:58-93 | input that ends, ends the session |
| KeyMenu.EndsIff | internal/keymgmt/service.go:65-93 | a line ends the session iff the input is over, it is "q" at the menu or "DELETE" at its prompt |
| KeyMenu.QuitsQuietly | internal/keymgmt/service.go:72-80 | quitting calls the store no more |
| KeyMenu.ShowsAgain | internal/keymgmt/service.go:98-131 | any other line that confirms and selects nothing loads the listing again and does nothing else |

## Left out

- Network and process I/O (SSH handshake, child processes, pipes, HTTP, TLS): nondeterministic answers.
- AES-GCM, SHA-256, JSON, base64 and UUID parsing: ideal sealing, an injective digest, exact records.
- Sharing the state directory between processes: the generation check and the rename are then separate steps, and nothing here speaks about that.
- UpdateAccountIdentity: it has no caller, and would be the only way to rebind an account.
- GenerationsOnlyGrow: excludes a half deletion of the account, since the generation does drop then (GenerationDropsIffHalved).
- SnapshotsAgree: excludes the same, where the code does reuse a generation (SnapshotReusedIffHalved).
- AtMostOneReplaceCommits: excludes the same, where SnapshotReusedIffHalved has a second replace reach a generation that was used before.
- MarkLandsOnRejectedToken: excludes a half deletion of the account in a live process, where the mark can go wrong (StaleMarkPossibleIffHalved).
- AnswersAgreeWithVerifier: speaks about accounts that are not half deleted in the life of the process (VerdictsMixIffHalved); the username of a cached identity is not kept, as in the code.
- Generations are unbounded integers: the wrap-around of a 64-bit generation is not modelled.
- Labels, fingerprints, timestamps and last-used stamps of records, and reason texts.
- VerifyCached, RecheckAfterFailure, the renewal and enrollment continuations are transitions of a system rather than methods: their steps interleave, so no single call has a contract of its own.
- The per-connection attempt counters of renewal and enrollment: a failed attempt leaves a renewal where it was, any number of times, and an enrollment starts anew.
- WindowBound: buckets and semaphores are values in maps, so aliasing of entry pointers is not captured; one gate stands for the three bucket maps, since the two string maps never hold an allowance.
- Evict: one method stands for both eviction functions, which differ only in that the string maps hold no protected entries; account IDs are compared by their text, as in the code.
- A plain semaphore is the one-key case of a counter map and has no model of its own.
- RateLimits.Gate.Allow: a bucket's creation time is the clock reading of the call, and per-minute limits lie between 1 and 60,000,000,000.
- Admission stops at the start of serving: channel slots, the coder-process slot and draining are not modelled.
- SSH payload framing is modelled for the fields the bridge reads; request types other than those it names are one case.
- ForwardSessionRequests: output copying and the texts of errors and log lines are not modelled.
- Supervise: copy loops are arbitrary results; ring buffer, observer and durations are not modelled.
- Terminal width and line wrap are not part of the row the echo is shown on; bytes that arrive later are not distinguished from bytes already there.
- Screen texts, audit events and log lines of the key-management session.
- Registry size, route and username validation, argument building, configuration, CLI, metrics and health: plumbing or easy.
