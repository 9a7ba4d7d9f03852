# Verified model of Switchyard and the Nexus gateway

Switchyard is a command-line coding agent; the Nexus gateway is the server it talks to. This project
models the parts of both that carry state or search, and proves what they keep over every input, every
run and every interleaving.

* **Edit pipeline.** `BlockRegex`, `EditParser`: the two lazy block patterns and the parser of model
  responses. `Paths`: lexical path cleaning and the protected-file test. `Workspace`, `EditSafety`:
  applying a batch of edits under a policy. `Rollback`: the checkpoint, and the rollback after a whole
  session of batches.
* **Rate limiting.** `RateLimiter`, `RateLimits`: a bucketed counter in a store with expiry, and what it
  lets through per bucket and per interval. `RateBounds`: for exactly which windows and delays.
* **API keys.** `KeyStore`, `KeyStaleness`: the cache in front of the key table and how long a revoked
  key can still be accepted. `KeyRotation`: how many keys of one lineage can be active.
* **Task queue.** `TaskStore`, `TaskQueue`: any number of workers listing, claiming, executing and
  reporting.
* **Provisioning.** `CliAuth`, `Provisioning`: concurrent first logins on deterministic ids.
* **Routing and failover.** `Candidates`, `Routing`, `Failover`: candidate chains, stable deduplication,
  the failover loop and its audit record. `Costs`: price tables and the session totals.
* **Provider translation.** `Messages`, `AnthropicStream`: request building for Anthropic and Gemini, and
  the fold of Anthropic's event stream.

Code that updates things step by step is a class or a method with loops, proved against a specification
function or relation; the lemmas then speak about that specification. Concurrent protocols are state
machines: `Event`, `Enabled`, `Do`, and `After(es)` for the state after a run, if the run is possible. A
handler that runs alone is shown to be a run of its state machine (`LoneValidation`, `LoneProvision`,
`LoneRotation`).
The lemmas whose names end in `Exactly`, and those about single edits, paths, plans and streams, state what
the basic operations do in the terms of files, texts, fields and model strings, without those operations'
own definitions.
Provider replies, git, disk failures, clocks, lost requests and store failures are inputs of each step, so
every lemma holds for all of them.

## Where the code differs from its own description

* The repository's `README.md` and the package comment of `internal/ratelimit` call the limiter a sliding
  window. The code counts in fixed buckets of whole seconds: `TwiceTheLimitAtOnce` lets 2R calls through
  within two nanoseconds. If every call reaches the store at once, an interval one window long stays
  within 2R exactly when the window is below one second, or whole seconds up to one nanosecond
  (`WindowDecides`); with any other fraction such an interval can meet three buckets and let 3R through
  (`ThriceTheLimit`). `KeepsTwiceTheLimitExactly` gives the condition for every delay between a call's
  clock sample and its arrival.
* The comment of `IncrementWithExpiry` says the expiry is set when the key is new. The code refreshes it
  on every call, and the model does too.
* With a window below one second the bucket becomes a minute while the counter expires one second after
  its last hit, so a bucket exceeds the limit even when every call arrives at once
  (`SubSecondBreaksLimit`); `KeepsLimitExactly` gives the exact condition: bucket length plus delay must
  not exceed the counter's expiry.
* A rollback is said to restore the state from before the agent's edits. It never reads the checkpoint;
  it restores the index. `RestoresExactly` gives the condition on the tree before the edits: no tracked
  path differs from the index, and every untracked path in the work tree is hidden by the ignore rules
  whatever else the tree comes to hold. `PendingChangeLost` and `RollbackIsNotUndo` show what is lost
  otherwise.
* Key rotation is meant to leave one active key. Two rotations that overlap, or a revoke that fails (its
  error is dropped), leave two; `OneActiveKeyExactly` and `ActiveKeysBounded` give the exact picture. A
  rotated key also loses its expiry.
* A routing policy's fallback settings (`MaxFallbacks`, eligible statuses) are never read: every
  registered policy candidate is tried, and no pool candidate is (`PolicyReaches`).
* The protected list names `cargo.lock` in lower case only, so `Cargo.lock` is not protected
  (`CargoLockIsNotProtected`).
* Deduplication compares `provider:model` strings; ids that contain colons can collide
  (`KeysCollideExactly`).

## Model

| member | source | states |
|---|---|---|
| BlockRegex.FirstFieldsLaziest | cmd/switchyard/tools.go:20-21 | taking the first delimiter at each lazy group loses no match and is at least as lazy as every match, so backtracking never changes the result |
| BlockRegex.MatchHereIsPreferred | cmd/switchyard/tools.go:20-21 | the single pass finds a match at a position exactly when one exists, and it is the one leftmost-first matching prefers |
| BlockRegex.PreferredUnique | cmd/switchyard/tools.go:20-21 | at most one match is the preferred one |
| BlockRegex.ScanIsFindAll | cmd/switchyard/tools.go:28-42 | a list of matches is what non-overlapping leftmost-first search reports if and only if it is the single pass's result |
| BlockRegex.BlockRoundTrip | cmd/switchyard/tools.go:20-21 | a printed block is read back unchanged, whatever follows it, exactly when no delimiter is found early in its fields |
| BlockRegex.SkipQuiet | cmd/switchyard/tools.go:28-42 | text in which no tag starts contributes no match and does not disturb the matches after it |
| EditParser.ParseProposedEdits | cmd/switchyard/tools.go:24-54 | the two loops return every edit block in order and then every write block in order |
| EditParser.ProposedIsFindAll | cmd/switchyard/tools.go:24-54 | the parsed list is built from the full regular-expression search of each pattern, and from nothing else |
| EditParser.FoundOnTime | cmd/switchyard/tools.go:20-21 | a delimiter is first found right after a field exactly when the field neither contains it nor ends in one of the delimiter's self-overlaps |
| EditParser.DividerEarly | cmd/switchyard/tools.go:20 | old text survives exactly when it has no divider line and does not end in a line break and seven equals signs |
| EditParser.EndMarkEarly | cmd/switchyard/tools.go:20 | new text survives exactly when it does not contain the closing line and fence |
| EditParser.FenceEarly | cmd/switchyard/tools.go:21 | written content survives exactly when it has no fence and does not end in a backtick |
| EditParser.TextOkIsTight | cmd/switchyard/tools.go:20-21 | the text conditions of both block kinds are exactly the delimiter conditions |
| EditParser.RoundTripExactly | cmd/switchyard/tools.go:24-54 | a printed document in which no tag hides is parsed back to all edits in order and then all writes in order if and only if the texts of all its blocks are safe |
| EditParser.RoundTrip | cmd/switchyard/tools.go:24-54 | so printing any list of safe blocks with prose between them and parsing it back loses nothing |
| EditParser.SingleBlockExact | cmd/switchyard/tools.go:24-54 | one block is read back as written, and nothing else, if and only if its texts are safe and the other pattern finds nothing in it |
| EditParser.EditBlockIsRead | cmd/switchyard/tools.go:20-42 | a search and replace block spelled out character by character, its path between any white space, is read back if and only if its two texts are safe |
| EditParser.WriteBlockIsRead | cmd/switchyard/tools.go:21-51 | the same for a block that writes a file |
| EditParser.ProposedPaths | cmd/switchyard/tools.go:20-51 | in any response each proposed path is free of line breaks and of white space at its ends |
| Strings.TrimSpaceExactly | cmd/switchyard/tools.go:30 | trimming removes the white space at both ends and nothing else |
| Strings.ReplaceFirstExactly | cmd/switchyard/tools.go:213 | replacing keeps the text before and after the first occurrence and puts the new text in its place |
| Paths.CleanIdempotent | cmd/switchyard/safety.go:66-69 | cleaning a path keeps its components and cleaning again changes nothing |
| Paths.WalkExactly | cmd/switchyard/safety.go:67 | cleaning is a walk: a name goes down, a dot or double slash stays, a name followed by two dots is dropped, two dots stop at the root and pile up in front of a relative path |
| Paths.ProtectionIgnoresSpelling | cmd/switchyard/safety.go:66-84 | two spellings of one path are protected alike |
| Paths.GitGuardIsComponentTest | cmd/switchyard/safety.go:71-74 | the three string tests together hold exactly when some component of the path is `.git` |
| Paths.ProtectedByComponents | cmd/switchyard/safety.go:48-84 | a file is protected exactly when some component is `.git` or the last one is an environment, key or certificate file or one of the seven lock files, all spelled out |
| Paths.CargoLockIsNotProtected | cmd/switchyard/safety.go:62 | `cargo.lock` is protected, `Cargo.lock` is not |
| Workspace.WorkTree.CreateGitCheckpoint | cmd/switchyard/safety.go:97-128 | outside a repository or when stashing fails nothing is recorded; otherwise the stash id, or HEAD if there is none, becomes the last checkpoint, and it is never empty |
| Workspace.WorkTree.ApplyEditsWithPolicy | cmd/switchyard/tools.go:92-227 | the loop's files, counters, errors and checkpoint are those of the batch specification, for every policy and every pattern of replies and failures |
| Workspace.WorkTree.HandleEdit | cmd/switchyard/tools.go:115-222 | one iteration: guardrail, confirmation, at most one checkpoint taken before the change, then the change |
| Workspace.WorkTree.ApplyChange | cmd/switchyard/tools.go:191-220 | a write replaces the file, an edit replaces the first occurrence of the old text, and each failure is reported and leaves what the failed operation left |
| Workspace.WorkTree.RollbackGitCheckpoint | cmd/switchyard/safety.go:131-157 | which error comes when, and the files it leaves: none changed without a repository or a checkpoint, what git left when git fails; without an error the work tree becomes the index and untracked unhidden files go |
| EditSafety.RunFrame | cmd/switchyard/tools.go:114-224 | a path no proceeding edit names is unchanged |
| EditSafety.ProceedsExactly | cmd/switchyard/tools.go:118-178 | an edit proceeds always under autopilot, unless protected under safe-auto, and under approve when the answer is y or yes in any case and spacing, or empty for an unprotected path |
| EditSafety.EditReplaces | cmd/switchyard/tools.go:202-219 | after any batch, an edit block that proceeds turns `pre + old + post`, with no earlier occurrence of the old text, into `pre + new + post` on its path, changes nothing else and counts as applied |
| EditSafety.EditNotFound | cmd/switchyard/tools.go:209-212 | if the old text does not occur, the files stay and the chunk-not-found error is added |
| EditSafety.EditBreaks | cmd/switchyard/tools.go:203-217 | a file that cannot be read stays and one that cannot be written back has what the failed write left, each with its error |
| EditSafety.WriteCreates | cmd/switchyard/tools.go:191-201 | a write block that proceeds sets its file to its text; failing directories or a failing write leave the files as they were or the debris, each with its error |
| EditSafety.EditStops | cmd/switchyard/tools.go:118-124 | an edit that does not proceed changes nothing and counts as blocked under safe-auto only |
| EditSafety.BlockPatchesFile | cmd/switchyard/tools.go:24-227 | from the text of a response to the disk: a printed edit block replaces the first occurrence of its old text in the file it names and does nothing else |
| EditSafety.SafeAutoProtects | cmd/switchyard/tools.go:118-124 | under safe-auto no batch, with any failures, changes a protected path |
| EditSafety.ApproveAsks | cmd/switchyard/tools.go:161-178 | under approve a protected path changes only if the user answered yes to an edit of that very path |
| EditSafety.BatchConserves | cmd/switchyard/tools.go:92-227 | applied, blocked, failed and declined edits add up to the batch; explain and plan change nothing; safe-auto blocks exactly the protected ones |
| EditSafety.RunConserves | cmd/switchyard/tools.go:114-226 | the same conservation for every prefix of the loop under the three writing policies |
| EditSafety.AutopilotReplays | cmd/switchyard/tools.go:191-220 | without failures each file ends as the in-order replay of the edits that name it |
| EditSafety.ResponseDecidesFile | cmd/switchyard/tools.go:24-54 | from any response text to disk: a path named by a write block ends with the last such block's text even if edits follow it in the response, any other path is the replay of its edits |
| EditSafety.DocumentDecidesFile | cmd/switchyard/tools.go:24-54 | for a printed document of safe blocks these are exactly its blocks |
| Rollback.CheckpointOfBatch | cmd/switchyard/tools.go:181-189 | the batch's checkpoint is that of the first proceeding edit at which git can stash, and git holds the tracked files as they were then |
| Rollback.FirstAttemptCapturesStart | cmd/switchyard/tools.go:181-189 | if the first proceeding edit gets its checkpoint, git holds every tracked path as it was before the batch and no untracked one |
| Rollback.CheckpointIdExactly | cmd/switchyard/safety.go:113-117 | the recorded id is git's output without surrounding white space, or HEAD if that is empty |
| Rollback.SessionStashes | cmd/switchyard/tools.go:181-189 | a session has a checkpoint to roll back to exactly when some batch of it took one |
| Rollback.RestoresExactly | cmd/switchyard/safety.go:142-154 | rollback restores every path it is responsible for, whatever happened in between, if and only if the tree before was clean: tracked paths as in the index, untracked ones always hidden |
| Rollback.SessionRollback | cmd/switchyard/safety.go:130-157 | after any batches under any policies with any failures, one of which took a checkpoint, the rollback succeeds, restores a clean tree, and leaves every tracked path as in the index |
| Rollback.RollbackExactly | cmd/switchyard/safety.go:131-157 | after any session the rollback succeeds if and only if git works on tracked files and some batch took a checkpoint; otherwise the error and the files of each case, untouched without a repository or checkpoint |
| Rollback.NothingToRollBack | cmd/switchyard/safety.go:138-140 | before any batch a rollback reports the missing checkpoint and changes nothing |
| Rollback.RollbackSpares | cmd/switchyard/safety.go:142-154 | tracked paths come from the index; an untracked file survives exactly if it is outside the work tree, git's own, or ignored |
| Rollback.PendingChangeLost | cmd/switchyard/safety.go:130-157 | a pending change to a tracked path is held by the stash and still lost by the rollback |
| Rollback.RollbackIsNotUndo | cmd/switchyard/safety.go:130-157 | a concrete tree that rollback does not restore |
| RateLimiter.RedisClient.IncrementWithExpiry | internal/storage/redis/client.go:72-82 | a live counter grows by one, a dead or missing one restarts at one, the expiry is set on every call, and an error may hide that either command ran |
| RateLimiter.PipelineExactly | internal/storage/redis/client.go:72-82 | count, expiry and all other counters after each way the pipeline can end |
| RateLimiter.Limiter.Check | internal/ratelimit/limiter.go:48-86 | verdict and store for limits that are off, no store, store errors (fail open) and counted calls |
| RateLimiter.CountedExactly | internal/ratelimit/limiter.go:74-85 | a counted call is allowed exactly up to the limit, is told what remains, never below zero, and when the next bucket starts |
| RateLimiter.KeyInjective | internal/ratelimit/limiter.go:64-65 | counters of different scopes, ids or buckets never share a key, even when ids contain colons |
| RateLimits.CounterTracks | internal/ratelimit/limiter.go:64-67 | if the expiry covers bucket length and delay, the stored counter of a bucket equals the calls of that bucket that reached the store: the refreshed expiry never drops it early |
| RateLimits.BucketAccount | internal/ratelimit/limiter.go:66-85 | per bucket, under the same condition, the allowed calls lie within the minimum of limit and hits plus the failed calls, up to the hits a failure hid |
| RateLimits.BucketLimit | internal/ratelimit/limiter.go:64-85 | a bucket then allows at most R plus its failed calls, and exactly the minimum of R and its calls when none failed, in any order of arrival |
| RateLimits.IntervalLimit | internal/ratelimit/limiter.go:58-85 | under the same condition on expiry and delay, any half-open interval one window long allows at most 2R plus failed calls if the window is whole seconds (or one nanosecond more), and at most 3R plus failed calls otherwise |
| RateBounds.TwiceTheLimitAtOnce | internal/ratelimit/limiter.go:58-85 | for every limit a run without failures or delays that lets 2R calls through within two nanoseconds around a bucket edge |
| RateBounds.ThriceTheLimit | internal/ratelimit/limiter.go:59-65 | for every other fractional window from one second on a run without failures or delays that lets 3R calls through within one window |
| RateBounds.SpanLimit | internal/ratelimit/limiter.go:64-85 | calls of one bucket that arrive within one expiry of each other are let through R times at most, whatever arrives around them |
| RateBounds.KeepsTwiceTheLimitExactly | internal/ratelimit/limiter.go:48-86 | for every limit and every bound on the delay between clock sample and arrival: over all runs without failures, arrivals in order, an interval one window long stays within 2R if and only if it cannot meet three buckets (below one second, or whole seconds up to a nanosecond) and no call can come late enough to start a third count (window plus delay less than the counter's expiry plus two nanoseconds; for a one-nanosecond window, delay less than two expiries) |
| RateBounds.SubSecondBreaksLimit | internal/ratelimit/limiter.go:59-67 | every window below a second has a run without failures or delays that lets 3R calls through in one bucket |
| RateBounds.KeepsLimitExactly | internal/ratelimit/limiter.go:48-86 | for every limit and every bound on the delay the per-bucket limit holds over all runs, in any order of arrival, if and only if bucket length plus delay is at most the counter's expiry |
| RateBounds.WindowDecides | internal/ratelimit/limiter.go:48-86 | without delay: R per bucket exactly from one second on, 2R per interval exactly below one second or for whole seconds up to a nanosecond; from one second on both also bear delays of a whole bucket |
| KeyStore.APIKeyRepo.Create | internal/storage/postgres/api_key_repo.go:24-45 | inserts unless hash or id is taken or the project is missing; an error may hide an insert |
| KeyStore.APIKeyRepo.GetByHash | internal/storage/postgres/api_key_repo.go:58-65 | the row stored under the hash, if any |
| KeyStore.APIKeyRepo.Revoke | internal/storage/postgres/api_key_repo.go:99-113 | revokes the row with the id, reports whether there was one, changes nothing else |
| KeyStore.KeyCache.Get | internal/storage/redis/client.go:59-65 | a cached key until its expiry, nothing from then on |
| KeyStore.KeyCache.SetWithTTL | internal/storage/redis/client.go:54-56 | stores the key until now plus the time to live |
| KeyStore.Validator.Validate | internal/auth/validator.go:37-89 | the verdict for cache hits, misses and errors, and that only a miss that found a row writes the cache, so hits never extend an entry |
| KeyStore.ValidationExactly | internal/auth/validator.go:78-89 | by the fields of the judged copy: accepted exactly when active and not past its expiry time, revoked exactly when its status says so, expired exactly when otherwise past its time |
| KeyStore.CacheAfterExactly | internal/auth/validator.go:51-75 | a live entry is never touched, a missed row is stored until its write plus the time to live, other entries stay |
| KeyStaleness.LoneValidation | internal/auth/validator.go:37-89 | a validation that runs alone is a run of the concurrent model, with the verdict and cache the method leaves |
| KeyStaleness.StepKeepsInv | internal/auth/validator.go:49-75 | every step of any number of interleaved validations keeps: cached copies agree with the table up to status and die in time |
| KeyStaleness.RevocationTakesEffect | internal/auth/validator.go:49-75 | in every run an accepted revoked key's validation began before the revocation plus time to live plus the longest read-to-write gap; an accepted key has status active, is not past its expiry time, and has its row's id, project, scopes and expiry |
| KeyStaleness.RevokedForever | internal/storage/postgres/api_key_repo.go:99-113 | in every continuation of a run a revoked key stays revoked and keeps its first revocation time |
| KeyStaleness.StalenessBoundIsTight | internal/auth/validator.go:49-75 | for every time to live and gap a run that accepts a revoked key one nanosecond before the bound |
| KeyRotation.LineageConstant | internal/http/handlers/auth_cli.go:280 | all keys of a rotation lineage have one project and the same non-empty scopes |
| KeyRotation.RevokedForever | internal/storage/postgres/api_key_repo.go:99-113 | in every continuation of a run keys keep their row and content, and no revoked key becomes active |
| KeyRotation.ActiveKeysBounded | internal/http/handlers/auth_cli.go:256-285 | in every run a lineage has at most one active key plus one for each overlapping rotation and each failed revoke |
| KeyRotation.OverlapLeavesTwo | internal/http/handlers/auth_cli.go:256-285 | two overlapping rotations of one key leave two active keys |
| KeyRotation.FailureLeavesTwo | internal/http/handlers/auth_cli.go:262-263 | a dropped revoke error leaves two active keys |
| KeyRotation.OneActiveKeyExactly | internal/http/handlers/auth_cli.go:256-285 | a lineage is sure to have at most one active key if and only if rotations neither overlap nor lose a revoke |
| KeyRotation.LoneRotation | internal/http/handlers/auth_cli.go:256-285 | a rotation that runs alone is a run of the concurrent model: its rows are the table the method leaves, the new key in the lineage of the old |
| TaskStore.TaskRepo.Create | internal/storage/postgres/task_repo.go:25-47 | inserts unless the id is taken or the project is missing |
| TaskStore.TaskRepo.Claim | internal/storage/postgres/task_repo.go:88-97 | a pending task becomes running for the worker, any other row and any other task is untouched |
| TaskStore.TaskRepo.Complete | internal/storage/postgres/task_repo.go:100-114 | writes result and status whatever the row's status was |
| TaskStore.ClaimExactly | internal/storage/postgres/task_repo.go:88-97 | a claim sets status, worker and time of a pending task and leaves every other field and row |
| TaskStore.CompleteExactly | internal/storage/postgres/task_repo.go:100-114 | a completion sets result, status and time of any task and leaves every other field and row |
| TaskStore.TaskHandlers.ClaimEndpoint | internal/http/handlers/tasks.go:90-108 | the claim with the default worker name for an empty one |
| TaskStore.TaskHandlers.CompleteEndpoint | internal/http/handlers/tasks.go:111-137 | only completed and failed are ever written |
| TaskQueue.StepKeepsInv | cmd/switchyard/daemon.go:83-110 | every step of every client keeps: claims are unique, holders own their task and have not executed it, executions have owners |
| TaskQueue.AtMostOnce | internal/storage/postgres/task_repo.go:88-97 | in every interleaving a task is claimed at most once and executed at most once, by its claimer, and no other status is ever stored |
| TaskQueue.NeverPendingAgain | internal/storage/postgres/task_repo.go:88-114 | over every continuation of every run a task that left pending never returns to it, no row disappears and the history of claims and executions only grows |
| TaskQueue.ClaimNamesWorker | internal/storage/postgres/task_repo.go:88-97 | a claim that reaches a pending task puts the worker's name on it, and the task keeps that name in every continuation of the run |
| TaskQueue.FinishedTaskShowsClaimersReport | cmd/switchyard/daemon.go:102-109 | if only workers report, a finished task shows exactly the summary, diff and status its single claimer reported |
| TaskQueue.FinishedIsFinal | internal/storage/postgres/task_repo.go:100-114 | if only workers report, a finished task's row never changes again |
| TaskQueue.OrphanStaysRunning | cmd/switchyard/daemon.go:83-110 | a running task whose worker is gone stays as it is in every continuation by workers |
| TaskQueue.OtherCompleteOverwrites | internal/storage/postgres/task_repo.go:100-114 | after any run any other client can replace any task's result with a report nobody produced, so the restriction to workers is needed |
| TaskQueue.ChoosesOldest | cmd/switchyard/daemon.go:89 | a worker picks a pending task no younger than any other of its project |
| CliAuth.CliAuthHandler.Provision | internal/http/handlers/auth_cli.go:136-232 | one login creates at most the user's own organization and project and exactly one key on success, keeps the foreign keys under every store failure, and succeeds when no call fails |
| CliAuth.CliAuthHandler.EnsureOrganization | internal/http/handlers/auth_cli.go:136-166 | get, create, re-fetch: on success the row exists, and an existing row is never replaced |
| CliAuth.OrgNameExactly | internal/http/handlers/auth_cli.go:139-146 | the organization is named after the address up to its first at sign, after the whole address without one, after the user id without an address |
| CliAuth.CliAuthHandler.EnsureProject | internal/http/handlers/auth_cli.go:168-192 | the same for the project, in the user's organization |
| CliAuth.KeyRotator.RotateKey | internal/http/handlers/auth_cli.go:250-295 | an unreadable, inactive or unknown key changes nothing; otherwise the old key is revoked if the revoke works, and one key with the same project and scopes and no expiry is added unless the insert fails, which leaves the old key revoked and no new one |
| CliAuth.RotatedExactly | internal/http/handlers/auth_cli.go:250-295 | by the fields of the old key: only an active key not past its expiry time is rotated; its successor has the same project and scopes, a default for none, and no expiry; no other row changes |
| Provisioning.StepKeepsInv | internal/http/handlers/auth_cli.go:136-219 | every step of every interleaved login keeps foreign keys, single inserts and one key per request |
| Provisioning.LoginsAgree | internal/http/handlers/auth_cli.go:136-219 | in every interleaving each successful login returns the user's organization and project, each inserted exactly once, and owns exactly one key row |
| Provisioning.RacesAreHarmless | internal/http/handlers/auth_cli.go:154-192 | without store failures no race ever makes a login fail |
| Provisioning.LoneProvision | internal/http/handlers/auth_cli.go:136-219 | a login that runs alone is a run of the concurrent model: same tables, same success |
| Candidates.DeduplicateCandidates | internal/routing/engine.go:300-311 | the loop returns a stable deduplication |
| Candidates.DedupIsStable | internal/routing/engine.go:300-311 | the result is the subsequence of first occurrences and misses no key |
| Candidates.StableDedupUnique | internal/routing/engine.go:300-311 | there is no other stable deduplication |
| Candidates.DedupKeys | internal/routing/engine.go:300-311 | no key twice, the same keys as before, no new candidates |
| Candidates.DedupIdempotent | internal/routing/engine.go:300-311 | deduplicating again changes nothing, and changes nothing at all exactly when no key repeats |
| Candidates.DedupLead | internal/routing/engine.go:300-311 | a candidate put before a duplicate-free chain removes only its own duplicate |
| Candidates.KeysCollideExactly | internal/routing/engine.go:304 | two provider ids can produce one key exactly when one id is the other extended after a colon |
| Candidates.ColonFreeKey | internal/routing/engine.go:304 | two candidates whose provider ids have no colon share a key exactly if provider and model agree, also when models hold colons; likewise if one of them has no colon at all |
| Candidates.DedupIsByProviderAndModel | internal/routing/engine.go:300-312 | with colon-free provider ids the deduplicated chain lists exactly the provider and model pairs of the chain, each once |
| Routing.Registry.Register | internal/provider/registry.go:22-26 | replaces the adapter under its own id, keeping every adapter under its id |
| Routing.Registry.Get | internal/provider/registry.go:29-34 | the adapter under the id, if any |
| Routing.Registry.All | internal/provider/registry.go:46-54 | every registered adapter exactly once, in any order |
| Routing.Engine.RoutePlan | internal/routing/engine.go:61-298 | fails exactly on an empty registry; otherwise answers a plan of the specification, never empty, and selects its first candidate |
| Routing.Engine.DynamicPlan | internal/routing/engine.go:258-268 | deduplication and last resort give the automatic chain |
| Routing.Engine.PolicyChain | internal/routing/engine.go:74-88 | the policy loop gives the policy chain |
| Routing.Engine.DynamicChain | internal/routing/engine.go:109-256 | the model switch gives the lead candidate and the pools in the preferred order |
| Routing.PlanIsRunnable | internal/routing/engine.go:61-298 | every plan is non-empty and calls only registered adapters under their own ids |
| Routing.AutomaticIsDistinct | internal/routing/engine.go:258-259 | without a usable policy no candidate is tried twice |
| Routing.EveryPoolCandidateIsPlanned | internal/routing/engine.go:109-268 | without a usable policy every registered fast and smart candidate is in the chain, for every model string |
| Routing.PlanOrder | internal/routing/engine.go:141-268 | the exact chain: a pinned or named candidate first and its duplicate gone, then the pools in preference order, and the last resort only if all of that is empty |
| Routing.PresetPlan | internal/routing/engine.go:113-203 | for every preset name and for automatic requests on either side of 0.4, the whole chain of every plan without a usable policy, pools written out |
| Routing.FamilyPlan | internal/routing/engine.go:205-240 | a `claude-`, `gemini-` or `gpt-` model goes first to Anthropic, Gemini or OpenAI if registered, and the whole chain after it |
| Routing.NamedPlan | internal/routing/engine.go:242-256 | any other string is tried as the name of a provider, then the cheap and the strong pool |
| Routing.PresetLeader | internal/routing/engine.go:141-268 | which candidate answers first in every registry under each preset, or when a pinned or named provider is missing: the first model of the leading pool whose provider is registered, or the last resort |
| Routing.PinnedLeads | internal/routing/engine.go:205-240 | in every plan without a usable policy a model string with a family's prefix is tried first, as primary, at that family's provider, if it is registered |
| Routing.LastResortExactly | internal/routing/engine.go:261-268 | the last-resort candidate is planned exactly when no pool provider and no named provider is registered |
| Routing.PolicyPlanExact | internal/routing/engine.go:73-88 | a policy chain is the registered policy entries in order, only the policy's first entry being primary |
| Routing.PolicyReaches | internal/routing/engine.go:73-101 | a policy chain reaches a provider and model exactly when the policy lists it and the provider is registered |
| Routing.UsableExactly | internal/routing/engine.go:73-88 | a policy takes over exactly when it lists a registered provider |
| Failover.RequestRecord.Complete | internal/domain/request_record.go:60-69 | success with provider, model, usage, latency and cost, other fields kept |
| Failover.RequestRecord.Fail | internal/domain/request_record.go:72-85 | error code and the status it stands for, other fields kept |
| Failover.StatusExactly | internal/domain/request_record.go:72-85 | timeout, rate limit and budget errors have their own status, every other error is a failure, and an error without a domain code counts as internal |
| Failover.ChatHandler.TryCandidates | internal/http/handlers/chat.go:274-311 | stops at the first reply without an error; the trace is exactly the failed candidates before it, in order |
| Failover.ChatHandler.Execute | internal/http/handlers/chat.go:268-339 | an answered request records that candidate and its price, retry count equal to its index, and fallback exactly when the index is positive; a failed one records the last error, never a provider and never success; a panic records nothing |
| Costs.PricesAgree | internal/http/handlers/chat.go:440-460 | for every model the gateway prices its estimate equals the price of the command line's own table, and is zero for all others |
| Failover.EndsExactly | internal/http/handlers/chat.go:274-322 | any replies have exactly one ending: answered if a success comes before any empty reply, panicking if an empty reply comes before any success, exhausted if all are errors |
| Failover.AnsweredExactly | internal/http/handlers/chat.go:282-292 | with adapters that return a response or an error, the loop never panics and answers exactly when some candidate would |
| Failover.FailoverComplete | internal/http/handlers/chat.go:261-311 | without a usable policy, for every model string, the request is answered as soon as any pool candidate would answer |
| Failover.RequestAnswered | internal/http/handlers/chat.go:261-311 | the same for every plan the route planner answers when no policy is usable |
| Failover.PolicyAnswers | internal/http/handlers/chat.go:261-311 | with a usable policy the request is answered exactly when a registered policy entry would answer, entry by entry |
| Costs.SessionStats.Record | cmd/switchyard/main.go:117-126 | adds one request with its tokens, price, baseline price and model |
| Costs.NeverAboveBaseline | cmd/switchyard/main.go:48-126 | in every session with non-negative token counts the total cost never exceeds the baseline, for known and unknown models |
| Costs.CallsAddUp | cmd/switchyard/main.go:117-126 | the calls per model always add up to the requests |
| Costs.TotalsExactly | cmd/switchyard/main.go:117-126 | a session's requests, tokens in, tokens out and uses of each model are those of its requests, and its baseline three and fifteen dollars per million of them |
| Costs.OneModelSession | cmd/switchyard/main.go:86-126 | a session with one model costs that model's rates on the summed tokens |
| Costs.PresetPrices | cmd/switchyard/main.go:48-68 | each preset is priced as the model it stands for |
| Costs.FamilyPrices | cmd/switchyard/main.go:73-84 | an unknown name is priced by its family |
| Messages.RewriteMessages | internal/http/handlers/chat.go:236-253 | the directive is appended to every system message, or put in front as one if there is none |
| Messages.RewritingDirects | internal/http/handlers/chat.go:236-253 | rewriting keeps all other turns in order; each system text is the client's own text, a line break and the directive, and without any the directive is the only one |
| Messages.SystemExactly | internal/http/handlers/chat.go:238 | a message is a system message exactly when its role spells the word in small or capital letters |
| Messages.OneMoreMessage | internal/provider/anthropic/adapter.go:98-112 | a message added at the end goes to the end of the system texts if its role spells system, else to the end of the turns |
| Messages.BuildAnthropic | internal/provider/anthropic/adapter.go:98-112 | the turns unchanged, and the system text the builder glues together |
| Messages.BuildGemini | internal/provider/gemini/adapter.go:99-126 | the turns in order with Gemini's role names, and the system texts as parts |
| Messages.GeminiRoleExactly | internal/provider/gemini/adapter.go:104-110 | the assistant, in any spelling, becomes the model; every other role is the lower-cased one |
| Messages.GlueJoins | internal/provider/anthropic/adapter.go:101-105 | the builder's text is the newline join of what remains after the leading empty parts |
| Messages.GlueIsPlainJoinExactly | internal/provider/anthropic/adapter.go:101-105 | it is the plain newline join exactly when at most one part exists or the first is not empty |
| Messages.SameConversation | internal/http/handlers/chat.go:236-253 | after rewriting both providers get the client's turns and all its system texts, in order and each followed by the directive: Gemini as parts, Anthropic as their newline join |
| AnthropicStream.StreamChat | internal/provider/anthropic/adapter.go:276-374 | the chunks sent until the stream ends or the context stops a send, with one error chunk exactly for an uncancelled read error before any stop |
| AnthropicStream.RunExactly | internal/provider/anthropic/adapter.go:317-373 | the fold equals a reference read off the events before the first stop: labelled deltas, then one usage chunk if there is a stop |
| AnthropicStream.UninterruptedStream | internal/provider/anthropic/adapter.go:279-374 | an uninterrupted client hears exactly the text of the deltas before the first stop and sees the last announced usage |
| AnthropicStream.OrdinaryStream | internal/provider/anthropic/adapter.go:317-373 | an ordinary stream written out: each text under the announced id and model, then input, output and their sum |
| AnthropicStream.CancelledIsPrefix | internal/provider/anthropic/adapter.go:282-372 | wherever a cancellation stops the reader, at a send or at a read after which later events are never decoded, the client has a prefix of the uncancelled output of the whole stream |
| AnthropicStream.UsageComesLast | internal/provider/anthropic/adapter.go:349-372 | at most one usage chunk, last, only after a stop, total equal to input plus output |

## Left out

- HTTP, JSON, chi, CORS, metrics, tracing, logging, terminal prompts and previews, browser login: no property of their own; the replies typed at prompts are inputs.
- SQL text and drivers: each statement is one atomic table step. Integer widths: counters and times are unbounded integers.
- SHA-256, random keys and UUIDs: hashes and fresh ids are inputs, and an insert fails when one is taken; in `Provisioning` the key ids of concurrent requests are fresh.
- TaskStore.IsPendingList: the pending list is a relation between table and result rather than a method, because rows with equal creation times may come in any order.
- `internal/routing/engine.go` 313-386, `countChars` and `analyzeComplexity`: the complexity score is an input of `RoutePlan`; only its comparison with 0.4 moves candidates. The plan's preset name, tier label, confidence, rationale, intent and cost estimates are not modelled.
- `filepath.Match` in general: only prefix-star, star-suffix and exact patterns occur. Symbolic links, permissions, case-insensitive disks and Windows separators: files are keyed by cleaned path.
- Git beyond index, work tree and ignore rules: an edit under `.git` changes a file but not git's own behaviour; a stash holds the tracked paths, and an empty stash output means that none of them differs from the index.
- Failed writes: a failed write leaves any content for that one path; directories are not part of the file map.
- Rate limits of several different windows on one id: `Regular` runs use one limit per subject. The delay between a call's clock sample and its arrival in the store is a parameter; where `Ordered` is required, the store's own clock does not go back.
- KeyStaleness: cache failures make the cache be skipped, as in the code; the Redis clock equals the gateway clock.
- Tenant resolution, scope checks, configuration and the domain types' field validation: single-branch facts.
- `ParsePolicy`, the OpenAI adapter, response decoding of the three adapters: they would only add easy members. Money is `real`.
- `cmd/nexus-cli`: its parser repeats `cmd/switchyard/tools.go` and its apply loop does less.
- Server-sent event framing: each terminated `data:` line is one decoded event (a subset of section 9.2 of the WHATWG HTML standard); a last line without a line break is dropped by the reader and so is not an event.
- Reading system roles: lower-casing is exact where the result is ASCII, which is all that comparing with `system` and `assistant` needs; a Gemini role outside ASCII may be spelled differently.
