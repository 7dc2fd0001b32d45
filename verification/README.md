# OpenWA: a verified model of the gateway's protocols

A Dafny model of the parts of OpenWA (a self-hosted WhatsApp gateway and its SDKs) whose correctness
depends on the order in which things happen, on arithmetic that must not leak, or on text that must
survive a transformation. Each source file has its own module, or a group of modules:

| modules | what they model |
|---|---|
| `InflightBudget`, `InflightBudgetSafety`, `InflightBudgetMiddleware`, `InflightBudgetAdmission`, `InflightBudgetLaws`, `InflightBudgetGrowth`, `InflightBudgetTiming`, `InflightBudgetPace` | the budget on request bodies in memory: admission, re-pricing, release, the stall and pace poll |
| `BootMigrations`, `BootProgress` | replicas racing to apply the PostgreSQL migrations under an advisory lock |
| `PairingQr` | the QR refs, timer and secret of a pairing socket, with the refresh notification |
| `PatchText`, `AtomicWrite`, `PairingPatch` | the pairing patch script: text shapes, atomic replacement of several files, exit codes |
| `WebVersion`, `WebVersionCache`, `WebVersionResolver` | ranking, caching and rejecting WhatsApp Web builds |
| `RetryPolicy`, `RetryLoop`, `PathEncoding`, `PathDecoding` | the Go SDK: backoff, Retry-After, the retry loop, path escaping and checking |
| `SendErrorSummary` | the budgeted JSON summary of whatever a failed send threw |
| `EngineRegistry` | which engine is live for a session, over which proxy, and who hears when that ends |
| `WorkflowLines`, `WorkflowShell` | the two readings of a workflow's run block without its shell comments, and the shell's own |
| `Basics` | an option type and the arithmetic several modules share |

The modules share one plan. A pure `State`, `Step` and `Run(events)` say what the code does over every
order of its events, with the steps cut where the code awaits. Invariants are proved of every `Run`. Where
the source updates state in place, a class with those fields has methods whose `ensures` equate its
`View()` with `Step` of the old one, so what is proved of every run holds of the class. A loop in the source
is a loop here, proved against a function.

`dafny verify dfyconfig.toml` checks the whole project.

## Where the code and a promise differ

- The exact reading of a run block is documented to cut nothing the shell runs, but it scans every line by
  itself, takes an escaped separator for a separator, and knows no substitutions. `WorkflowShell.NothingRunIsCutIff`
  says exactly when the shell modelled here reads a text the same once it is cut: no line is cut at a '#' in front of
  the comment that ends it. Such a '#' stands behind an escaped separator, continues a word over the line's start, or
  starts a comment that a backtick ends; or the line starts inside a quote, or a quote nested in a substitution or the
  escaped quote of a `$'…'` has parted the scan from the shell, and it stands open in the line by itself. Each has its
  failing texts: `EscapedSeparatorHides`, `ContinuedWordHides`, `TicksCommentHides`, `OpenQuoteHides`,
  `NestedQuoteHides`, `AnsiQuoteHides`. `ExactReadingIsShellsIff` is the exact condition for the two readings to be
  equal. What of a real shell's grammar this leaves out is listed below under `WorkflowShell`.
- One anonymous client is documented to leave room in the pool for others, and anonymous traffic never to take the
  rest of the budget from keyed traffic; but a chunked body grows unchecked as it completes. `OthersAdmittedIff` and
  `KeyedBodyFitsIff` of `InflightBudgetAdmission` are the exact conditions on what is held,
  `OneAnonymousClientLeavesRoom` and `KeyedBodyFitsInRuns` show that they hold in every run without such growth, and
  `InflightBudgetGrowth` has the runs in which they fail: `CompletedBodiesFillThePool` for every cap from 2 MiB, and
  `CompletedBodiesKeepKeysOut` for every cap from 3 MiB.
- The documented backoff min(BaseDelay * 2^n, MaxDelay) holds exactly when the doubling reaches MaxDelay without
  leaving int64 (`RetryPolicy.BackoffIsCappedIff`); otherwise a delay turns negative. `HalfRangeReaches` gives a
  simple sufficient range, `UncappedBackoffIff` the exact range without a cap, and `BackoffMonotoneIff` says that
  delays never shrink exactly when there is a cap and it is reached in range.
- A file the patch script has just patched reads as applied if and only if cutting the anchor out leaves no
  second anchor across the cut (`PatchText.PatchedReadsAppliedIff`); `AnchorLeftAcrossTheCut` is the failing text,
  for any anchor: the anchor nested in itself. `PairingPatch.RerunAfterPartialRefused` carries the condition to the message of a re-run, which is
  refused either way.
- Callers waiting on a registry read are handed a rejected build if and only if the read brought nothing usable
  and the build cached when it began was rejected meanwhile (`WebVersionCache.AnswerRejectedIff`);
  `RejectedBuildAnswered` is such a run.

## Model

| member | source | states |
|---|---|---|
| `InflightBudgetSafety.StepKeepsInv` | src/config/inflight-body-budget.ts:306-498 | every event keeps the accounting invariant, lowers no reservation, and leaves a released request untouched |
| `InflightBudgetSafety.RunKeepsInv` | src/config/inflight-body-budget.ts:306-498 | the invariant holds after every interleaving of admissions, bytes, polls, ends and terminal events |
| `InflightBudgetSafety.ArrivingWithinEveryLimit` | src/config/inflight-body-budget.ts:361-382 | bytes priced to bodies still arriving never exceed the budget, a client's share or the anonymous pool; the total exceeds them by at most the growth chunked bodies took at their completing reconcile |
| `InflightBudgetSafety.DeclaredNeverOver` | src/config/inflight-body-budget.ts:361-382 | with declared lengths only, no limit is ever exceeded |
| `InflightBudgetSafety.ReservationsOnlyGrow` | src/config/inflight-body-budget.ts:396-456 | over any continuation of any run no reservation shrinks, and a released request never changes again |
| `InflightBudgetSafety.TrackedAddressesBounded` | src/config/inflight-body-budget.ts:345-377 | address clients in the map never exceed its cap |
| `InflightBudgetMiddleware.Budget.Middleware` | src/config/inflight-body-budget.ts:306-382 | the incremental counters decide as the sums over live requests would, and admission adds exactly the request |
| `InflightBudgetMiddleware.Budget.Release` | src/config/inflight-body-budget.ts:396-405 | the first terminal event takes the request's reserved bytes out of every counter, later ones do nothing |
| `InflightBudgetMiddleware.Budget.Reprice` | src/config/inflight-body-budget.ts:438-452 | re-pricing moves all counters by the same difference and drops for the first limit crossed, never a complete body |
| `InflightBudgetMiddleware.Budget.SettleBody` | src/config/inflight-body-budget.ts:453-456 | 'end' re-prices the complete body and disarms its timer |
| `InflightBudgetMiddleware.Budget.PollTimer` | src/config/inflight-body-budget.ts:458-497 | a timer firing refines the poll step: settle, re-price, pace drop, progress, stall drop, in this order |
| `InflightBudgetMiddleware.Budget.Handle` | src/config/inflight-body-budget.ts:306-498 | every event on the counters refines the same step on the requests |
| `InflightBudgetMiddleware.Serve` | src/config/inflight-body-budget.ts:379-456 | after any events the aggregate, the anonymous counter and each client's entry equal the sums over live requests, and a client has an entry exactly while it has a live request |
| `InflightBudgetMiddleware.AllEndedMeansIdle` | src/config/inflight-body-budget.ts:396-405 | once all requests ended every counter is 0 and the map is empty |
| `InflightBudgetLaws.EncodingLaw` | src/config/inflight-body-budget.ts:306-342 | 415 exactly for a compressed body, and no check at all exactly for a request without one |
| `InflightBudgetLaws.AdmissionLaw` | src/config/inflight-body-budget.ts:344-377 | for every configuration, load and request with a key or without the tier: admitted if and only if budget, share and client map have room, 413 if and only if its declared size alone is too much, else 503 |
| `InflightBudgetLaws.AnonymousAdmissionLaw` | src/config/inflight-body-budget.ts:344-377 | the same in the anonymous tier, with its own share and pool on the charged size |
| `InflightBudgetLaws.ArrivingWithinCaps` | src/config/inflight-body-budget.ts:361-382 | in every run, arriving bytes against the budget, the pool and the two kinds of share |
| `InflightBudgetLaws.UnsettledIsArriving` | src/config/inflight-body-budget.ts:361-382 | while no body is settled, what is arriving is all that is held |
| `InflightBudgetLaws.PoolLaw` | src/config/inflight-body-budget.ts:204-211 | the pool is a quarter of the budget, at least two bodies, at most the budget |
| `InflightBudgetLaws.ShareLaw` | src/config/inflight-body-budget.ts:199-212 | a share is rounded down to whole bytes |
| `InflightBudgetLaws.ShareIsClamped` | src/config/inflight-body-budget.ts:198 | a share above 1 is the whole, one below 2^-52 that |
| `InflightBudgetLaws.CapsLaw` | src/config/inflight-body-budget.ts:199-212 | a client's cap is its share of the budget, at least a byte; an anonymous one's its share of the pool, at least a body |
| `InflightBudgetLaws.ReservationLaw` | src/config/inflight-body-budget.ts:438-456 | in every run a reservation changes at its request's polls and end alone, to the bytes of a chunked body that have arrived, at least the placeholder, at most the cap of an anonymous one |
| `InflightBudgetLaws.DropLaw` | src/config/inflight-body-budget.ts:438-497 | in every run a request is dropped by its own polls alone, exactly for growth over the first limit crossed, else for pace, else for fifteen silent seconds; and is released by that or a terminal event |
| `InflightBudgetLaws.InspectLaw` | src/config/inflight-body-budget.ts:467-497 | what a poll that does not drop notes, and when it stops watching |
| `InflightBudgetAdmission.TooLargeIffRefusedWhenIdle` | src/config/inflight-body-budget.ts:351-377 | a declared body gets 413 if and only if an idle server refuses it, so each 503 is admissible when idle |
| `InflightBudgetAdmission.HalfShareCaps` | src/config/inflight-body-budget.ts:199-212 | what the default half share makes of every cap |
| `InflightBudgetAdmission.KeyedBodyFitsIff` | src/config/inflight-body-budget.ts:351-377 | with the half share and three body caps, beside anonymous traffic alone a keyed body up to the cap is admitted if and only if the budget has room for it |
| `InflightBudgetAdmission.KeyedBodyAlwaysFits` | src/config/inflight-body-budget.ts:199-212 | so it is admitted whenever only anonymous traffic within its pool is in flight |
| `InflightBudgetAdmission.KeyedBodyFitsInRuns` | src/config/inflight-body-budget.ts:161-164 | and in every run with only anonymous traffic in flight of which no completing reconcile has grown a body |
| `InflightBudgetAdmission.OthersAdmittedIff` | src/config/inflight-body-budget.ts:199-212 | with two body caps and one address alone in flight, every other address's capped body is admitted if and only if what it holds and one more cap fit in the pool |
| `InflightBudgetAdmission.OneAnonymousClientLeavesRoom` | src/config/inflight-body-budget.ts:199-212 | they are, in every run in which one address alone holds anything and no completing reconcile has grown its bodies |
| `InflightBudgetGrowth.CompletedBodiesHold` | src/config/inflight-body-budget.ts:438-466 | any number of chunked bodies of one address whose placeholders fit its share hold a full cap each once a poll finds them complete |
| `InflightBudgetGrowth.CompletedBodiesFillThePool` | src/config/inflight-body-budget.ts:438-466 | so, for every cap from 2 MiB and a budget of two, a run in which two of them keep out every body of any other address |
| `InflightBudgetGrowth.CompletedBodiesKeepKeysOut` | src/config/inflight-body-budget.ts:438-466 | and, for every cap from 3 MiB and a budget of three, one in which three of them keep out every keyed body up to the cap |
| `InflightBudgetTiming.RunKeepsQuiet` | src/config/inflight-body-budget.ts:417-497 | over every run a body whose bytes have all been seen was last heard of no later than its progress mark |
| `InflightBudgetTiming.StallNeedsSilence` | src/config/inflight-body-budget.ts:486-497 | on any timer schedule a stall drop comes only after 15 s without a byte |
| `InflightBudgetTiming.RunKeepsTimely` | src/config/inflight-body-budget.ts:458-497 | with polls 5 s apart, an armed request is never past its next poll, and its progress mark is within one period of its last byte and two of its last poll |
| `InflightBudgetTiming.StallWithinTwentySeconds` | src/config/inflight-body-budget.ts:458-497 | with polls 5 s apart, no request is still watched more than 20 s after its last byte |
| `InflightBudgetTiming.RunKeepsUnwatched` | src/config/inflight-body-budget.ts:453-497 | in every run a request that is neither released, settled nor watched has had every declared byte arrive |
| `InflightBudgetTiming.SilentIsGoneOrArrived` | src/config/inflight-body-budget.ts:458-497 | so with polls 5 s apart, one that has been silent for more than 20 s is released, settled or fully arrived |
| `InflightBudgetPace.PacedSenderKept` | src/config/inflight-body-budget.ts:470-485 | a sender at or above target/timeout at each of its polls is never dropped for pace |
| `InflightBudgetPace.RunKeepsPaceOk` | src/config/inflight-body-budget.ts:458-497 | over every run with punctual polls, a declared body whose timer runs was short but on pace at its last poll, and one whose timer is gone has arrived |
| `InflightBudgetPace.HeldPastTimeoutHasArrived` | src/config/inflight-body-budget.ts:470-492 | a declared body that such a run still holds unsettled 20 s past the request timeout, or after a poll 15 s past it, has had all its bytes arrive and is no longer watched |
| `BootMigrations.EveryExitCleansUp` | src/database/pg-boot-migrations.ts:117-177 | on every exit, under any failures and drops, the migration pool is destroyed and the lock client ended; an attempt returns exactly when nothing failed, and only then leaves a runtime pool open |
| `BootMigrations.ReturnedMeansMigrated` | src/database/pg-boot-migrations.ts:117-177 | a replica that returned did so with every migration in the ledger, even under drops |
| `BootMigrations.OneMigratesAtATime` | src/database/pg-boot-migrations.ts:135-158 | for any number of replicas, while no holder's connection drops, at most one is between lock and unlock |
| `BootMigrations.AppliedOnceInOrder` | src/database/pg-boot-migrations.ts:135-158 | the ledger is the initial one followed by a prefix of the missing migrations, each once and in chain order, all of them once a replica returned |
| `BootMigrations.DroppedLockAppliesTwice` | src/database/pg-boot-migrations.ts:123-134 | why that needs the lock to stay: for every chain and ledger with something missing, a run with one holder's drop in which two migrate at a time and the first missing migration is applied twice |
| `BootProgress.HolderIsUnderWay` | src/database/pg-boot-migrations.ts:135-160 | in every run, under any rejections and drops, the lock is held by an attempt that has yet to end its lock session |
| `BootProgress.FinishedHoldsNothing` | src/database/pg-boot-migrations.ts:135-160 | so one that returned or threw holds nothing, and with no holder a connected waiter is granted the lock |
| `BootProgress.UnlockOrEndFrees` | src/database/pg-boot-migrations.ts:150-160 | the unlock frees the lock at once, and when it fails the end of the session does |
| `BootProgress.RejectedNeverReturns` | src/database/pg-boot-migrations.ts:117-177 | an attempt of which one of nine named awaits rejects never returns, in any continuation of any run |
| `BootProgress.DroppedNeverReturns` | src/database/pg-boot-migrations.ts:128-148 | nor does one whose lock connection drops between its lock and its unlock |
| `BootProgress.RunKeepsLinked` | src/database/pg-boot-migrations.ts:128-139 | in every run the lock's holder is connected, an attempt under the lock has noticed its loss exactly when its connection is gone, and has then destroyed its migration pool |
| `BootProgress.DroppedWaiterNeverHolds` | src/database/pg-boot-migrations.ts:128-148 | an attempt whose lock connection drops before its wait resolves never holds the lock, migrates or returns, in any continuation |
| `BootProgress.BootGetsThrough` | src/database/pg-boot-migrations.ts:117-177 | a boot behind any run that left the lock free returns, applies what is missing and leaves the lock free, whichever of the four swallowed awaits reject |
| `BootProgress.AllBoot` | src/database/pg-boot-migrations.ts:117-177 | for any chain, ledger and number of replicas, a run in which they boot one after another and all return |
| `PairingQr.RunKeepsInv` | scripts/patch-baileys-pairing.js:60-101 | over every interleaving of flows, timers, refreshes, close and pairing, the timer, refs and emissions agree |
| `PairingQr.OneTimer` | scripts/patch-baileys-pairing.js:60-101 | at most one QR timer is pending, and it belongs to the flow shown |
| `PairingQr.RefsTakenInOrder` | scripts/patch-baileys-pairing.js:69-90 | the refs of a flow are shown for the first time in order, each once |
| `PairingQr.EmissionsAreProper` | scripts/patch-baileys-pairing.js:60-101 | what any event emits carries the latest flow's current ref and the current secret, and nothing is emitted once paired or closed |
| `PairingQr.RefreshKeepsInv` | scripts/patch-baileys-pairing.js:92-101 | a refresh changes neither the remaining refs nor the timer |
| `PairingQr.SilentOncePaired` | scripts/patch-baileys-pairing.js:60-101 | after pairing, no continuation emits anything or changes the secret |
| `PairingQr.SilentOnceClosed` | scripts/patch-baileys-pairing.js:69-100 | nor once the socket has closed |
| `PairingQr.ScreenIsCurrent` | scripts/patch-baileys-pairing.js:69-101 | in every run, while open and not paired, the last QR emitted is the shown flow's current ref under the current secret |
| `PairingQr.ReplyShowsFirst` | scripts/patch-baileys-pairing.js:62-91 | a reply shows its flow's first ref and sets the only timer, for a minute unless configured, or ends when there is no ref |
| `PairingQr.TimerShowsNext` | scripts/patch-baileys-pairing.js:77-88 | a timer that fires shows the next ref and sets the only timer, for twenty seconds unless configured, or ends when none is left |
| `PairingQr.RefreshShowsAgain` | scripts/patch-baileys-pairing.js:92-100 | a recognised refresh rotates the secret and shows the same ref again under it |
| `PairingQr.EveryRefIsShown` | scripts/patch-baileys-pairing.js:62-91 | on a new socket nothing disturbs, every ref is shown once and in order, and then the refs have ended |
| `PairingQr.PairingSocket.GenPairQR` | scripts/patch-baileys-pairing.js:77-90 | the timer callback on the socket's variables refines the step that takes the next ref |
| `PairingQr.PairingSocket.Handle` | scripts/patch-baileys-pairing.js:60-101 | each handler on the socket's variables refines its step |
| `PairingQr.Observe` | scripts/patch-baileys-pairing.js:60-101 | what a socket emits over any events is the log the properties speak of |
| `PatchText.PatchedReadsAppliedIff` | scripts/patch-baileys-pairing.js:108-138 | a pristine file, patched, reads as applied if and only if no anchor is left across the cut, else as unknown |
| `PatchText.ShownMeans` | scripts/patch-baileys-pairing.js:119-132 | pristine is exactly one anchor and no trace of the patch; applied is exactly the patch once, its handler with it, and no anchor beside it |
| `PatchText.AnchorLeftAcrossTheCut` | scripts/patch-baileys-pairing.js:108-138 | for every patch whose anchor is not one character repeated, the anchor nested in itself, if free of replacement and handler, reads as pristine and, once patched, as unknown |
| `PatchText.CountInserted` | scripts/patch-baileys-pairing.js:119-120 | a replacement with no border is counted once where it was inserted, and removing it restores the surroundings |
| `AtomicWrite.Disk.WriteFilesAtomic` | scripts/atomic-write.js:23-59 | for every failure point exactly the first k targets are replaced, whole; partial is set exactly when some but not all were; no other file changes, every removable temp is gone, and when no call fails all are replaced |
| `AtomicWrite.Disk.Stage` | scripts/atomic-write.js:26-40 | staging, wherever it fails or is torn, leaves every target as it was |
| `AtomicWrite.Disk.RenameAll` | scripts/atomic-write.js:41-48 | after k renames exactly the first k targets hold the new text |
| `AtomicWrite.Disk.CleanUp` | scripts/atomic-write.js:49-58 | cleaning up touches no target and leaves no temp it could remove |
| `AtomicWrite.Disk.SeparatePathsSeparateJobs` | scripts/atomic-write.js:26-31 | distinct real paths, none another's temporary, give separate targets and temporaries |
| `AtomicWrite.Disk.WritesThroughLinks` | scripts/atomic-write.js:27-30 | a file named through a link is replaced where the link leads |
| `PairingPatch.BestEffortZeroIsWhole` | scripts/patch-baileys-pairing.js:145-182 | a best-effort run on readable files that returns 0 leaves the tree fully patched, or unchanged with no file patched |
| `PairingPatch.StrictZeroIsPatched` | scripts/patch-baileys-pairing.js:145-182 | a strict run that returns 0 leaves the tree patched |
| `PairingPatch.ExitZeroIff` | scripts/patch-baileys-pairing.js:145-186 | exactly when a run exits 0, and otherwise 1 |
| `PairingPatch.WritesLaw` | scripts/patch-baileys-pairing.js:145-168 | exactly what a run writes |
| `PairingPatch.PartialWriteFails` | scripts/patch-baileys-pairing.js:167-182 | a write cut short between two renames fails even with best effort |
| `PairingPatch.RerunAfterPartialRefused` | scripts/patch-baileys-pairing.js:145-165 | every re-run after a partial failure writes nothing; it is refused as cut short exactly when the replaced files left no anchor, else as unknown |
| `PairingPatch.RerunAfterSuccess` | scripts/patch-baileys-pairing.js:145-149 | a re-run after success finds the patch applied exactly when no file left an anchor |
| `PairingPatch.Classify` | scripts/patch-baileys-pairing.js:108-138 | the loop reads every file's shape, and fails on the first unreadable one, partial exactly when a file before it is applied |
| `PairingPatch.Run` | scripts/patch-baileys-pairing.js:145-186 | the script on a disk returns the code and leaves the tree that its conclusion says, whatever call fails |
| `WebVersion.NewestFirstIsStableSort` | src/engine/wa-web-version.ts:184-185 | newest first, nothing lost, and builds of one date in listed order |
| `WebVersion.PickIsNewestSettled` | src/engine/wa-web-version.ts:163-206 | the build picked is the first listed of the newest settled ones, or the registry's current build when none has settled |
| `WebVersion.InRankIff` | src/engine/wa-web-version.ts:163-188 | a build is offered if and only if it is listed, numbered, not skipped, not beta, twelve hours old and not expired, or is the one the registry names |
| `WebVersion.RankCommutes` | src/engine/wa-web-version.ts:163-188 | ranking with more builds skipped is ranking, with those builds taken out |
| `WebVersionCache.RunKeepsInv` | src/engine/wa-web-version.ts:216-349 | over every interleaving at awaits, candidates, cached build and reads under way agree |
| `WebVersionCache.CacheIsBestRemaining` | src/engine/wa-web-version.ts:229-349 | the candidates are the last read's ranking less every build rejected by now, without repeats; a cached build is their head and not rejected |
| `WebVersionCache.OneReadAtATime` | src/engine/wa-web-version.ts:216-255 | at most one registry read is under way |
| `WebVersionCache.FallbackNeedsNoRead` | src/engine/wa-web-version.ts:321-336 | rejecting the cached build moves to the second candidate, answered without a read while the cache lives |
| `WebVersionCache.AnswerRejectedIff` | src/engine/wa-web-version.ts:216-255 | waiting callers get a rejected build if and only if the read brought nothing usable and the earlier build was rejected meanwhile |
| `WebVersionCache.RejectedBuildAnswered` | src/engine/wa-web-version.ts:216-255 | a run that hands out a rejected build, for any build |
| `WebVersionCache.ReadStartsIff` | src/engine/wa-web-version.ts:216-224 | a resolve reads the registry if and only if no read is under way, no build was cached within a day and none failed within a minute |
| `WebVersionCache.FailedReadBacksOff` | src/engine/wa-web-version.ts:220-250 | in every run a read that failed is not repeated for a minute, whatever happens in between |
| `WebVersionCache.GoodReadLastsADay` | src/engine/wa-web-version.ts:233-240 | one that named something is answered from the cache for a day |
| `WebVersionCache.LastRejectionReadsAgain` | src/engine/wa-web-version.ts:345-349 | rejecting the cached build on the last attempt makes the next resolve read again |
| `WebVersionCache.OtherRejectionKeepsCache` | src/engine/wa-web-version.ts:321-349 | rejecting any other build leaves the cached one as it is |
| `WebVersionCache.CandidatesAreNumbered` | src/engine/wa-web-version.ts:225-240 | in every run, whatever the registry lists or names, what may be pinned begins with a digit |
| `WebVersionResolver.Resolver.Begin` | src/engine/wa-web-version.ts:216-223 | fresh cache, read under way and backoff are tried in this order on the module's variables |
| `WebVersionResolver.Resolver.Finish` | src/engine/wa-web-version.ts:224-254 | a settling read refines its step and answers the head of the ranking or the earlier build |
| `WebVersionResolver.Resolver.Reject` | src/engine/wa-web-version.ts:321-349 | a rejection refines its step |
| `WebVersionResolver.Resolver.ResolveCurrent` | src/engine/wa-web-version.ts:216-255 | with no other call running, a resolve never answers a rejected build |
| `WebVersionResolver.Resolver.ResolveAuto` | src/engine/wa-web-version.ts:289-298 | whatever the outside has in store, an auto pin tries at most three builds; the pin is the last, when its page was served; it stops short of three, the last one turned away, only when nothing is left to try |
| `WebVersionResolver.TrailDistinct` | src/engine/wa-web-version.ts:289-298 | the builds an auto pin tries are distinct, none was rejected before, all but the last were turned away, and exactly those turned away are rejected after |
| `RetryPolicy.Backoff` | sdk/go/retry.go:136-152 | the doubling loop, with int64 wrap-around, computes the delay the lemmas speak of |
| `RetryPolicy.FirstDelay` | sdk/go/retry.go:134-152 | the first retry waits for the base delay, 200 ms when none is set, or for a smaller cap |
| `RetryPolicy.BackoffIsCappedIff` | sdk/go/retry.go:134-152 | with a cap, every delay is min(base * 2^n, cap) if and only if the doubling reaches the cap inside int64 |
| `RetryPolicy.HalfRangeReaches` | sdk/go/retry.go:134-152 | it does whenever the base is below 2^62 and the cap at most 2^62 |
| `RetryPolicy.UncappedBackoffIff` | sdk/go/retry.go:134-152 | without a cap the delay is base * 2^n if and only if that fits int64 |
| `RetryPolicy.BackoffMonotone` | sdk/go/retry.go:134-152 | with a cap that is reached in range, delays never shrink from one attempt to a later one |
| `RetryPolicy.BackoffMonotoneIff` | sdk/go/retry.go:134-152 | over all attempts delays never shrink if and only if there is a cap and the doubling reaches it inside int64 |
| `RetryPolicy.RetryAfterSeconds` | sdk/go/retry.go:164-187 | a decimal count of any length, with or without a plus, is min(n seconds, the longest duration), never wrapped |
| `RetryPolicy.NegativeRetryAfter` | sdk/go/retry.go:164-187 | a negative count is no delay unless the header also reads as a date in the future |
| `RetryPolicy.OtherRetryAfter` | sdk/go/retry.go:164-187 | anything but a sign and digits is read as a date, and is no delay when it is none or has passed |
| `RetryPolicy.DecimalRetryAfter` | sdk/go/retry.go:166-180 | any number of seconds, written out in decimal, is read as that many, held at the largest int64 |
| `RetryLoop.RoundTrip` | sdk/go/retry.go:211-291 | against any outside the loop ends, makes exactly the attempts the judgement of each answer allows, closes every response it does not return, and hands back the last body byte for byte |
| `RetryLoop.Response.IsSendPacingRefusal` | sdk/go/retry.go:193-207 | the pacing check reads the body and puts it back; an unreadable body is an error |
| `RetryLoop.AttemptsBounded` | sdk/go/retry.go:214-255 | a run against an outside of any length makes at most max(0, MaxRetries) + 1 attempts |
| `RetryLoop.SleepsIff` | sdk/go/retry.go:226-275 | an attempt is followed by a sleep, of exactly the larger of backoff and respected Retry-After, if and only if attempts are left, the answer is transient and, for other than GET, HEAD, OPTIONS, PUT and DELETE, safe to resend after, and the sleep fits the deadline |
| `RetryLoop.ReadFailsIff` | sdk/go/retry.go:244-251 | the caller gets a read error exactly when a 429 that would be retried cannot be read |
| `RetryLoop.RunEndsAtFirst` | sdk/go/retry.go:211-291 | a run whose body rewinds and whose context lives on ends at the first attempt that may not be followed by another |
| `RetryLoop.SleepFits` | sdk/go/retry.go:257-268 | a sleep begun fits in what is left of the deadline, and is no shorter than the backoff or a respected Retry-After |
| `RetryLoop.SleepsWithinDeadline` | sdk/go/retry.go:257-287 | all sleeps of a run together take no longer than was left of the deadline at its first decision |
| `RetryLoop.EachSleepCounts` | sdk/go/retry.go:252-289 | every sleep is part of that total |
| `RetryLoop.ResentOnlyWhenSafe` | sdk/go/retry.go:58-67 | a non-idempotent request goes out again only after a 429 without the pacing code or a 503 that is keyed or carries Retry-After |
| `RetryLoop.KeySentIff` | sdk/go/client.go:284-317 | a request is built exactly for an acceptable path and key, and carries the key exactly on a POST to one of the twelve send routes |
| `RetryLoop.UpperOf` | sdk/go/client.go:284-287 | the verb sent is the caller's in upper case |
| `RetryLoop.KeyedOnce` | sdk/go/retry.go:48-58 | against a gateway that records a key as it sends and answers its replay without sending, any number of attempts send at most one message |
| `RetryLoop.AtMostOneMessage` | sdk/go/client.go:284-321 | a whole retry run of any non-idempotent request the client builds, keyed or not, delivers at most one message |
| `RetryLoop.MessagesIsCount` | sdk/go/retry.go:48-67 | the messages counted are the attempts that send one |
| `PathEncoding.CheckPathSegments` | sdk/go/client.go:400-421 | the loops accept a path exactly when it is rooted and no segment is empty (unless allowed) or holds a dot part, encoded or not |
| `PathEncoding.PathEscapeIsUrlPathEscape` | sdk/go/client.go:376-386 | restoring the JID characters changes nothing that url.PathEscape wrote |
| `PathEncoding.DecodeEscaped` | sdk/go/client.go:376-384 | an escaped segment percent-decodes to the original bytes |
| `PathEncoding.EscapedSegmentOk` | sdk/go/client.go:376-421 | an escaped id passes the check if and only if it is not empty and has no dot part between slashes or backslashes |
| `PathEncoding.PathSplitsIntoTemplate` | sdk/go/client.go:376-421 | a typed path splits into exactly its template's segments, each id segment decoding to its id |
| `PathEncoding.TypedPathAcceptedIff` | sdk/go/client.go:400-421 | a typed path is accepted if and only if every id is acceptable |
| `PathEncoding.TypedSendPathIff` | sdk/go/client.go:258-275 | a typed path counts as a keyed send route if and only if its template is that route |
| `PathDecoding.DecodedSegmentOkIff` | sdk/go/client.go:388-421 | any segment that can be decoded passes exactly when, decoded and split at slashes and backslashes, it has no dot part, however dots and slashes are written |
| `PathDecoding.DecodedPathOkIff` | sdk/go/client.go:388-421 | so with any hand-written path |
| `PathEncoding.EscapesAllBut` | sdk/go/client.go:376-386 | exactly the characters a segment keeps as they are |
| `SendErrorSummary.Fit` | scripts/patch-wwebjs-send-error.js:90-95 | the result is the longest start whose JSON encoding fits the room |
| `SendErrorSummary.FittedIsLongest` | scripts/patch-wwebjs-send-error.js:90-95 | no longer start fits, although encoded lengths go up and down |
| `SendErrorSummary.ValueIsLongest` | scripts/patch-wwebjs-send-error.js:96-106 | a text is cut to the longest start within 500 and what is left of the budget |
| `SendErrorSummary.NameIsLongest` | scripts/patch-wwebjs-send-error.js:121-126 | a name to the longest start within 100 and what is left |
| `SendErrorSummary.EncodeRoundTrips` | scripts/patch-wwebjs-send-error.js:90-95 | the characters charged for are a JSON encoding of the text: they are read back as it, and are as many as charged |
| `SendErrorSummary.JsonIsAsLong` | scripts/patch-wwebjs-send-error.js:120-129 | the length bounded is that of the JSON text of the summary |
| `SendErrorSummary.TakenArePassedOver` | scripts/patch-wwebjs-send-error.js:119-127 | properties named like an entry that is there, or inherited, are passed over and cost nothing |
| `SendErrorSummary.OverwriteInPlace` | scripts/patch-wwebjs-send-error.js:126 | a name that is there keeps its place and gets the new text |
| `SendErrorSummary.EncodedNotMonotone` | scripts/patch-wwebjs-send-error.js:90-95 | behind any text, cutting a surrogate pair in two makes the encoding four longer |
| `SendErrorSummary.ReadGuarded` | scripts/patch-wwebjs-send-error.js:96-106 | a guarded read spends at most 500 and overdraws the budget by at most two |
| `SendErrorSummary.Summarise` | scripts/patch-wwebjs-send-error.js:89-129 | for every thrown value the catch block ends with the summary specified, its JSON at most 2059 long, 2082 when the properties cannot be listed |
| `SendErrorSummary.SummaryBounded` | scripts/patch-wwebjs-send-error.js:89-129 | the bound, for any number and length of properties and any collisions of cut names |
| `SendErrorSummary.PropsBalance` | scripts/patch-wwebjs-send-error.js:121-128 | over the property loop what is spent and what is left never grow together, and the overdraft stays at six |
| `SendErrorSummary.SummaryWhole` | scripts/patch-wwebjs-send-error.js:89-129 | when every text is within its limit and the whole within the budget, nothing is cut and nothing left out |
| `EngineRegistry.HoldsTheLive` | src/engine/engine-registry.service.ts:50-148 | after every trace the registry answers the engine last set and not removed since |
| `EngineRegistry.ProxyOfTheLive` | src/engine/engine-registry.service.ts:60-148 | the proxy answered is that of the set that last touched the live engine, none once it is gone |
| `EngineRegistry.StaleTeardownIsNothing` | src/engine/engine-registry.service.ts:125-139 | a teardown of an engine that is not live changes nothing, reports included |
| `EngineRegistry.RetiredOncePerStop` | src/engine/engine-registry.service.ts:60-96 | each listener hears of a pair exactly once per time it stops being live since the listener was added |
| `EngineRegistry.ReportedAfterTheChange` | src/engine/engine-registry.service.ts:86-96 | at every report the registry already answers something else |
| `EngineRegistry.Registry.SetEngine` | src/engine/engine-registry.service.ts:60-65 | set refines its step: both maps first, then the report of a replaced engine |
| `EngineRegistry.Registry.Delete` | src/engine/engine-registry.service.ts:71-77 | delete refines its step and answers whether the session was there |
| `EngineRegistry.Registry.Clear` | src/engine/engine-registry.service.ts:79-84 | clear empties both maps, then reports every former entry in order |
| `EngineRegistry.Registry.DeleteIfLive` | src/engine/engine-registry.service.ts:134-139 | deletes exactly when the engine given is the live one |
| `EngineRegistry.Serve` | src/engine/engine-registry.service.ts:60-148 | any trace through the service has the live engine, the proxy and the reports the trace says |
| `WorkflowLines.CommentStart` | src/common/workflow-lines.ts:78-94 | the scan finds the first unquoted, unescaped '#' at the start or behind a listed separator, -1 if and only if there is none |
| `WorkflowLines.ConservativeOpensIff` | src/common/workflow-lines.ts:53-55 | the conservative reading cuts at a bare '#' behind exactly these characters |
| `WorkflowLines.FirstOfPrefix` | src/common/workflow-lines.ts:78-94 | where a comment starts depends only on the line in front of it |
| `WorkflowLines.ConservativeCutsFirst` | src/common/workflow-lines.ts:49-55 | the conservative reading cuts no later than the exact one |
| `WorkflowLines.LinesOfReading` | src/common/workflow-lines.ts:57-65 | a reading keeps the line count, and line by line is the cut of the text's line |
| `WorkflowLines.ConservativeIsPrefix` | src/common/workflow-lines.ts:49-65 | each line of the conservative reading is a start of the exact reading's, and that of the text's |
| `WorkflowLines.ReadingsCompose` | src/common/workflow-lines.ts:49-65 | both readings are idempotent, and composed in either order give the conservative one |
| `WorkflowShell.ShellReadsLines` | src/common/workflow-lines.ts:67-77 | the shell's reading, character by character with quotes, substitutions and continuations carried over newlines, is its reading of each line in the state the one before leaves |
| `WorkflowShell.LineKeptIff` | src/common/workflow-lines.ts:78-94 | in any state, the shell reads a line the same once it is cut exactly when nothing in front of the comment that ends it is cut at, and then comes to the next line in the same state |
| `WorkflowShell.TogetherUntilComment` | src/common/workflow-lines.ts:78-94 | in a line without '$' and backticks that starts in a command, the scan is in the shell's mode up to the first comment |
| `WorkflowShell.NothingRunIsCutIff` | src/common/workflow-lines.ts:12-14 | for every text the shell reads its exact reading as it reads the text if and only if no line is cut at a '#' in front of the comment that ends it |
| `WorkflowShell.ExactReadingIsShellsIff` | src/common/workflow-lines.ts:12-14 | for every text the exact reading is the shell's if and only if, besides, each line is cut at the comment that ends it and no comment ends within a line |
| `WorkflowShell.EscapedSeparatorHides` | src/common/workflow-lines.ts:85-91 | a '#' behind an escaped blank is cut although the shell runs it, whatever follows |
| `WorkflowShell.ContinuedWordHides` | src/common/workflow-lines.ts:57-65 | so is the first '#' of a line joined to a word by a backslash |
| `WorkflowShell.OpenQuoteHides` | src/common/workflow-lines.ts:57-65 | and the first '#' of a line that starts inside a quote |
| `WorkflowShell.NestedQuoteHides` | src/common/workflow-lines.ts:78-94 | a '#' in a quote inside a substitution inside a quote is cut although the shell runs it, whatever follows |
| `WorkflowShell.AnsiQuoteHides` | src/common/workflow-lines.ts:78-94 | so is one behind the escaped quote of a `$'…'` |
| `WorkflowShell.TicksCommentHides` | src/common/workflow-lines.ts:78-94 | and what follows the backtick that ends a comment is cut with it |

## Left out

- The parsing of Content-Length, drop logs, metrics and response texts of the budget: independent checks and observability; a request arrives here with its declared length and its client.
- Client address resolution and key recognition: a request carries its client, keyed or by address; keys and addresses never collide.
- Node's streams and timers in the budget: events, with the poll's due time explicit in `InflightBudgetTiming`; only the upper bounds on time need polls on time.
- BootMigrations: a step relation over awaits for any number of replicas, not a method; TypeORM, pg, the UTC check and the SQLite branch are awaits that may fail, and a commit takes any number of the next pending migrations, which covers both transaction modes.
- BootMigrations.OneMigratesAtATime: asks that no holder's lock connection drops, since PostgreSQL then grants the lock to another replica while the first is still stopping.
- Baileys' socket, crypto and the ACK half of the pairing patch beyond its text: foreign code.
- PatchText: the conditions on a patch (a replacement with no border, its handler once in it and apart from its ends) describe the shipped constants, whose texts are not part of this model.
- AtomicWrite.Disk.WriteFilesAtomic: says which targets were replaced for files with separate real paths and temporaries; file modes are not modelled.
- The registry and page downloads of the build resolver: parameters, with a page served, the logged-out page or another failure; the operator's exact version and 'off', HTML checks, credentials and the cache directory are not modelled.
- WebVersionResolver.Resolver.ResolveAuto: with no other call running between its awaits; what holds under interleaving is stated over runs in `WebVersionCache`.
- RetryLoop.RoundTrip: answers, clock readings and rewinds are parameters; HTTP dates are read elsewhere, the JSON of a refusal is its pacing flag, and response bodies are never nil.
- RetryLoop.AtMostOneMessage: the gateway's side, that it refuses with 429 and Retry-After before acting and keeps a key it has acted on, is a model of its documentation, not of its code; net/http's own resend is not modelled, and verbs are upper-cased as ASCII.
- SendErrorSummary: names inherited by every object are a parameter, and only the prototype's own setter ignores an assignment.
- EngineRegistry: listeners that call back into the registry or throw, which would stop the listeners after them and, in `clear`, the entries after theirs; and the set of sessions being initialised.
- WorkflowLines: text as characters rather than UTF-16 units, which no rule here distinguishes.
- WorkflowShell: models quoting with `'`, `"` and `$'…'`, escapes, line continuations, comments, and commands in `(…)`, `$(…)` and backticks, also inside double quotes. It leaves out parameter expansions `${…}`, here-documents, extended globs, `case` patterns inside a substitution, whose `)` would close it, the second round of escapes inside backticks, and the comments a shell also starts behind `)`, `<` and `>`, which the exact reading keeps on purpose.
- Dashboard, NestJS wiring, environment validation, the other patch scripts and the other SDKs: lists of independent branches or wiring.
