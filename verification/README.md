# Verification of the Luna engine's session protocol and its companions

This project models the parts of the Luna `gem` engine and of the Luna provider that keep state or
transform data in ways that are easy to get wrong, and proves what they promise. `dafny verify
dfyconfig.toml` checks all of it.

## What is modelled

**Session contexts** (`engine/e_gem.c`). An application opens a session context before every call to the
HSM and closes it afterwards. Behind that are one non-recursive mutex, a counter of library
initializations, two LIFO caches of session handles, activity counters, a recovery flag, and rules about
process ids that decide whether a context keeps the mutex and finalizes the library when it is closed.

- `SessionCore` says what each critical section does to the state of one process, as functions on values.
- `SessionEngine` and `SessionCache` are the imperative form: a class with the engine's globals and two
  linked lists, whose methods are proved to end in the state that the `SessionCore` function gives, with
  the mutex discipline and the freeing of list items stated as well.
- `SessionProtocol` makes a step system out of it: a process takes open, record, close, close-retry,
  set-finalize-pending, init and store-password steps; a system is a map from process ids to processes,
  which take steps and fork. A run is a list of steps from the process that binds the engine. Opens are
  atomic; a close is atomic but for the recovery wait loop, where other threads run.
- `SessionFacts` and `SessionOutcomes` summarize what the operations do; `SessionInvariants`, `ForkDepth`,
  `SessionOwnership` and `SessionCounting` prove that every step and every fork keeps the invariants;
  `SessionTheorems`, `SessionEffects` and `ContextLifeCycle` state the results, over all runs: what always
  holds, which step does what and when, and how one context fares. `SessionExamples` has the runs that show
  where their conditions matter.

**Reader/writer lock and random number cache** (`lunaProvider/lunaCommon.c`). `KeyLock` has the lock of a
provider key as a class and as a step system for any number of threads. `RngCache` has the cache of
hardware random numbers as a class, and runs of requests against a hardware that delivers a stream.

**Passphrase store and key handles** (`engine/e_gem.c`). `Passphrase` has the masking and checking of a
stored passphrase on byte arrays, with SHA-1 an uninterpreted function whose computation may fail.
`KeyHandleCache` has the extension data in which object handles are kept, over runs of initializations,
lookups, preloads and finalizations.

**Codecs.** `EcPoint` (points in the forms of two firmware generations), `EcMarker` (the private value that
marks a hardware key), `InitString` (the descriptor `slotid:appidhi:appidlo[:password]`, parsed in a copy of
the argument in place), `Base64Url`, and `HaSerial` with `Decimal` (serial numbers as text).

## Assumptions

- The configuration is fixed for a run. Process ids are not reused. A process forks while its mutex is
  free. Fewer than 2^32 - 1 initializations lie between the open and the close of one context.
- C_OpenSession answers with a handle that is not open (section 5.6 of PKCS #11 base v2.40);
  `SessionCore.OpenSession` reads any other answer as a failure. Session
  handles belong to a process: a forked child has none, and the calls of one process do not affect the
  sessions of another. A session stays open until its process closes it or finalizes.
- What the HSM, the loader, the allocator and the hash library answer is a parameter of each operation,
  so every result holds for all answers.
- The updates of `pid_intermediate` and of the passphrase stores in `luna_init_engine`, which take no
  mutex, are atomic steps. The threads that wait in a close, and their contexts, do not exist in a forked
  child; all other contexts do, and the child may close them.

## What the proofs brought to light

- `luna_callback_close_session` compares the 1 that `luna_close_session` returns for success with `CKR_OK`,
  which is 0. The first session that it closes sets the taint flag, and no more are closed
  (`SessionCache.CallbackClosesOne`), so that it closes all only where there is at most one to close
  (`SessionCache.ClosesAllExactly`). That every list item is unlinked and freed once holds regardless.
- Closing a context that was inherited over a fork decrements counters that do not count it. That does no
  harm exactly while the counters are zero: `SessionTheorems.CountsExactly` says that the counters are
  exact throughout a run if and only if every such close finds no activity, and
  `SessionExamples.StaleCloseMiscounts` gives a run after which the counters are zero under an open
  context.
- The same close can break the exclusion of recovery. It finds the activity zero after its decrement, and
  runs the recovery login while other threads use their contexts; SET_FINALIZE_PENDING, which waits for
  zero activity as well, can then finalize the library under an open context. `SessionTheorems.RecoveryRunsAlone`
  says that, up to the first harmful close, recovery runs alone if and only if the close that runs it is
  harmless; `SessionExamples.StaleCloseRecoversUnderUse` gives a run. Fork safety, ownership and the mutex
  discipline hold over all runs, harmful closes included.
- A process that forks while one of its threads waits for a recovery leaves the recovery flag set in the
  child, where no thread is left to clear it. An open looks at the flag before it looks for a fork, so the
  child can open no context until it closes an inherited one: `SessionTheorems.ForkDuringRecovery`. The
  flag does not count the threads that wait either: `SessionExamples.FlagAndWaitersDiffer`.
- With DisableCheckFinalize a child that goes on with an inherited library takes sessions from an inherited
  cache that are not open in it: `SessionExamples.InheritedSessionIsNotOpen`. `SessionTheorems.ForkSafety`
  has the exact condition for a session to be safe.
- `luna_close_context` returns a session to the cache only if no error that calls for recovery was ever
  recorded. `luna_close_context_w_err` with a clean result of its own does so in spite of such errors.
  `ContextLifeCycle.CachedDespiteErrors` has the exact condition, over all runs: it happens if and only
  if the session can be cached at all and the caller passes neither an error nor an error code although
  the stored code is one. `luna_find_object_exact` can bring it about, when the search for one form of a
  point fails with a device error and the search for the other form succeeds.
- `LUNA_o2i_ECPublicKey` accepts a one-octet length of 128 or more, which X.690 does not allow:
  `EcPoint.AgreesWithBer`. It happens exactly for fields of 65 to 127 bytes:
  `EcPoint.AcceptsBeyondBer`.
- The marker of an EC key has one bit less than the order, as the comment in the source says, except for
  orders of 8k + 1 bits, where it has two bits less: `EcMarker.MarkerBits`. It is in range all the same.
- A serial number survives printing and parsing exactly if it has at most nine digits:
  `HaSerial.SurvivesExactly`.

## Model

| member | source | states |
|---|---|---|
| `SessionTheorems.ForkSafety` | engine/e_gem.c:4493-4601 | In every run, with inherited contexts closed or not, the session that an open gives a context was opened by this very process in the current generation of a library that it has initialized itself, is still open, is not cached and is held by no other current context, if and only if forks are detected, the process has initialized the library, or none is initialized before the open |
| `SessionTheorems.SessionsAreOwned` | engine/e_gem.c:4681-4716 | In every run no session handle is in two places among the caches and the current contexts; each is open in the HSM for this process and generation; no initialized library means empty caches, so initializing them drops nothing |
| `SessionTheorems.DepthCountsCallers` | engine/e_gem.c:4525-4541 | `pid_intermediate_count` is the number of processes that called the engine, as the steps of the run tell, among those from the binding process (excluded) down the fork chain to this one |
| `SessionTheorems.CallersAreOnChain` | engine/e_gem.c:1407-1415 | Those callers are on the fork chain, and the binding process is not one of them |
| `SessionTheorems.ModeIsConstant` | engine/e_gem.c:4524-4541 | However a run continues, a process that finalizes after every use goes on doing so, and one that does not never starts |
| `SessionTheorems.RunIsOk` | engine/e_gem.c:4464-4780 | The invariants of shape, depth and ownership hold in every process at the end of every run |
| `SessionTheorems.RunCounts` | engine/e_gem.c:4596-4601 | In every run in which each close of a context inherited over a detected fork finds no activity, `g_count_activity` is the number of counted contexts and the sum of the per-slot counters, each of which is the number of its own |
| `SessionTheorems.CountsExactly` | engine/e_gem.c:4672-4679 | The counters of all processes are exact after every prefix of a run if and only if each such close of the run finds no activity |
| `SessionTheorems.RecoveryRunsAlone` | engine/e_gem.c:4723-4765 | In a run whose closes were harmless so far, the recovery login, the recovery finalize and the finalize of SET_FINALIZE_PENDING find no context counted but the one that closes, and leave none, if and only if the step that runs them is harmless as well, for any number of threads and simultaneous recoverers |
| `SessionTheorems.RecoveryBlocksOpens` | engine/e_gem.c:4484-4491 | Over any stretch of a run in which the recovery flag of a process is set, its activity does not rise and none of its contexts comes to life |
| `SessionTheorems.FlagClearsExactly` | engine/e_gem.c:4730-4769 | The recovery flag goes down exactly when a closing thread finds the activity zero |
| `SessionTheorems.ForkDuringRecovery` | engine/e_gem.c:4484-4501 | However a run continues, a process that was forked while the recovery flag was set keeps the flag and can open no context, until it closes an inherited one: the wait for the flag comes before the fork check |
| `SessionTheorems.StepKeepsProcess` | engine/e_gem.c:4464-4780 | Every step of every thread keeps the invariants of its process |
| `SessionTheorems.ForkKeepsProcess` | engine/e_gem.c:4493-4501 | A fork hands the invariants to the child under its new process id |
| `SessionTheorems.OpenIsSafe` | engine/e_gem.c:4563-4596 | A successful open leaves its session exclusive, open and of the current generation |
| `SessionTheorems.IdleStepIsAlone` | engine/e_gem.c:4730-4742 | From exact counters, a step that runs a recovery or a waiting finalization is the last user, or there is none, if and only if it is no close of an inherited context under activity |
| `SessionTheorems.LastCloseIsAlone` | engine/e_gem.c:4673-4679 | A close that finds the activity zero after its own decrement was the only counted context |
| `SessionEffects.OpenActs` | engine/e_gem.c:4484-4606 | In every run an open succeeds if and only if the library is ready and the slot has a cached session or gets a new one, logged in where a protect server asks for it. The context is then on the slot that was named, on the only one, or on the one with less activity; that slot's counter and the total rise by one; the session is the top of that slot's cache, or a new one. An open that fails says which finalization has closed what |
| `SessionEffects.FailedInitFinalizes` | engine/e_gem.c:1660-1754 | In every run, when the initialization in an open fails behind the loader, at C_Initialize or at any of the three exits after it, the library is finalized, and no session is open but what that C_Finalize left open |
| `SessionEffects.FinalizedIsClosed` | engine/e_gem.c:1832-1868 | In every run, while the library of a process is not initialized, no session is open in it but what some C_Finalize of this process left open |
| `SessionEffects.NothingToInherit` | engine/e_gem.c:4718-4721 | When a process at or above the intermediate depth can fork, its library is not initialized, its caches are empty, no context is live, and no session is open but what a C_Finalize left open; nor has the child anything to inherit |
| `SessionEffects.RecoveryActs` | engine/e_gem.c:4739-4770 | In every run, a recovery finalizes the library if and only if the level is at least 2, the worst recorded code has severity 2, logins are asked for, and some configured slot cannot be logged in; at level 1 and above, if all can be, each has a new session of this generation, and if not, only the store that was refused is locked |
| `SessionEffects.RecoversWhenIdle` | engine/e_gem.c:4672-4734 | A close recovers if and only if it does not finalize, its session is of another library or is closed with a recorded error that calls for recovery, and no other activity is counted; a waiting close, if none is counted |
| `SessionEffects.CloseActs` | engine/e_gem.c:4671-4774 | In every run, a close that does not recover finalizes, waits with the flag set and the caches purged, or is done with its session on the cache, closed or dropped, as those conditions say |
| `SessionEffects.FinalizeActs` | engine/e_gem.c:1832-1905 | A finalization closes exactly the sessions that are not left over, empties caches and counters, and takes their sessions from the stores that are logged in |
| `SessionEffects.DeferredLoginExactly` | engine/e_gem.c:1763-1794 | A deferred login succeeds if and only if each configured slot has a store that is ready, gets a session and is not refused; what it leaves in either case |
| `SessionEffects.RecordActs` | engine/e_gem.c:4637-4642 | Recording a code replaces the stored one only by a more severe one |
| `SessionEffects.StoreActs` | engine/e_gem.c:9229-9258 | Storing a password makes the store of its slot ready, or empty, and touches no other |
| `ContextLifeCycle.OneShot` | engine/e_gem.c:4470-4482 | A context goes from fresh to open to dead, or from fresh to dead, and never becomes live again |
| `ContextLifeCycle.DeadForGood` | engine/e_gem.c:4470-4482 | However a run continues, a context that was closed, or could not be opened, is never live again |
| `ContextLifeCycle.OpenUndoesClose` | engine/e_gem.c:4564-4601 | After a close that caches its session, the next open on that slot gets this session, and caches, open sessions and counters are again what they were before the close |
| `ContextLifeCycle.ShortestLine` | engine/e_gem.c:4546-4561 | In every run with harmless closes, an open that names no slot takes the one with fewer contexts in use, the first in case of a tie |
| `ContextLifeCycle.LoginCoversSlots` | engine/e_gem.c:1763-1794 | A deferred login that succeeds leaves every configured slot logged in on a new session of its own in this generation, uses no locked store, and closes no session |
| `ContextLifeCycle.MutexDiscipline` | engine/e_gem.c:4603-4606 | In every run an open ends with the mutex held exactly for a new context that finalizes or under DisableMultiThread; a repeated open changes nothing; such a context still holds it at its close; every close ends with it released |
| `ContextLifeCycle.LockOut` | engine/e_gem.c:9309-9316 | In every run, of the C_Login calls that were sent from the passphrase store of a process since it was filled, by the process or by its parents before the forks, at most one has failed, and it sends none after that; a fork copies the store, and the copies are locked one by one |
| `ContextLifeCycle.CloseCachesExactly` | engine/e_gem.c:4681-4705 | In every run a close puts the session on top of its cache if and only if the library is the one it was opened in and is not finalized by the close, an item is there, caching is on, and the caller passes neither an error nor an error code; unless the process goes on with an inherited library, the session is otherwise in no cache afterwards |
| `ContextLifeCycle.PlainCloseCaches` | engine/e_gem.c:4782-4785 | `luna_close_context` puts the session on top of its cache if and only if the library is the one it was opened in and is not finalized by the close, an item is there, caching is on, and no recorded error calls for recovery |
| `ContextLifeCycle.CachedDespiteErrors` | engine/e_gem.c:4652-4708 | In every run a close puts a session with a recorded recovery-level error in a cache if and only if it could be cached at all and the caller passes no error although the stored code is one |
| `ContextLifeCycle.StoredCodeIsWorst` | engine/e_gem.c:4637-4642 | In every run the stored code of a context has the greatest severity of all codes recorded since its open, and is CKR_OK if and only if none of them calls for recovery: a device error or an absent token weighs more than an invalid session handle, and these more than all else |
| `SessionExamples.CleanCloseForgetsErrors` | engine/e_gem.c:4684-4708 | A run of four steps that caches a session on which a device error was recorded |
| `SessionExamples.StaleCloseMiscounts` | engine/e_gem.c:4672-4679 | A run of five steps after which a process has an open current context and zero counters |
| `SessionExamples.StaleCloseRecoversUnderUse` | engine/e_gem.c:4713-4769 | The last of these steps runs the recovery under that context although no close before it did harm, and SET_FINALIZE_PENDING then finalizes the library under it |
| `SessionExamples.FlagAndWaitersDiffer` | engine/e_gem.c:4727-4769 | A run in which the second of two recoverers clears the flag while the first still waits, and a child has the flag but no thread that waits |
| `SessionExamples.InheritedSessionIsNotOpen` | engine/e_gem.c:4493-4566 | With DisableCheckFinalize, a run in which a child opens a context with a session that is not open in it and still cached in its parent |
| `Cryptoki.MaxSeverityBounds` | engine/e_gem.c:4613-4635 | The maximal severity of a history bounds that of each of its codes |
| `Cryptoki.CountOfIsTheCounter` | engine/e_gem.c:1701-1704 | The 32-bit counter that skips zero is a function of the number of initializations |
| `Cryptoki.SameCount` | engine/e_gem.c:4682 | Within 2^32 - 1 initializations equal counters mean the same generation |
| `SessionOwnership.NewKeeps` | engine/e_gem.c:2017-2032 | A session that C_OpenSession opens joins the holders without being in two places, and is open in this generation |
| `ForkDepth.DecideIsShallow` | engine/e_gem.c:4524-4541 | What an open decides from the counters is whether the process is at or above the intermediate depth |
| `ForkDepth.CallsCount` | engine/e_gem.c:1407-1415 | Noting a calling process keeps the count of callers on the fork chain exact |
| `ForkDepth.StepKeepsDepth` | engine/e_gem.c:4509-4544 | No step changes the mode of a process, and in the finalizing mode a free mutex means no connection |
| `ForkDepth.ForkKeepsDepth` | engine/e_gem.c:4524-4541 | A child is at least as deep as its parent, and starts with the depth invariants |
| `SessionOwnership.StepKeepsOwnership` | engine/e_gem.c:4681-4716 | Every step keeps session handles exclusive, and open for this process and generation |
| `SessionOwnership.ForkKeepsOwnership` | engine/e_gem.c:4493-4501 | A fork keeps it, since a child takes its sessions for its own only after an initialization of its own |
| `SessionOwnership.PrepareSettles` | engine/e_gem.c:4493-4507 | After the fork check and the conditional initialization the process owns what its caches and current contexts hold |
| `SessionOwnership.PopKeeps` | engine/e_gem.c:7474-7481 | A handle that leaves a cache for a context stays in one place |
| `SessionOwnership.PushKeeps` | engine/e_gem.c:7467-7472 | So does one that goes back |
| `SessionCounting.StepCountsExactly` | engine/e_gem.c:4596-4601 | From exact counters a step keeps them exact if and only if it is no close of an inherited context, or finds no activity |
| `SessionCounting.CloseIsExact` | engine/e_gem.c:4672-4679 | From exact counters a close keeps them exact if and only if they count its context or are zero |
| `SessionCounting.StaleCloseCounts` | engine/e_gem.c:4672-4679 | The same for a close of a context that the counters do not count |
| `SessionCounting.StepKeepsCounts` | engine/e_gem.c:4596-4601 | Every step but a close of an inherited context keeps the counters exact |
| `SessionCounting.LeaveTallies` | engine/e_gem.c:4672-4679 | From exact counters neither guard of the decrements in a close is hit, and they stay exact |
| `SessionCounting.JoinTallies` | engine/e_gem.c:4600-4601 | The increments of an open keep the counters exact |
| `SessionCounting.TotalIsSum` | engine/e_gem.c:4600-4601 | The total is the sum of the per-slot counters |
| `SessionInvariants.StepKeepsShape` | engine/e_gem.c:4464-4780 | Every step keeps the relation between contexts, their flags and the mutex |
| `SessionCache.CallbackClosesOne` | engine/e_gem.c:1817-1830 | The callback attempts handles up to the first that it closes, and is tainted exactly if there is one |
| `SessionCache.ClosesAllExactly` | engine/e_gem.c:1817-1830 | Every session of the list that can be closed is attempted if and only if there are no two such sessions |
| `SessionCache.SkipsInvalid` | engine/e_gem.c:1822-1823 | Items without a session are passed over |
| `SessionCache.TaintedAttemptsNothing` | engine/e_gem.c:1817-1830 | A tainted callback attempts no further handle |
| `SessionCache.Closer.Close` | engine/e_gem.c:1817-1830 | One call of the callback adds to the attempts and sets the flag as the specification says, and invalidates the handle of the item |
| `SessionCache.FreeHead` | engine/e_gem.c:7506-7513 | One turn of the deletion loop frees the head and leaves the rest of the list intact |
| `SessionCache.FreeList` | engine/e_gem.c:7506-7513 | The loop frees every item of a list once and hands the callback all handles in order |
| `SessionCache.Cache.Push` | engine/e_gem.c:7467-7472 | The list is a finite acyclic stack, and the item is its new top |
| `SessionCache.Cache.Pop` | engine/e_gem.c:7474-7481 | Yields the top item, unlinked, or nothing from an empty cache |
| `SessionCache.Cache.Clear` | engine/e_gem.c:7463-7465 | The list is forgotten, none of its items freed |
| `SessionCache.Cache.DeleteAll` | engine/e_gem.c:7497-7514 | The list is empty and each of its items freed, with the callback's attempts as specified |
| `SessionEngine.LunaContext.SetLastError` | engine/e_gem.c:4637-4642 | The stored code becomes the more severe of the two, the history grows |
| `SessionEngine.LunaContext.DeleteItem` | engine/e_gem.c:7491-7495 | The item of a context is freed, if it has one |
| `SessionEngine.Engine.DoDeferredLogin` | engine/e_gem.c:1763-1794 | Result and stores are those of the deferred login, which stops at the first slot that fails |
| `SessionEngine.Engine.FiniP11` | engine/e_gem.c:1832-1906 | Ends in the finalized state: no caches, zero counters, library not initialized; every item that was cached is freed |
| `SessionEngine.Engine.InitP11Deferred` | engine/e_gem.c:1617-1760 | Ends in the initialized state of a new generation, or in the state of the failure exit that was taken; it drops no item, the lists being empty whenever the library is not initialized |
| `SessionEngine.Engine.PrepareP11` | engine/e_gem.c:4493-4507 | A process that detects a fork finalizes before it initializes |
| `SessionEngine.Engine.DecidePending` | engine/e_gem.c:4509-4544 | Counters and decision are those of the fork depth |
| `SessionEngine.Engine.PopSession` | engine/e_gem.c:4567-4595 | A context whose slot has a cached session gets the top one |
| `SessionEngine.Engine.OpenAndLogin` | engine/e_gem.c:4568-4590 | A new session, logged in where the protect server asks for it, or none and nothing left open that could be closed |
| `SessionEngine.Engine.TakeFromP11` | engine/e_gem.c:4567-4596 | A session for the context, from the cache or new; a failure in the finalizing mode finalizes; every item is afterwards listed, freed, or the context's |
| `SessionEngine.Engine.OpenFresh` | engine/e_gem.c:4493-4601 | A fresh context and the engine end as the specification of an open says, and no item is lost |
| `SessionEngine.Engine.OpenContextNdx` | engine/e_gem.c:4464-4609 | An open context stays as it is, a failed one fails again, a fresh one is opened; the mutex is held afterwards exactly for a new context that keeps it |
| `SessionEngine.Engine.GiveBackP11` | engine/e_gem.c:4681-4711 | The session is dropped, closed or pushed, and recovery is pending, as specified; every item that was listed or the context's is afterwards listed or freed |
| `SessionEngine.Engine.ReleaseP11` | engine/e_gem.c:4672-4716 | The first half of a close, with the purge of both caches when recovery is pending; no item is lost |
| `SessionEngine.Engine.RecoverP11` | engine/e_gem.c:4744-4770 | Recovery login, then finalization if it failed for a code that asks for one |
| `SessionEngine.Engine.FinishClose` | engine/e_gem.c:4718-4774 | The second half of a close, up to the wait loop if other threads are active; no item is lost |
| `SessionEngine.Engine.CloseContextWErr` | engine/e_gem.c:4652-4780 | A close ends in the state that the step system gives it, with the mutex released, and every item that was listed or the context's is afterwards listed or freed; of a context that is not open only the code is recorded |
| `SessionEngine.Engine.ResumeClose` | engine/e_gem.c:4733-4779 | A turn of the wait loop ends the close if the activity is zero and changes nothing otherwise |
| `KeyLock.AlwaysSafe` | lunaProvider/lunaCommon.c:1852-1867 | For any number of threads and any interleaving: at most one writer, no reader beside it, the three counters equal the threads in each role, no assertion fails |
| `KeyLock.WritersComeFirst` | lunaProvider/lunaCommon.c:1988-1996 | Over any stretch of a run in which a writer waits or writes, no reader gets in |
| `KeyLock.ReadersSeeOneValue` | lunaProvider/lunaCommon.c:1847-1850 | While a thread reads, no step changes what the last writer left, nor ends the read for it |
| `KeyLock.WriterIsUndisturbed` | lunaProvider/lunaCommon.c:1852-1874 | No step of another thread ends a write or overwrites what it left |
| `KeyLock.ReaderGetsIn` | lunaProvider/lunaCommon.c:1988-1996 | In every run a reader gets in, at once or at a later turn, if and only if no writer writes or waits, whoever else reads |
| `KeyLock.WriterGetsIn` | lunaProvider/lunaCommon.c:1852-1867 | In every run a writer gets in if and only if no thread reads or writes, and the reason in the key is then its own |
| `KeyLock.ThreadLeaves` | lunaProvider/lunaCommon.c:1869-1874 | A thread that ends its read or its write leaves its role and no other changes |
| `KeyLock.StepIsSafe` | lunaProvider/lunaCommon.c:1852-2016 | Every critical section of the lock keeps the invariant |
| `KeyLock.KeyCtx.StartWrite` | lunaProvider/lunaCommon.c:1852-1867 | The first turn of the writer's loop, after the thread has been counted as waiting |
| `KeyLock.KeyCtx.RetryWrite` | lunaProvider/lunaCommon.c:1856-1866 | A turn of the writer's loop: the lock is taken exactly when it is free |
| `KeyLock.KeyCtx.EndWrite` | lunaProvider/lunaCommon.c:1869-1874 | A writer leaves |
| `KeyLock.KeyCtx.RetryRead` | lunaProvider/lunaCommon.c:1988-2001 | A turn of the reader's loop: the lock is taken exactly when no writer writes or waits |
| `KeyLock.KeyCtx.EndRead` | lunaProvider/lunaCommon.c:2008-2012 | A reader leaves |
| `RngCache.RequestActs` | lunaProvider/lunaCommon.c:3658-3686 | In every run the hardware is asked only when the cache cannot serve; a request fails if and only if it is asked and fails, which sets the sticky flag |
| `RngCache.NoByteTwice` | lunaProvider/lunaCommon.c:3658-3686 | Over any run of requests, with refills failing anywhere, no byte position of the hardware's stream is handed out twice |
| `RngCache.ServesTheStream` | lunaProvider/lunaCommon.c:3658-3686 | A request that succeeds gets as many contiguous bytes of the stream as it asks for, all out of one delivery that the hardware completed within the run |
| `RngCache.SpentForGood` | lunaProvider/lunaCommon.c:3672-3684 | What was handed out stays outside what the cache still holds |
| `RngCache.StaysCoherent` | lunaProvider/lunaCommon.c:3666-3684 | A clean cache holds exactly the block it was last filled with |
| `RngCache.RngDevice.HwPkcs11` | lunaProvider/lunaCommon.c:3617-3629 | The buffer holds the next bytes of the stream, or what the failure left, and a failure sets the sticky flag |
| `RngCache.RngDevice.HwCacheLocked` | lunaProvider/lunaCommon.c:3658-3686 | State, result and output are those of the specification; nothing is written behind the output |
| `RngCache.RngDevice.PqcRng` | lunaProvider/lunaCommon.c:1073-1080 | The output is all from the hardware or all from the software generator, and once the hardware has failed it and the cache are left alone |
| `Passphrase.RoundTrip` | engine/e_gem.c:9229-9306 | For every password without NUL, a login sends exactly the password that was stored if it can compute its hashes, and nothing otherwise |
| `Passphrase.StoredIsMasked` | engine/e_gem.c:9213-9220 | All of the stored block is masked: each 20 bytes of it with a derived block of their own |
| `Passphrase.SendsOnlyIntact` | engine/e_gem.c:9291-9305 | Whatever the buffer holds, a login sends something if and only if the checksum under the mask fits the text under it, and then the text up to its NUL |
| `Passphrase.BlockIsChained` | engine/e_gem.c:9134-9160 | A derived block is the end of five hashes, each folded into the one before, from 16 bytes of the salt and the number of the block |
| `Passphrase.MaskIsFixed` | engine/e_gem.c:9191-9226 | Two computations of the mask that succeed agree, whichever hashes failed at other times |
| `Passphrase.BlockAt` | engine/e_gem.c:9162-9188 | The derived key consists of whole 20-byte blocks, the i-th of them at 20(i - 1), that fill it |
| `Passphrase.XorTwice` | engine/e_gem.c:9218-9220 | Masking twice gives the block back |
| `Passphrase.Pbkdf2F` | engine/e_gem.c:9134-9160 | The 20 bytes at the given place are the block of the key derivation, and no others are touched |
| `Passphrase.Pbkdf2Main` | engine/e_gem.c:9163-9188 | All of the requested key is the sequence of blocks; -1 for a bad iteration count or length, and no success if a hash fails |
| `Passphrase.PassphraseStore.PwMask` | engine/e_gem.c:9191-9226 | The destination is the source masked with the key of this store and buffer |
| `Passphrase.PassphraseStore.PwMalloc` | engine/e_gem.c:9229-9258 | The store is ready exactly for passwords of 4 to 255 bytes when memory and hashes can be had, and then holds the block with checksum and text, masked over its whole length; to the session protocol it is a newly filled store |
| `Passphrase.PassphraseStore.PwFree` | engine/e_gem.c:9261-9270 | The buffer is wiped and the store reset |
| `Passphrase.PassphraseStore.PwLogin` | engine/e_gem.c:9273-9319 | What is sent is what passes the checksum, only from a store that is ready; a refusal locks the store; result and store are those of the login in the session protocol, on which the lock-out over all runs rests |
| `Passphrase.PassphraseStore.Unmask` | engine/e_gem.c:9291-9305 | Yields the stored text up to its NUL if the checksum fits, and nothing otherwise |
| `KeyHandleCache.FastIsSearch` | engine/e_gem.c:2576-2611 | In every reachable state a fast lookup answers what the full search answers in the current generation for the key that now has the address; when the search fails, the right handle or none |
| `KeyHandleCache.HitsExactly` | engine/e_gem.c:2576-2642 | In every reachable state a lookup hits a handle if and only if the variable has an index and some step has written the handle since the library was last finalized or initialized, or the key freed |
| `KeyHandleCache.HitNeedsNoSearch` | engine/e_gem.c:7933-7965 | A lookup that hits answers the cached handle, whatever a search would find |
| `KeyHandleCache.InitIndexes` | engine/e_gem.c:1675-1704 | After an initialization exactly the variables whose family is enabled and whose request was granted have an index, given out in the order of the source, in a new generation |
| `KeyHandleCache.HitsAreRecent` | engine/e_gem.c:1883-1900 | Every cached handle that a lookup can find was put there by a step after the last finalization, initialization or freeing of the key |
| `KeyHandleCache.RunIsSafe` | engine/e_gem.c:1675-1699 | Over every run the index variables hold distinct indices and lead only to handles of the current generation, and to none while the library does not run |
| `KeyHandleCache.StepIsSafe` | engine/e_gem.c:2459-2491 | Every step keeps that, for all three families of keys |
| `KeyHandleCache.InitIsSafe` | engine/e_gem.c:1675-1699 | After an initialization, completed or abandoned, the new indices lead to nothing |
| `KeyHandleCache.FiniForgets` | engine/e_gem.c:1883-1900 | After a finalization no variable leads to any of the extension data, which stays with OpenSSL |
| `KeyHandleCache.KeyHandles.InitP11` | engine/e_gem.c:1675-1704 | Twelve indices are requested in the order of the source, and a new generation begins |
| `KeyHandleCache.KeyHandles.FiniP11` | engine/e_gem.c:1883-1900 | All index variables are -1 |
| `KeyHandleCache.KeyHandles.FindHandleFast` | engine/e_gem.c:7933-7965 | The cached handle, or the one found, which is then cached |
| `KeyHandleCache.KeyHandles.CacheRsaHandle` | engine/e_gem.c:2617-2642 | Handles are stored where there are none yet |
| `KeyHandleCache.KeyHandles.CacheEcdsaHandle` | engine/e_gem.c:7970-7984 | Handles are stored over those already there |
| `EcPoint.RoundTrip` | engine/e_gem_compat.c:546-592 | Both outputs of the encoder are decoded to the same point, for every field whose points it encodes |
| `EcPoint.AcceptsExactly` | engine/e_gem_compat.c:497-536 | The decoder accepts exactly the short, the `81 LEN` and the `82 00 LEN` form of an uncompressed point with matching lengths |
| `EcPoint.AgreesWithBer` | engine/e_gem_compat.c:507-536 | What it accepts is the contents of the OCTET STRING by X.690, if and only if the length is not a single octet of 128 or more |
| `EcPoint.AcceptsBeyondBer` | engine/e_gem_compat.c:507-536 | A point behind a single length octet is accepted although X.690 does not see it there, exactly for fields of 65 bytes and more, up to the 127 that one octet can count |
| `EcPoint.DerOfPoint` | engine/e_gem_compat.c:565-577 | The first output is the DER encoding of sections 8.7 and 10.1 of X.690 |
| `EcPoint.OldOfPoint` | engine/e_gem_compat.c:565-592 | The second output has the same contents by X.690, with two length octets for points of 128 octets and more |
| `EcPoint.EncodeAndDecode` | engine/e_gem_compat.c:483-592 | Run one after the other, encoder and decoder give the point back from both outputs, exactly for fields of at most 127 bytes |
| `EcPoint.O2iEcPublicKey` | engine/e_gem_compat.c:483-543 | Yields the wrapped point exactly for the inputs that wrap one |
| `EcPoint.I2oEcPublicKey` | engine/e_gem_compat.c:546-592 | Both buffers hold the encodings of a point of 1 to 255 octets in uncompressed form, and for no other input any |
| `EcMarker.MarkerIsInRange` | engine/e_gem.c:6807-6811 | The marker m of order n satisfies 0 < m < n for every order that C can shift for, if and only if n is not 1 |
| `EcMarker.MarkerBits` | engine/e_gem.c:7534-7537 | The marker is one bit shorter than the order, two bits where the leading byte is shifted out |
| `EcMarker.MarkerValue` | engine/e_gem.c:6805-6812 | The marker is its leading byte followed by bytes 0x5A only |
| `EcMarker.ClassifiesExactly` | engine/e_gem.c:7580-7601 | A complete key is software if and only if its private value is at least 2^64 and not the marker; which keys are hardware, and that all others are errors |
| `EcMarker.LoadAndCheck` | engine/e_gem.c:6786-6821 | A key that is loaded as private and then checked counts as hardware if and only if it has its public part and the check gets its memory or the order has at most 65 bits; it never counts as software |
| `EcMarker.ShortMarker` | engine/e_gem.c:7595-7598 | The marker is below 2^64 exactly for orders of at most 65 bits |
| `EcMarker.CheckEnhanced` | engine/e_gem.c:7541-7575 | The loop of the check, over a buffer of its own, compares the private value with the marker |
| `EcMarker.LoadPrivate` | engine/e_gem.c:6786-6821 | A key that is loaded as private gets the marker, from the loop over the byte buffer |
| `EcMarker.CheckPrivate` | engine/e_gem.c:7580-7601 | Error without group or public key, hardware without a private value or with one below 2^64, otherwise by comparison with the marker |
| `EcMarker.EightBytes` | engine/e_gem.c:7595-7598 | At most eight bytes means below 2^64 |
| `InitString.RoundTrip` | engine/e_gem.c:4222-4292 | Behind any white space, parsing a printed descriptor recovers slot number or label, both ids and the password, where the label has no closing quote followed by a colon and is known |
| `InitString.LabelSplits` | engine/e_gem.c:4246-4264 | A quoted slot field is recovered if and only if its label does not contain its quote followed by a colon |
| `InitString.NumberSplits` | engine/e_gem.c:4266-4272 | A printed slot number is split off at its colon |
| `InitString.PasswordRoundTrip` | engine/e_gem.c:9639-9713 | `luna_parse_password` recovers a password behind `password=`, accepts a descriptor without one, and refuses one that names no source |
| `InitString.PasswordSources` | engine/e_gem.c:9656-9713 | The text behind passfile=, passenv=, passdev=console and passdll= comes from that source, with at least four characters from all but the environment; any other device is refused |
| `InitString.AtoiOfSigned` | engine/e_gem.c:4284-4292 | White space, a sign and digits are read as that number, whatever follows |
| `InitString.SplitThreeTimes` | engine/e_gem.c:4238-4272 | The first parts of the three parsers, each proved on its own, find or miss the slot field together, at the same place, and leave the same memory |
| `InitString.ParseThreeWays` | engine/e_gem.c:9604-9653 | What the session or the password parser accepts has a slot field for `luna_parse_slotid2`, which is the one that the session parser resolves; those two differ only in the label and in the password field |
| `InitString.ParseSlotid2` | engine/e_gem.c:4163-4217 | Yields the slot field of the common split and whether it is a label |
| `InitString.ParseSessionDesc` | engine/e_gem.c:4222-4299 | Yields the descriptor that the common split and the ids give, or fails where they do |
| `InitString.ParsePassword` | engine/e_gem.c:9604-9728 | Yields the password, none, or a failure, by the common split, the ids and the keyword |
| `InitString.GatherPassword` | engine/e_gem.c:9656-9713 | The chain of keywords, with at least four characters from a file, the console or a library |
| `InitString.Slotid2Slot` | engine/e_gem.c:4180-4211 | After the NULs of `luna_parse_slotid2` are written, slot field and rest are the C strings of the split, at their places |
| `InitString.DescSlot` | engine/e_gem.c:4238-4272 | The same for `luna_parse_session_desc` |
| `InitString.PasswordSlot` | engine/e_gem.c:9616-9642 | The same for `luna_parse_password` |
| `InitString.IdsInPlace` | engine/e_gem.c:4274-4282 | After the NULs are written, both ids and the password are the C strings of the split |
| `Base64Url.RoundTrip` | lunaProvider/lunaCommon.c:3262-3296 | A decoder of the unpadded form recovers every input of every length |
| `Base64Url.GroupIsOneNumber` | lunaProvider/lunaCommon.c:3275-3290 | The indices of a group are the base-64 digits of the number that its bytes are, filled up with zero bits (section 4 of RFC 4648) |
| `Base64Url.LetterHasValue` | lunaProvider/lunaCommon.c:3260 | Each value has its letter of table 2 of RFC 4648 |
| `Base64Url.Encoded` | lunaProvider/lunaCommon.c:3262-3296 | The encoding of n bytes has ceil(4n/3) characters |
| `Base64Url.SecondByShifts` | lunaProvider/lunaCommon.c:3281-3287 | Shifts and masks of the second index as arithmetic |
| `Base64Url.ThirdByShifts` | lunaProvider/lunaCommon.c:3282-3288 | Shifts and masks of the third index as arithmetic |
| `Base64Url.FirstAndFourth` | lunaProvider/lunaCommon.c:3276-3289 | Shifts and masks of the first and the fourth index as arithmetic |
| `Base64Url.SprintfGroup` | lunaProvider/lunaCommon.c:3273-3291 | One turn of the loop, with the shifts and masks of the source on bytes, appends the letters of the next group |
| `Base64Url.Sprintf` | lunaProvider/lunaCommon.c:3262-3296 | The buffer holds the encoding and a NUL behind it |
| `HaSerial.ReparsedSerial` | engine/e_gem.c:1920-2003 | Parsing the printed serial n gives n mod 10^9 below 10^19, and (n / 10) mod 10^9 for the twenty-digit numbers that the field truncates |
| `HaSerial.SurvivesExactly` | engine/e_gem.c:1920-2003 | Of the numbers that a CK_ULONG holds exactly those below 10^9 come back |
| `HaSerial.Printed` | engine/e_gem.c:1976-1983 | A printed serial fits its field and is all digits |
| `HaSerial.SerialFromString` | engine/e_gem.c:1920-1939 | The value of the last nine characters of the field if they are digits, else the default; an unterminated field is read on |
| `HaSerial.PrintAndParse` | engine/e_gem.c:1996-2003 | The parser applied to what the printer wrote, whatever lies behind it |
| `Decimal.ValueOfDigits` | engine/e_gem.c:1937 | Reading a printed number gives the number |
| `Decimal.LastDigits` | engine/e_gem.c:1928 | Its last k digits are its remainder by 10^k |
| `Decimal.DigitsOfDrop` | engine/e_gem.c:1976-1977 | Its first digits are those of its quotient by a power of ten |
| `Decimal.HowManyDigits` | engine/e_gem.c:1926-1928 | It has at most k digits exactly below 10^k |

## Left out

- SessionTheorems.RunCounts: not for the runs in which a close of an inherited context finds activity, because such a close does miscount; SessionTheorems.CountsExactly is the exact condition.
- SessionTheorems.RecoveryRunsAlone: says nothing of the steps after the first harmful close of a run.
- ContextLifeCycle.CloseCachesExactly: what the close itself does to the cache is for all runs; that the session is in no cache otherwise is not said, with DisableCheckFinalize set, of a child that goes on with an inherited library, which may have a handle in two places.
- SessionTheorems.RecoveryBlocksOpens: says nothing of the time after the flag is cleared, which the second of two overlapping recoverers does while the first still waits (SessionExamples.FlagAndWaitersDiffer).
- SessionEngine.Engine.FiniP11: the C_CloseSession calls of the callback and C_Finalize are one parameter, the set of sessions that survive both.
- KeyHandleCache.FastIsSearch: the branches for KeySecure, which does not cache private RSA handles, are not part of this model.
- EcPoint.O2iEcPublicKey: whether the octets are a point on the curve is left to OpenSSL.
- EcMarker.MarkerIsInRange: an order of more than 4097 bits would make the source shift by a negative count, which C does not define.
- InitString.RoundTrip: slot numbers and ids up to 2^31 - 1, beyond which atoi is not defined.
- HaSerial.SerialFromString: the lists of members are not modelled, only their serial numbers.
- `luna_destroy_engine`, which finalizes without the mutex, `luna_unload_p11`, the other post commands that initialize the library without a context, and `skip_c_initialize`.
- `luna_pqc_rng_hw_cleanse`, which zeroes the bytes of the cache without marking it dirty; a forked child's copy of the random number cache.
- The `magic` field of a provider key, which is changed under the read lock; `lunaPqcKem.c` and `lunaPqcSig.c`.
- The HSM, OpenSSL and SHA-1 themselves; reading configuration, password files, consoles and password libraries; logging and statistics.
- RSA, DSA, ECDSA, ECDH and post-quantum operations, key generation templates, the engine method tables and the Windows variants.
- How long the wait loops sleep, and whether a waiting thread ever gets its turn.
