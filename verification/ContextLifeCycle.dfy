/** The life of one context, from its open to its close. */
module ContextLifeCycle {
  import opened Cryptoki
  import opened SessionCore
  import opened SessionFacts
  import opened SessionInvariants
  import opened SessionOwnership
  import opened SessionCounting
  import opened SessionEffects
  import opened SessionOutcomes
  import opened SessionProtocol
  import opened SessionTheorems

  predicate Dead(p: Process, c: ContextId) {
    c in p.ctxs && !p.ctxs[c].flagInit && p.ctxs[c].flagError
  }

  /** A context goes from fresh to open to dead, or from fresh to dead, and stays dead. */
  lemma OneShot(cfg: Config, pid: Pid, p: Process, step: Step, c: ContextId)
    requires Shaped(cfg, p) && Enabled(cfg, p, step)
    ensures var q := Apply(cfg, pid, p, step);
            && (Live(q, c) ==> Live(p, c) || (c !in p.ctxs && step.OpenNew? && step.c == c))
            && (Dead(p, c) ==> Dead(q, c))
            && (c in q.ctxs ==> Live(q, c) || Dead(q, c))
  {
    StepKeepsShape(cfg, pid, p, step);
    match step
    case OpenNew(n, ndx, e) => var ready, prep, asked, got := OpenHasOutcome(cfg, pid, p, n, ndx, e);
    case Close(_, _, _, _, _, _) => var pending, rest, mid := CloseHasOutcome(cfg, pid, p, step);
    case CloseRetry(n, e) => RetryHasOutcome(cfg, p, n, e);
    case SetFinalizePending(survivors) => FiniFacts(cfg, p.core, survivors);
    case _ =>
  }

  /** However a run goes on, a context that is closed, or could not be opened, is not opened again. */
  lemma {:induction false} DeadForGood(cfg: Config, root: Pid, steps: seq<SystemStep>, sys: System,
                                       more: seq<SystemStep>, later: System, pid: Pid, c: ContextId)
    requires Run(cfg, root, steps, sys) && Run(cfg, root, steps + more, later) && pid in sys && Dead(sys[pid], c)
    ensures pid in later && Dead(later[pid], c)
  {
    if more == [] {
      assert steps + more == steps;
    } else {
      var front, last := more[..|more| - 1], more[|more| - 1];
      var before := LastOfMore(cfg, root, steps, more, later);
      DeadForGood(cfg, root, steps, sys, front, before, pid, c);
      RunIsOk(cfg, root, steps + front, before, pid);
      DeadStays(cfg, pid, before, last, c);
    }
  }

  lemma DeadStays(cfg: Config, pid: Pid, sys: System, last: SystemStep, c: ContextId)
    requires pid in sys && Shaped(cfg, sys[pid]) && Dead(sys[pid], c) && SystemEnabled(cfg, sys, last)
    ensures var later := SystemApply(cfg, sys, last); pid in later && Dead(later[pid], c)
  {
    if last.Local? && last.pid == pid {
      OneShot(cfg, pid, sys[pid], last.step, c);
    }
  }

  /** The session that a close has cached is the one that the next open on the same slot gets, and that
      open undoes the close: caches, open sessions and counters are as they were. */
  lemma OpenUndoesClose(cfg: Config, root: Pid, steps: seq<SystemStep>, sys: System, pid: Pid,
                        step: Step, c: ContextId, ndx: nat, e: OpenEnv)
    requires Run(cfg, root, steps, sys) && HarmlessCloses(cfg, root, steps) && pid in sys
    requires Enabled(cfg, sys[pid], step) && step.Close?
    requires CloseCaches(cfg, pid, sys[pid], step) && !sys[pid].ctxs[step.c].finalizePending
    requires var q := Apply(cfg, pid, sys[pid], step);
             && Enabled(cfg, q, OpenNew(c, ndx, e))
             && SlotFor(cfg, q.core.activity, ndx, sys[pid].ctxs[step.c].perSlot)
    ensures var p, r := sys[pid], Apply(cfg, pid, Apply(cfg, pid, sys[pid], step), OpenNew(c, ndx, e));
            && r.ctxs[c].flagInit && r.ctxs[c].hSession == p.ctxs[step.c].hSession
            && r.ctxs[c].perSlot == p.ctxs[step.c].perSlot && r.ctxs[c].generation == p.core.generation
            && r.core.caches == p.core.caches && r.core.token == p.core.token && r.core.activity == p.core.activity
  {
    RunIsOk(cfg, root, steps, sys, pid);
    RunCounts(cfg, root, steps, sys, pid);
    LeaveTallies(sys[pid].core.activity, Counted(cfg, sys[pid]), step.c);
    CachingCloseMoves(cfg, pid, sys[pid], step);
    LibraryIsOwn(cfg, pid, sys[pid], step);
    OpenTakesTop(cfg, pid, Apply(cfg, pid, sys[pid], step), c, ndx, e);
    UpUndoesDown(sys[pid].core.activity, sys[pid].ctxs[step.c].perSlot);
    PopUndoesPush(sys[pid].core.caches, sys[pid].ctxs[step.c].perSlot, sys[pid].ctxs[step.c].hSession);
  }

  /** With forks detected, a process that caches a session has initialized the library itself. */
  lemma LibraryIsOwn(cfg: Config, pid: Pid, p: Process, step: Step)
    requires ProcessOk(cfg, pid, p) && Enabled(cfg, p, step) && step.Close? && CloseCaches(cfg, pid, p, step)
    ensures !ForkSeen(cfg, Apply(cfg, pid, p, step).core, pid)
  {
    var pending, rest, mid := CloseHasOutcome(cfg, pid, p, step);
  }

  lemma UpUndoesDown(a: Activity, slot: nat)
    requires slot < MAX_SLOT && a.total > 0 && a.perSlot.At(slot) > 0
    ensures CountUp(CountDown(a, slot), slot) == a
  {
  }

  lemma PopUndoesPush(caches: Pair<seq<Handle>>, slot: nat, h: Handle)
    requires slot < MAX_SLOT
    ensures var pushed := caches.With(slot, [h] + caches.At(slot));
            && pushed.At(slot)[0] == h && pushed.With(slot, pushed.At(slot)[1..]) == caches
  {
  }

  lemma CachingCloseMoves(cfg: Config, pid: Pid, p: Process, step: Step)
    requires Shaped(cfg, p) && Enabled(cfg, p, step) && step.Close?
    requires CloseCaches(cfg, pid, p, step) && !p.ctxs[step.c].finalizePending
    ensures var q, ctx := Apply(cfg, pid, p, step), p.ctxs[step.c];
            && q.core.haveInit && q.core.generation == p.core.generation && q.core.token == p.core.token
            && q.core.activity == CountDown(p.core.activity, ctx.perSlot)
            && q.core.caches == p.core.caches.With(ctx.perSlot, [ctx.hSession] + p.core.caches.At(ctx.perSlot))
  {
  }

  lemma OpenTakesTop(cfg: Config, pid: Pid, q: Process, c: ContextId, ndx: nat, e: OpenEnv)
    requires Enabled(cfg, q, OpenNew(c, ndx, e)) && q.core.haveInit && !ForkSeen(cfg, q.core, pid)
    requires q.core.caches.At(ChooseSlot(cfg, q.core.activity, ndx)) != []
    ensures var r := Apply(cfg, pid, q, OpenNew(c, ndx, e));
            var slot := ChooseSlot(cfg, q.core.activity, ndx);
            && r.ctxs[c].flagInit && r.ctxs[c].perSlot == slot && r.ctxs[c].generation == q.core.generation
            && r.ctxs[c].hSession == q.core.caches.At(slot)[0]
            && r.core.caches == q.core.caches.With(slot, q.core.caches.At(slot)[1..])
            && r.core.token == q.core.token && r.core.activity == CountUp(q.core.activity, slot)
  {
  }

  /** An open that names no slot takes the one with fewer contexts, the first in case of a tie. */
  lemma ShortestLine(cfg: Config, root: Pid, steps: seq<SystemStep>, sys: System, pid: Pid, ndx: nat)
    requires Run(cfg, root, steps, sys) && HarmlessCloses(cfg, root, steps) && pid in sys
    requires cfg.engine2Init && ndx >= MAX_SLOT
    ensures var users, slot := Counted(cfg, sys[pid]), ChooseSlot(cfg, sys[pid].core.activity, ndx);
            |On(users, slot)| <= |On(users, 1 - slot)| && (|On(users, 0)| == |On(users, 1)| ==> slot == 0)
  {
    RunCounts(cfg, root, steps, sys, pid);
  }

  /** A deferred login that succeeds leaves every configured slot logged in, on a session of its own
      that is open in this generation, and sends nothing from a store that is locked. */
  lemma LoginCoversSlots(cfg: Config, s: Core, e: Pair<LoginEnv>)
    requires cfg.enableLoginInit && DeferredLogin(cfg, s, e).0
    ensures var t := DeferredLogin(cfg, s, e).1;
            && s.haveInit
            && (forall i | 0 <= i < (if cfg.engine2Init then 2 else 1) ::
                  && s.token.pass.At(i).boolInit == 1 && t.pass.At(i).boolInit == 1
                  && t.pass.At(i).hSession in t.sessions && t.sessions[t.pass.At(i).hSession] == s.generation
                  && t.pass.At(i).hSession !in s.token.sessions)
            && (cfg.engine2Init ==> t.pass.zero.hSession != t.pass.one.hSession)
            && (forall h | h in s.token.sessions :: h in t.sessions && t.sessions[h] == s.token.sessions[h])
  {
  }

  /** A context keeps the mutex if it finalizes on close, or where threads are not to run beside each other. */
  predicate KeepsMutex(cfg: Config, ctx: Context) {
    ctx.finalizePending || cfg.disableMultiThread
  }

  /** In every run an open returns with the mutex exactly if it made a context that keeps it; a
      close of such a context finds the mutex held by it; and every close lets the mutex go. */
  lemma MutexDiscipline(cfg: Config, root: Pid, steps: seq<SystemStep>, sys: System, pid: Pid, step: Step)
    requires Run(cfg, root, steps, sys) && pid in sys && Enabled(cfg, sys[pid], step)
    ensures var p, q := sys[pid], Apply(cfg, pid, sys[pid], step);
            && MutexOk(cfg, p) && MutexOk(cfg, q)
            && (step.OpenNew? ==>
                  (q.mutex.Some? <==> q.ctxs[step.c].flagInit && KeepsMutex(cfg, q.ctxs[step.c])))
            && (step.OpenAgain? ==> q == p)
            && (step.Close? ==>
                  p.mutex == (if KeepsMutex(cfg, p.ctxs[step.c]) then Some(step.c) else None) && q.mutex.None?)
            && (step.CloseRetry? ==> p.mutex.None? && q.mutex.None?)
  {
    RunIsOk(cfg, root, steps, sys, pid);
    MutexMoves(cfg, pid, sys[pid], step);
  }

  lemma MutexMoves(cfg: Config, pid: Pid, p: Process, step: Step)
    requires Shaped(cfg, p) && Enabled(cfg, p, step)
    ensures MutexOk(cfg, p) && MutexOk(cfg, Apply(cfg, pid, p, step))
    ensures step.Close? ==> p.mutex == (if HoldsMutex(cfg, p.ctxs[step.c]) then Some(step.c) else None)
  {
    StepKeepsShape(cfg, pid, p, step);
  }

  /** In every run at most one login sent from a passphrase store since it was filled has failed,
      and after it none is sent. */
  lemma LockOut(cfg: Config, root: Pid, steps: seq<SystemStep>, sys: System, pid: Pid, slot: nat, answer: LoginAnswer)
    requires Run(cfg, root, steps, sys) && pid in sys
    ensures var p := sys[pid].core.token.pass.At(slot);
            p.failures <= 1 && (p.failures == 1 ==> PassLogin(p, answer) == (false, p))
  {
    RunIsOk(cfg, root, steps, sys, pid);
  }

  /** luna_close_context: a close with no error of its own and the stored code. */
  predicate IsPlainClose(p: Process, step: Step) {
    step.Close? && step.c in p.ctxs && !step.flagErr && step.rv == p.ctxs[step.c].rvLast
  }

  /** Where the cache may be relied on: the context belongs to the library as it is, or forks are detected. */
  predicate Reliable(cfg: Config, p: Process, c: ContextId) {
    Current(p, c) || !cfg.disableCheckFinalize
  }

  /** A close puts the session of its context in the cache if and only if the library is still the one
      that the session was opened in and stays initialized, caching is possible, and the caller reports
      neither an error nor an error code. Where the cache may be relied on, the session is not in it
      otherwise. */
  lemma CloseCachesExactly(cfg: Config, root: Pid, steps: seq<SystemStep>, sys: System, pid: Pid, step: Step)
    requires Run(cfg, root, steps, sys) && pid in sys && step.Close? && Enabled(cfg, sys[pid], step)
    ensures var p, ctx := sys[pid], sys[pid].ctxs[step.c];
            Pushed(p, Apply(cfg, pid, p, step), step.c) <==>
              && OpenedIn(p.core, ctx, pid) && !ctx.finalizePending
              && ctx.hasItem && !cfg.disableSessionCache && !step.flagErr && step.rv == CKR_OK
    ensures InCacheIfPushed(cfg, pid, sys[pid], step)
  {
    RunIsOk(cfg, root, steps, sys, pid);
    PushedByClose(cfg, pid, sys[pid], step);
    SameIsOpenedIn(cfg, pid, sys[pid], step);
    if Reliable(cfg, sys[pid], step.c) {
      CachedByClose(cfg, pid, sys[pid], step);
    }
  }

  /** Where the cache may be relied on, the session is in it after the close if and only if the close
      put it there. */
  predicate InCacheIfPushed(cfg: Config, pid: Pid, p: Process, step: Step)
    requires step.Close? && Enabled(cfg, p, step)
  {
    var q := Apply(cfg, pid, p, step);
    Reliable(cfg, p, step.c) ==>
      (SessionOwnership.Cached(q.core.caches, p.ctxs[step.c].hSession) <==> Pushed(p, q, step.c))
  }

  lemma PushedByClose(cfg: Config, pid: Pid, p: Process, step: Step)
    requires step.Close? && Enabled(cfg, p, step)
    ensures Pushed(p, Apply(cfg, pid, p, step), step.c)
       <==> CloseCaches(cfg, pid, p, step) && !p.ctxs[step.c].finalizePending
  {
    var ctx := p.ctxs[step.c];
    CachesAfterClose(cfg, pid, p, step);
    assert |p.core.caches.With(ctx.perSlot, [ctx.hSession] + p.core.caches.At(ctx.perSlot)).At(ctx.perSlot)|
        == 1 + |p.core.caches.At(ctx.perSlot)|;
  }

  lemma CachedByClose(cfg: Config, pid: Pid, p: Process, step: Step)
    requires ProcessOk(cfg, pid, p) && step.Close? && Enabled(cfg, p, step) && Reliable(cfg, p, step.c)
    ensures SessionOwnership.Cached(Apply(cfg, pid, p, step).core.caches, p.ctxs[step.c].hSession)
       <==> CloseCaches(cfg, pid, p, step) && !p.ctxs[step.c].finalizePending
  {
    if SameLibrary(p.core, p.ctxs[step.c], pid) {
      LibraryMeansCurrent(cfg, pid, p, step);
      HeldIsNotCached(cfg, pid, p, step.c);
    }
    CachesAfterClose(cfg, pid, p, step);
  }

  lemma HeldIsNotCached(cfg: Config, pid: Pid, p: Process, c: ContextId)
    requires ProcessOk(cfg, pid, p) && Current(p, c) && pid == p.core.pidCInit
    ensures !SessionOwnership.Cached(p.core.caches, p.ctxs[c].hSession)
  {
    assert Held(p)[c] == p.ctxs[c].hSession;
  }

  /** What a close does to the caches. */
  lemma CachesAfterClose(cfg: Config, pid: Pid, p: Process, step: Step)
    requires step.Close? && Enabled(cfg, p, step)
    ensures var q, ctx := Apply(cfg, pid, p, step), p.ctxs[step.c];
            if CloseCaches(cfg, pid, p, step) && !ctx.finalizePending then
              q.core.caches == p.core.caches.With(ctx.perSlot, [ctx.hSession] + p.core.caches.At(ctx.perSlot))
            else q.core.caches == NO_CACHES || (SameLibrary(p.core, ctx, pid) && q.core.caches == p.core.caches)
  {
    var pending, rest, mid := CloseHasOutcome(cfg, pid, p, step);
  }

  lemma LibraryMeansCurrent(cfg: Config, pid: Pid, p: Process, step: Step)
    requires ProcessOk(cfg, pid, p) && step.Close? && Enabled(cfg, p, step) && Reliable(cfg, p, step.c)
    requires SameLibrary(p.core, p.ctxs[step.c], pid)
    ensures Current(p, step.c) && pid == p.core.pidCInit
  {
    SameCount(p.ctxs[step.c].generation, p.core.generation);
  }

  /** A plain close puts the session in the cache exactly if the library is still the one that the
      session was opened in and stays initialized, caching is possible, and no error that calls for
      recovery was ever recorded. */
  lemma PlainCloseCaches(cfg: Config, root: Pid, steps: seq<SystemStep>, sys: System, pid: Pid, step: Step)
    requires Run(cfg, root, steps, sys) && pid in sys
    requires Enabled(cfg, sys[pid], step) && IsPlainClose(sys[pid], step)
    ensures var p, ctx := sys[pid], sys[pid].ctxs[step.c];
            Pushed(p, Apply(cfg, pid, p, step), step.c) <==>
              && OpenedIn(p.core, ctx, pid) && !ctx.finalizePending && ctx.hasItem && !cfg.disableSessionCache
              && forall rv | rv in ctx.errors :: !NeedsRecovery(rv)
    ensures InCacheIfPushed(cfg, pid, sys[pid], step)
  {
    CloseCachesExactly(cfg, root, steps, sys, pid, step);
    StoredCodeIsWorst(cfg, root, steps, sys, pid, step.c);
  }

  /** In every run the stored code of a context is of the greatest severity among all codes recorded since
      the open, and is CKR_OK exactly if none of them calls for recovery. */
  lemma StoredCodeIsWorst(cfg: Config, root: Pid, steps: seq<SystemStep>, sys: System, pid: Pid, c: ContextId)
    requires Run(cfg, root, steps, sys) && pid in sys && c in sys[pid].ctxs
    ensures var ctx := sys[pid].ctxs[c];
            && Severity(ctx.rvLast) == MaxSeverity(ctx.errors)
            && (ctx.rvLast == CKR_OK <==> forall rv | rv in ctx.errors :: !NeedsRecovery(rv))
    ensures var ctx := sys[pid].ctxs[c];
            && (ctx.rvLast in {CKR_OK, CKR_DEVICE_ERROR, CKR_TOKEN_NOT_PRESENT, CKR_SESSION_HANDLE_INVALID})
            && (ctx.rvLast in {CKR_DEVICE_ERROR, CKR_TOKEN_NOT_PRESENT} <==>
                  CKR_DEVICE_ERROR in ctx.errors || CKR_TOKEN_NOT_PRESENT in ctx.errors)
            && (ctx.rvLast == CKR_SESSION_HANDLE_INVALID <==>
                  && CKR_SESSION_HANDLE_INVALID in ctx.errors
                  && CKR_DEVICE_ERROR !in ctx.errors && CKR_TOKEN_NOT_PRESENT !in ctx.errors)
  {
    RunIsOk(cfg, root, steps, sys, pid);
    MaxSeverityBounds(sys[pid].ctxs[c].errors);
  }

  /** What a caller of luna_close_context_w_err has to pass so that errors recorded before are respected:
      an error, or an error code, whenever the stored code is one. */
  predicate RespectsErrors(ctx: Context, flagErr: bool, rv: ReturnCode) {
    flagErr || rv != CKR_OK || ctx.rvLast == CKR_OK
  }

  /** In every run a close puts a session in the cache on which an error that calls for recovery was
      recorded, if and only if it could be cached at all and the caller did not pass what respects errors. */
  lemma CachedDespiteErrors(cfg: Config, root: Pid, steps: seq<SystemStep>, sys: System, pid: Pid, step: Step)
    requires Run(cfg, root, steps, sys) && pid in sys && step.Close? && Enabled(cfg, sys[pid], step)
    ensures var p, ctx := sys[pid], sys[pid].ctxs[step.c];
            Pushed(p, Apply(cfg, pid, p, step), step.c)
              && (exists rv | rv in ctx.errors :: NeedsRecovery(rv)) <==>
            && OpenedIn(p.core, ctx, pid) && !ctx.finalizePending && ctx.hasItem && !cfg.disableSessionCache
            && !RespectsErrors(ctx, step.flagErr, step.rv)
    ensures InCacheIfPushed(cfg, pid, sys[pid], step)
  {
    CloseCachesExactly(cfg, root, steps, sys, pid, step);
    StoredCodeIsWorst(cfg, root, steps, sys, pid, step.c);
  }
}
