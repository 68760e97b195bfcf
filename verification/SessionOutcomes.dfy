/** What one step makes of a process, in terms of the summaries of SessionFacts. */
module SessionOutcomes {
  import opened Cryptoki
  import opened SessionCore
  import opened SessionFacts
  import opened SessionProtocol

  /** Opening the fresh context c: see Opened for ready, prep, asked and got. */
  ghost predicate OpenOutcome(cfg: Config, pid: Pid, p: Process, c: ContextId, q: Process,
                              ready: bool, prep: Core, asked: Context, got: Core) {
    && c in q.ctxs
    && Opened(cfg, p.core, pid, q.ctxs[c], q.core, ready, prep, asked, got)
    && q == p.(core := q.core,
               ctxs := p.ctxs[c := q.ctxs[c]],
               mutex := if q.ctxs[c].flagInit && HoldsMutex(cfg, q.ctxs[c]) then Some(c) else None,
               callers := if !cfg.disableCheckFinalize && ready then Call(p, pid) else p.callers)
  }

  lemma OpenHasOutcome(cfg: Config, pid: Pid, p: Process, c: ContextId, ndx: nat, e: OpenEnv)
    returns (ready: bool, prep: Core, asked: Context, got: Core)
    ensures ready == Prepare(cfg, p.core, pid, e).0
    ensures OpenOutcome(cfg, pid, p, c, ApplyOpen(cfg, pid, p, c, ndx, e), ready, prep, asked, got)
  {
    ready, prep, asked, got := OpenFacts(cfg, p.core, pid, ndx, e);
  }

  /** Closing the context c, in which the last code has been recorded to give ctx. The session is
      given back, which leaves the context rest and the core mid; then the thread is done, or
      waits. */
  ghost predicate CloseOutcome(cfg: Config, pid: Pid, p: Process, c: ContextId, q: Process,
                               ctx: Context, pending: bool, cached: bool, rest: Context, mid: Core) {
    && Released(p.core, ctx, pid, pending, cached, rest, mid)
    && if !ctx.finalizePending && pending && mid.activity.total > 0 then
         q == p.(core := mid.(recovering := true), ctxs := p.ctxs[c := rest], mutex := None, waiting := p.waiting + {c})
       else
         && q == p.(core := q.core, ctxs := p.ctxs[c := DEAD_CONTEXT], mutex := None)
         && if ctx.finalizePending then Finalized(mid, q.core)
            else if pending then Recovered(mid, q.core)
            else q.core == mid
  }

  function CloseCaches(cfg: Config, pid: Pid, p: Process, step: Step): bool
    requires step.Close? && InUse(p, step.c)
  {
    SameLibrary(p.core, p.ctxs[step.c], pid) && p.ctxs[step.c].hasItem
    && !step.flagErr && step.rv == CKR_OK && !cfg.disableSessionCache
  }

  lemma CloseHasOutcome(cfg: Config, pid: Pid, p: Process, step: Step)
    returns (pending: bool, rest: Context, mid: Core)
    requires step.Close? && InUse(p, step.c)
    ensures CloseOutcome(cfg, pid, p, step.c, ApplyClose(cfg, pid, p, step), RecordError(p.ctxs[step.c], step.rv),
                         pending, CloseCaches(cfg, pid, p, step), rest, mid)
  {
    var ctx := RecordError(p.ctxs[step.c], step.rv);
    var wErr := step.flagErr || step.rv != CKR_OK;
    ReleaseFacts(cfg, p.core, ctx, pid, wErr, step.closed);
    var r := Release(cfg, p.core, ctx, pid, wErr, step.closed);
    pending, rest, mid := r.0, r.1, r.2;
    FiniFacts(cfg, mid, step.survivors);
    RecoverFacts(cfg, mid, ctx.rvLast, step.recovery);
  }

  /** A turn of the wait loop of the closing context c. */
  ghost predicate RetryOutcome(p: Process, c: ContextId, q: Process) {
    if p.core.activity.total > 0 then q == p
    else
      && q == p.(core := q.core, ctxs := p.ctxs[c := DEAD_CONTEXT], mutex := None, waiting := p.waiting - {c})
      && Recovered(p.core, q.core)
  }

  lemma RetryHasOutcome(cfg: Config, p: Process, c: ContextId, e: RecoveryEnv)
    requires c in p.waiting && c in p.ctxs
    ensures RetryOutcome(p, c, ApplyRetry(cfg, p, c, e))
  {
    RecoverFacts(cfg, p.core, p.ctxs[c].rvLast, e);
  }
}
