/** Where a process stands on its fork chain, and what that means: a process at or above the
    intermediate depth finalizes the library after every use, so a fork inherits nothing. */
module ForkDepth {
  import opened Cryptoki
  import opened SessionCore
  import opened SessionFacts
  import opened SessionInvariants
  import opened SessionOutcomes
  import opened SessionProtocol

  /** The process that bound the engine, or one with few enough engine-calling processes on the
      fork chain from there down to it, itself counted. */
  predicate Shallow(cfg: Config, pid: Pid, p: Process) {
    pid == p.core.lineage.pidBind || |p.callers + {pid}| <= cfg.intermediateProcesses
  }

  /** pid_intermediate_count is the number of engine-calling processes on the fork chain, and
      pid_intermediate tells whether this process is one of them. */
  predicate LineageOk(pid: Pid, p: Process) {
    && pid != NO_PID
    && p.core.lineage.pidBind !in p.callers
    && p.core.lineage.intermediateCount == |p.callers|
    && (pid in p.callers <==> p.core.lineage.pidIntermediate == pid)
  }

  /** Nothing is cached and no context is counted while the library is not initialized. */
  predicate Rested(p: Process) {
    !p.core.haveInit ==> p.core.caches == NO_CACHES && p.core.activity == IDLE
  }

  /** The library is not in use, and nobody can be using it. */
  ghost predicate Quiet(p: Process) {
    && !p.core.haveInit
    && p.core.caches == NO_CACHES
    && p.core.activity == IDLE
    && (forall c | c in p.ctxs :: !Live(p, c))
  }

  ghost predicate DepthOk(cfg: Config, pid: Pid, p: Process) {
    && LineageOk(pid, p)
    && Rested(p)
    && (forall c | Live(p, c) :: p.ctxs[c].finalizePending == (!cfg.disableCheckFinalize && Shallow(cfg, pid, p)))
    && (!cfg.disableCheckFinalize && Shallow(cfg, pid, p) ==>
          && p.waiting == {}
          && (p.mutex.None? ==> Quiet(p))
          && (forall c: ContextId | Live(p, c) :: p.mutex == Some(c)))
  }

  /** The mode that an open computes from the counters is the position on the fork chain. */
  lemma DecideIsShallow(cfg: Config, pid: Pid, p: Process)
    requires LineageOk(pid, p) && !cfg.disableCheckFinalize
    ensures DecideFinalize(cfg, p.core.lineage, pid).0 <==> Shallow(cfg, pid, p)
    ensures LineageOk(pid, p.(core := p.core.(lineage := DecideFinalize(cfg, p.core.lineage, pid).1),
                        callers := Call(p, pid)))
  {
    CallsCount(pid, p);
  }

  lemma CallsCount(pid: Pid, p: Process)
    requires LineageOk(pid, p)
    ensures LineageOk(pid, p.(core := p.core.(lineage := NoteProcess(p.core.lineage, pid)), callers := Call(p, pid)))
    ensures pid != p.core.lineage.pidBind ==>
              NoteProcess(p.core.lineage, pid).intermediateCount == |p.callers + {pid}|
    ensures Call(p, pid) + {pid} == p.callers + {pid}
  {
    if pid in p.callers {
      assert p.callers + {pid} == p.callers;
    } else {
      assert |p.callers + {pid}| == |p.callers| + 1;
    }
  }

  /** Whether or not an open gets as far as deciding, the process stays at its depth. */
  lemma DecideKeepsMode(cfg: Config, pid: Pid, p: Process, q: Process, decided: bool)
    requires LineageOk(pid, p)
    requires q.core.lineage == if decided then DecideFinalize(cfg, p.core.lineage, pid).1 else p.core.lineage
    requires q.callers == if decided && !cfg.disableCheckFinalize then Call(p, pid) else p.callers
    ensures Shallow(cfg, pid, q) <==> Shallow(cfg, pid, p)
    ensures LineageOk(pid, q)
  {
    if decided && !cfg.disableCheckFinalize {
      DecideIsShallow(cfg, pid, p);
      CallsCount(pid, p);
    }
  }

  lemma OpenKeepsMode(cfg: Config, pid: Pid, p: Process, c: ContextId, q: Process,
                      ready: bool, prep: Core, asked: Context, got: Core)
    requires LineageOk(pid, p)
    requires OpenOutcome(cfg, pid, p, c, q, ready, prep, asked, got)
    ensures Shallow(cfg, pid, q) <==> Shallow(cfg, pid, p)
    ensures LineageOk(pid, q)
  {
    DecideKeepsMode(cfg, pid, p, q, ready);
  }

  /** The part of DepthOk that is about the contexts of a process in a given mode. */
  ghost predicate ContextsInMode(shallow: bool, p: Process) {
    && (forall c | Live(p, c) :: p.ctxs[c].finalizePending == shallow)
    && (shallow ==>
          && p.waiting == {}
          && (p.mutex.None? ==> Quiet(p))
          && (forall c: ContextId | Live(p, c) :: p.mutex == Some(c)))
  }

  lemma DepthInParts(cfg: Config, pid: Pid, p: Process)
    ensures DepthOk(cfg, pid, p) <==>
              LineageOk(pid, p) && Rested(p) && ContextsInMode(!cfg.disableCheckFinalize && Shallow(cfg, pid, p), p)
  {
  }

  lemma OpenKeepsRest(cfg: Config, pid: Pid, p: Process, c: ContextId, q: Process,
                      ready: bool, prep: Core, asked: Context, got: Core)
    requires Rested(p) && OpenOutcome(cfg, pid, p, c, q, ready, prep, asked, got)
    ensures Rested(q)
    ensures q.ctxs[c].flagInit ==> q.core.haveInit
  {
  }

  lemma OpenKeepsContexts(cfg: Config, pid: Pid, p: Process, c: ContextId, q: Process,
                          ready: bool, prep: Core, asked: Context, got: Core, shallow: bool)
    requires ContextsInMode(shallow, p) && Rested(p) && c !in p.ctxs && p.mutex.None?
    requires OpenOutcome(cfg, pid, p, c, q, ready, prep, asked, got) && Rested(q)
    requires DecideFinalize(cfg, p.core.lineage, pid).0 == shallow
    ensures ContextsInMode(shallow, q)
  {
  }

  lemma OpenKeepsDepth(cfg: Config, pid: Pid, p: Process, c: ContextId, q: Process,
                       ready: bool, prep: Core, asked: Context, got: Core)
    requires Shaped(cfg, p) && DepthOk(cfg, pid, p) && c !in p.ctxs && p.mutex.None?
    requires OpenOutcome(cfg, pid, p, c, q, ready, prep, asked, got)
    ensures Shallow(cfg, pid, q) <==> Shallow(cfg, pid, p)
    ensures DepthOk(cfg, pid, q)
  {
    OpenKeepsMode(cfg, pid, p, c, q, ready, prep, asked, got);
    OpenKeepsRest(cfg, pid, p, c, q, ready, prep, asked, got);
    if !cfg.disableCheckFinalize {
      DecideIsShallow(cfg, pid, p);
    }
    DepthInParts(cfg, pid, p);
    OpenKeepsContexts(cfg, pid, p, c, q, ready, prep, asked, got, !cfg.disableCheckFinalize && Shallow(cfg, pid, p));
    DepthInParts(cfg, pid, q);
  }

  lemma CloseKeepsRest(cfg: Config, pid: Pid, p: Process, c: ContextId, q: Process,
                       ctx: Context, pending: bool, cached: bool, rest: Context, mid: Core)
    requires Rested(p) && LineageOk(pid, p) && CloseOutcome(cfg, pid, p, c, q, ctx, pending, cached, rest, mid)
    ensures Rested(q) && LineageOk(pid, q) && (Shallow(cfg, pid, q) <==> Shallow(cfg, pid, p))
  {
  }

  lemma CloseKeepsContexts(cfg: Config, pid: Pid, p: Process, c: ContextId, q: Process,
                           ctx: Context, pending: bool, cached: bool, rest: Context, mid: Core, shallow: bool)
    requires ContextsInMode(shallow, p) && InUse(p, c)
    requires ctx == p.ctxs[c].(rvLast := ctx.rvLast, errors := ctx.errors)
    requires CloseOutcome(cfg, pid, p, c, q, ctx, pending, cached, rest, mid)
    ensures ContextsInMode(shallow, q)
  {
    if shallow {
      forall d | d in q.ctxs ensures !Live(q, d) {
        assert Live(p, c) && (d != c && Live(q, d) ==> Live(p, d));
      }
    }
  }

  lemma CloseKeepsDepth(cfg: Config, pid: Pid, p: Process, c: ContextId, q: Process,
                        ctx: Context, pending: bool, cached: bool, rest: Context, mid: Core)
    requires Shaped(cfg, p) && DepthOk(cfg, pid, p) && InUse(p, c)
    requires ctx == p.ctxs[c].(rvLast := ctx.rvLast, errors := ctx.errors)
    requires CloseOutcome(cfg, pid, p, c, q, ctx, pending, cached, rest, mid)
    ensures Shallow(cfg, pid, q) <==> Shallow(cfg, pid, p)
    ensures DepthOk(cfg, pid, q)
  {
    DepthInParts(cfg, pid, p);
    CloseKeepsRest(cfg, pid, p, c, q, ctx, pending, cached, rest, mid);
    CloseKeepsContexts(cfg, pid, p, c, q, ctx, pending, cached, rest, mid,
                       !cfg.disableCheckFinalize && Shallow(cfg, pid, p));
    DepthInParts(cfg, pid, q);
  }

  lemma OpenStepKeepsDepth(cfg: Config, pid: Pid, p: Process, step: Step)
    requires Shaped(cfg, p) && DepthOk(cfg, pid, p) && step.OpenNew? && Enabled(cfg, p, step)
    ensures var q := Apply(cfg, pid, p, step);
            (Shallow(cfg, pid, q) <==> Shallow(cfg, pid, p)) && DepthOk(cfg, pid, q)
  {
    var ready, prep, asked, got := OpenHasOutcome(cfg, pid, p, step.c, step.ndx, step.open);
    OpenKeepsDepth(cfg, pid, p, step.c, Apply(cfg, pid, p, step), ready, prep, asked, got);
  }

  lemma CloseStepKeepsDepth(cfg: Config, pid: Pid, p: Process, step: Step)
    requires Shaped(cfg, p) && DepthOk(cfg, pid, p) && step.Close? && Enabled(cfg, p, step)
    ensures var q := Apply(cfg, pid, p, step);
            (Shallow(cfg, pid, q) <==> Shallow(cfg, pid, p)) && DepthOk(cfg, pid, q)
  {
    var pending, rest, mid := CloseHasOutcome(cfg, pid, p, step);
    CloseKeepsDepth(cfg, pid, p, step.c, Apply(cfg, pid, p, step), RecordError(p.ctxs[step.c], step.rv),
                    pending, CloseCaches(cfg, pid, p, step), rest, mid);
  }

  lemma RetryStepKeepsDepth(cfg: Config, pid: Pid, p: Process, step: Step)
    requires Shaped(cfg, p) && DepthOk(cfg, pid, p) && step.CloseRetry? && Enabled(cfg, p, step)
    ensures var q := Apply(cfg, pid, p, step);
            (Shallow(cfg, pid, q) <==> Shallow(cfg, pid, p)) && DepthOk(cfg, pid, q)
  {
    RetryHasOutcome(cfg, p, step.c, step.recovery);
  }

  lemma SetPendingKeepsDepth(cfg: Config, pid: Pid, p: Process, step: Step)
    requires DepthOk(cfg, pid, p) && step.SetFinalizePending? && Enabled(cfg, p, step)
    ensures var q := Apply(cfg, pid, p, step);
            (Shallow(cfg, pid, q) <==> Shallow(cfg, pid, p)) && DepthOk(cfg, pid, q)
  {
    FiniFacts(cfg, p.core, step.survivors);
  }

  lemma InitKeepsDepth(cfg: Config, pid: Pid, p: Process)
    requires DepthOk(cfg, pid, p)
    ensures var q := Apply(cfg, pid, p, InitEngine);
            (Shallow(cfg, pid, q) <==> Shallow(cfg, pid, p)) && DepthOk(cfg, pid, q)
  {
    CallsCount(pid, p);
  }

  lemma OtherStepKeepsDepth(cfg: Config, pid: Pid, p: Process, step: Step)
    requires Shaped(cfg, p) && DepthOk(cfg, pid, p) && Enabled(cfg, p, step)
    requires !step.OpenNew? && !step.Close? && !step.CloseRetry?
    ensures var q := Apply(cfg, pid, p, step);
            (Shallow(cfg, pid, q) <==> Shallow(cfg, pid, p)) && DepthOk(cfg, pid, q)
  {
    if step.SetFinalizePending? {
      SetPendingKeepsDepth(cfg, pid, p, step);
    } else if step.InitEngine? {
      InitKeepsDepth(cfg, pid, p);
    }
  }

  /** No step moves a process from one mode to the other. */
  lemma StepKeepsDepth(cfg: Config, pid: Pid, p: Process, step: Step)
    requires Shaped(cfg, p) && DepthOk(cfg, pid, p) && Enabled(cfg, p, step)
    ensures var q := Apply(cfg, pid, p, step);
            (Shallow(cfg, pid, q) <==> Shallow(cfg, pid, p)) && DepthOk(cfg, pid, q)
  {
    if step.OpenNew? {
      OpenStepKeepsDepth(cfg, pid, p, step);
    } else if step.Close? {
      CloseStepKeepsDepth(cfg, pid, p, step);
    } else if step.CloseRetry? {
      RetryStepKeepsDepth(cfg, pid, p, step);
    } else {
      OtherStepKeepsDepth(cfg, pid, p, step);
    }
  }

  /** A child is at least as deep as its parent; the child of a shallow process inherits nothing. */
  lemma ForkKeepsDepth(cfg: Config, pid: Pid, p: Process, child: Pid)
    requires Shaped(cfg, p) && DepthOk(cfg, pid, p) && p.mutex.None?
    requires child != NO_PID && child !in p.callers
    requires child != p.core.lineage.pidBind && child != p.core.lineage.pidIntermediate
    ensures Shallow(cfg, child, Child(p)) ==> Shallow(cfg, pid, p)
    ensures DepthOk(cfg, child, Child(p))
  {
    assert |p.callers + {child}| == |p.callers| + 1;
    CallsCount(pid, p);
  }
}
