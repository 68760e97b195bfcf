/** Invariants of one process that hold for every configuration: context life cycle, mutex
    discipline, error severity and passphrase lock-out. */
module SessionInvariants {
  import opened Cryptoki
  import opened SessionCore
  import opened SessionFacts
  import opened SessionOutcomes
  import opened SessionProtocol

  /** A known context is either open or dead, and its stored code is as severe as the worst
      code recorded since the open. */
  ghost predicate ContextOk(c: Context) {
    && c.perSlot < MAX_SLOT
    && c.flagInit != c.flagError
    && Severity(c.rvLast) == MaxSeverity(c.errors)
    && (Severity(c.rvLast) == 0 ==> c.rvLast == CKR_OK)
  }

  /** The mutex is held between steps exactly by the one open context that keeps it. */
  ghost predicate MutexOk(cfg: Config, p: Process) {
    && (forall c | InUse(p, c) && HoldsMutex(cfg, p.ctxs[c]) :: p.mutex == Some(c))
    && (p.mutex.Some? ==> InUse(p, p.mutex.value) && HoldsMutex(cfg, p.ctxs[p.mutex.value]))
  }

  ghost predicate Shaped(cfg: Config, p: Process) {
    && (forall c | c in p.ctxs :: ContextOk(p.ctxs[c]))
    && (forall c | c in p.waiting :: Live(p, c))
    && MutexOk(cfg, p)
    && PassesOk(p.core.token)
  }

  lemma OpenKeepsShape(cfg: Config, pid: Pid, p: Process, c: ContextId, q: Process,
                       ready: bool, prep: Core, asked: Context, got: Core)
    requires Shaped(cfg, p) && c !in p.ctxs && p.mutex.None?
    requires OpenOutcome(cfg, pid, p, c, q, ready, prep, asked, got)
    ensures Shaped(cfg, q)
  {
  }

  lemma RecordKeepsContext(c: Context, rv: ReturnCode)
    requires ContextOk(c)
    ensures ContextOk(RecordError(c, rv))
  {
    assert (c.errors + [rv])[..|c.errors|] == c.errors;
  }

  lemma CloseKeepsShape(cfg: Config, pid: Pid, p: Process, c: ContextId, q: Process,
                        ctx: Context, pending: bool, cached: bool, rest: Context, mid: Core)
    requires Shaped(cfg, p) && InUse(p, c) && (HoldsMutex(cfg, p.ctxs[c]) || p.mutex.None?)
    requires ContextOk(ctx) && ctx == p.ctxs[c].(rvLast := ctx.rvLast, errors := ctx.errors)
    requires CloseOutcome(cfg, pid, p, c, q, ctx, pending, cached, rest, mid)
    ensures Shaped(cfg, q)
  {
  }

  lemma OpenStepKeepsShape(cfg: Config, pid: Pid, p: Process, step: Step)
    requires Shaped(cfg, p) && step.OpenNew? && Enabled(cfg, p, step)
    ensures Shaped(cfg, Apply(cfg, pid, p, step))
  {
    var ready, prep, asked, got := OpenHasOutcome(cfg, pid, p, step.c, step.ndx, step.open);
    OpenKeepsShape(cfg, pid, p, step.c, Apply(cfg, pid, p, step), ready, prep, asked, got);
  }

  lemma CloseStepKeepsShape(cfg: Config, pid: Pid, p: Process, step: Step)
    requires Shaped(cfg, p) && step.Close? && Enabled(cfg, p, step)
    ensures Shaped(cfg, Apply(cfg, pid, p, step))
  {
    var pending, rest, mid := CloseHasOutcome(cfg, pid, p, step);
    RecordKeepsContext(p.ctxs[step.c], step.rv);
    CloseKeepsShape(cfg, pid, p, step.c, Apply(cfg, pid, p, step), RecordError(p.ctxs[step.c], step.rv),
                    pending, CloseCaches(cfg, pid, p, step), rest, mid);
  }

  lemma RetryStepKeepsShape(cfg: Config, pid: Pid, p: Process, step: Step)
    requires Shaped(cfg, p) && step.CloseRetry? && Enabled(cfg, p, step)
    ensures Shaped(cfg, Apply(cfg, pid, p, step))
  {
    RetryHasOutcome(cfg, p, step.c, step.recovery);
  }

  lemma OtherStepKeepsShape(cfg: Config, pid: Pid, p: Process, step: Step)
    requires Shaped(cfg, p) && Enabled(cfg, p, step)
    requires !step.OpenNew? && !step.Close? && !step.CloseRetry?
    ensures Shaped(cfg, Apply(cfg, pid, p, step))
  {
    if step.Record? {
      RecordKeepsContext(p.ctxs[step.c], step.rv);
    } else if step.SetFinalizePending? {
      FiniFacts(cfg, p.core, step.survivors);
    }
  }

  lemma StepKeepsShape(cfg: Config, pid: Pid, p: Process, step: Step)
    requires Shaped(cfg, p) && Enabled(cfg, p, step)
    ensures Shaped(cfg, Apply(cfg, pid, p, step))
  {
    if step.OpenNew? {
      OpenStepKeepsShape(cfg, pid, p, step);
    } else if step.Close? {
      CloseStepKeepsShape(cfg, pid, p, step);
    } else if step.CloseRetry? {
      RetryStepKeepsShape(cfg, pid, p, step);
    } else {
      OtherStepKeepsShape(cfg, pid, p, step);
    }
  }

  lemma ForkKeepsShape(cfg: Config, p: Process)
    requires Shaped(cfg, p) && p.mutex.None?
    ensures Shaped(cfg, Child(p))
  {
  }
}
