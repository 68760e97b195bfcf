/** The activity counters count the contexts in use, so recovery runs only when there is none. */
module SessionCounting {
  import opened Cryptoki
  import opened SessionCore
  import opened SessionFacts
  import opened SessionInvariants
  import opened ForkDepth
  import opened SessionOwnership
  import opened SessionOutcomes
  import opened SessionProtocol

  /** Contexts and the slot of each. */
  type Users = map<ContextId, nat>

  function On(users: Users, slot: nat): set<ContextId> {
    set c | c in users && users[c] == slot
  }

  /** The counters say how many users there are, and how many on each slot. */
  predicate Tally(a: Activity, users: Users) {
    && a.total == |users|
    && a.perSlot.zero == |On(users, 0)|
    && a.perSlot.one == |On(users, 1)|
  }

  lemma JoinTallies(a: Activity, users: Users, c: ContextId, slot: nat)
    requires Tally(a, users) && c !in users && slot < MAX_SLOT
    ensures Tally(CountUp(a, slot), users[c := slot])
  {
    assert On(users[c := slot], slot) == On(users, slot) + {c};
    assert On(users[c := slot], 1 - slot) == On(users, 1 - slot);
  }

  /** The guards of both decrements hold, so the counters go down by exactly the user that leaves. */
  lemma LeaveTallies(a: Activity, users: Users, c: ContextId)
    requires Tally(a, users) && c in users && users[c] < MAX_SLOT
    ensures a.total > 0 && a.perSlot.At(users[c]) > 0
    ensures Tally(CountDown(a, users[c]), users - {c})
  {
    var slot, rest := users[c], users - {c};
    assert rest.Keys == users.Keys - {c};
    assert On(rest, slot) == On(users, slot) - {c};
    assert c in On(users, slot);
    assert On(rest, 1 - slot) == On(users, 1 - slot);
  }

  lemma ZeroTallies(a: Activity, users: Users)
    requires Tally(a, users) && a.total == 0
    ensures users == map[] && a == IDLE
  {
    assert users.Keys == {};
    assert On(users, 0) == {} && On(users, 1) == {};
  }

  lemma NoUsers(users: Users)
    requires users == map[]
    ensures Tally(IDLE, users)
  {
    assert On(users, 0) == {} && On(users, 1) == {};
  }

  lemma TotalIsSum(a: Activity, users: Users)
    requires Tally(a, users) && forall c | c in users :: users[c] < MAX_SLOT
    ensures a.total == a.perSlot.zero + a.perSlot.one
  {
    assert users.Keys == On(users, 0) + On(users, 1);
    assert On(users, 0) !! On(users, 1);
  }

  /** In use, and opened since the counters were last cleared by a fork check. */
  predicate Counts(cfg: Config, p: Process, c: ContextId) {
    InUse(p, c) && (cfg.disableCheckFinalize || p.ctxs[c].pid == p.core.pidCInit)
  }

  function Counted(cfg: Config, p: Process): Users {
    map c | c in p.ctxs && Counts(cfg, p, c) :: p.ctxs[c].perSlot
  }

  /** g_count_activity and the per-slot counters are exact. */
  predicate CountsOk(cfg: Config, p: Process) {
    Tally(p.core.activity, Counted(cfg, p))
  }

  /** A close of a context inherited over a fork that the process has since detected. */
  predicate StaleClose(cfg: Config, p: Process, step: Step) {
    step.Close? && InUse(p, step.c) && !Counts(cfg, p, step.c)
  }

  lemma PrepareKeepsCounts(cfg: Config, pid: Pid, p: Process, ready: bool, prep: Core)
    requires OwnershipOk(cfg, pid, p) && CountsOk(cfg, p) && Prepared(cfg, p.core, pid, ready, prep)
    ensures CountsOk(cfg, p.(core := prep))
  {
    var r := p.(core := prep);
    if ForkSeen(cfg, p.core, pid) {
      assert Counted(cfg, r) == map[];
      NoUsers(Counted(cfg, r));
    } else {
      assert Counted(cfg, r) == Counted(cfg, p);
    }
  }

  /** A context that enters or leaves changes only its own entry. */
  lemma CountedAfter(cfg: Config, p: Process, c: ContextId, q: Process)
    requires c in q.ctxs && q.ctxs == p.ctxs[c := q.ctxs[c]] && q.core.pidCInit == p.core.pidCInit
    requires q.waiting - {c} == p.waiting - {c}
    ensures Counted(cfg, q) == if Counts(cfg, q, c)
                              then Counted(cfg, p)[c := q.ctxs[c].perSlot] else Counted(cfg, p) - {c}
  {
    forall d | d != c ensures Counts(cfg, q, d) <==> Counts(cfg, p, d) {
      assert d in q.waiting - {c} <==> d in p.waiting - {c};
    }
  }

  /** While a shallow process lets a context finalize, it has no other. */
  lemma AloneWhenFinalizing(cfg: Config, pid: Pid, p: Process, c: ContextId, q: Process)
    requires DepthOk(cfg, pid, p) && !cfg.disableCheckFinalize && Shallow(cfg, pid, p)
    requires p.mutex.None? || p.mutex == Some(c)
    requires c in q.ctxs && q.ctxs == p.ctxs[c := q.ctxs[c]] && !q.ctxs[c].flagInit
    ensures Counted(cfg, q) == map[]
  {
    forall d | d in q.ctxs ensures !Counts(cfg, q, d) {
      assert d != c ==> !Live(p, d);
    }
  }

  lemma OpenKeepsCounts(cfg: Config, pid: Pid, p: Process, c: ContextId, q: Process,
                        ready: bool, prep: Core, asked: Context, got: Core)
    requires Shaped(cfg, p) && DepthOk(cfg, pid, p) && OwnershipOk(cfg, pid, p) && CountsOk(cfg, p)
    requires OwnershipOk(cfg, pid, q) && c !in p.ctxs && p.mutex.None?
    requires OpenOutcome(cfg, pid, p, c, q, ready, prep, asked, got)
    ensures CountsOk(cfg, q)
  {
    PrepareKeepsCounts(cfg, pid, p, ready, prep);
    if q.ctxs[c].flagInit {
      OpenedCounts(cfg, pid, p, c, q, ready, prep, asked, got);
    } else {
      NotOpenedCounts(cfg, pid, p, c, q, ready, prep, asked, got);
    }
  }

  lemma NotOpenedCounts(cfg: Config, pid: Pid, p: Process, c: ContextId, q: Process,
                        ready: bool, prep: Core, asked: Context, got: Core)
    requires DepthOk(cfg, pid, p) && c !in p.ctxs && p.mutex.None? && CountsOk(cfg, p.(core := prep))
    requires OpenOutcome(cfg, pid, p, c, q, ready, prep, asked, got) && !q.ctxs[c].flagInit
    ensures CountsOk(cfg, q)
  {
    var r := p.(core := prep);
    CountedAfter(cfg, r, c, q);
    if ready && asked.finalizePending {
      DecideIsShallow(cfg, pid, p);
      AloneWhenFinalizing(cfg, pid, p, c, q);
      NoUsers(Counted(cfg, q));
    } else {
      assert q.core.activity == prep.activity;
      assert Counted(cfg, r) - {c} == Counted(cfg, r);
    }
  }

  lemma OpenedCounts(cfg: Config, pid: Pid, p: Process, c: ContextId, q: Process,
                     ready: bool, prep: Core, asked: Context, got: Core)
    requires Shaped(cfg, p) && OwnershipOk(cfg, pid, q) && c !in p.ctxs && CountsOk(cfg, p.(core := prep))
    requires OpenOutcome(cfg, pid, p, c, q, ready, prep, asked, got) && q.ctxs[c].flagInit
    ensures CountsOk(cfg, q)
  {
    CountedAfter(cfg, p.(core := prep), c, q);
    JoinTallies(prep.activity, Counted(cfg, p.(core := prep)), c, asked.perSlot);
    assert Live(q, c);
  }

  lemma CloseTallies(cfg: Config, pid: Pid, p: Process, c: ContextId, q: Process,
                     ctx: Context, pending: bool, cached: bool, rest: Context, mid: Core)
    requires Shaped(cfg, p) && CountsOk(cfg, p) && Counts(cfg, p, c)
    requires ctx == p.ctxs[c].(rvLast := ctx.rvLast, errors := ctx.errors)
    requires CloseOutcome(cfg, pid, p, c, q, ctx, pending, cached, rest, mid)
    ensures Tally(mid.activity, Counted(cfg, q))
  {
    LeaveTallies(p.core.activity, Counted(cfg, p), c);
    CountedAfter(cfg, p, c, q);
  }

  lemma CloseKeepsCounts(cfg: Config, pid: Pid, p: Process, c: ContextId, q: Process,
                         ctx: Context, pending: bool, cached: bool, rest: Context, mid: Core)
    requires Shaped(cfg, p) && DepthOk(cfg, pid, p) && CountsOk(cfg, p) && Counts(cfg, p, c)
    requires ctx == p.ctxs[c].(rvLast := ctx.rvLast, errors := ctx.errors)
    requires CloseOutcome(cfg, pid, p, c, q, ctx, pending, cached, rest, mid)
    ensures CountsOk(cfg, q)
    ensures Tally(mid.activity, Counted(cfg, q))
  {
    CloseTallies(cfg, pid, p, c, q, ctx, pending, cached, rest, mid);
    if ctx.finalizePending {
      AloneWhenFinalizing(cfg, pid, p, c, q);
      NoUsers(Counted(cfg, q));
    } else if pending && mid.activity.total == 0 {
      ZeroTallies(mid.activity, Counted(cfg, q));
    }
  }

  lemma SameUsers(cfg: Config, p: Process, q: Process)
    requires CountsOk(cfg, p) && q.core.activity == p.core.activity && q.core.pidCInit == p.core.pidCInit
    requires q.waiting == p.waiting && q.ctxs.Keys == p.ctxs.Keys
    requires forall c | c in p.ctxs :: q.ctxs[c] == p.ctxs[c].(rvLast := q.ctxs[c].rvLast, errors := q.ctxs[c].errors)
    ensures CountsOk(cfg, q)
  {
    assert Counted(cfg, q) == Counted(cfg, p);
  }

  lemma CloseStepKeepsCounts(cfg: Config, pid: Pid, p: Process, step: Step)
    requires Shaped(cfg, p) && DepthOk(cfg, pid, p) && CountsOk(cfg, p)
    requires step.Close? && Enabled(cfg, p, step) && Counts(cfg, p, step.c)
    ensures CountsOk(cfg, ApplyClose(cfg, pid, p, step))
  {
    var pending, rest, mid := CloseHasOutcome(cfg, pid, p, step);
    CloseKeepsCounts(cfg, pid, p, step.c, ApplyClose(cfg, pid, p, step), RecordError(p.ctxs[step.c], step.rv),
                     pending, CloseCaches(cfg, pid, p, step), rest, mid);
  }

  lemma OpenStepKeepsCounts(cfg: Config, pid: Pid, p: Process, step: Step)
    requires Shaped(cfg, p) && DepthOk(cfg, pid, p) && OwnershipOk(cfg, pid, p) && CountsOk(cfg, p)
    requires step.OpenNew? && Enabled(cfg, p, step)
    ensures CountsOk(cfg, Apply(cfg, pid, p, step))
  {
    StepKeepsOwnership(cfg, pid, p, step);
    var ready, prep, asked, got := OpenHasOutcome(cfg, pid, p, step.c, step.ndx, step.open);
    OpenKeepsCounts(cfg, pid, p, step.c, Apply(cfg, pid, p, step), ready, prep, asked, got);
  }

  lemma SetPendingKeepsCounts(cfg: Config, pid: Pid, p: Process, step: Step)
    requires Shaped(cfg, p) && CountsOk(cfg, p) && step.SetFinalizePending? && Enabled(cfg, p, step)
    ensures CountsOk(cfg, Apply(cfg, pid, p, step))
  {
    FiniFacts(cfg, p.core, step.survivors);
    ZeroTallies(p.core.activity, Counted(cfg, p));
    SameUsers(cfg, p, Apply(cfg, pid, p, step));
  }

  lemma OtherStepKeepsCounts(cfg: Config, pid: Pid, p: Process, step: Step)
    requires CountsOk(cfg, p) && Enabled(cfg, p, step)
    requires step.OpenAgain? || step.Record? || step.InitEngine? || step.StorePassword?
    ensures CountsOk(cfg, Apply(cfg, pid, p, step))
  {
    SameUsers(cfg, p, Apply(cfg, pid, p, step));
  }

  lemma StepKeepsCounts(cfg: Config, pid: Pid, p: Process, step: Step)
    requires Shaped(cfg, p) && DepthOk(cfg, pid, p) && OwnershipOk(cfg, pid, p)
    requires CountsOk(cfg, p) && Enabled(cfg, p, step) && !StaleClose(cfg, p, step)
    ensures CountsOk(cfg, Apply(cfg, pid, p, step))
  {
    if step.OpenNew? {
      OpenStepKeepsCounts(cfg, pid, p, step);
    } else if step.Close? {
      CloseStepKeepsCounts(cfg, pid, p, step);
    } else if step.CloseRetry? {
      RetryKeepsCounts(cfg, p, step.c, step.recovery);
    } else if step.SetFinalizePending? {
      SetPendingKeepsCounts(cfg, pid, p, step);
    } else {
      OtherStepKeepsCounts(cfg, pid, p, step);
    }
  }

  lemma RetryKeepsCounts(cfg: Config, p: Process, c: ContextId, e: RecoveryEnv)
    requires Shaped(cfg, p) && CountsOk(cfg, p) && c in p.waiting && c in p.ctxs
    ensures CountsOk(cfg, ApplyRetry(cfg, p, c, e))
  {
    RetryHasOutcome(cfg, p, c, e);
    if p.core.activity.total == 0 {
      ZeroTallies(p.core.activity, Counted(cfg, p));
      assert Counted(cfg, ApplyRetry(cfg, p, c, e)) == Counted(cfg, p);
    }
  }

  lemma ForkKeepsCounts(cfg: Config, p: Process)
    requires CountsOk(cfg, p)
    ensures CountsOk(cfg, Child(p))
  {
    assert Counted(cfg, Child(p)) == Counted(cfg, p);
  }

  /** From exact counters a close keeps them exact if and only if the context is one that they
      count, or they were zero. */
  lemma CloseIsExact(cfg: Config, pid: Pid, p: Process, step: Step)
    requires Shaped(cfg, p) && DepthOk(cfg, pid, p) && OwnershipOk(cfg, pid, p) && CountsOk(cfg, p)
    requires step.Close? && Enabled(cfg, p, step)
    ensures CountsOk(cfg, Apply(cfg, pid, p, step)) <==> Counts(cfg, p, step.c) || p.core.activity.total == 0
  {
    if Counts(cfg, p, step.c) {
      StepKeepsCounts(cfg, pid, p, step);
    } else {
      StaleCloseCounts(cfg, pid, p, step);
    }
  }

  lemma StaleCloseCounts(cfg: Config, pid: Pid, p: Process, step: Step)
    requires Shaped(cfg, p) && DepthOk(cfg, pid, p) && OwnershipOk(cfg, pid, p) && CountsOk(cfg, p)
    requires Enabled(cfg, p, step) && StaleClose(cfg, p, step)
    ensures CountsOk(cfg, ApplyClose(cfg, pid, p, step)) <==> p.core.activity.total == 0
  {
    var q := ApplyClose(cfg, pid, p, step);
    StaleCloseCountsDown(cfg, pid, p, step);
    if p.core.activity.total == 0 {
      ZeroTallies(p.core.activity, Counted(cfg, p));
      NoUsers(Counted(cfg, q));
    }
  }

  lemma StaleCloseCountsDown(cfg: Config, pid: Pid, p: Process, step: Step)
    requires Enabled(cfg, p, step) && StaleClose(cfg, p, step)
    ensures var q := ApplyClose(cfg, pid, p, step);
            && Counted(cfg, q) == Counted(cfg, p)
            && (p.core.activity.total > 0 ==> q.core.activity.total < p.core.activity.total)
            && (p.core.activity == IDLE ==> q.core.activity == IDLE)
  {
    var pending, rest, mid := CloseHasOutcome(cfg, pid, p, step);
    CountedAfter(cfg, p, step.c, ApplyClose(cfg, pid, p, step));
    assert Counted(cfg, p) - {step.c} == Counted(cfg, p);
  }

  /** A close that the counters can bear: of a context that they count, or while they are zero. */
  predicate Harmless(cfg: Config, p: Process, step: Step) {
    StaleClose(cfg, p, step) ==> p.core.activity.total == 0
  }

  /** From exact counters every step keeps them exact if and only if it is harmless. */
  lemma StepCountsExactly(cfg: Config, pid: Pid, p: Process, step: Step)
    requires Shaped(cfg, p) && DepthOk(cfg, pid, p) && OwnershipOk(cfg, pid, p) && CountsOk(cfg, p)
    requires Enabled(cfg, p, step)
    ensures CountsOk(cfg, Apply(cfg, pid, p, step)) <==> Harmless(cfg, p, step)
  {
    if StaleClose(cfg, p, step) {
      StaleCloseCounts(cfg, pid, p, step);
    } else {
      StepKeepsCounts(cfg, pid, p, step);
    }
  }
}
