/** What holds in every run: of any number of processes, threads and forks. */
module SessionTheorems {
  import opened Cryptoki
  import opened SessionCore
  import opened SessionFacts
  import opened SessionInvariants
  import opened ForkDepth
  import opened SessionOwnership
  import opened SessionCounting
  import opened SessionOutcomes
  import opened SessionProtocol

  /** Every process id in p's memory is one of pids, or none. */
  predicate KnowsOnly(pids: set<Pid>, p: Process) {
    && p.core.lineage.pidBind in pids
    && p.core.lineage.pidIntermediate in pids + {NO_PID}
    && p.core.pidCInit in pids + {NO_PID}
    && p.callers <= pids
    && forall c | c in p.ctxs :: p.ctxs[c].pid in pids + {NO_PID}
  }

  ghost predicate ProcessOk(cfg: Config, pid: Pid, p: Process) {
    Shaped(cfg, p) && DepthOk(cfg, pid, p) && OwnershipOk(cfg, pid, p)
  }

  lemma StepKnowsOnly(cfg: Config, pid: Pid, p: Process, step: Step, pids: set<Pid>)
    requires KnowsOnly(pids, p) && pid in pids && Enabled(cfg, p, step)
    ensures KnowsOnly(pids, Apply(cfg, pid, p, step))
  {
    match step
    case OpenNew(c, ndx, e) =>
      var ready, prep, asked, got := OpenHasOutcome(cfg, pid, p, c, ndx, e);
      OpenKnowsOnly(cfg, pid, p, c, ApplyOpen(cfg, pid, p, c, ndx, e), ready, prep, asked, got, pids);
    case Close(c, _, rv, _, _, _) => var pending, rest, mid := CloseHasOutcome(cfg, pid, p, step);
    case CloseRetry(c, e) => RetryHasOutcome(cfg, p, c, e);
    case SetFinalizePending(survivors) => FiniFacts(cfg, p.core, survivors);
    case _ =>
  }

  lemma OpenKnowsOnly(cfg: Config, pid: Pid, p: Process, c: ContextId, q: Process,
                      ready: bool, prep: Core, asked: Context, got: Core, pids: set<Pid>)
    requires KnowsOnly(pids, p) && pid in pids
    requires OpenOutcome(cfg, pid, p, c, q, ready, prep, asked, got)
    ensures KnowsOnly(pids, q)
  {
    OpenKnowsCore(cfg, pid, p, c, q, ready, prep, asked, got);
    OpenKnowsContext(cfg, pid, p, c, q, ready, prep, asked, got);
  }

  lemma OpenKnowsCore(cfg: Config, pid: Pid, p: Process, c: ContextId, q: Process,
                      ready: bool, prep: Core, asked: Context, got: Core)
    requires OpenOutcome(cfg, pid, p, c, q, ready, prep, asked, got)
    ensures q.core.lineage.pidBind == p.core.lineage.pidBind
    ensures q.core.lineage.pidIntermediate in {p.core.lineage.pidIntermediate, pid}
    ensures q.core.pidCInit in {p.core.pidCInit, pid}
  {
    DecideKnowsOnly(cfg, p.core.lineage, pid);
  }

  lemma OpenKnowsContext(cfg: Config, pid: Pid, p: Process, c: ContextId, q: Process,
                         ready: bool, prep: Core, asked: Context, got: Core)
    requires OpenOutcome(cfg, pid, p, c, q, ready, prep, asked, got)
    ensures q.ctxs[c].pid in {NO_PID, pid}
    ensures q.callers <= p.callers + {pid}
    ensures forall d | d in q.ctxs && d != c :: d in p.ctxs && q.ctxs[d] == p.ctxs[d]
  {
  }

  lemma DecideKnowsOnly(cfg: Config, l: Lineage, pid: Pid)
    ensures var r := DecideFinalize(cfg, l, pid).1;
            r.pidBind == l.pidBind && r.pidIntermediate in {l.pidIntermediate, pid}
  {
  }

  lemma StepKeepsProcess(cfg: Config, pid: Pid, p: Process, step: Step)
    requires ProcessOk(cfg, pid, p) && Enabled(cfg, p, step)
    ensures ProcessOk(cfg, pid, Apply(cfg, pid, p, step))
  {
    StepKeepsShape(cfg, pid, p, step);
    StepKeepsDepth(cfg, pid, p, step);
    StepKeepsOwnership(cfg, pid, p, step);
  }

  lemma ForkKeepsProcess(cfg: Config, pid: Pid, p: Process, pids: set<Pid>, child: Pid)
    requires ProcessOk(cfg, pid, p) && KnowsOnly(pids, p) && p.mutex.None?
    requires child !in pids && child != NO_PID
    ensures ProcessOk(cfg, child, Child(p)) && KnowsOnly(pids + {child}, Child(p))
  {
    ForkKeepsShape(cfg, p);
    ForkKeepsDepth(cfg, pid, p, child);
    ForkKeepsOwnership(cfg, pid, p, child);
  }

  lemma InitialIsOk(cfg: Config, root: Pid)
    requires root != NO_PID
    ensures ProcessOk(cfg, root, Initial(root)) && CountsOk(cfg, Initial(root)) && KnowsOnly({root}, Initial(root))
  {
    NoUsers(Counted(cfg, Initial(root)));
  }

  /** The process that pid was before the last step of a run: itself, or its parent. */
  function Origin(last: SystemStep, pid: Pid): Pid {
    if last.Fork? && pid == last.child then last.pid else pid
  }

  /** All process invariants hold at the end of every run. */
  lemma {:induction false} RunIsOk(cfg: Config, root: Pid, steps: seq<SystemStep>, sys: System, pid: Pid)
    requires Run(cfg, root, steps, sys) && pid in sys
    ensures ProcessOk(cfg, pid, sys[pid]) && KnowsOnly(sys.Keys, sys[pid])
  {
    if steps == [] {
      InitialIsOk(cfg, root);
    } else {
      var front, last := steps[..|steps| - 1], steps[|steps| - 1];
      var before := Exec(cfg, root, front).value;
      var from := Origin(last, pid);
      RunIsOk(cfg, root, front, before, from);
      if from != pid {
        ForkKeepsProcess(cfg, from, before[from], before.Keys, pid);
        assert sys.Keys == before.Keys + {pid};
      } else if last.Local? && last.pid == pid {
        StepKeepsProcess(cfg, pid, before[pid], last.step);
        StepKnowsOnly(cfg, pid, before[pid], last.step, before.Keys);
        assert sys.Keys == before.Keys;
      } else {
        assert before.Keys <= sys.Keys && sys[pid] == before[pid];
      }
    }
  }

  /** Whenever a process of the run closes a context inherited over a fork that it has detected, its
      activity is zero. */
  predicate HarmlessCloses(cfg: Config, root: Pid, steps: seq<SystemStep>) {
    steps == [] ||
    var front, last := steps[..|steps| - 1], steps[|steps| - 1];
    && HarmlessCloses(cfg, root, front)
    && match Exec(cfg, root, front)
       case Some(sys) => HarmlessLast(cfg, sys, last)
       case None => true
  }

  predicate HarmlessLast(cfg: Config, sys: System, last: SystemStep) {
    last.Local? && last.pid in sys ==> Harmless(cfg, sys[last.pid], last.step)
  }

  /** In every run whose closes are harmless the counters are exact in every process. */
  lemma {:induction false} RunCounts(cfg: Config, root: Pid, steps: seq<SystemStep>, sys: System, pid: Pid)
    requires Run(cfg, root, steps, sys) && HarmlessCloses(cfg, root, steps) && pid in sys
    ensures CountsOk(cfg, sys[pid])
    ensures var a := sys[pid].core.activity; a.total == a.perSlot.zero + a.perSlot.one
  {
    if steps == [] {
      InitialIsOk(cfg, root);
    } else {
      var front, last := steps[..|steps| - 1], steps[|steps| - 1];
      var before := Exec(cfg, root, front).value;
      var from := Origin(last, pid);
      RunIsOk(cfg, root, front, before, from);
      RunCounts(cfg, root, front, before, from);
      LastCounts(cfg, before, last, pid);
    }
    RunIsOk(cfg, root, steps, sys, pid);
    TotalIsSum(sys[pid].core.activity, Counted(cfg, sys[pid]));
  }

  lemma LastCounts(cfg: Config, before: System, last: SystemStep, pid: Pid)
    requires SystemEnabled(cfg, before, last) && HarmlessLast(cfg, before, last)
    requires pid in SystemApply(cfg, before, last)
    requires var from := Origin(last, pid);
             from in before && ProcessOk(cfg, from, before[from]) && CountsOk(cfg, before[from])
    ensures CountsOk(cfg, SystemApply(cfg, before, last)[pid])
  {
    if last.Fork? && pid == last.child {
      ForkKeepsCounts(cfg, before[last.pid]);
    } else if last.Local? && pid == last.pid {
      StepCountsExactly(cfg, pid, before[pid], last.step);
    }
  }

  /** After every prefix of the run the counters are exact in every process. */
  ghost predicate CountsThroughout(cfg: Config, root: Pid, steps: seq<SystemStep>) {
    && (steps == [] || CountsThroughout(cfg, root, steps[..|steps| - 1]))
    && match Exec(cfg, root, steps)
       case Some(sys) => forall pid | pid in sys :: CountsOk(cfg, sys[pid])
       case None => true
  }

  /** The counters are exact throughout a run if and only if its closes are harmless. */
  lemma CountsExactly(cfg: Config, root: Pid, steps: seq<SystemStep>, sys: System)
    requires Run(cfg, root, steps, sys)
    ensures CountsThroughout(cfg, root, steps) <==> HarmlessCloses(cfg, root, steps)
  {
    if HarmlessCloses(cfg, root, steps) {
      HarmlessCount(cfg, root, steps, sys);
    }
    if CountsThroughout(cfg, root, steps) {
      CountingIsHarmless(cfg, root, steps, sys);
    }
  }

  lemma {:induction false} HarmlessCount(cfg: Config, root: Pid, steps: seq<SystemStep>, sys: System)
    requires Run(cfg, root, steps, sys) && HarmlessCloses(cfg, root, steps)
    ensures CountsThroughout(cfg, root, steps)
  {
    forall pid | pid in sys ensures CountsOk(cfg, sys[pid]) {
      RunCounts(cfg, root, steps, sys, pid);
    }
    if steps == [] {
    } else {
      var front := steps[..|steps| - 1];
      HarmlessCount(cfg, root, front, Exec(cfg, root, front).value);
    }
  }

  lemma {:induction false} CountingIsHarmless(cfg: Config, root: Pid, steps: seq<SystemStep>, sys: System)
    requires Run(cfg, root, steps, sys) && CountsThroughout(cfg, root, steps)
    ensures HarmlessCloses(cfg, root, steps)
  {
    if steps == [] {
    } else {
      var front, last := steps[..|steps| - 1], steps[|steps| - 1];
      var before := Exec(cfg, root, front).value;
      CountingIsHarmless(cfg, root, front, before);
      if last.Local? {
        RunIsOk(cfg, root, front, before, last.pid);
        LastIsHarmless(cfg, root, front, before, last, sys);
      }
    }
  }

  lemma LastIsHarmless(cfg: Config, root: Pid, front: seq<SystemStep>, before: System, last: SystemStep, sys: System)
    requires last.Local? && SystemEnabled(cfg, before, last) && sys == SystemApply(cfg, before, last)
    requires ProcessOk(cfg, last.pid, before[last.pid])
    requires Exec(cfg, root, front) == Some(before) && CountsThroughout(cfg, root, front)
    requires CountsOk(cfg, sys[last.pid])
    ensures HarmlessLast(cfg, before, last)
  {
    assert CountsOk(cfg, before[last.pid]);
    StepCountsExactly(cfg, last.pid, before[last.pid], last.step);
  }

  /** Whether an open works with a library that this process has initialized itself: forks are detected,
      or it already has, or there is none yet. */
  predicate OwnLibrary(cfg: Config, pid: Pid, s: Core) {
    Watched(cfg, pid, s) || !s.haveInit
  }

  /** The session of the open context c was opened by this very process in the current generation of the
      library that it has initialized; it is neither cached nor the session of another current context. */
  ghost predicate SafeSession(pid: Pid, q: Process, c: ContextId)
    requires c in q.ctxs
  {
    var h := q.ctxs[c].hSession;
    && q.core.haveInit && q.core.pidCInit == pid
    && q.ctxs[c].pid == pid && q.ctxs[c].generation == q.core.generation
    && h in q.core.token.sessions && q.core.token.sessions[h] == q.core.generation
    && h !in q.core.caches.zero && h !in q.core.caches.one
    && forall d | d != c && d in Held(q) :: Held(q)[d] != h
  }

  lemma OpenIsSafe(cfg: Config, pid: Pid, p: Process, c: ContextId, ndx: nat, e: OpenEnv)
    requires ProcessOk(cfg, pid, p) && OwnLibrary(cfg, pid, p.core) && Enabled(cfg, p, OpenNew(c, ndx, e))
    requires ApplyOpen(cfg, pid, p, c, ndx, e).ctxs[c].flagInit
    ensures var q := ApplyOpen(cfg, pid, p, c, ndx, e);
            && q.core.pidCInit == pid && Current(q, c) && q.ctxs[c].pid == pid
            && c in Held(q) && Exclusive(q.core.caches, Held(q))
            && Owned(q.core.caches, Held(q), q.core.token.sessions, q.core.generation)
  {
    var ready, prep, asked, got := OpenHasOutcome(cfg, pid, p, c, ndx, e);
    PrepareSettles(cfg, pid, p, ready, prep);
    OpenKeepsOwnership(cfg, pid, p, c, ApplyOpen(cfg, pid, p, c, ndx, e), ready, prep, asked, got);
  }

  /** An open does not take over a library that the process has inherited and goes on with. */
  lemma InheritedStaysForeign(cfg: Config, pid: Pid, p: Process, c: ContextId, ndx: nat, e: OpenEnv)
    requires Enabled(cfg, p, OpenNew(c, ndx, e)) && !OwnLibrary(cfg, pid, p.core)
    ensures ApplyOpen(cfg, pid, p, c, ndx, e).core.pidCInit != pid
  {
    var ready, prep, asked, got := OpenHasOutcome(cfg, pid, p, c, ndx, e);
  }

  /** Whatever was inherited and whatever was closed before, the session of a newly opened context is
      safe, if and only if the process works with a library of its own. */
  lemma ForkSafety(cfg: Config, root: Pid, steps: seq<SystemStep>, sys: System,
                   pid: Pid, c: ContextId, ndx: nat, e: OpenEnv)
    requires Run(cfg, root, steps, sys) && pid in sys
    requires Enabled(cfg, sys[pid], OpenNew(c, ndx, e))
    ensures var q := ApplyOpen(cfg, pid, sys[pid], c, ndx, e);
            q.ctxs[c].flagInit ==> (SafeSession(pid, q, c) <==> OwnLibrary(cfg, pid, sys[pid].core))
  {
    RunIsOk(cfg, root, steps, sys, pid);
    var q := ApplyOpen(cfg, pid, sys[pid], c, ndx, e);
    if q.ctxs[c].flagInit {
      if OwnLibrary(cfg, pid, sys[pid].core) {
        OpenIsSafe(cfg, pid, sys[pid], c, ndx, e);
        assert Held(q)[c] == q.ctxs[c].hSession;
      } else {
        InheritedStaysForeign(cfg, pid, sys[pid], c, ndx, e);
      }
    }
  }

  /** In a process that is watched for forks, no session handle is in two places; once the process
      has initialized the library itself, every handle in a cache or in a current context is open
      in the HSM for this process and this generation. Without an initialized library there are
      no cached handles, so initializing the caches drops none. */
  lemma SessionsAreOwned(cfg: Config, root: Pid, steps: seq<SystemStep>, sys: System, pid: Pid)
    requires Run(cfg, root, steps, sys) && pid in sys
    ensures Watched(cfg, pid, sys[pid].core) ==> Exclusive(sys[pid].core.caches, Held(sys[pid]))
    ensures pid == sys[pid].core.pidCInit ==>
              Owned(sys[pid].core.caches, Held(sys[pid]), sys[pid].core.token.sessions, sys[pid].core.generation)
    ensures !sys[pid].core.haveInit ==> sys[pid].core.caches == NO_CACHES
  {
    RunIsOk(cfg, root, steps, sys, pid);
  }

  /** The processes from root down to pid along the forks of a run. */
  function Chain(steps: seq<SystemStep>, pid: Pid): set<Pid> {
    if steps == [] then {pid}
    else
      var front, last := steps[..|steps| - 1], steps[|steps| - 1];
      if last.Fork? && last.child == pid then Chain(front, last.pid) + {pid} else Chain(front, pid)
  }

  lemma {:induction false} SelfOnChain(steps: seq<SystemStep>, pid: Pid)
    ensures pid in Chain(steps, pid)
  {
    if steps == [] {
    } else {
      SelfOnChain(steps[..|steps| - 1], pid);
    }
  }

  /** Whether the step has its process call the engine: it is initialized, or an open gets as far as
      deciding what to do on close. */
  predicate CallsEngine(cfg: Config, p: Process, pid: Pid, step: Step) {
    step.InitEngine? || (step.OpenNew? && OpenCalls(cfg, p.core, pid, step.open))
  }

  /** The processes below root, from there down to pid, that called the engine in a run before the
      next one of them, or pid itself, was forked. */
  function Callers(cfg: Config, root: Pid, steps: seq<SystemStep>, pid: Pid): set<Pid> {
    if steps == [] then {}
    else
      var front, last := steps[..|steps| - 1], steps[|steps| - 1];
      var before := Exec(cfg, root, front);
      if last.Fork? && last.child == pid then Callers(cfg, root, front, last.pid)
      else if last.Local? && last.pid == pid && pid != root
              && before.Some? && pid in before.value && CallsEngine(cfg, before.value[pid], pid, last.step) then
        Callers(cfg, root, front, pid) + {pid}
      else Callers(cfg, root, front, pid)
  }

  lemma {:induction false} CallersAreOnChain(cfg: Config, root: Pid, steps: seq<SystemStep>, pid: Pid)
    ensures Callers(cfg, root, steps, pid) <= Chain(steps, pid) - {root}
  {
    if steps == [] {
    } else {
      var front, last := steps[..|steps| - 1], steps[|steps| - 1];
      CallersAreOnChain(cfg, root, front, Origin(last, pid));
      SelfOnChain(steps, pid);
    }
  }

  /** pid_intermediate_count is the number of processes that called the engine, among those on the
      fork chain below the one that bound it. */
  lemma {:induction false} DepthCountsCallers(cfg: Config, root: Pid, steps: seq<SystemStep>, sys: System, pid: Pid)
    requires Run(cfg, root, steps, sys) && pid in sys
    ensures sys[pid].core.lineage.pidBind == root
    ensures sys[pid].callers == Callers(cfg, root, steps, pid)
    ensures sys[pid].core.lineage.intermediateCount == |Callers(cfg, root, steps, pid)|
  {
    RunIsOk(cfg, root, steps, sys, pid);
    if steps == [] {
    } else {
      var front, last := steps[..|steps| - 1], steps[|steps| - 1];
      var before := Exec(cfg, root, front).value;
      DepthCountsCallers(cfg, root, front, before, Origin(last, pid));
      if last.Local? && last.pid == pid {
        CallersGrowByCaller(cfg, pid, before[pid], last.step);
      }
    }
  }

  lemma CallersGrowByCaller(cfg: Config, pid: Pid, p: Process, step: Step)
    requires Enabled(cfg, p, step)
    ensures var q := Apply(cfg, pid, p, step);
            && q.core.lineage.pidBind == p.core.lineage.pidBind
            && q.callers == if CallsEngine(cfg, p, pid, step) then Call(p, pid) else p.callers
  {
    if step.OpenNew? {
      OpenGrowsCallers(cfg, pid, p, step);
    } else if step.Close? {
      var pending, rest, mid := CloseHasOutcome(cfg, pid, p, step);
    } else if step.CloseRetry? {
      RetryHasOutcome(cfg, p, step.c, step.recovery);
    }
  }

  lemma OpenGrowsCallers(cfg: Config, pid: Pid, p: Process, step: Step)
    requires step.OpenNew? && Enabled(cfg, p, step)
    ensures var q := Apply(cfg, pid, p, step);
            && q.core.lineage.pidBind == p.core.lineage.pidBind
            && q.callers == if CallsEngine(cfg, p, pid, step) then Call(p, pid) else p.callers
  {
    var ready, prep, asked, got := OpenHasOutcome(cfg, pid, p, step.c, step.ndx, step.open);
    DecideKnowsOnly(cfg, p.core.lineage, pid);
  }

  /** A run that goes on takes its last step from a run. */
  lemma LastOfMore(cfg: Config, root: Pid, steps: seq<SystemStep>, more: seq<SystemStep>, later: System)
    returns (before: System)
    requires Run(cfg, root, steps + more, later) && more != []
    ensures Run(cfg, root, steps + more[..|more| - 1], before)
    ensures SystemEnabled(cfg, before, more[|more| - 1]) && later == SystemApply(cfg, before, more[|more| - 1])
  {
    assert (steps + more)[..|steps + more| - 1] == steps + more[..|more| - 1];
    before := Exec(cfg, root, steps + more[..|more| - 1]).value;
  }

  /** A process never changes its mode: it finalizes after every use, or never does. */
  lemma {:induction false} ModeIsConstant(cfg: Config, root: Pid, steps: seq<SystemStep>, sys: System,
                                          more: seq<SystemStep>, later: System, pid: Pid)
    requires Run(cfg, root, steps, sys) && Run(cfg, root, steps + more, later) && pid in sys
    ensures pid in later && (Shallow(cfg, pid, later[pid]) <==> Shallow(cfg, pid, sys[pid]))
  {
    if more == [] {
      assert steps + more == steps;
    } else {
      var front, last := more[..|more| - 1], more[|more| - 1];
      var before := LastOfMore(cfg, root, steps, more, later);
      ModeIsConstant(cfg, root, steps, sys, front, before, pid);
      RunIsOk(cfg, root, steps + front, before, pid);
      if last.Local? && last.pid == pid {
        StepKeepsDepth(cfg, pid, before[pid], last.step);
      }
    }
  }

  /** Whether the step runs a recovery login or a finalization that waits for idleness. */
  predicate RunsWhenIdle(cfg: Config, pid: Pid, p: Process, step: Step)
    requires Enabled(cfg, p, step)
  {
    match step
    case Close(c, flagErr, rv, closed, _, _) =>
      var (pending, _, mid) := Release(cfg, p.core, RecordError(p.ctxs[c], rv), pid, flagErr || rv != CKR_OK, closed);
      !p.ctxs[c].finalizePending && pending && mid.activity.total == 0
    case CloseRetry(_, _) => p.core.activity.total == 0
    case SetFinalizePending(_) => true
    case _ => false
  }

  /** The context that a step closes. */
  function Closing(step: Step): set<ContextId> {
    if step.Close? then {step.c} else {}
  }

  /** From exact counters, a step that waits for idleness finds no context counted but the one that it
      closes, and leaves none, if and only if it is harmless. */
  lemma IdleStepIsAlone(cfg: Config, pid: Pid, p: Process, step: Step)
    requires ProcessOk(cfg, pid, p) && CountsOk(cfg, p) && Enabled(cfg, p, step) && RunsWhenIdle(cfg, pid, p, step)
    ensures Counted(cfg, p).Keys <= Closing(step) <==> Harmless(cfg, p, step)
    ensures Counted(cfg, Apply(cfg, pid, p, step)) == map[] <==> Harmless(cfg, p, step)
  {
    if Harmless(cfg, p, step) {
      HarmlessStepIsAlone(cfg, pid, p, step);
    } else {
      StaleCloseCountsDown(cfg, pid, p, step);
      assert step.c !in Counted(cfg, p);
      assert Counted(cfg, p).Keys != {};
    }
  }

  lemma HarmlessStepIsAlone(cfg: Config, pid: Pid, p: Process, step: Step)
    requires ProcessOk(cfg, pid, p) && CountsOk(cfg, p) && Enabled(cfg, p, step)
    requires Harmless(cfg, p, step) && RunsWhenIdle(cfg, pid, p, step)
    ensures Counted(cfg, p).Keys == if step.Close? && Counts(cfg, p, step.c) then {step.c} else {}
    ensures Counted(cfg, Apply(cfg, pid, p, step)) == map[]
  {
    if step.Close? && Counts(cfg, p, step.c) {
      LastCloseIsAlone(cfg, pid, p, step);
    } else {
      ZeroTallies(p.core.activity, Counted(cfg, p));
      if step.Close? {
        StaleCloseCountsDown(cfg, pid, p, step);
      } else {
        IdleStepAddsNone(cfg, pid, p, step);
      }
    }
  }

  lemma LastCloseIsAlone(cfg: Config, pid: Pid, p: Process, step: Step)
    requires ProcessOk(cfg, pid, p) && CountsOk(cfg, p) && step.Close? && Enabled(cfg, p, step)
    requires Counts(cfg, p, step.c) && RunsWhenIdle(cfg, pid, p, step)
    ensures Counted(cfg, p).Keys == {step.c} && Counted(cfg, ApplyClose(cfg, pid, p, step)) == map[]
  {
    IdleCloseEnds(cfg, pid, p, step);
    EndedIsAlone(cfg, pid, p, step);
  }

  lemma IdleCloseEnds(cfg: Config, pid: Pid, p: Process, step: Step)
    requires step.Close? && Enabled(cfg, p, step) && RunsWhenIdle(cfg, pid, p, step)
    ensures CountDown(p.core.activity, p.ctxs[step.c].perSlot).total == 0
  {
    ReleaseFacts(cfg, p.core, RecordError(p.ctxs[step.c], step.rv), pid,
                 step.flagErr || step.rv != CKR_OK, step.closed);
  }

  lemma EndedIsAlone(cfg: Config, pid: Pid, p: Process, step: Step)
    requires Shaped(cfg, p) && CountsOk(cfg, p) && step.Close? && Enabled(cfg, p, step) && Counts(cfg, p, step.c)
    requires CountDown(p.core.activity, p.ctxs[step.c].perSlot).total == 0
    ensures Counted(cfg, p).Keys == {step.c} && Counted(cfg, ApplyClose(cfg, pid, p, step)) == map[]
  {
    var users := Counted(cfg, p);
    LeaveTallies(p.core.activity, users, step.c);
    ZeroTallies(CountDown(p.core.activity, p.ctxs[step.c].perSlot), users - {step.c});
    assert users.Keys == (users - {step.c}).Keys + {step.c};
    ClosedNoLongerCounts(cfg, pid, p, step);
  }

  lemma ClosedNoLongerCounts(cfg: Config, pid: Pid, p: Process, step: Step)
    requires step.Close? && Enabled(cfg, p, step)
    ensures forall c | c in Counted(cfg, ApplyClose(cfg, pid, p, step)) :: c in Counted(cfg, p) - {step.c}
  {
    var q := ApplyClose(cfg, pid, p, step);
    var pending, rest, mid := CloseHasOutcome(cfg, pid, p, step);
    CountedAfter(cfg, p, step.c, q);
  }

  lemma IdleStepAddsNone(cfg: Config, pid: Pid, p: Process, step: Step)
    requires Enabled(cfg, p, step) && RunsWhenIdle(cfg, pid, p, step) && !step.Close?
    requires Counted(cfg, p) == map[]
    ensures Counted(cfg, Apply(cfg, pid, p, step)) == map[]
  {
    var q := Apply(cfg, pid, p, step);
    if step.CloseRetry? {
      RetryHasOutcome(cfg, p, step.c, step.recovery);
    } else {
      FiniFacts(cfg, p.core, step.survivors);
    }
    forall c | c in q.ctxs ensures !Counts(cfg, q, c) {
      assert c !in Counted(cfg, p);
    }
  }

  /** As long as the closes of a run were harmless, a recovery action or a waiting finalization runs when
      no other context is in use, and leaves none in use, if and only if the step that runs it is
      harmless as well; for any number of threads and of simultaneous recoverers. */
  lemma RecoveryRunsAlone(cfg: Config, root: Pid, steps: seq<SystemStep>, sys: System, pid: Pid, step: Step)
    requires Run(cfg, root, steps, sys) && HarmlessCloses(cfg, root, steps) && pid in sys
    requires Enabled(cfg, sys[pid], step) && RunsWhenIdle(cfg, pid, sys[pid], step)
    ensures Counted(cfg, sys[pid]).Keys <= Closing(step) <==> Harmless(cfg, sys[pid], step)
    ensures Counted(cfg, Apply(cfg, pid, sys[pid], step)) == map[] <==> Harmless(cfg, sys[pid], step)
  {
    RunIsOk(cfg, root, steps, sys, pid);
    RunCounts(cfg, root, steps, sys, pid);
    IdleStepIsAlone(cfg, pid, sys[pid], step);
  }

  /** In the process pid, recovery is under way after n steps and before each later one. */
  predicate RecoveringFrom(cfg: Config, root: Pid, steps: seq<SystemStep>, n: nat, pid: Pid) {
    n < |steps| ==>
      && RecoveringFrom(cfg, root, steps[..|steps| - 1], n, pid)
      && match Exec(cfg, root, steps[..|steps| - 1])
         case Some(sys) => pid in sys && sys[pid].core.recovering
         case None => false
  }

  /** Over any stretch of a run in which the recovery flag of a process is set, its activity does not
      rise and no context of it comes to life. */
  lemma {:induction false} RecoveryBlocksOpens(cfg: Config, root: Pid, steps: seq<SystemStep>, sys: System,
                                               more: seq<SystemStep>, later: System, pid: Pid)
    requires Run(cfg, root, steps, sys) && Run(cfg, root, steps + more, later) && pid in sys
    requires RecoveringFrom(cfg, root, steps + more, |steps|, pid)
    ensures pid in later && later[pid].core.activity.total <= sys[pid].core.activity.total
    ensures forall c: ContextId | Live(later[pid], c) :: Live(sys[pid], c)
  {
    if more == [] {
      assert steps + more == steps;
    } else {
      var front := more[..|more| - 1];
      var before := LastOfMore(cfg, root, steps, more, later);
      assert (steps + more)[..|steps + more| - 1] == steps + front;
      RecoveryBlocksOpens(cfg, root, steps, sys, front, before, pid);
      RecoveringLast(cfg, pid, before, more[|more| - 1]);
    }
  }

  lemma RecoveringLast(cfg: Config, pid: Pid, sys: System, last: SystemStep)
    requires pid in sys && sys[pid].core.recovering && SystemEnabled(cfg, sys, last)
    ensures var later := SystemApply(cfg, sys, last);
            && pid in later && later[pid].core.activity.total <= sys[pid].core.activity.total
            && forall c: ContextId | Live(later[pid], c) :: Live(sys[pid], c)
  {
    if last.Local? && last.pid == pid {
      RecoveringStep(cfg, pid, sys[pid], last.step);
    }
  }

  lemma RecoveringStep(cfg: Config, pid: Pid, p: Process, step: Step)
    requires Enabled(cfg, p, step) && p.core.recovering
    ensures Apply(cfg, pid, p, step).core.activity.total <= p.core.activity.total
    ensures forall c: ContextId | Live(Apply(cfg, pid, p, step), c) :: Live(p, c)
  {
    if step.Close? {
      CloseAddsNone(cfg, pid, p, step);
    } else if step.CloseRetry? {
      RetryAddsNone(cfg, pid, p, step);
    } else if step.SetFinalizePending? {
      FiniFacts(cfg, p.core, step.survivors);
    }
  }

  lemma CloseAddsNone(cfg: Config, pid: Pid, p: Process, step: Step)
    requires step.Close? && Enabled(cfg, p, step)
    ensures Apply(cfg, pid, p, step).core.activity.total <= p.core.activity.total
    ensures forall c: ContextId | Live(Apply(cfg, pid, p, step), c) :: Live(p, c)
  {
    var pending, rest, mid := CloseHasOutcome(cfg, pid, p, step);
  }

  lemma RetryAddsNone(cfg: Config, pid: Pid, p: Process, step: Step)
    requires step.CloseRetry? && Enabled(cfg, p, step)
    ensures Apply(cfg, pid, p, step).core.activity.total <= p.core.activity.total
    ensures forall c: ContextId | Live(Apply(cfg, pid, p, step), c) :: Live(p, c)
  {
    RetryHasOutcome(cfg, p, step.c, step.recovery);
  }

  /** The recovery flag of a process goes down exactly when a closing thread finds the activity zero. */
  lemma FlagClearsExactly(cfg: Config, pid: Pid, p: Process, step: Step)
    requires Enabled(cfg, p, step) && p.core.recovering
    ensures Apply(cfg, pid, p, step).core.recovering
       <==> !((step.Close? || step.CloseRetry?) && RunsWhenIdle(cfg, pid, p, step))
  {
    if step.Close? {
      ClosingClearsFlag(cfg, pid, p, step);
    } else if step.SetFinalizePending? {
      FiniFacts(cfg, p.core, step.survivors);
    }
  }

  lemma ClosingClearsFlag(cfg: Config, pid: Pid, p: Process, step: Step)
    requires Enabled(cfg, p, step) && p.core.recovering && step.Close?
    ensures ApplyClose(cfg, pid, p, step).core.recovering <==> !RunsWhenIdle(cfg, pid, p, step)
  {
    ReleaseFacts(cfg, p.core, RecordError(p.ctxs[step.c], step.rv), pid,
                 step.flagErr || step.rv != CKR_OK, step.closed);
  }

  /** The process pid takes no step in steps that closes a context. */
  predicate ClosesNone(steps: seq<SystemStep>, pid: Pid) {
    forall i | 0 <= i < |steps| && steps[i].Local? && steps[i].pid == pid :: !steps[i].step.Close?
  }

  /** A process that is forked while a thread of its parent waits for a recovery inherits the flag, but
      not the thread that would clear it: until it closes an inherited context, none of its opens gets
      past the flag. */
  lemma {:induction false} ForkDuringRecovery(
      cfg: Config, root: Pid, steps: seq<SystemStep>, sys: System, pid: Pid, child: Pid,
      more: seq<SystemStep>, later: System)
    requires Run(cfg, root, steps, sys) && pid in sys && sys[pid].core.recovering
    requires SystemEnabled(cfg, sys, Fork(pid, child))
    requires Run(cfg, root, steps + [Fork(pid, child)] + more, later) && ClosesNone(more, child)
    ensures child in later && later[child].core.recovering && later[child].waiting == {}
    ensures forall c, ndx, e :: !Enabled(cfg, later[child], OpenNew(c, ndx, e))
  {
    var forked := steps + [Fork(pid, child)];
    if more == [] {
      assert forked + more == forked && forked[..|forked| - 1] == steps;
    } else {
      var front, last := more[..|more| - 1], more[|more| - 1];
      var before := LastOfMore(cfg, root, forked, more, later);
      ForkDuringRecovery(cfg, root, steps, sys, pid, child, front, before);
      FlagStays(cfg, child, before, last);
    }
  }

  lemma FlagStays(cfg: Config, pid: Pid, sys: System, last: SystemStep)
    requires pid in sys && sys[pid].core.recovering && sys[pid].waiting == {} && SystemEnabled(cfg, sys, last)
    requires last.Local? && last.pid == pid ==> !last.step.Close?
    ensures var later := SystemApply(cfg, sys, last);
            pid in later && later[pid].core.recovering && later[pid].waiting == {}
  {
    if last.Local? && last.pid == pid {
      FlagClearsExactly(cfg, pid, sys[pid], last.step);
    }
  }
}
