/** Runs on which the protocol gives less than one may expect. */
module SessionExamples {
  import opened Cryptoki
  import opened SessionCore
  import opened SessionFacts
  import opened SessionOwnership
  import opened SessionCounting
  import opened SessionProtocol
  import opened SessionTheorems

  const PLAIN := Config(false, 0, false, false, false, false, false, 1, false)
  /** The same with DisableCheckFinalize. */
  const UNCHECKED := PLAIN.(disableCheckFinalize := true)
  const NO_LOGIN := LoginEnv(None, DigestFailed, false)
  const GOOD_INIT := InitEnv(true, true, true, true, Pair(NO_LOGIN, NO_LOGIN), {})
  const NO_RECOVERY := RecoveryEnv(Pair(NO_LOGIN, NO_LOGIN), {})

  function GoodOpen(h: Handle): OpenEnv {
    OpenEnv({}, GOOD_INIT, Some(h), DigestFailed, false, true, {})
  }

  function GoodClose(c: ContextId, rv: ReturnCode): Step {
    Close(c, false, rv, true, {}, NO_RECOVERY)
  }

  /** A newly opened context on the first slot. */
  function NewContext(h: Handle, generation: nat, pid: Pid): Context {
    Context(true, false, false, 0, h, true, generation, pid, CKR_OK, [])
  }

  lemma RunLocal(cfg: Config, steps: seq<SystemStep>, n: nat, before: System) returns (after: System)
    requires n < |steps| && Run(cfg, 1, steps[..n], before)
    requires steps[n].Local? && SystemEnabled(cfg, before, steps[n])
    ensures Run(cfg, 1, steps[..n + 1], after) && after.Keys == before.Keys
    ensures var pid := steps[n].pid;
            && after[pid] == Apply(cfg, pid, before[pid], steps[n].step)
            && forall q | q in before && q != pid :: after[q] == before[q]
  {
    assert steps[..n + 1][..n] == steps[..n];
    after := SystemApply(cfg, before, steps[n]);
  }

  lemma RunFork(cfg: Config, steps: seq<SystemStep>, n: nat, before: System) returns (after: System)
    requires n < |steps| && Run(cfg, 1, steps[..n], before)
    requires steps[n].Fork? && SystemEnabled(cfg, before, steps[n])
    ensures Run(cfg, 1, steps[..n + 1], after) && after.Keys == before.Keys + {steps[n].child}
    ensures after[steps[n].child] == Child(before[steps[n].pid]) && forall q | q in before :: after[q] == before[q]
  {
    assert steps[..n + 1][..n] == steps[..n];
    after := SystemApply(cfg, before, steps[n]);
  }

  /** A process with one context, which it has opened on its first use of the library. */
  predicate JustOpened(p: Process, h: Handle, pid: Pid) {
    && p.core.haveInit && p.core.generation == 1 && p.core.pidCInit == pid && p.core.loaded && !p.core.recovering
    && p.core.activity == Activity(1, Pair(1, 0)) && p.core.caches == NO_CACHES
    && p.core.token.sessions == map[h := 1]
    && p.mutex == None && p.waiting == {} && p.ctxs == map[0 := NewContext(h, 1, pid)]
  }

  /** The first open of a process just below the intermediate depth. */
  lemma FirstOpen()
    ensures var p := ApplyOpen(PLAIN, 2, Child(Initial(1)), 0, 0, GoodOpen(10));
            JustOpened(p, 10, 2) && p.core.lineage == Lineage(1, 2, 1, true)
  {
  }

  /** How the runs with fork checks begin. */
  lemma Begin(steps: seq<SystemStep>) returns (sys: System)
    requires |steps| >= 2 && steps[0] == Fork(1, 2) && steps[1] == Local(2, OpenNew(0, 0, GoodOpen(10)))
    ensures Run(PLAIN, 1, steps[..2], sys) && sys.Keys == {1, 2}
    ensures JustOpened(sys[2], 10, 2) && sys[2].core.lineage == Lineage(1, 2, 1, true)
  {
    sys := map[1 := Initial(1)];
    assert Run(PLAIN, 1, steps[..0], sys);
    sys := RunFork(PLAIN, steps, 0, sys);
    FirstOpen();
    sys := RunLocal(PLAIN, steps, 1, sys);
  }

  /** The close that is told that its own operation went well caches a session on which a device error
      was recorded before. */
  const CLEAN_RUN := [
    Fork(1, 2), Local(2, OpenNew(0, 0, GoodOpen(10))),
    Local(2, Record(0, CKR_DEVICE_ERROR)), Local(2, GoodClose(0, CKR_OK))]

  predicate ErrorRecorded(p: Process) {
    && p.core.haveInit && p.core.generation == 1 && p.core.caches == NO_CACHES && p.mutex == None
    && p.waiting == {} && p.ctxs.Keys == {0}
    && p.ctxs[0] == RecordError(NewContext(10, 1, 2), CKR_DEVICE_ERROR)
  }

  lemma RecordsError() returns (sys: System)
    ensures Run(PLAIN, 1, CLEAN_RUN[..3], sys) && 2 in sys && ErrorRecorded(sys[2])
  {
    var first := Begin(CLEAN_RUN);
    sys := RunLocal(PLAIN, CLEAN_RUN, 2, first);
  }

  lemma CloseCachesTen(p: Process)
    requires ErrorRecorded(p)
    ensures Enabled(PLAIN, p, GoodClose(0, CKR_OK))
    ensures Apply(PLAIN, 2, p, GoodClose(0, CKR_OK)).core.caches == Pair([10], [])
  {
    assert SameLibrary(p.core, RecordError(p.ctxs[0], CKR_OK), 2);
    assert [10] + NO_CACHES.zero == [10];
  }

  lemma CleanCloseForgetsErrors()
    ensures exists before: System, sys: System ::
              && Run(PLAIN, 1, CLEAN_RUN[..3], before) && Run(PLAIN, 1, CLEAN_RUN, sys) && 2 in before && 2 in sys
              && InUse(before[2], 0) && before[2].ctxs[0].hSession == 10 && NeedsRecovery(before[2].ctxs[0].rvLast)
              && sys[2].core.caches == Pair([10], [])
  {
    var before := RecordsError();
    CloseCachesTen(before[2]);
    var sys := RunLocal(PLAIN, CLEAN_RUN, 3, before);
    assert CLEAN_RUN[..4] == CLEAN_RUN;
  }

  /** Closing an inherited context clears the counters under an open context: process 2 opens context 0
      and forks 3, which opens context 1 and closes context 0. Process 3 may then finalize. */
  const STALE_RUN := [
    Fork(1, 2), Local(2, OpenNew(0, 0, GoodOpen(10))),
    Fork(2, 3), Local(3, OpenNew(1, 0, GoodOpen(20))),
    Local(3, GoodClose(0, CKR_OK)), Local(3, SetFinalizePending({}))]

  /** Process 3 before it closes context 0. */
  predicate BeforeStaleClose(p: Process) {
    && p.core.haveInit && p.core.generation == 2 && p.core.pidCInit == 3
    && p.core.activity == Activity(1, Pair(1, 0)) && p.mutex == None && p.waiting == {}
    && p.ctxs.Keys == {0, 1} && p.ctxs[0] == NewContext(10, 1, 2) && p.ctxs[1] == NewContext(20, 2, 3)
  }

  lemma SecondOpen(p: Process)
    requires JustOpened(p, 10, 2) && p.core.lineage == Lineage(1, 2, 1, true)
    ensures BeforeStaleClose(ApplyOpen(PLAIN, 3, Child(p), 1, 0, GoodOpen(20)))
  {
    assert ForkSeen(PLAIN, Child(p).core, 3);
  }

  lemma StaleForks() returns (p: Process, forked: System)
    ensures JustOpened(p, 10, 2) && p.core.lineage == Lineage(1, 2, 1, true)
    ensures Run(PLAIN, 1, STALE_RUN[..3], forked) && 3 in forked && forked[3] == Child(p)
  {
    var first := Begin(STALE_RUN);
    p := first[2];
    forked := RunFork(PLAIN, STALE_RUN, 2, first);
  }

  lemma StaleBegin() returns (before: System)
    ensures Run(PLAIN, 1, STALE_RUN[..4], before) && 3 in before && BeforeStaleClose(before[3])
    ensures HarmlessCloses(PLAIN, 1, STALE_RUN[..4])
  {
    var first, forked := StaleForks();
    SecondOpen(first);
    before := RunLocal(PLAIN, STALE_RUN, 3, forked);
    NoCloseIsHarmless(PLAIN, STALE_RUN[..4]);
  }

  lemma {:induction false} NoCloseIsHarmless(cfg: Config, steps: seq<SystemStep>)
    requires forall i | 0 <= i < |steps| && steps[i].Local? :: !steps[i].step.Close?
    ensures HarmlessCloses(cfg, 1, steps)
  {
    if steps == [] {
    } else {
      NoCloseIsHarmless(cfg, steps[..|steps| - 1]);
    }
  }

  lemma StaleCloseClears(p: Process)
    requires BeforeStaleClose(p)
    ensures var step := GoodClose(0, CKR_OK);
            && Enabled(PLAIN, p, step) && RunsWhenIdle(PLAIN, 3, p, step) && 1 in Counted(PLAIN, p)
            && var q := Apply(PLAIN, 3, p, step);
               InUse(q, 1) && q.ctxs[1] == p.ctxs[1] && Current(q, 1) && q.core.activity == IDLE && q.mutex == None
  {
  }

  lemma StaleCloses() returns (before: System, cleared: System)
    ensures Run(PLAIN, 1, STALE_RUN[..4], before) && HarmlessCloses(PLAIN, 1, STALE_RUN[..4])
    ensures 3 in before && BeforeStaleClose(before[3])
    ensures Enabled(PLAIN, before[3], GoodClose(0, CKR_OK)) && 1 in Counted(PLAIN, before[3])
    ensures RunsWhenIdle(PLAIN, 3, before[3], GoodClose(0, CKR_OK))
    ensures Run(PLAIN, 1, STALE_RUN[..5], cleared) && 3 in cleared
    ensures var q := cleared[3];
            && q.core.haveInit && q.core.activity == IDLE && q.mutex == None
            && InUse(q, 1) && q.ctxs[1] == NewContext(20, 2, 3) && Current(q, 1)
  {
    before := StaleBegin();
    StaleCloseClears(before[3]);
    cleared := RunLocal(PLAIN, STALE_RUN, 4, before);
  }

  lemma StaleCloseMiscounts()
    ensures exists sys: System :: Run(PLAIN, 1, STALE_RUN[..5], sys)
              && 3 in sys && InUse(sys[3], 1) && sys[3].ctxs[1].pid == 3 && Current(sys[3], 1)
              && sys[3].core.activity == IDLE && !CountsOk(PLAIN, sys[3])
  {
    var before, sys := StaleCloses();
    assert 1 in Counted(PLAIN, sys[3]);
  }

  /** Its recovery runs under the open context 1, although every close before it was harmless; and so does
      the finalization behind it, which takes the library from under that context. */
  lemma StaleCloseRecoversUnderUse()
    ensures exists before: System, sys: System ::
              && Run(PLAIN, 1, STALE_RUN[..4], before) && HarmlessCloses(PLAIN, 1, STALE_RUN[..4]) && 3 in before
              && Enabled(PLAIN, before[3], GoodClose(0, CKR_OK)) && STALE_RUN[4] == Local(3, GoodClose(0, CKR_OK))
              && RunsWhenIdle(PLAIN, 3, before[3], GoodClose(0, CKR_OK)) && 1 in Counted(PLAIN, before[3])
              && Run(PLAIN, 1, STALE_RUN, sys) && 3 in sys
              && InUse(sys[3], 1) && sys[3].ctxs[1].pid == 3 && !sys[3].core.haveInit
              && sys[3].ctxs[1].hSession !in sys[3].core.token.sessions
  {
    var before, cleared := StaleCloses();
    var sys := RunLocal(PLAIN, STALE_RUN, 5, cleared);
    assert STALE_RUN[..6] == STALE_RUN;
  }

  /** Two closes that recover at the same time, and a fork between them: process 2 opens contexts 0 and 1,
      closes 0 with a device error, which has to wait, forks 3, and closes 1 with a device error. */
  const RECOVERY_RUN := [
    Fork(1, 2), Local(2, OpenNew(0, 0, GoodOpen(10))), Local(2, OpenNew(1, 0, GoodOpen(11))),
    Local(2, GoodClose(0, CKR_DEVICE_ERROR)), Fork(2, 3), Local(2, GoodClose(1, CKR_DEVICE_ERROR))]

  predicate TwoOpen(p: Process) {
    && p.core.haveInit && p.core.generation == 1 && p.core.pidCInit == 2 && !p.core.recovering
    && p.core.activity == Activity(2, Pair(2, 0)) && p.mutex == None && p.waiting == {}
    && p.ctxs == map[0 := NewContext(10, 1, 2), 1 := NewContext(11, 1, 2)]
  }

  predicate OneWaits(p: Process) {
    && p.core.haveInit && p.core.generation == 1 && p.core.pidCInit == 2 && p.core.recovering
    && p.core.activity == Activity(1, Pair(1, 0)) && p.mutex == None && p.waiting == {0}
    && p.ctxs.Keys == {0, 1} && p.ctxs[1] == NewContext(11, 1, 2)
  }

  lemma OpenAnother(p: Process)
    requires JustOpened(p, 10, 2) && p.core.lineage == Lineage(1, 2, 1, true)
    ensures TwoOpen(ApplyOpen(PLAIN, 2, p, 1, 0, GoodOpen(11)))
  {
  }

  lemma FirstWaits(p: Process)
    requires TwoOpen(p)
    ensures Enabled(PLAIN, p, GoodClose(0, CKR_DEVICE_ERROR))
    ensures OneWaits(Apply(PLAIN, 2, p, GoodClose(0, CKR_DEVICE_ERROR)))
  {
  }

  lemma SecondClears(p: Process)
    requires OneWaits(p)
    ensures Enabled(PLAIN, p, GoodClose(1, CKR_DEVICE_ERROR))
    ensures var q := Apply(PLAIN, 2, p, GoodClose(1, CKR_DEVICE_ERROR));
            !q.core.recovering && q.waiting == {0} && q.mutex == None && q.ctxs.Keys == {0, 1}
  {
  }

  lemma TwoAreOpen() returns (sys: System)
    ensures Run(PLAIN, 1, RECOVERY_RUN[..3], sys) && sys.Keys == {1, 2} && TwoOpen(sys[2])
  {
    var first := Begin(RECOVERY_RUN);
    OpenAnother(first[2]);
    sys := RunLocal(PLAIN, RECOVERY_RUN, 2, first);
  }

  lemma OneWaitsAfterFork() returns (sys: System)
    ensures Run(PLAIN, 1, RECOVERY_RUN[..5], sys) && sys.Keys == {1, 2, 3}
    ensures OneWaits(sys[2]) && sys[3] == Child(sys[2])
  {
    var two := TwoAreOpen();
    FirstWaits(two[2]);
    var waits := RunLocal(PLAIN, RECOVERY_RUN, 3, two);
    sys := RunFork(PLAIN, RECOVERY_RUN, 4, waits);
  }

  /** The second of the two clears the flag while the first still waits, so that opens are let in again;
      and the child has the flag, but no thread that waits. */
  lemma FlagAndWaitersDiffer(ndx: nat, e: OpenEnv)
    ensures exists sys: System :: Run(PLAIN, 1, RECOVERY_RUN, sys) && 2 in sys && 3 in sys
              && 0 in sys[2].waiting && !sys[2].core.recovering && Enabled(PLAIN, sys[2], OpenNew(2, ndx, e))
              && sys[3].waiting == {} && sys[3].core.recovering && !Enabled(PLAIN, sys[3], OpenNew(2, ndx, e))
  {
    var before := OneWaitsAfterFork();
    SecondClears(before[2]);
    var sys := RunLocal(PLAIN, RECOVERY_RUN, 5, before);
    assert RECOVERY_RUN[..6] == RECOVERY_RUN;
  }

  /** With DisableCheckFinalize a child takes a session from an inherited cache: process 1 opens and closes
      context 0 and forks 2, which opens context 1. */
  const INHERITED_RUN := [
    Local(1, OpenNew(0, 0, GoodOpen(10))), Local(1, GoodClose(0, CKR_OK)),
    Fork(1, 2), Local(2, OpenNew(1, 0, GoodOpen(20)))]

  predicate HasCached(p: Process) {
    && p.core.haveInit && p.core.pidCInit == 1 && p.core.generation == 1 && !p.core.recovering
    && p.core.caches == Pair([10], []) && p.mutex == None && p.ctxs.Keys == {0}
  }

  lemma OpenUnchecked()
    ensures JustOpened(ApplyOpen(UNCHECKED, 1, Initial(1), 0, 0, GoodOpen(10)), 10, 1)
  {
  }

  lemma CloseUnchecked(p: Process)
    requires JustOpened(p, 10, 1)
    ensures Enabled(UNCHECKED, p, GoodClose(0, CKR_OK))
    ensures HasCached(Apply(UNCHECKED, 1, p, GoodClose(0, CKR_OK)))
  {
    assert [10] + NO_CACHES.zero == [10];
  }

  lemma OpenInherited(p: Process)
    requires HasCached(p)
    ensures var q := ApplyOpen(UNCHECKED, 2, Child(p), 1, 0, GoodOpen(20));
            && InUse(q, 1) && q.ctxs[1].hSession == 10 && q.ctxs[1].pid == 2
            && 10 !in q.core.token.sessions && q.core.pidCInit == 1
  {
  }

  lemma CachedRun() returns (sys: System)
    ensures Run(UNCHECKED, 1, INHERITED_RUN[..2], sys) && sys.Keys == {1} && HasCached(sys[1])
  {
    sys := map[1 := Initial(1)];
    assert Run(UNCHECKED, 1, INHERITED_RUN[..0], sys);
    OpenUnchecked();
    sys := RunLocal(UNCHECKED, INHERITED_RUN, 0, sys);
    CloseUnchecked(sys[1]);
    sys := RunLocal(UNCHECKED, INHERITED_RUN, 1, sys);
  }

  lemma CachedRunForks() returns (sys: System)
    ensures Run(UNCHECKED, 1, INHERITED_RUN[..3], sys) && sys.Keys == {1, 2}
    ensures HasCached(sys[1]) && sys[2] == Child(sys[1])
  {
    var before := CachedRun();
    sys := RunFork(UNCHECKED, INHERITED_RUN, 2, before);
  }

  /** The open succeeds, with a session that is not open in its process and is still cached in the parent. */
  lemma InheritedSessionIsNotOpen()
    ensures exists sys: System :: Run(UNCHECKED, 1, INHERITED_RUN, sys) && 1 in sys && 2 in sys
              && InUse(sys[2], 1) && sys[2].ctxs[1].pid == 2
              && sys[2].ctxs[1].hSession !in sys[2].core.token.sessions
              && Cached(sys[1].core.caches, sys[2].ctxs[1].hSession)
  {
    var before := CachedRunForks();
    OpenInherited(before[1]);
    var sys := RunLocal(UNCHECKED, INHERITED_RUN, 3, before);
    assert INHERITED_RUN[..4] == INHERITED_RUN;
  }
}
