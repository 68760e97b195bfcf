/** Many threads in many forked processes opening and closing session contexts: the steps that
    one process can take, fork, and the runs made of them. */
module SessionProtocol {
  import opened Cryptoki
  import opened SessionCore

  type ContextId = nat

  /** One process. A context that is not in ctxs is fresh. A context in waiting is being closed
      by a thread that sleeps in the recovery wait loop. */
  datatype Process = Process(
    core: Core,
    mutex: Option<ContextId>,
    ctxs: map<ContextId, Context>,
    waiting: set<ContextId>,
    callers: set<Pid>)             // history: who called the engine on the fork chain down to here

  datatype Step =
    | OpenNew(c: ContextId, ndx: nat, open: OpenEnv)
    | OpenAgain(c: ContextId)
    | Record(c: ContextId, rv: ReturnCode)
    | Close(c: ContextId, flagErr: bool, rv: ReturnCode, closed: bool, survivors: set<Handle>, recovery: RecoveryEnv)
    | CloseRetry(c: ContextId, recovery: RecoveryEnv)
    | SetFinalizePending(survivors: set<Handle>)
    | InitEngine
    | StorePassword(slot: nat, hasPass: bool, stored: bool)

  predicate Live(p: Process, c: ContextId) {
    c in p.ctxs && p.ctxs[c].flagInit
  }

  /** Open, and not in the middle of being closed. */
  predicate InUse(p: Process, c: ContextId) {
    Live(p, c) && c !in p.waiting
  }

  /** A step runs when its thread can get the mutex. A close of a context that kept the mutex
      takes no mutex. Fewer than 2^32 - 1 initializations lie between the open and the close of
      a context. */
  predicate Enabled(cfg: Config, p: Process, step: Step) {
    match step
    case OpenNew(c, _, _) => c !in p.ctxs && p.mutex.None? && !p.core.recovering
    case OpenAgain(c) => c in p.ctxs
    case Record(c, _) => InUse(p, c)
    case Close(c, _, _, _, _, _) =>
      && InUse(p, c)
      && (HoldsMutex(cfg, p.ctxs[c]) || p.mutex.None?)
      && p.core.generation - p.ctxs[c].generation < COUNTER_PERIOD
    case CloseRetry(c, _) => c in p.waiting && c in p.ctxs && p.mutex.None?
    case SetFinalizePending(_) => p.mutex.None? && p.core.activity.total == 0
    case InitEngine => true
    case StorePassword(slot, _, _) => slot < MAX_SLOT && p.core.token.pass.At(slot).boolInit == 0
  }

  /** Whether an open gets as far as counting the calling process. */
  predicate OpenCalls(cfg: Config, s: Core, pid: Pid, e: OpenEnv) {
    !cfg.disableCheckFinalize && Prepare(cfg, s, pid, e).0
  }

  function Call(p: Process, pid: Pid): set<Pid> {
    if pid == p.core.lineage.pidBind then p.callers else p.callers + {pid}
  }

  /** luna_open_context_ndx returns holding the mutex exactly for the contexts that keep it. */
  function ApplyOpen(cfg: Config, pid: Pid, p: Process, c: ContextId, ndx: nat, e: OpenEnv): Process {
    var (ctx, s) := Open(cfg, p.core, pid, ndx, e);
    p.(core := s,
       ctxs := p.ctxs[c := ctx],
       mutex := if ctx.flagInit && HoldsMutex(cfg, ctx) then Some(c) else None,
       callers := if OpenCalls(cfg, p.core, pid, e) then Call(p, pid) else p.callers)
  }

  /** luna_close_context_w_err up to its end or to its wait loop. */
  function ApplyClose(cfg: Config, pid: Pid, p: Process, step: Step): Process
    requires step.Close? && InUse(p, step.c)
  {
    var c := step.c;
    var ctx := RecordError(p.ctxs[c], step.rv);
    var wErr := step.flagErr || step.rv != CKR_OK;
    var (pending, ctx1, s) := Release(cfg, p.core, ctx, pid, wErr, step.closed);
    var (done, ctx2, s2) := EndClose(cfg, s, ctx1, pending, step.survivors, step.recovery);
    p.(core := s2, ctxs := p.ctxs[c := ctx2], mutex := None, waiting := if done then p.waiting else p.waiting + {c})
  }

  /** One more turn of the recovery wait loop. */
  function ApplyRetry(cfg: Config, p: Process, c: ContextId, e: RecoveryEnv): Process
    requires c in p.waiting && c in p.ctxs
  {
    if p.core.activity.total > 0 then p
    else
      p.(core := Recover(cfg, p.core, p.ctxs[c].rvLast, e),
         ctxs := p.ctxs[c := DEAD_CONTEXT],
         waiting := p.waiting - {c},
         mutex := None)
  }

  /** The password prompt in luna_init_engine: LUNA_pw_free, then LUNA_pw_malloc. */
  function ApplyStore(t: Token, slot: nat, hasPass: bool, stored: bool): Token {
    t.(pass := t.pass.With(slot, FilledStore(hasPass, stored)))
  }

  function Apply(cfg: Config, pid: Pid, p: Process, step: Step): Process
    requires Enabled(cfg, p, step)
  {
    match step
    case OpenNew(c, ndx, e) => ApplyOpen(cfg, pid, p, c, ndx, e)
    case OpenAgain(_) => p
    case Record(c, rv) => p.(ctxs := p.ctxs[c := RecordError(p.ctxs[c], rv)])
    case Close(_, _, _, _, _, _) => ApplyClose(cfg, pid, p, step)
    case CloseRetry(c, e) => ApplyRetry(cfg, p, c, e)
    case SetFinalizePending(survivors) => p.(core := Fini(cfg, p.core, survivors))
    case InitEngine => p.(core := p.core.(lineage := NoteProcess(p.core.lineage, pid)), callers := Call(p, pid))
    case StorePassword(slot, hasPass, stored) =>
      p.(core := p.core.(token := ApplyStore(p.core.token, slot, hasPass, stored)))
  }

  /** What a forked child starts with: the parent's memory, but no open session and none of the
      threads that sleep in a wait loop, nor their contexts. */
  function Child(p: Process): Process {
    p.(core := p.core.(token := p.core.token.(sessions := map[])), mutex := None,
       ctxs := p.ctxs - p.waiting, waiting := {})
  }

  type System = map<Pid, Process>

  datatype SystemStep =
    | Local(pid: Pid, step: Step)
    | Fork(pid: Pid, child: Pid)

  /** A process forks while its mutex is free; process ids are not reused. */
  predicate SystemEnabled(cfg: Config, sys: System, s: SystemStep) {
    && s.pid in sys
    && match s
       case Local(pid, step) => Enabled(cfg, sys[pid], step)
       case Fork(pid, child) => sys[pid].mutex.None? && child !in sys && child != NO_PID
  }

  function SystemApply(cfg: Config, sys: System, s: SystemStep): System
    requires SystemEnabled(cfg, sys, s)
  {
    match s
    case Local(pid, step) => sys[pid := Apply(cfg, pid, sys[pid], step)]
    case Fork(pid, child) => sys[child := Child(sys[pid])]
  }

  const FRESH_STORE := PassStore(0, false, INVALID_HANDLE, 0)

  /** The process that binds the engine, before its first call. */
  function Initial(root: Pid): Process {
    Process(
      Core(false, false, 0, NO_PID, false, IDLE, NO_CACHES,
           Token(Pair(FRESH_STORE, FRESH_STORE), map[]), Lineage(root, NO_PID, 0, false)),
      None, map[], {}, {})
  }

  /** The system at the end of a run from the first process root; None if some step was not enabled. */
  function Exec(cfg: Config, root: Pid, steps: seq<SystemStep>): Option<System> {
    if steps == [] then Some(map[root := Initial(root)])
    else
      var last := steps[|steps| - 1];
      match Exec(cfg, root, steps[..|steps| - 1])
      case None => None
      case Some(sys) => if SystemEnabled(cfg, sys, last) then Some(SystemApply(cfg, sys, last)) else None
  }

  /** steps is a run from root, and leads to sys. */
  predicate Run(cfg: Config, root: Pid, steps: seq<SystemStep>, sys: System) {
    root != NO_PID && Exec(cfg, root, steps) == Some(sys)
  }
}
