/** The engine's global state in one process, and what each critical section of
    engine/e_gem.c does to it. What the HSM, the loader and the allocator answer is a
    parameter of each operation. */
module SessionCore {
  import opened Cryptoki

  /** The configuration, fixed for a run. */
  datatype Config = Config(
    disableCheckFinalize: bool,
    intermediateProcesses: int,
    disableMultiThread: bool,
    disableSessionCache: bool,
    engineInit: bool,       // EngineInit is set
    engine2Init: bool,      // Engine2Init is set: there is a second slot
    enableLoginInit: bool,
    recoveryLevel: int,
    protectServer: bool)    // luna_ps_check_lib: log in on every opened session

  /** What comes back from an attempt to log in with a stored passphrase. */
  datatype LoginAnswer = DigestFailed | Accepted | AlreadyLoggedIn | Rejected

  /** A passphrase store as the protocol sees it. failures counts the C_Login calls that were
      sent from it and failed since the last LUNA_pw_malloc. */
  datatype PassStore = PassStore(boolInit: nat, hasPass: bool, hSession: Handle, failures: nat)

  /** The passphrase stores, and what the HSM holds open for this process: each session handle
      with the generation of the library that it was opened in. */
  datatype Token = Token(pass: Pair<PassStore>, sessions: map<Handle, nat>)

  /** g_count_activity and g_luna_per_slot[i].g_count_activity. */
  datatype Activity = Activity(total: nat, perSlot: Pair<nat>)

  const IDLE := Activity(0, Pair(0, 0))

  /** g_rtconfig without pid_c_init: where this process stands on its fork chain. */
  datatype Lineage = Lineage(pidBind: Pid, pidIntermediate: Pid, intermediateCount: nat, inChild: bool)

  datatype Core = Core(
    loaded: bool,                  // luna_have_c_funclist
    haveInit: bool,                // luna_have_c_init
    generation: nat,               // luna_count_c_init is CountOf(generation)
    pidCInit: Pid,
    recovering: bool,              // luna_flag_recovery
    activity: Activity,
    caches: Pair<seq<Handle>>,     // luna_ckses[i], head first
    token: Token,
    lineage: Lineage)

  const NO_CACHES: Pair<seq<Handle>> := Pair([], [])

  datatype Context = Context(
    flagInit: bool,
    flagError: bool,
    finalizePending: bool,
    perSlot: nat,
    hSession: Handle,
    hasItem: bool,                 // pcache is not NULL
    generation: nat,
    pid: Pid,
    rvLast: ReturnCode,
    errors: seq<ReturnCode>)       // every code recorded since the open

  /** A context after LUNA_CONTEXT_T_INIT. */
  const FRESH_CONTEXT := Context(false, false, false, 0, INVALID_HANDLE, false, 0, NO_PID, CKR_OK, [])
  /** A context after close, or while it is being opened. */
  const DEAD_CONTEXT := FRESH_CONTEXT.(flagError := true)

  /** One slot of a deferred login: C_OpenSession, the login, and C_CloseSession if the login fails. */
  datatype LoginEnv = LoginEnv(open: Option<Handle>, login: LoginAnswer, closed: bool)

  /** Answers met while the library is initialized. A C_Finalize leaves open the sessions in survivors. */
  datatype InitEnv = InitEnv(
    loads: bool,
    initializes: bool,
    engineInitOk: bool,
    engine2InitOk: bool,
    login: Pair<LoginEnv>,
    survivors: set<Handle>)

  /** Answers met while a context is opened. */
  datatype OpenEnv = OpenEnv(
    forkSurvivors: set<Handle>,    // what C_Finalize leaves open when a fork was detected
    init: InitEnv,
    open: Option<Handle>,
    login: LoginAnswer,
    closed: bool,
    itemAllocated: bool,
    survivors: set<Handle>)

  /** Answers met during a recovery. */
  datatype RecoveryEnv = RecoveryEnv(login: Pair<LoginEnv>, survivors: set<Handle>)

  /** C_OpenSession. By section 5.6 of PKCS #11 base v2.40 a new handle is valid and not one of
      the process's open sessions; any other answer is read as a failure. */
  function OpenSession(t: Token, answer: Option<Handle>): (r: Option<Handle>)
    ensures r.Some? ==> r == answer && r.value != INVALID_HANDLE && r.value !in t.sessions
  {
    if answer.Some? && answer.value != INVALID_HANDLE && answer.value !in t.sessions then answer else None
  }

  /** C_CloseSession: a failed call may leave the session open. */
  function CloseSession(t: Token, h: Handle, closed: bool): Token {
    if closed then t.(sessions := t.sessions - {h}) else t
  }

  /** C_Finalize, which closes all sessions of the process but those in survivors. */
  function FinalizeLibrary(t: Token, survivors: set<Handle>): Token {
    t.(sessions := map h | h in t.sessions && h in survivors :: t.sessions[h])
  }

  /** LUNA_pw_login: C_Login is sent only from a store that has not been locked out. */
  function PassLogin(p: PassStore, answer: LoginAnswer): (bool, PassStore) {
    if !p.hasPass || p.boolInit != 1 || answer.DigestFailed? then (false, p)
    else if answer.Rejected? then (false, p.(boolInit := 2, failures := p.failures + 1))
    else (true, p)
  }

  /** A store after LUNA_pw_free and, if there is a password, LUNA_pw_malloc, which gets as far as
      allocating its buffer (hasPass) and as far as masking it (stored). */
  function FilledStore(hasPass: bool, stored: bool): PassStore {
    PassStore(if hasPass && stored then 1 else 0, hasPass, INVALID_HANDLE, 0)
  }

  /** The per-slot part of luna_do_deferred_login. */
  function LoginSlot(cfg: Config, t: Token, generation: nat, slot: nat, e: LoginEnv): (bool, Token) {
    var p := t.pass.At(slot);
    if !cfg.enableLoginInit then (true, t)
    else if p.boolInit != 1 || !p.hasPass then (false, t)
    else match OpenSession(t, e.open)
      case None => (false, t)
      case Some(h) =>
        var t1 := t.(sessions := t.sessions[h := generation]);
        var (ok, p1) := PassLogin(p.(hSession := h), e.login);
        if ok then (true, t1.(pass := t1.pass.With(slot, p1)))
        else (false, CloseSession(t1.(pass := t1.pass.With(slot, p1.(hSession := INVALID_HANDLE))), h, e.closed))
  }

  /** luna_do_deferred_login. */
  function DeferredLogin(cfg: Config, s: Core, e: Pair<LoginEnv>): (bool, Token) {
    if !s.haveInit then (false, s.token)
    else
      var (ok, t) := LoginSlot(cfg, s.token, s.generation, 0, e.zero);
      if ok && cfg.engine2Init then LoginSlot(cfg, t, s.generation, 1, e.one) else (ok, t)
  }

  /** The deferred logout in luna_fini_p11; the logged-in sessions are closed. */
  function Logout(cfg: Config, t: Token): Token {
    if !cfg.enableLoginInit then t
    else t.(pass := Pair(LogoutStore(t.pass.zero),
                         if cfg.engine2Init then LogoutStore(t.pass.one) else t.pass.one))
  }

  function LogoutStore(p: PassStore): PassStore {
    if p.boolInit == 1 && p.hasPass then p.(hSession := INVALID_HANDLE) else p
  }

  /** luna_fini_p11. */
  function Fini(cfg: Config, s: Core, survivors: set<Handle>): Core {
    s.(haveInit := false, caches := NO_CACHES, activity := IDLE,
       token := if s.haveInit then FinalizeLibrary(Logout(cfg, s.token), survivors) else s.token)
  }

  /** The common failure exit of luna_init_p11_deferred once C_Initialize has succeeded. */
  function AbandonInit(s: Core, t: Token, survivors: set<Handle>): Core {
    s.(haveInit := false, token := FinalizeLibrary(t, survivors))
  }

  /** luna_init_p11_deferred. */
  function InitDeferred(cfg: Config, s: Core, pid: Pid, e: InitEnv): (bool, Core) {
    if !s.loaded && !e.loads then (false, s)
    else if s.haveInit then (false, s.(loaded := true))
    else InitLoaded(cfg, s.(loaded := true, caches := NO_CACHES, pidCInit := pid), e)
  }

  /** The part of luna_init_p11_deferred from C_Initialize on. */
  function InitLoaded(cfg: Config, s: Core, e: InitEnv): (bool, Core) {
    if !e.initializes then (false, s.(token := FinalizeLibrary(s.token, e.survivors)))
    else
      var s1 := s.(generation := s.generation + 1, haveInit := true);
      if (cfg.engineInit && !e.engineInitOk) || (cfg.engine2Init && !e.engine2InitOk) then
        (false, AbandonInit(s1, s1.token, e.survivors))
      else
        var (ok, t) := DeferredLogin(cfg, s1, e.login);
        (ok, if ok then s1.(token := t) else AbandonInit(s1, t, e.survivors))
  }

  /** The fork check at the start of an open, then the conditional initialization. */
  function Prepare(cfg: Config, s: Core, pid: Pid, e: OpenEnv): (bool, Core) {
    var s1 := if !cfg.disableCheckFinalize && pid != s.pidCInit then Fini(cfg, s, e.forkSurvivors) else s;
    if s1.haveInit then (true, s1) else InitDeferred(cfg, s1, pid, e.init)
  }

  /** Counts the calling process once as an intermediate process (also done by luna_init_engine). */
  function NoteProcess(l: Lineage, pid: Pid): Lineage {
    if pid == l.pidBind || l.pidIntermediate == pid then l
    else l.(intermediateCount := l.intermediateCount + 1, pidIntermediate := pid)
  }

  /** Whether a new context must finalize the library on close, and the counters behind that. */
  function DecideFinalize(cfg: Config, l: Lineage, pid: Pid): (bool, Lineage) {
    if cfg.disableCheckFinalize then (false, l.(inChild := true))
    else
      var l1 := NoteProcess(l, pid);
      var shallow := pid == l1.pidBind || l1.intermediateCount <= cfg.intermediateProcesses;
      (shallow, l1.(inChild := !shallow))
  }

  /** The slot a new context uses: the only one, the one asked for, or the less busy one. */
  function ChooseSlot(cfg: Config, a: Activity, ndx: nat): nat {
    if !cfg.engine2Init then 0
    else if ndx < MAX_SLOT then ndx
    else if a.perSlot.zero <= a.perSlot.one then 0
    else 1
  }

  function FiniIf(cond: bool, cfg: Config, s: Core, survivors: set<Handle>): Core {
    if cond then Fini(cfg, s, survivors) else s
  }

  /** The session of a new context: the head of the slot's cache, else a new one. The context
      comes in with every other field set. */
  function TakeSession(cfg: Config, s: Core, c: Context, e: OpenEnv): (Context, Core) {
    var slot := c.perSlot;
    var cache := s.caches.At(slot);
    if cache != [] then (Success(c, cache[0], true), s.(caches := s.caches.With(slot, cache[1..])))
    else match OpenSession(s.token, e.open)
      case None => (c, FiniIf(c.finalizePending, cfg, s, e.survivors))
      case Some(h) =>
        var t := s.token.(sessions := s.token.sessions[h := s.generation]);
        var (ok, t1) := if cfg.protectServer then LoginOnOpen(t, slot, e.login) else (true, t);
        if ok then (Success(c, h, e.itemAllocated), s.(token := t1))
        else (c, FiniIf(c.finalizePending, cfg, s.(token := CloseSession(t1, h, e.closed)), e.survivors))
  }

  function Success(c: Context, h: Handle, hasItem: bool): Context {
    c.(hSession := h, hasItem := hasItem, flagInit := true, flagError := false)
  }

  function LoginOnOpen(t: Token, slot: nat, answer: LoginAnswer): (bool, Token) {
    var (ok, p) := PassLogin(t.pass.At(slot), answer);
    (ok, t.(pass := t.pass.With(slot, p)))
  }

  function CountUp(a: Activity, slot: nat): Activity {
    Activity(a.total + 1, a.perSlot.With(slot, a.perSlot.At(slot) + 1))
  }

  /** luna_open_context_ndx on a fresh context, from the moment the mutex is held and no recovery
      is under way. The open succeeded when the context has flagInit. */
  function Open(cfg: Config, s: Core, pid: Pid, ndx: nat, e: OpenEnv): (Context, Core) {
    var (ready, s1) := Prepare(cfg, s, pid, e);
    if !ready then (DEAD_CONTEXT, s1) else OpenPrepared(cfg, s1, pid, ndx, e)
  }

  /** The part of an open that finds the library ready. */
  function OpenPrepared(cfg: Config, s: Core, pid: Pid, ndx: nat, e: OpenEnv): (Context, Core) {
    var (pending, l) := DecideFinalize(cfg, s.lineage, pid);
    var slot := ChooseSlot(cfg, s.activity, ndx);
    var c := DEAD_CONTEXT.(finalizePending := pending, perSlot := slot, generation := s.generation, pid := pid);
    var (c1, s2) := TakeSession(cfg, s.(lineage := l), c, e);
    (c1, if c1.flagInit then s2.(activity := CountUp(s2.activity, slot)) else s2)
  }

  /** Whether a live context holds the mutex from open to close. */
  predicate HoldsMutex(cfg: Config, c: Context) {
    c.finalizePending || cfg.disableMultiThread
  }

  function RecordError(c: Context, rv: ReturnCode): Context {
    c.(rvLast := Worse(c.rvLast, rv), errors := c.errors + [rv])
  }

  function Decrement(n: nat): nat {
    if n > 0 then n - 1 else n
  }

  function CountDown(a: Activity, slot: nat): Activity {
    Activity(Decrement(a.total), a.perSlot.With(slot, Decrement(a.perSlot.At(slot))))
  }

  /** Whether the library still is the one that the context was opened with. */
  predicate SameLibrary(s: Core, c: Context, pid: Pid) {
    s.haveInit && CountOf(c.generation) == CountOf(s.generation) && c.pid == pid
  }

  /** What becomes of the session of a closing context, and whether recovery is pending: the
      session is dropped if it belongs to another library or process, closed if it must not be
      cached, and otherwise pushed on the cache. */
  function GiveBack(cfg: Config, s: Core, c: Context, pid: Pid, wErr: bool, closed: bool): (bool, Context, Core) {
    if !SameLibrary(s, c, pid) then (true, c.(hasItem := false), s)
    else if !c.hasItem || wErr || cfg.disableSessionCache then
      (NeedsRecovery(c.rvLast), c.(hSession := INVALID_HANDLE, hasItem := false),
       s.(token := CloseSession(s.token, c.hSession, closed)))
    else
      (false, c.(hasItem := false), s.(caches := s.caches.With(c.perSlot, [c.hSession] + s.caches.At(c.perSlot))))
  }

  /** The first half of luna_close_context_w_err on a live context whose error has been recorded,
      with the mutex held. When recovery is pending the caches are purged. */
  function Release(cfg: Config, s: Core, c: Context, pid: Pid, wErr: bool, closed: bool): (bool, Context, Core) {
    var (pending, c1, s1) := GiveBack(cfg, s.(activity := CountDown(s.activity, c.perSlot)), c, pid, wErr, closed);
    (pending, c1, if pending then s1.(caches := NO_CACHES) else s1)
  }

  /** The recovery actions of a closing thread that has seen the activity reach zero. */
  function Recover(cfg: Config, s: Core, rvLast: ReturnCode, e: RecoveryEnv): Core {
    var (ok, t) := if cfg.recoveryLevel >= 1 then DeferredLogin(cfg, s, e.login) else (true, s.token);
    var s1 := s.(token := t);
    FiniIf(!ok && NeedsFinalize(rvLast) && cfg.recoveryLevel >= 2, cfg, s1, e.survivors).(recovering := false)
  }

  /** The second half of luna_close_context_w_err, after Release: it finalizes, is done, recovers, or goes
      to sleep in its wait loop, which leaves the context as it is. */
  function EndClose(cfg: Config, s: Core, c: Context, pending: bool, survivors: set<Handle>, e: RecoveryEnv)
    : (bool, Context, Core)
  {
    if c.finalizePending then (true, DEAD_CONTEXT, Fini(cfg, s, survivors))
    else if !pending then (true, DEAD_CONTEXT, s)
    else if s.activity.total == 0 then (true, DEAD_CONTEXT, Recover(cfg, s, c.rvLast, e))
    else (false, c, s.(recovering := true))
  }
}
