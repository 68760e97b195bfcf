/** What each step does and when, in terms of what is there before it and of what the HSM answers. */
module SessionEffects {
  import opened Cryptoki
  import opened SessionCore
  import opened SessionInvariants
  import opened ForkDepth
  import opened SessionOwnership
  import opened SessionProtocol
  import opened SessionTheorems

  predicate Accepts(answer: LoginAnswer) {
    answer.Accepted? || answer.AlreadyLoggedIn?
  }

  /** The HSM answers with a new session. */
  predicate Grants(open: map<Handle, nat>, answer: Option<Handle>) {
    answer.Some? && answer.value != INVALID_HANDLE && answer.value !in open
  }

  /** The passphrase store of a slot is filled and not locked. */
  predicate StoreReady(t: Token, slot: nat) {
    t.pass.At(slot).boolInit == 1 && t.pass.At(slot).hasPass
  }

  predicate CanLogIn(t: Token, slot: nat, e: LoginEnv) {
    StoreReady(t, slot) && Grants(t.sessions, e.open) && Accepts(e.login)
  }

  /** Every configured slot can be logged in, if that is asked for at all. */
  predicate AllLogIn(cfg: Config, t: Token, e: Pair<LoginEnv>) {
    cfg.enableLoginInit ==>
      CanLogIn(t, 0, e.zero) && (cfg.engine2Init ==> CanLogIn(t, 1, e.one) && e.one.open != e.zero.open)
  }

  /** Whether h is one of the sessions that the logins open. */
  predicate IsLogin(cfg: Config, e: Pair<LoginEnv>, h: Handle) {
    cfg.enableLoginInit && (e.zero.open == Some(h) || (cfg.engine2Init && e.one.open == Some(h)))
  }

  /** Each configured slot is logged in on a session that was opened for it in this generation, and
      nothing else has changed. */
  ghost predicate LoggedIn(cfg: Config, t: Token, r: Token, generation: nat, e: Pair<LoginEnv>) {
    && (forall h :: h in r.sessions <==> h in t.sessions || IsLogin(cfg, e, h))
    && (forall h | h in r.sessions :: r.sessions[h] == if h in t.sessions then t.sessions[h] else generation)
    && (cfg.enableLoginInit ==> e.zero.open.Some? && r.pass.zero == t.pass.zero.(hSession := e.zero.open.value))
    && (cfg.enableLoginInit && cfg.engine2Init ==>
          e.one.open.Some? && r.pass.one == t.pass.one.(hSession := e.one.open.value))
    && (!cfg.enableLoginInit ==> r.pass.zero == t.pass.zero)
    && (!cfg.enableLoginInit || !cfg.engine2Init ==> r.pass.one == t.pass.one)
  }

  /** A login was sent for the slot, the slots before it having been logged in, and was refused. */
  predicate IsRefused(cfg: Config, t: Token, e: Pair<LoginEnv>, slot: nat) {
    && cfg.enableLoginInit && slot < MAX_SLOT && StoreReady(t, slot)
    && Grants(t.sessions, e.At(slot).open) && e.At(slot).login.Rejected?
    && (slot == 1 ==> cfg.engine2Init && CanLogIn(t, 0, e.zero) && e.one.open != e.zero.open)
  }

  /** A failed deferred login locks the store of the slot that was refused, and leaves open the session of
      a slot that was logged in before, and one that could not be closed. */
  ghost predicate LoginFailed(cfg: Config, t: Token, r: Token, e: Pair<LoginEnv>) {
    && (forall i | 0 <= i < MAX_SLOT ::
          && r.pass.At(i).boolInit == (if IsRefused(cfg, t, e, i) then 2 else t.pass.At(i).boolInit)
          && r.pass.At(i).hasPass == t.pass.At(i).hasPass)
    && (forall h | h in t.sessions :: h in r.sessions && r.sessions[h] == t.sessions[h])
    && (forall h | h in r.sessions && h !in t.sessions ::
          || (e.zero.open == Some(h) && (CanLogIn(t, 0, e.zero) || !e.zero.closed))
          || (e.one.open == Some(h) && CanLogIn(t, 0, e.zero) && !e.one.closed))
  }

  /** The login of one slot. */
  lemma LoginSlotExactly(cfg: Config, t: Token, generation: nat, slot: nat, e: LoginEnv)
    requires cfg.enableLoginInit && slot < MAX_SLOT
    ensures var (ok, r) := LoginSlot(cfg, t, generation, slot, e);
            && ok == CanLogIn(t, slot, e)
            && r.pass.At(1 - slot) == t.pass.At(1 - slot)
            && if ok then
                 && r.sessions == t.sessions[e.open.value := generation]
                 && r.pass.At(slot) == t.pass.At(slot).(hSession := e.open.value)
               else
                 && (r.sessions == t.sessions
                     || (StoreReady(t, slot) && Grants(t.sessions, e.open) && !e.closed
                         && r.sessions == t.sessions[e.open.value := generation]))
                 && r.pass.At(slot).hasPass == t.pass.At(slot).hasPass
                 && r.pass.At(slot).boolInit ==
                      if StoreReady(t, slot) && Grants(t.sessions, e.open) && e.login.Rejected? then 2
                      else t.pass.At(slot).boolInit
  {
    assert Grants(t.sessions, e.open) ==> t.sessions[e.open.value := generation] - {e.open.value} == t.sessions;
  }

  lemma DeferredLoginExactly(cfg: Config, s: Core, e: Pair<LoginEnv>)
    ensures DeferredLogin(cfg, s, e).0 <==> s.haveInit && AllLogIn(cfg, s.token, e)
    ensures !s.haveInit || !cfg.enableLoginInit ==> DeferredLogin(cfg, s, e).1 == s.token
    ensures s.haveInit && AllLogIn(cfg, s.token, e) ==>
              LoggedIn(cfg, s.token, DeferredLogin(cfg, s, e).1, s.generation, e)
    ensures s.haveInit && !AllLogIn(cfg, s.token, e) ==>
              LoginFailed(cfg, s.token, DeferredLogin(cfg, s, e).1, e)
  {
    if s.haveInit && cfg.enableLoginInit {
      LoginSlotExactly(cfg, s.token, s.generation, 0, e.zero);
      var (ok, t) := LoginSlot(cfg, s.token, s.generation, 0, e.zero);
      LoginSlotExactly(cfg, t, s.generation, 1, e.one);
    }
  }

  /** The library is the one that the context was opened in, and the process is the same. */
  predicate OpenedIn(s: Core, ctx: Context, pid: Pid) {
    s.haveInit && ctx.generation == s.generation && ctx.pid == pid
  }

  /** A close returns its session to the cache. */
  predicate Recaches(cfg: Config, pid: Pid, p: Process, step: Step)
    requires step.Close? && InUse(p, step.c)
  {
    var ctx := p.ctxs[step.c];
    OpenedIn(p.core, ctx, pid) && ctx.hasItem && !cfg.disableSessionCache && !step.flagErr && step.rv == CKR_OK
  }

  /** The greatest severity of the codes that the close knows of is at least n. */
  predicate Severe(p: Process, step: Step, n: nat)
    requires (step.Close? || step.CloseRetry?) && step.c in p.ctxs
  {
    Severity(p.ctxs[step.c].rvLast) >= n || (step.Close? && Severity(step.rv) >= n)
  }

  /** A close calls for a recovery: its session is of another library, or it is not to be cached and
      an error that calls for recovery was recorded. */
  predicate CallsForRecovery(cfg: Config, pid: Pid, p: Process, step: Step)
    requires step.Close? && InUse(p, step.c)
  {
    !OpenedIn(p.core, p.ctxs[step.c], pid) || (!Recaches(cfg, pid, p, step) && Severe(p, step, 1))
  }

  /** The token when the session of a closing context has been returned, closed or dropped. */
  function TokenReleased(cfg: Config, pid: Pid, p: Process, step: Step): Token
    requires step.Close? ==> InUse(p, step.c)
  {
    var t := p.core.token;
    if step.Close? && OpenedIn(p.core, p.ctxs[step.c], pid) && !Recaches(cfg, pid, p, step) && step.closed then
      t.(sessions := t.sessions - {p.ctxs[step.c].hSession})
    else t
  }

  /** The step recovers: a closing thread has called for it and finds no other activity. */
  predicate Recovers(cfg: Config, pid: Pid, p: Process, step: Step)
    requires Enabled(cfg, p, step)
  {
    match step
    case Close(c, _, _, _, _, _) =>
      !p.ctxs[c].finalizePending && CallsForRecovery(cfg, pid, p, step) && p.core.activity.total <= 1
    case CloseRetry(_, _) => p.core.activity.total == 0
    case _ => false
  }

  /** The generation tells libraries apart although the engine compares its 32-bit counter. */
  lemma SameIsOpenedIn(cfg: Config, pid: Pid, p: Process, step: Step)
    requires ProcessOk(cfg, pid, p) && step.Close? && Enabled(cfg, p, step)
    ensures SameLibrary(p.core, p.ctxs[step.c], pid) <==> OpenedIn(p.core, p.ctxs[step.c], pid)
  {
    SameCount(p.ctxs[step.c].generation, p.core.generation);
  }

  /** What Release gives for a closing context. */
  lemma ReleaseExactly(cfg: Config, pid: Pid, p: Process, step: Step)
    requires ProcessOk(cfg, pid, p) && step.Close? && Enabled(cfg, p, step)
    ensures var ctx := RecordError(p.ctxs[step.c], step.rv);
            var (pending, rest, mid) := Release(cfg, p.core, ctx, pid, step.flagErr || step.rv != CKR_OK, step.closed);
            && pending == CallsForRecovery(cfg, pid, p, step)
            && mid.haveInit == p.core.haveInit && mid.generation == p.core.generation
            && mid.recovering == p.core.recovering
            && mid.token == TokenReleased(cfg, pid, p, step)
            && mid.activity == CountDown(p.core.activity, ctx.perSlot)
            && rest.finalizePending == ctx.finalizePending && rest.rvLast == ctx.rvLast
            && rest.flagInit == ctx.flagInit && rest.errors == ctx.errors && !rest.hasItem
            && mid.caches == (if pending then NO_CACHES
                              else if Recaches(cfg, pid, p, step)
                              then p.core.caches.With(ctx.perSlot, [ctx.hSession] + p.core.caches.At(ctx.perSlot))
                              else p.core.caches)
  {
    SameIsOpenedIn(cfg, pid, p, step);
  }

  /** What Recover gives. */
  lemma RecoverExactly(cfg: Config, s: Core, rvLast: ReturnCode, e: RecoveryEnv)
    ensures var r := Recover(cfg, s, rvLast, e);
            && !r.recovering && r.generation == s.generation
            && (r.haveInit <==> s.haveInit && !(cfg.recoveryLevel >= 2 && NeedsFinalize(rvLast)
                                                && cfg.enableLoginInit && !AllLogIn(cfg, s.token, e.login)))
            && (cfg.recoveryLevel < 1 ==> r.token == s.token)
            && (cfg.recoveryLevel >= 1 && s.haveInit && AllLogIn(cfg, s.token, e.login) ==>
                  LoggedIn(cfg, s.token, r.token, s.generation, e.login))
            && (cfg.recoveryLevel >= 1 && r.haveInit && !AllLogIn(cfg, s.token, e.login) ==>
                  LoginFailed(cfg, s.token, r.token, e.login))
            && (s.haveInit && !r.haveInit ==>
                  r.token.sessions.Keys <= e.survivors && r.caches == NO_CACHES && r.activity == IDLE)
            && (r.haveInit ==> r.caches == s.caches)
            && (!s.haveInit ==> r.token == s.token)
  {
    DeferredLoginExactly(cfg, s, e.login);
  }

  /** What a recovery leaves. The library is finalized if and only if the level allows it, the worst code
      needs it and some configured slot that is to be logged in cannot be; if all can, they are. */
  ghost predicate RecoveryDone(cfg: Config, pid: Pid, p: Process, step: Step, q: Process)
    requires Enabled(cfg, p, step) && (step.Close? || step.CloseRetry?)
  {
    var t, e := TokenReleased(cfg, pid, p, step), step.recovery;
    var all := AllLogIn(cfg, t, e.login);
    && !q.core.recovering
    && (q.core.haveInit <==> p.core.haveInit && !(cfg.recoveryLevel >= 2 && Severe(p, step, 2)
                                                  && cfg.enableLoginInit && !all))
    && (p.core.haveInit && !q.core.haveInit ==> q.core.token.sessions.Keys <= e.survivors)
    && (cfg.recoveryLevel >= 1 && p.core.haveInit && all ==>
          LoggedIn(cfg, t, q.core.token, p.core.generation, e.login))
    && (cfg.recoveryLevel >= 1 && q.core.haveInit && !all ==> LoginFailed(cfg, t, q.core.token, e.login))
    && (cfg.recoveryLevel < 1 || !p.core.haveInit ==> q.core.token == t)
    && step.c in q.ctxs && q.ctxs[step.c] == DEAD_CONTEXT
    && q.waiting == p.waiting - {step.c} && q.mutex.None?
  }

  lemma CloseRecovers(cfg: Config, pid: Pid, p: Process, step: Step)
    requires ProcessOk(cfg, pid, p) && step.Close? && Enabled(cfg, p, step) && Recovers(cfg, pid, p, step)
    ensures RecoveryDone(cfg, pid, p, step, ApplyClose(cfg, pid, p, step))
  {
    ReleaseExactly(cfg, pid, p, step);
    var ctx := RecordError(p.ctxs[step.c], step.rv);
    var mid := Release(cfg, p.core, ctx, pid, step.flagErr || step.rv != CKR_OK, step.closed).2;
    RecoverExactly(cfg, mid, ctx.rvLast, step.recovery);
  }

  lemma RetryRecovers(cfg: Config, pid: Pid, p: Process, step: Step)
    requires step.CloseRetry? && Enabled(cfg, p, step) && Recovers(cfg, pid, p, step)
    ensures RecoveryDone(cfg, pid, p, step, ApplyRetry(cfg, p, step.c, step.recovery))
  {
    RecoverExactly(cfg, p.core, p.ctxs[step.c].rvLast, step.recovery);
  }

  /** In every run, what a close that recovers leaves, at once or after having waited. */
  lemma RecoveryActs(cfg: Config, root: Pid, steps: seq<SystemStep>, sys: System, pid: Pid, step: Step)
    requires Run(cfg, root, steps, sys) && pid in sys
    requires Enabled(cfg, sys[pid], step) && Recovers(cfg, pid, sys[pid], step)
    ensures RecoveryDone(cfg, pid, sys[pid], step, Apply(cfg, pid, sys[pid], step))
  {
    RunIsOk(cfg, root, steps, sys, pid);
    if step.Close? {
      CloseRecovers(cfg, pid, sys[pid], step);
    } else {
      RetryRecovers(cfg, pid, sys[pid], step);
    }
  }

  /** These are the steps that wait for idleness, but for SET_FINALIZE_PENDING. */
  lemma RecoversWhenIdle(cfg: Config, root: Pid, steps: seq<SystemStep>, sys: System, pid: Pid, step: Step)
    requires Run(cfg, root, steps, sys) && pid in sys && Enabled(cfg, sys[pid], step)
    ensures Recovers(cfg, pid, sys[pid], step)
       <==> RunsWhenIdle(cfg, pid, sys[pid], step) && !step.SetFinalizePending?
  {
    RunIsOk(cfg, root, steps, sys, pid);
    if step.Close? {
      ReleaseExactly(cfg, pid, sys[pid], step);
    }
  }

  /** What a close leaves that does not recover: it finalizes, waits for other threads, or is done. */
  ghost predicate CloseDone(cfg: Config, pid: Pid, p: Process, step: Step, q: Process)
    requires step.Close? && InUse(p, step.c)
  {
    var ctx, t := p.ctxs[step.c], TokenReleased(cfg, pid, p, step);
    && q.mutex.None?
    && if ctx.finalizePending then
         && !q.core.haveInit && q.core.caches == NO_CACHES && q.core.activity == IDLE
         && (p.core.haveInit ==> q.core.token.sessions.Keys <= step.survivors)
         && q.core.recovering == p.core.recovering
         && step.c in q.ctxs && q.ctxs[step.c] == DEAD_CONTEXT && q.waiting == p.waiting
       else
         && q.core.haveInit == p.core.haveInit && q.core.token == t
         && step.c in q.ctxs
         && if CallsForRecovery(cfg, pid, p, step) then
              && q.core.recovering && q.core.caches == NO_CACHES && q.waiting == p.waiting + {step.c}
              && q.ctxs[step.c].flagInit && q.ctxs[step.c].errors == ctx.errors + [step.rv]
            else
              && q.core.recovering == p.core.recovering && q.waiting == p.waiting
              && q.ctxs[step.c] == DEAD_CONTEXT
              && (if Recaches(cfg, pid, p, step) then Pushed(p, q, step.c) else q.core.caches == p.core.caches)
  }

  /** The close of c has put its session on top of the cache of its slot, and done nothing else to the caches. */
  predicate Pushed(p: Process, q: Process, c: ContextId)
    requires InUse(p, c)
  {
    var ctx := p.ctxs[c];
    q.core.caches == p.core.caches.With(ctx.perSlot, [ctx.hSession] + p.core.caches.At(ctx.perSlot))
  }

  lemma CloseActs(cfg: Config, root: Pid, steps: seq<SystemStep>, sys: System, pid: Pid, step: Step)
    requires Run(cfg, root, steps, sys) && pid in sys && step.Close?
    requires Enabled(cfg, sys[pid], step) && !Recovers(cfg, pid, sys[pid], step)
    ensures CloseDone(cfg, pid, sys[pid], step, Apply(cfg, pid, sys[pid], step))
  {
    RunIsOk(cfg, root, steps, sys, pid);
    ReleaseExactly(cfg, pid, sys[pid], step);
  }

  /** A finalization: its sessions are closed but for those left over, and no store keeps one. */
  lemma FinalizeActs(cfg: Config, pid: Pid, p: Process, survivors: set<Handle>)
    requires Enabled(cfg, p, SetFinalizePending(survivors))
    ensures var q := Apply(cfg, pid, p, SetFinalizePending(survivors));
            && !q.core.haveInit && q.core.caches == NO_CACHES && q.core.activity == IDLE
            && q.ctxs == p.ctxs && q.waiting == p.waiting && q.mutex == p.mutex
            && (forall h :: h in q.core.token.sessions <==>
                  h in p.core.token.sessions && (p.core.haveInit ==> h in survivors))
            && forall i | 0 <= i < (if cfg.engine2Init then MAX_SLOT else 1) ::
                 var store := p.core.token.pass.At(i);
                 q.core.token.pass.At(i) == if p.core.haveInit && cfg.enableLoginInit && StoreReady(p.core.token, i)
                                            then store.(hSession := INVALID_HANDLE) else store
  {
  }

  /** The library is found initialized, and not by a parent. */
  predicate Kept(cfg: Config, pid: Pid, p: Process) {
    p.core.haveInit && (cfg.disableCheckFinalize || p.core.pidCInit == pid)
  }

  /** The token when a detected fork has been answered with a finalization. */
  function TokenFound(cfg: Config, pid: Pid, p: Process, e: OpenEnv): Token {
    var t := p.core.token;
    if p.core.haveInit && !Kept(cfg, pid, p) then
      t.(sessions := map h | h in t.sessions && h in e.forkSurvivors :: t.sessions[h])
    else t
  }

  /** The initialization in an open can be carried through, once C_Initialize can be called. */
  predicate Initializes(cfg: Config, pid: Pid, p: Process, e: OpenEnv) {
    && e.init.initializes && (cfg.engineInit ==> e.init.engineInitOk) && (cfg.engine2Init ==> e.init.engine2InitOk)
    && AllLogIn(cfg, TokenFound(cfg, pid, p, e), e.init.login)
  }

  predicate Loads(p: Process, e: OpenEnv) {
    p.core.loaded || e.init.loads
  }

  lemma FinalizeFacts(cfg: Config, s: Core, survivors: set<Handle>)
    requires s.haveInit
    ensures var r := Fini(cfg, s, survivors);
            && !r.haveInit && r.loaded == s.loaded && r.generation == s.generation && r.pidCInit == s.pidCInit
            && r.token.sessions == (map h | h in s.token.sessions && h in survivors :: s.token.sessions[h])
            && forall i | 0 <= i < MAX_SLOT ::
                 && r.token.pass.At(i).boolInit == s.token.pass.At(i).boolInit
                 && r.token.pass.At(i).hasPass == s.token.pass.At(i).hasPass
  {
  }

  lemma InitializeExactly(cfg: Config, s: Core, e: InitEnv)
    requires !s.haveInit
    ensures var (ok, r) := InitLoaded(cfg, s, e);
            && ok == (e.initializes && (cfg.engineInit ==> e.engineInitOk) && (cfg.engine2Init ==> e.engine2InitOk)
                      && AllLogIn(cfg, s.token, e.login))
            && r.haveInit == ok
            && r.generation == (if e.initializes then s.generation + 1 else s.generation)
            && (!ok ==> r.token.sessions.Keys <= e.survivors)
            && (ok ==> LoggedIn(cfg, s.token, r.token, s.generation + 1, e.login))
  {
    DeferredLoginExactly(cfg, s.(generation := s.generation + 1, haveInit := true), e.login);
  }

  /** What the fork check and the conditional initialization of an open leave. */
  ghost predicate Readied(cfg: Config, pid: Pid, p: Process, e: OpenEnv, ok: bool, r: Core) {
    && ok == (Kept(cfg, pid, p) || (Loads(p, e) && Initializes(cfg, pid, p, e)))
    && r.haveInit == ok
    && if Kept(cfg, pid, p) then r == p.core
       else
         && r.activity == IDLE && r.caches == NO_CACHES && r.lineage == p.core.lineage
         && (if Loads(p, e) then
               && r.pidCInit == pid
               && r.generation == (if e.init.initializes then p.core.generation + 1 else p.core.generation)
               && (ok ==> LoggedIn(cfg, TokenFound(cfg, pid, p, e), r.token, r.generation, e.init.login))
               && (!ok ==> r.token.sessions.Keys <= e.init.survivors)
             else
               && r.pidCInit == p.core.pidCInit && r.generation == p.core.generation
               && r.token.sessions == TokenFound(cfg, pid, p, e).sessions)
  }

  lemma PrepareExactly(cfg: Config, pid: Pid, p: Process, e: OpenEnv)
    requires Rested(p)
    ensures Readied(cfg, pid, p, e, Prepare(cfg, p.core, pid, e).0, Prepare(cfg, p.core, pid, e).1)
  {
    if !Kept(cfg, pid, p) {
      var s := if p.core.haveInit then Fini(cfg, p.core, e.forkSurvivors) else p.core;
      FoundIsRested(cfg, pid, p, e);
      assert Prepare(cfg, p.core, pid, e) == InitDeferred(cfg, s, pid, e.init) by {
        assert !p.core.haveInit ==> Fini(cfg, p.core, e.forkSurvivors) == p.core;
      }
      FromFound(cfg, pid, p, e, s);
    }
  }

  /** The token that an initialization finds is that of TokenFound, but for sessions of stores. */
  ghost predicate FoundAs(cfg: Config, t: Token, r: Token) {
    && r.sessions == t.sessions
    && (forall i | 0 <= i < MAX_SLOT ::
          && r.pass.At(i).(hSession := INVALID_HANDLE) == t.pass.At(i).(hSession := INVALID_HANDLE)
          && (!cfg.enableLoginInit || (i == 1 && !cfg.engine2Init) ==> r.pass.At(i) == t.pass.At(i)))
  }

  lemma FoundIsRested(cfg: Config, pid: Pid, p: Process, e: OpenEnv)
    requires Rested(p) && !Kept(cfg, pid, p)
    ensures var s := if p.core.haveInit then Fini(cfg, p.core, e.forkSurvivors) else p.core;
            && s == p.core.(haveInit := false, caches := NO_CACHES, activity := IDLE, token := s.token)
            && FoundAs(cfg, TokenFound(cfg, pid, p, e), s.token)
  {
  }

  lemma FromFound(cfg: Config, pid: Pid, p: Process, e: OpenEnv, s: Core)
    requires s == p.core.(haveInit := false, caches := NO_CACHES, activity := IDLE, token := s.token)
    requires !Kept(cfg, pid, p) && FoundAs(cfg, TokenFound(cfg, pid, p, e), s.token)
    ensures Readied(cfg, pid, p, e, InitDeferred(cfg, s, pid, e.init).0, InitDeferred(cfg, s, pid, e.init).1)
  {
    var t := TokenFound(cfg, pid, p, e);
    if Loads(p, e) {
      SameLogins(cfg, t, s.token, e.init.login);
      var s1 := s.(loaded := true, pidCInit := pid);
      InitializeExactly(cfg, s1, e.init);
      LoadedFacts(cfg, s1, e.init);
      if InitLoaded(cfg, s1, e.init).0 {
        LoggedInAlike(cfg, t, s.token, InitLoaded(cfg, s1, e.init).1.token, s.generation + 1, e.init.login);
      }
    }
  }

  lemma SameLogins(cfg: Config, t: Token, s: Token, e: Pair<LoginEnv>)
    requires FoundAs(cfg, t, s)
    ensures AllLogIn(cfg, s, e) <==> AllLogIn(cfg, t, e)
  {
  }

  lemma LoggedInAlike(cfg: Config, t: Token, s: Token, r: Token, generation: nat, e: Pair<LoginEnv>)
    requires FoundAs(cfg, t, s) && LoggedIn(cfg, s, r, generation, e)
    ensures LoggedIn(cfg, t, r, generation, e)
  {
    assert t.pass.zero == t.pass.At(0) && t.pass.one == t.pass.At(1);
    assert s.pass.zero == s.pass.At(0) && s.pass.one == s.pass.At(1);
  }

  lemma LoadedFacts(cfg: Config, s: Core, e: InitEnv)
    requires !s.haveInit
    ensures var r := InitLoaded(cfg, s, e).1;
            r == s.(haveInit := r.haveInit, generation := r.generation, token := r.token)
  {
  }

  /** A new session for an open context, if it is granted and, with a protect server, logged in. */
  predicate GetsNew(cfg: Config, t: Token, slot: nat, e: OpenEnv) {
    Grants(t.sessions, e.open) && (cfg.protectServer ==> StoreReady(t, slot) && Accepts(e.login))
  }

  /** The store of the slot, and no other, is locked when its login was refused. */
  predicate LockedBy(cfg: Config, t: Token, r: Token, slot: nat, e: OpenEnv) {
    forall i | 0 <= i < MAX_SLOT ::
      r.pass.At(i).boolInit ==
      if i == slot && cfg.protectServer && Grants(t.sessions, e.open) && StoreReady(t, slot) && e.login.Rejected?
      then 2 else t.pass.At(i).boolInit
  }

  /** What the session part of an open leaves for the context c that asks for a session. */
  ghost predicate SessionTaken(cfg: Config, s: Core, c: Context, e: OpenEnv, c1: Context, r: Core) {
    var cache := s.caches.At(c.perSlot);
    if cache != [] then
      && c1 == c.(flagInit := true, flagError := false, hSession := cache[0], hasItem := true)
      && r == s.(caches := s.caches.With(c.perSlot, cache[1..]))
    else if GetsNew(cfg, s.token, c.perSlot, e) then
      && c1 == c.(flagInit := true, flagError := false, hSession := e.open.value, hasItem := e.itemAllocated)
      && r == s.(token := s.token.(sessions := s.token.sessions[e.open.value := s.generation]))
    else
      && c1 == c && LockedBy(cfg, s.token, r.token, c.perSlot, e)
      && if c.finalizePending then
           && !r.haveInit && r.caches == NO_CACHES && r.activity == IDLE
           && (s.haveInit ==> r.token.sessions.Keys <= e.survivors)
         else
           && r.haveInit == s.haveInit && r.caches == s.caches && r.activity == s.activity
           && (forall h | h in s.token.sessions :: h in r.token.sessions)
           && (forall h | h in r.token.sessions && h !in s.token.sessions ::
                 Grants(s.token.sessions, e.open) && h == e.open.value && !e.closed)
  }

  lemma TakeExactly(cfg: Config, s: Core, c: Context, e: OpenEnv)
    requires c.perSlot < MAX_SLOT
    ensures SessionTaken(cfg, s, c, e, TakeSession(cfg, s, c, e).0, TakeSession(cfg, s, c, e).1)
  {
    if s.caches.At(c.perSlot) == [] {
      if !Grants(s.token.sessions, e.open) {
        NotGranted(cfg, s, c, e);
      } else if GetsNew(cfg, s.token, c.perSlot, e) {
        NewTaken(cfg, s, c, e);
      } else {
        NotLoggedIn(cfg, s, c, e);
      }
    }
  }

  lemma NotGranted(cfg: Config, s: Core, c: Context, e: OpenEnv)
    requires c.perSlot < MAX_SLOT && s.caches.At(c.perSlot) == [] && !Grants(s.token.sessions, e.open)
    ensures SessionTaken(cfg, s, c, e, TakeSession(cfg, s, c, e).0, TakeSession(cfg, s, c, e).1)
  {
    if s.haveInit {
      FinalizeFacts(cfg, s, e.survivors);
    }
  }

  lemma NewTaken(cfg: Config, s: Core, c: Context, e: OpenEnv)
    requires c.perSlot < MAX_SLOT && s.caches.At(c.perSlot) == [] && GetsNew(cfg, s.token, c.perSlot, e)
    ensures SessionTaken(cfg, s, c, e, TakeSession(cfg, s, c, e).0, TakeSession(cfg, s, c, e).1)
  {
    var pass := s.token.pass;
    assert pass.With(c.perSlot, pass.At(c.perSlot)) == pass;
  }

  lemma NotLoggedIn(cfg: Config, s: Core, c: Context, e: OpenEnv)
    requires c.perSlot < MAX_SLOT && s.caches.At(c.perSlot) == [] && Grants(s.token.sessions, e.open)
    requires !GetsNew(cfg, s.token, c.perSlot, e)
    ensures SessionTaken(cfg, s, c, e, TakeSession(cfg, s, c, e).0, TakeSession(cfg, s, c, e).1)
  {
    var t := s.token.(sessions := s.token.sessions[e.open.value := s.generation]);
    var t1 := CloseSession(LoginOnOpen(t, c.perSlot, e.login).1, e.open.value, e.closed);
    LoginLocks(cfg, s.token, t, c.perSlot, e);
    if s.haveInit {
      FinalizeFacts(cfg, s.(token := t1), e.survivors);
    }
  }

  lemma LoginLocks(cfg: Config, t: Token, entered: Token, slot: nat, e: OpenEnv)
    requires slot < MAX_SLOT && Grants(t.sessions, e.open) && entered.pass == t.pass && cfg.protectServer
    requires !(StoreReady(t, slot) && Accepts(e.login))
    ensures var (ok, r) := LoginOnOpen(entered, slot, e.login);
            !ok && r.sessions == entered.sessions && LockedBy(cfg, t, r, slot, e)
  {
  }

  /** The slot of an open: the only one, the one that is named, or the one with less activity, the first
      in case of a tie. */
  predicate SlotFor(cfg: Config, a: Activity, ndx: nat, slot: nat) {
    && (!cfg.engine2Init ==> slot == 0)
    && (cfg.engine2Init && ndx < MAX_SLOT ==> slot == ndx)
    && (cfg.engine2Init && ndx >= MAX_SLOT ==> slot == if a.perSlot.zero <= a.perSlot.one then 0 else 1)
  }

  /** A new context can be opened: the library is ready, and there is a cached session or a new one. */
  predicate OpenSucceeds(cfg: Config, pid: Pid, p: Process, slot: nat, e: OpenEnv) {
    if Kept(cfg, pid, p) then p.core.caches.At(slot) != [] || GetsNew(cfg, p.core.token, slot, e)
    else
      && Loads(p, e) && Initializes(cfg, pid, p, e)
      && GetsNew(cfg, TokenFound(cfg, pid, p, e), slot, e) && !IsLogin(cfg, e.init.login, e.open.value)
  }

  /** The session of a newly opened context is the top of the slot's cache, or a new one where there is
      none or the library has just been initialized. */
  ghost predicate SessionOpened(cfg: Config, pid: Pid, p: Process, c: ContextId, e: OpenEnv, q: Process)
    requires c in q.ctxs
  {
    var ctx := q.ctxs[c];
    var cache := p.core.caches.At(ctx.perSlot);
    if Kept(cfg, pid, p) then
      && q.core.generation == p.core.generation && q.core.token.pass == p.core.token.pass
      && if cache != [] then
           && ctx.hSession == cache[0] && ctx.hasItem
           && q.core.caches == p.core.caches.With(ctx.perSlot, cache[1..])
           && q.core.token == p.core.token
         else
           && e.open == Some(ctx.hSession) && ctx.hSession !in p.core.token.sessions
           && ctx.hasItem == e.itemAllocated && q.core.caches == p.core.caches
           && q.core.token.sessions == p.core.token.sessions[ctx.hSession := p.core.generation]
    else
      && e.open == Some(ctx.hSession) && ctx.hasItem == e.itemAllocated
      && q.core.caches == NO_CACHES && q.core.generation == p.core.generation + 1
      && (forall h :: h in q.core.token.sessions <==>
            || h in TokenFound(cfg, pid, p, e).sessions || IsLogin(cfg, e.init.login, h) || h == ctx.hSession)
      && ctx.hSession !in TokenFound(cfg, pid, p, e).sessions && !IsLogin(cfg, e.init.login, ctx.hSession)
  }

  /** The new context is on the slot that the open names, or on the one with less activity, and it is
      that slot's counter that has gone up. */
  predicate SlotTaken(cfg: Config, pid: Pid, p: Process, ndx: nat, q: Process, slot: nat) {
    var a := if Kept(cfg, pid, p) then p.core.activity else IDLE;
    && SlotFor(cfg, a, ndx, slot) && slot < MAX_SLOT
    && q.core.activity.total == a.total + 1
    && q.core.activity.perSlot.At(slot) == a.perSlot.At(slot) + 1
    && q.core.activity.perSlot.At(1 - slot) == a.perSlot.At(1 - slot)
  }

  /** What an open leaves that succeeds. */
  ghost predicate OpenDone(cfg: Config, pid: Pid, p: Process, c: ContextId, ndx: nat, e: OpenEnv, q: Process)
    requires c in q.ctxs
  {
    var ctx := q.ctxs[c];
    && q.core.haveInit && SlotTaken(cfg, pid, p, ndx, q, ctx.perSlot)
    && !ctx.flagError && ctx.pid == pid && ctx.generation == q.core.generation && ctx.errors == []
    && ctx.finalizePending == (!cfg.disableCheckFinalize && Shallow(cfg, pid, p))
    && q.core.lineage.inChild == !ctx.finalizePending
    && q.mutex == (if ctx.finalizePending || cfg.disableMultiThread then Some(c) else None)
    && SessionOpened(cfg, pid, p, c, e, q)
  }

  /** What an open leaves that fails. Every session still open has been left open by a C_Finalize, or was
      open before, or could not be closed. */
  ghost predicate OpenFailed(cfg: Config, pid: Pid, p: Process, c: ContextId, e: OpenEnv, q: Process)
    requires c in q.ctxs
  {
    && !q.ctxs[c].flagInit && q.ctxs[c].flagError && q.mutex.None?
    && if !Kept(cfg, pid, p) && Loads(p, e) && !Initializes(cfg, pid, p, e) then
         !q.core.haveInit && q.core.token.sessions.Keys <= e.init.survivors
       else if !Kept(cfg, pid, p) && !Loads(p, e) then
         !q.core.haveInit && q.core.token.sessions == TokenFound(cfg, pid, p, e).sessions
       else if !cfg.disableCheckFinalize && Shallow(cfg, pid, p) then
         !q.core.haveInit && q.core.token.sessions.Keys <= e.survivors
       else
         && q.core.haveInit
         && forall h | h in q.core.token.sessions ::
              || h in TokenFound(cfg, pid, p, e).sessions
              || (!Kept(cfg, pid, p) && IsLogin(cfg, e.init.login, h))
              || (e.open == Some(h) && !e.closed)
  }

  /** What an open asks of a library that is ready as r: a session on a slot, for a context in the mode
      that the fork depth calls for. */
  ghost predicate Asked(cfg: Config, pid: Pid, p: Process, ndx: nat, r: Core, asked: Context, s: Core) {
    && SlotFor(cfg, r.activity, ndx, asked.perSlot) && asked.perSlot < MAX_SLOT
    && asked == DEAD_CONTEXT.(finalizePending := !cfg.disableCheckFinalize && Shallow(cfg, pid, p),
                              perSlot := asked.perSlot, generation := r.generation, pid := pid)
    && s == r.(lineage := s.lineage) && s.lineage.inChild == !asked.finalizePending
  }

  /** The open of c in terms of these. */
  ghost predicate OpenSteps(cfg: Config, pid: Pid, p: Process, c: ContextId, e: OpenEnv, q: Process,
                            asked: Context, s: Core, got: Core)
    requires c in q.ctxs
  {
    && SessionTaken(cfg, s, asked, e, q.ctxs[c], got)
    && q.core == (if q.ctxs[c].flagInit then got.(activity := CountUp(got.activity, asked.perSlot)) else got)
    && q.mutex == (if q.ctxs[c].flagInit && (asked.finalizePending || cfg.disableMultiThread) then Some(c) else None)
  }

  lemma OpenInSteps(cfg: Config, pid: Pid, p: Process, c: ContextId, ndx: nat, e: OpenEnv)
    returns (asked: Context, s: Core, got: Core)
    requires ProcessOk(cfg, pid, p) && Prepare(cfg, p.core, pid, e).0
    ensures Asked(cfg, pid, p, ndx, Prepare(cfg, p.core, pid, e).1, asked, s)
    ensures OpenSteps(cfg, pid, p, c, e, ApplyOpen(cfg, pid, p, c, ndx, e), asked, s, got)
  {
    PrepareExactly(cfg, pid, p, e);
    if !cfg.disableCheckFinalize {
      DecideIsShallow(cfg, pid, p);
    }
    var r := Prepare(cfg, p.core, pid, e).1;
    var (pending, l) := DecideFinalize(cfg, r.lineage, pid);
    asked := DEAD_CONTEXT.(finalizePending := pending, perSlot := ChooseSlot(cfg, r.activity, ndx),
                           generation := r.generation, pid := pid);
    s := r.(lineage := l);
    TakeExactly(cfg, s, asked, e);
    got := TakeSession(cfg, s, asked, e).1;
  }

  lemma SucceedsExactly(cfg: Config, pid: Pid, p: Process, c: ContextId, ndx: nat, e: OpenEnv, q: Process,
                        r: Core, asked: Context, s: Core, got: Core)
    requires Readied(cfg, pid, p, e, true, r) && Asked(cfg, pid, p, ndx, r, asked, s)
    requires c in q.ctxs && OpenSteps(cfg, pid, p, c, e, q, asked, s, got)
    ensures q.ctxs[c].flagInit <==> OpenSucceeds(cfg, pid, p, asked.perSlot, e)
  {
  }

  lemma StepsTakeSession(cfg: Config, pid: Pid, p: Process, c: ContextId, ndx: nat, e: OpenEnv, q: Process,
                         r: Core, asked: Context, s: Core, got: Core)
    requires Readied(cfg, pid, p, e, true, r) && Asked(cfg, pid, p, ndx, r, asked, s)
    requires c in q.ctxs && OpenSteps(cfg, pid, p, c, e, q, asked, s, got) && q.ctxs[c].flagInit
    ensures SessionOpened(cfg, pid, p, c, e, q)
  {
  }

  lemma CountedOn(a: Activity, slot: nat)
    requires slot < MAX_SLOT
    ensures var r := CountUp(a, slot);
            && r.total == a.total + 1
            && r.perSlot.At(slot) == a.perSlot.At(slot) + 1 && r.perSlot.At(1 - slot) == a.perSlot.At(1 - slot)
  {
  }

  lemma TakingCountsNone(cfg: Config, s: Core, asked: Context, e: OpenEnv, ctx: Context, got: Core)
    requires SessionTaken(cfg, s, asked, e, ctx, got) && ctx.flagInit && !asked.flagInit
    ensures got.haveInit == s.haveInit && got.activity == s.activity
    ensures got.lineage == s.lineage && got.generation == s.generation
    ensures ctx == asked.(flagInit := true, flagError := false, hSession := ctx.hSession, hasItem := ctx.hasItem)
  {
  }

  lemma StepsTakeSlot(cfg: Config, pid: Pid, p: Process, c: ContextId, ndx: nat, e: OpenEnv, q: Process,
                      r: Core, asked: Context, s: Core, got: Core)
    requires Readied(cfg, pid, p, e, true, r) && Asked(cfg, pid, p, ndx, r, asked, s)
    requires c in q.ctxs && OpenSteps(cfg, pid, p, c, e, q, asked, s, got) && q.ctxs[c].flagInit
    ensures q.core.haveInit && SlotTaken(cfg, pid, p, ndx, q, q.ctxs[c].perSlot)
    ensures q.core.lineage == s.lineage && q.core.generation == s.generation
    ensures q.ctxs[c] == asked.(flagInit := true, flagError := false, hSession := q.ctxs[c].hSession,
                                hasItem := q.ctxs[c].hasItem)
  {
    TakingCountsNone(cfg, s, asked, e, q.ctxs[c], got);
    CountedOn(got.activity, asked.perSlot);
  }

  lemma StepsOpen(cfg: Config, pid: Pid, p: Process, c: ContextId, ndx: nat, e: OpenEnv, q: Process,
                  r: Core, asked: Context, s: Core, got: Core)
    requires Readied(cfg, pid, p, e, true, r) && Asked(cfg, pid, p, ndx, r, asked, s)
    requires c in q.ctxs && OpenSteps(cfg, pid, p, c, e, q, asked, s, got) && q.ctxs[c].flagInit
    ensures OpenDone(cfg, pid, p, c, ndx, e, q)
  {
    StepsTakeSession(cfg, pid, p, c, ndx, e, q, r, asked, s, got);
    StepsTakeSlot(cfg, pid, p, c, ndx, e, q, r, asked, s, got);
  }

  lemma StepsFail(cfg: Config, pid: Pid, p: Process, c: ContextId, ndx: nat, e: OpenEnv, q: Process,
                  r: Core, asked: Context, s: Core, got: Core)
    requires Readied(cfg, pid, p, e, true, r) && Asked(cfg, pid, p, ndx, r, asked, s)
    requires c in q.ctxs && OpenSteps(cfg, pid, p, c, e, q, asked, s, got) && !q.ctxs[c].flagInit
    ensures OpenFailed(cfg, pid, p, c, e, q)
  {
    assert Kept(cfg, pid, p) ==> TokenFound(cfg, pid, p, e) == p.core.token;
  }

  /** In every run: which opens succeed, and what each leaves. */
  lemma OpenActs(cfg: Config, root: Pid, steps: seq<SystemStep>, sys: System, pid: Pid,
                 c: ContextId, ndx: nat, e: OpenEnv)
    requires Run(cfg, root, steps, sys) && pid in sys && Enabled(cfg, sys[pid], OpenNew(c, ndx, e))
    ensures var p, q := sys[pid], Apply(cfg, pid, sys[pid], OpenNew(c, ndx, e));
            && (q.ctxs[c].flagInit ==> OpenDone(cfg, pid, p, c, ndx, e, q))
            && (!q.ctxs[c].flagInit ==> OpenFailed(cfg, pid, p, c, e, q))
    ensures var p, q := sys[pid], Apply(cfg, pid, sys[pid], OpenNew(c, ndx, e));
            forall slot: nat | slot < MAX_SLOT
                && SlotFor(cfg, if Kept(cfg, pid, p) then p.core.activity else IDLE, ndx, slot) ::
              q.ctxs[c].flagInit <==> OpenSucceeds(cfg, pid, p, slot, e)
  {
    RunIsOk(cfg, root, steps, sys, pid);
    var p := sys[pid];
    var q, r := ApplyOpen(cfg, pid, p, c, ndx, e), Prepare(cfg, p.core, pid, e).1;
    PrepareExactly(cfg, pid, p, e);
    if Prepare(cfg, p.core, pid, e).0 {
      var asked, s, got := OpenInSteps(cfg, pid, p, c, ndx, e);
      SucceedsExactly(cfg, pid, p, c, ndx, e, q, r, asked, s, got);
      if q.ctxs[c].flagInit {
        StepsOpen(cfg, pid, p, c, ndx, e, q, r, asked, s, got);
      } else {
        StepsFail(cfg, pid, p, c, ndx, e, q, r, asked, s, got);
      }
    }
  }

  /** An open whose initialization fails behind the loader leaves the library finalized, at each of the
      exits: what is still open was left open by C_Finalize. */
  lemma FailedInitFinalizes(cfg: Config, root: Pid, steps: seq<SystemStep>, sys: System, pid: Pid,
                            c: ContextId, ndx: nat, e: OpenEnv)
    requires Run(cfg, root, steps, sys) && pid in sys && Enabled(cfg, sys[pid], OpenNew(c, ndx, e))
    requires !Kept(cfg, pid, sys[pid]) && Loads(sys[pid], e)
    ensures var q := Apply(cfg, pid, sys[pid], OpenNew(c, ndx, e));
            !Initializes(cfg, pid, sys[pid], e) ==>
              !q.ctxs[c].flagInit && !q.core.haveInit && q.core.token.sessions.Keys <= e.init.survivors
  {
    RunIsOk(cfg, root, steps, sys, pid);
    PrepareExactly(cfg, pid, sys[pid], e);
  }

  /** The sessions that the finalizations of a step may leave open. */
  function Left(step: Step): set<Handle> {
    match step
    case OpenNew(_, _, e) => e.forkSurvivors + e.init.survivors + e.survivors
    case Close(_, _, _, _, survivors, recovery) => survivors + recovery.survivors
    case CloseRetry(_, recovery) => recovery.survivors
    case SetFinalizePending(survivors) => survivors
    case _ => {}
  }

  /** Those of all steps of a process. */
  function LeftOpen(steps: seq<SystemStep>, pid: Pid): set<Handle> {
    if steps == [] then {}
    else
      var front, last := steps[..|steps| - 1], steps[|steps| - 1];
      if last.Local? && last.pid == pid then LeftOpen(front, pid) + Left(last.step) else LeftOpen(front, pid)
  }

  /** In every run, while the library is not initialized, no session is open but what some C_Finalize of
      the process has left open. */
  lemma {:induction false} FinalizedIsClosed(cfg: Config, root: Pid, steps: seq<SystemStep>, sys: System, pid: Pid)
    requires Run(cfg, root, steps, sys) && pid in sys
    ensures !sys[pid].core.haveInit ==> sys[pid].core.token.sessions.Keys <= LeftOpen(steps, pid)
  {
    if steps == [] {
    } else {
      var front, last := steps[..|steps| - 1], steps[|steps| - 1];
      var before := Exec(cfg, root, front).value;
      var from := Origin(last, pid);
      FinalizedIsClosed(cfg, root, front, before, from);
      if last.Local? && last.pid == pid {
        RunIsOk(cfg, root, front, before, pid);
        StepCloses(cfg, pid, before[pid], last.step);
      }
    }
  }

  lemma StepCloses(cfg: Config, pid: Pid, p: Process, step: Step)
    requires ProcessOk(cfg, pid, p) && Enabled(cfg, p, step)
    ensures var q := Apply(cfg, pid, p, step);
            !q.core.haveInit ==>
              forall h | h in q.core.token.sessions ::
                h in Left(step) || (!p.core.haveInit && h in p.core.token.sessions)
  {
    match step
    case OpenNew(c, ndx, e) => OpenCloses(cfg, pid, p, c, ndx, e);
    case Close(_, _, _, _, _, _) => CloseCloses(cfg, pid, p, step);
    case CloseRetry(c, e) => RecoverExactly(cfg, p.core, p.ctxs[c].rvLast, e);
    case SetFinalizePending(survivors) => FinalizeActs(cfg, pid, p, survivors);
    case _ =>
  }

  lemma OpenCloses(cfg: Config, pid: Pid, p: Process, c: ContextId, ndx: nat, e: OpenEnv)
    requires ProcessOk(cfg, pid, p) && Enabled(cfg, p, OpenNew(c, ndx, e))
    ensures var q := ApplyOpen(cfg, pid, p, c, ndx, e);
            !q.core.haveInit ==>
              forall h | h in q.core.token.sessions ::
                h in Left(OpenNew(c, ndx, e)) || (!p.core.haveInit && h in p.core.token.sessions)
  {
    PrepareExactly(cfg, pid, p, e);
    var q, r := ApplyOpen(cfg, pid, p, c, ndx, e), Prepare(cfg, p.core, pid, e).1;
    if Prepare(cfg, p.core, pid, e).0 {
      var asked, s, got := OpenInSteps(cfg, pid, p, c, ndx, e);
      if !q.ctxs[c].flagInit {
        StepsFail(cfg, pid, p, c, ndx, e, q, r, asked, s, got);
      }
    }
  }

  lemma CloseCloses(cfg: Config, pid: Pid, p: Process, step: Step)
    requires ProcessOk(cfg, pid, p) && step.Close? && Enabled(cfg, p, step)
    ensures var q := ApplyClose(cfg, pid, p, step);
            !q.core.haveInit ==>
              forall h | h in q.core.token.sessions ::
                h in Left(step) || (!p.core.haveInit && h in p.core.token.sessions)
  {
    ReleaseExactly(cfg, pid, p, step);
    if Recovers(cfg, pid, p, step) {
      CloseRecovers(cfg, pid, p, step);
    }
  }

  /** A process at or above the intermediate depth has no connection to the HSM whenever its mutex
      is free, so that a child that it forks inherits none. */
  lemma NothingToInherit(cfg: Config, root: Pid, steps: seq<SystemStep>, sys: System, pid: Pid, child: Pid)
    requires Run(cfg, root, steps, sys) && !cfg.disableCheckFinalize
    requires SystemEnabled(cfg, sys, Fork(pid, child)) && Shallow(cfg, pid, sys[pid])
    ensures Quiet(sys[pid]) && Quiet(Child(sys[pid]))
    ensures sys[pid].core.token.sessions.Keys <= LeftOpen(steps, pid)
  {
    RunIsOk(cfg, root, steps, sys, pid);
    FinalizedIsClosed(cfg, root, steps, sys, pid);
  }

  /** Recording an error keeps the first of the most severe codes, and all in the history. */
  lemma RecordActs(cfg: Config, pid: Pid, p: Process, c: ContextId, rv: ReturnCode)
    requires Enabled(cfg, p, Record(c, rv))
    ensures var q := Apply(cfg, pid, p, Record(c, rv));
            && q.core == p.core && q.mutex == p.mutex && q.waiting == p.waiting && q.ctxs.Keys == p.ctxs.Keys
            && (forall d | d in p.ctxs && d != c :: q.ctxs[d] == p.ctxs[d])
            && q.ctxs[c].errors == p.ctxs[c].errors + [rv]
            && q.ctxs[c].rvLast == (if Severity(rv) > Severity(p.ctxs[c].rvLast) then rv else p.ctxs[c].rvLast)
            && q.ctxs[c].(rvLast := p.ctxs[c].rvLast, errors := p.ctxs[c].errors) == p.ctxs[c]
  {
  }

  /** Storing a password fills the store of its slot, and touches nothing else. */
  lemma StoreActs(cfg: Config, pid: Pid, p: Process, slot: nat, hasPass: bool, stored: bool)
    requires Enabled(cfg, p, StorePassword(slot, hasPass, stored))
    ensures var q := Apply(cfg, pid, p, StorePassword(slot, hasPass, stored));
            && StoreReady(q.core.token, slot) == (hasPass && stored)
            && q.core.token.pass.At(slot).failures == 0
            && q.core.token.pass.At(1 - slot) == p.core.token.pass.At(1 - slot)
            && q.core.token.sessions == p.core.token.sessions
            && q == p.(core := p.core.(token := q.core.token))
  {
  }
}
