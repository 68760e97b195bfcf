/** The engine's globals and contexts as they are updated in place: each method does to the fields
    what the corresponding function of SessionCore says. */
module SessionEngine {
  import opened Cryptoki
  import opened SessionCore
  import opened SessionCache

  /** luna_context_t. generation stands for count_c_init without wrap-around; errors is history. */
  class LunaContext {
    var flagInit: bool
    var flagError: bool
    var finalizePending: bool
    var perSlot: nat
    var hSession: Handle
    var pcache: CacheItem?
    var pid: Pid
    var countCInit: nat
    var rvLast: ReturnCode
    var generation: nat
    ghost var errors: seq<ReturnCode>

    constructor ()
      ensures Value() == FRESH_CONTEXT && pcache == null && countCInit == 0
    {
      flagInit, flagError, finalizePending, perSlot := false, false, false, 0;
      hSession, pcache, pid, countCInit, rvLast := INVALID_HANDLE, null, NO_PID, 0, CKR_OK;
      generation, errors := 0, [];
    }

    ghost function Value(): Context
      reads this
    {
      Context(flagInit, flagError, finalizePending, perSlot, hSession, pcache != null, generation, pid, rvLast, errors)
    }

    /** What an open context looks like from outside. */
    ghost predicate Open()
      reads this, pcache
    {
      && flagInit && perSlot < MAX_SLOT && countCInit == CountOf(generation)
      && (pcache != null ==> pcache.ckses == hSession && !pcache.freed)
    }

    /** The given items and the context's own. */
    ghost function Holding(items: set<CacheItem>): (r: set<CacheItem>)
      reads this
    {
      if pcache == null then items else items + {pcache}
    }

    /** memset to zero, with flagError set: before an open and after a close. */
    method Kill()
      modifies this
      ensures Value() == DEAD_CONTEXT && pcache == null
    {
      flagInit, flagError, finalizePending, perSlot := false, true, false, 0;
      hSession, pcache, pid, countCInit, rvLast := INVALID_HANDLE, null, NO_PID, 0, CKR_OK;
      generation, errors := 0, [];
    }

    method Ask(pending: bool, slot: nat, countCInit: nat, generation: nat, pid: Pid)
      modifies this
      ensures Value() == old(Value()).(finalizePending := pending, perSlot := slot,
                                     generation := generation, pid := pid)
      ensures this.countCInit == countCInit && pcache == old(pcache)
    {
      finalizePending, perSlot := pending, slot;
      this.countCInit, this.generation, this.pid := countCInit, generation, pid;
    }

    /** luna_cache_delete_item on the context's item, if it has one. */
    method DeleteItem()
      requires pcache != null ==> !pcache.freed
      modifies this`pcache, pcache
      ensures pcache == null && (old(pcache) != null ==> old(pcache).freed)
    {
      if pcache != null {
        pcache.Delete();
      }
      pcache := null;
    }

    /** The end of a successful open, but for the counting. */
    method Succeed(h: Handle, item: CacheItem?)
      requires item != null ==> item.ckses == h && !item.freed
      requires perSlot < MAX_SLOT && countCInit == CountOf(generation)
      modifies this`hSession, this`pcache, this`flagInit, this`flagError
      ensures Value() == Success(old(Value()), h, item != null) && pcache == item && Open()
    {
      hSession, pcache := h, item;
      flagInit, flagError := true, false;
    }

    /** luna_context_set_last_error */
    method SetLastError(rv: ReturnCode)
      modifies this`rvLast, this`errors
      ensures Value() == RecordError(old(Value()), rv)
    {
      if Severity(rv) > Severity(rvLast) {
        rvLast := rv;
      }
      errors := errors + [rv];
    }
  }

  class Engine {
    const cfg: Config
    var loaded: bool
    var haveInit: bool
    var countCInit: nat
    var pidCInit: Pid
    var recovering: bool
    var countActivity: nat
    var slotActivity: Pair<nat>
    const cache0: Cache
    const cache1: Cache
    var pass: Pair<PassStore>
    var sessions: map<Handle, nat>
    var pidBind: Pid
    var pidIntermediate: Pid
    var intermediateCount: nat
    var inChild: bool
    var mutexHeld: bool
    var generation: nat

    ghost predicate Valid()
      reads this, cache0, cache0.nodes, cache1, cache1.nodes
    {
      && cache0 != cache1 && cache0.Valid() && cache1.Valid()
      && cache0.nodes !! cache1.nodes
      && countCInit == CountOf(generation)
      && (!haveInit ==> Items() == {})
    }

    /** The items on the two lists. */
    ghost function Items(): set<CacheItem>
      reads this, cache0, cache1
    {
      cache0.nodes + cache1.nodes
    }

    /** None of these items is lost: each is on a list, or has been freed. */
    ghost predicate Accounted(before: set<CacheItem>)
      reads this, cache0, cache1, before
    {
      forall x | x in before :: x in Items() || x.freed
    }

    ghost function State(): Core
      reads this, cache0, cache1
    {
      Core(loaded, haveInit, generation, pidCInit, recovering, Activity(countActivity, slotActivity),
           Pair(cache0.contents, cache1.contents), Token(pass, sessions),
           Lineage(pidBind, pidIntermediate, intermediateCount, inChild))
    }

    constructor (cfg: Config, pid: Pid)
      ensures this.cfg == cfg && Valid() && !mutexHeld && fresh(cache0) && fresh(cache1)
      ensures State() == Core(false, false, 0, NO_PID, false, IDLE, NO_CACHES,
                              Token(Pair(PassStore(0, false, INVALID_HANDLE, 0),
                                         PassStore(0, false, INVALID_HANDLE, 0)), map[]),
                              Lineage(pid, NO_PID, 0, false))
    {
      this.cfg := cfg;
      loaded, haveInit, countCInit, pidCInit, recovering := false, false, 1, NO_PID, false;
      countActivity, slotActivity := 0, Pair(0, 0);
      cache0 := new Cache();
      cache1 := new Cache();
      pass := Pair(PassStore(0, false, INVALID_HANDLE, 0), PassStore(0, false, INVALID_HANDLE, 0));
      sessions := map[];
      pidBind, pidIntermediate, intermediateCount, inChild := pid, NO_PID, 0, false;
      mutexHeld := false;
      generation := 0;
    }

    method MutexEnter()
      requires Valid() && !mutexHeld
      modifies this`mutexHeld
      ensures Valid() && State() == old(State()) && mutexHeld
    {
      mutexHeld := true;
    }

    method MutexExit()
      requires Valid() && mutexHeld
      modifies this`mutexHeld
      ensures Valid() && State() == old(State()) && !mutexHeld
    {
      mutexHeld := false;
    }

    method SetRecovery(flag: bool)
      requires Valid()
      modifies this`recovering
      ensures Valid() && State() == old(State()).(recovering := flag)
    {
      recovering := flag;
    }

    /** luna_do_deferred_login. The i-th answer of e is for slot i. */
    method DoDeferredLogin(e: Pair<LoginEnv>) returns (ok: bool)
      requires Valid()
      modifies this`pass, this`sessions
      ensures Valid() && State() == old(State()).(token := State().token)
      ensures (ok, Token(pass, sessions)) == DeferredLogin(cfg, old(State()), e)
    {
      if !haveInit {
        return false;
      }
      ok := DoLogin(0, e.zero);
      if ok && cfg.engine2Init {
        ok := DoLogin(1, e.one);
      }
    }

    method DoLogin(slot: nat, e: LoginEnv) returns (ok: bool)
      modifies this`pass, this`sessions
      ensures (ok, Token(pass, sessions)) == LoginSlot(cfg, old(State()).token, generation, slot, e)
    {
      if !cfg.enableLoginInit {
        return true;
      }
      var store := pass.At(slot);
      if store.boolInit != 1 || !store.hasPass {
        return false;
      }
      var answer := OpenSession(Token(pass, sessions), e.open);
      if answer.None? {
        return false;
      }
      sessions := sessions[answer.value := generation];
      var login := PassLogin(store.(hSession := answer.value), e.login);
      ok := login.0;
      if ok {
        pass := pass.With(slot, login.1);
      } else {
        if e.closed {
          sessions := sessions - {answer.value};
        }
        pass := pass.With(slot, login.1.(hSession := INVALID_HANDLE));
      }
    }

    /** C_Finalize */
    method FinalizeP11(survivors: set<Handle>)
      modifies this`sessions
      ensures Token(pass, sessions) == FinalizeLibrary(old(State()).token, survivors)
    {
      sessions := map h | h in sessions && h in survivors :: sessions[h];
    }

    /** Both caches are emptied and their items freed, through the closing callback. */
    method DeleteCaches(closable: set<Handle>)
      requires Valid()
      modifies cache0, cache0.nodes, cache1, cache1.nodes
      ensures Valid() && cache0.nodes == {} && cache1.nodes == {} && cache0.contents == [] && cache1.contents == []
      ensures forall x | x in old(cache0.nodes + cache1.nodes) :: x.freed
    {
      var closer0 := new Closer(closable);
      cache0.DeleteAll(closer0);
      var closer1 := new Closer(closable);
      cache1.DeleteAll(closer1);
    }

    /** The part of luna_fini_p11 for an initialized library. */
    method TearDown(survivors: set<Handle>)
      requires Valid()
      modifies this`pass, this`sessions, this`haveInit, cache0, cache0.nodes, cache1, cache1.nodes
      ensures Valid() && cache0.nodes == {} && cache1.nodes == {} && cache0.contents == [] && cache1.contents == []
      ensures !haveInit && Token(pass, sessions) == FinalizeLibrary(Logout(cfg, old(State()).token), survivors)
      ensures forall x | x in old(cache0.nodes + cache1.nodes) :: x.freed
    {
      pass := Logout(cfg, Token(pass, sessions)).pass;
      DeleteCaches(set h | h in sessions && h !in survivors);
      FinalizeP11(survivors);
      haveInit := false;
    }

    /** luna_fini_p11. survivors are the sessions still open after all its calls to the library. */
    method FiniP11(survivors: set<Handle>)
      requires Valid()
      modifies this, cache0, cache0.nodes, cache1, cache1.nodes
      ensures Valid() && cache0.nodes == {} && cache1.nodes == {}
      ensures State() == Fini(cfg, old(State()), survivors) && mutexHeld == old(mutexHeld)
      ensures Accounted(old(Items()))
    {
      if haveInit {
        TearDown(survivors);
      }
      Reset();
    }

    /** The end of luna_fini_p11, which forgets the caches and the activity. */
    method Reset()
      requires Valid() && !haveInit
      modifies this`slotActivity, this`countActivity, cache0, cache1
      ensures Valid() && cache0.nodes == {} && cache1.nodes == {}
      ensures State() == old(State()).(caches := NO_CACHES, activity := IDLE)
    {
      cache0.Clear();
      cache1.Clear();
      slotActivity := Pair(0, 0);
      countActivity := 0;
    }

    /** The failure exits of luna_init_p11_deferred after C_Initialize. */
    method AbandonP11(survivors: set<Handle>)
      requires Valid() && Items() == {}
      modifies this`haveInit, this`sessions
      ensures Valid() && State() == AbandonInit(old(State()), old(State()).token, survivors)
    {
      FinalizeP11(survivors);
      haveInit := false;
    }

    /** luna_init_p11_deferred from the moment C_Initialize has succeeded. */
    method StartP11(e: InitEnv) returns (ok: bool)
      requires Valid() && loaded && !haveInit
      modifies this`countCInit, this`generation, this`haveInit, this`pass, this`sessions
      ensures Valid()
      ensures var s2 := old(State()).(generation := old(generation) + 1, haveInit := true);
              if (cfg.engineInit && !e.engineInitOk) || (cfg.engine2Init && !e.engine2InitOk) then
                !ok && State() == AbandonInit(s2, s2.token, e.survivors)
              else
                var (done, t) := DeferredLogin(cfg, s2, e.login);
                ok == done && State() == if done then s2.(token := t) else AbandonInit(s2, t, e.survivors)
    {
      CountOfIsTheCounter(generation);
      countCInit, generation := NextCount(countCInit), generation + 1;
      haveInit := true;
      if (cfg.engineInit && !e.engineInitOk) || (cfg.engine2Init && !e.engine2InitOk) {
        AbandonP11(e.survivors);
        return false;
      }
      ok := DoDeferredLogin(e.login);
      if !ok {
        AbandonP11(e.survivors);
      }
    }

    /** The caches are initialized and the process is noted. */
    method Begin(pid: Pid)
      requires Valid() && !haveInit
      modifies this`pidCInit, cache0, cache1
      ensures Valid() && cache0.nodes == old(cache0.nodes) && cache1.nodes == old(cache1.nodes)
      ensures State() == old(State()).(caches := NO_CACHES, pidCInit := pid)
    {
      cache0.Clear();
      cache1.Clear();
      pidCInit := pid;
    }

    /** luna_init_p11_deferred */
    method InitP11Deferred(pid: Pid, e: InitEnv) returns (ok: bool)
      requires Valid()
      modifies this, cache0, cache1
      ensures Valid() && cache0.nodes == old(cache0.nodes) && cache1.nodes == old(cache1.nodes)
      ensures (ok, State()) == InitDeferred(cfg, old(State()), pid, e) && mutexHeld == old(mutexHeld)
    {
      if !loaded && !e.loads {
        return false;
      }
      loaded := true;
      if haveInit {
        return false;
      }
      Begin(pid);
      ok := InitializeP11(e);
    }

    /** C_Initialize and what follows. */
    method InitializeP11(e: InitEnv) returns (ok: bool)
      requires Valid() && loaded && !haveInit
      modifies this`countCInit, this`generation, this`haveInit, this`pass, this`sessions
      ensures Valid() && (ok, State()) == InitLoaded(cfg, old(State()), e)
    {
      if !e.initializes {
        FinalizeP11(e.survivors);
        return false;
      }
      ok := StartP11(e);
    }

    /** The recovery actions at the end of luna_close_context_w_err, once the activity is zero. */
    method RecoverP11(rvLast: ReturnCode, e: RecoveryEnv)
      requires Valid()
      modifies this, cache0, cache0.nodes, cache1, cache1.nodes
      ensures Valid() && cache0.nodes <= old(cache0.nodes) && cache1.nodes <= old(cache1.nodes)
      ensures State() == Recover(cfg, old(State()), rvLast, e) && mutexHeld == old(mutexHeld)
      ensures Accounted(old(Items()))
    {
      var pending := RecoverLogin(rvLast, e.login);
      FiniIfPending(pending == 2 && cfg.recoveryLevel >= 2, e.survivors);
      SetRecovery(false);
    }

    /** The login of a recovery, and whether finalizing is what remains. */
    method RecoverLogin(rvLast: ReturnCode, e: Pair<LoginEnv>) returns (pending: nat)
      requires Valid()
      modifies this`pass, this`sessions
      ensures var (ok, t) := if cfg.recoveryLevel >= 1
                             then DeferredLogin(cfg, old(State()), e) else (true, old(State()).token);
              Valid() && State() == old(State()).(token := t) && pending ==
                 if !ok && NeedsFinalize(rvLast) then 2 else 1
    {
      pending := 1;
      if cfg.recoveryLevel >= 1 {
        var ok := DoDeferredLogin(e);
        if !ok && NeedsFinalize(rvLast) {
          pending := 2;
        }
      }
    }

    /** The fork check at the start of an open, then luna_init_p11_conditional_ex. */
    method PrepareP11(pid: Pid, e: OpenEnv) returns (ok: bool)
      requires Valid()
      modifies this, cache0, cache0.nodes, cache1, cache1.nodes
      ensures Valid() && cache0.nodes <= old(cache0.nodes) && cache1.nodes <= old(cache1.nodes)
      ensures (ok, State()) == Prepare(cfg, old(State()), pid, e) && mutexHeld == old(mutexHeld)
      ensures Accounted(old(Items()))
    {
      if !cfg.disableCheckFinalize && pid != pidCInit {
        FiniP11(e.forkSurvivors);
      }
      if haveInit {
        return true;
      }
      ok := InitP11Deferred(pid, e.init);
    }

    /** The fork depth tests of luna_open_context_ndx. */
    method DecidePending(pid: Pid) returns (pending: bool)
      modifies this`pidIntermediate, this`intermediateCount, this`inChild
      ensures (pending, State().lineage) == DecideFinalize(cfg, old(State()).lineage, pid)
    {
      pending := false;
      if !cfg.disableCheckFinalize {
        if pid == pidBind {
          inChild := false;
          pending := true;
        } else {
          if pidIntermediate != pid {
            intermediateCount := intermediateCount + 1;
            pidIntermediate := pid;
          }
          if intermediateCount > cfg.intermediateProcesses {
            inChild := true;
          } else {
            inChild := false;
            pending := true;
          }
        }
      } else {
        inChild := true;
      }
    }


    method PopSession(slot: nat) returns (item: CacheItem?)
      requires Valid()
      modifies cache0, cache0.nodes, cache1, cache1.nodes
      ensures Valid() && cache0.nodes <= old(cache0.nodes) && cache1.nodes <= old(cache1.nodes)
      ensures var cache := old(State()).caches.At(slot);
              if cache == [] then item == null && State() == old(State()) && Items() == old(Items())
              else
                && item != null && item.ckses == cache[0] && !item.freed && item !in cache0.nodes + cache1.nodes
                && State() == old(State()).(caches := old(State()).caches.With(slot, cache[1..]))
                && Items() == old(Items()) - {item}
    {
      if slot == 0 {
        item := cache0.Pop();
      } else {
        item := cache1.Pop();
      }
    }

    /** A session from the HSM, logged in where the protect server asks for it. */
    method OpenAndLogin(slot: nat, e: OpenEnv) returns (ok: bool, h: Handle)
      requires Valid()
      modifies this`pass, this`sessions
      ensures Valid() && State() == old(State()).(token := State().token)
      ensures match OpenSession(old(State()).token, e.open)
              case None => !ok && State() == old(State())
              case Some(n) =>
                var t := old(State()).token.(sessions := old(sessions)[n := generation]);
                var (done, t1) := if cfg.protectServer then LoginOnOpen(t, slot, e.login) else (true, t);
                && h == n && ok == done
                && Token(pass, sessions) == if done then t1 else CloseSession(t1, n, e.closed)
    {
      ok, h := false, INVALID_HANDLE;
      var answer := OpenSession(Token(pass, sessions), e.open);
      if answer.Some? {
        h := answer.value;
        sessions := sessions[h := generation];
        ok := true;
        if cfg.protectServer {
          var login := PassLogin(pass.At(slot), e.login);
          ok := login.0;
          pass := pass.With(slot, login.1);
          if !ok && e.closed {
            sessions := sessions - {h};
          }
        }
      }
    }

    /** The session part of luna_open_context_ndx: pop one from the cache, or open a new one. */
    method TakeFromP11(ctx: LunaContext, e: OpenEnv)
      requires Valid() && !ctx.flagInit && ctx.perSlot < MAX_SLOT
      requires ctx.pcache == null && ctx.countCInit == CountOf(ctx.generation)
      modifies this, ctx, cache0, cache0.nodes, cache1, cache1.nodes
      ensures Valid() && cache0.nodes <= old(cache0.nodes) && cache1.nodes <= old(cache1.nodes)
      ensures (ctx.Value(), State()) == TakeSession(cfg, old(State()), old(ctx.Value()), e)
      ensures mutexHeld == old(mutexHeld)
      ensures ctx.flagInit ==> ctx.Open()
      ensures ctx.pcache != null ==> ctx.pcache !in Items()
      ensures Accounted(old(Items()) - {ctx.pcache})
    {
      var item := PopSession(ctx.perSlot);
      if item != null {
        ctx.Succeed(item.ckses, item);
      } else {
        NewFromP11(ctx, e);
      }
    }

    method NewFromP11(ctx: LunaContext, e: OpenEnv)
      requires Valid() && !ctx.flagInit && ctx.perSlot < MAX_SLOT
      requires ctx.pcache == null && ctx.countCInit == CountOf(ctx.generation)
      requires State().caches.At(ctx.perSlot) == []
      modifies this, ctx, cache0, cache0.nodes, cache1, cache1.nodes
      ensures Valid() && cache0.nodes <= old(cache0.nodes) && cache1.nodes <= old(cache1.nodes)
      ensures (ctx.Value(), State()) == TakeSession(cfg, old(State()), old(ctx.Value()), e)
      ensures mutexHeld == old(mutexHeld)
      ensures ctx.flagInit ==> ctx.Open()
      ensures ctx.pcache != null ==> fresh(ctx.pcache)
      ensures Accounted(old(Items()))
    {
      var ok, h := OpenAndLogin(ctx.perSlot, e);
      if ok {
        SucceedNew(ctx, h, e.itemAllocated);
      } else {
        FiniIfPending(ctx.finalizePending, e.survivors);
      }
    }

    /** The end of an open with a new session, for which a list item may be had. */
    method SucceedNew(ctx: LunaContext, h: Handle, itemAllocated: bool)
      requires Valid() && ctx.perSlot < MAX_SLOT && ctx.countCInit == CountOf(ctx.generation)
      modifies ctx
      ensures Valid() && State() == old(State()) && Items() == old(Items())
      ensures ctx.Value() == Success(old(ctx.Value()), h, itemAllocated) && ctx.Open()
      ensures ctx.pcache != null ==> fresh(ctx.pcache)
    {
      var item: CacheItem? := null;
      if itemAllocated {
        item := new CacheItem(h);
      }
      ctx.Succeed(h, item);
    }

    method FiniIfPending(pending: bool, survivors: set<Handle>)
      requires Valid()
      modifies this, cache0, cache0.nodes, cache1, cache1.nodes
      ensures Valid() && cache0.nodes <= old(cache0.nodes) && cache1.nodes <= old(cache1.nodes)
      ensures State() == FiniIf(pending, cfg, old(State()), survivors) && mutexHeld == old(mutexHeld)
      ensures Accounted(old(Items()))
    {
      if pending {
        FiniP11(survivors);
      }
    }

    /** The context asks for a session on the chosen slot, of the library as it is. */
    method AskFor(ctx: LunaContext, pid: Pid, ndx: nat)
      requires Valid() && ctx.Value() == DEAD_CONTEXT
      modifies this`pidIntermediate, this`intermediateCount, this`inChild, ctx
      ensures Valid()
      ensures var (pending, l) := DecideFinalize(cfg, old(State()).lineage, pid);
              && State() == old(State()).(lineage := l)
              && ctx.Value() == DEAD_CONTEXT.(finalizePending := pending,
                                              perSlot := ChooseSlot(cfg, State().activity, ndx),
                                              generation := generation, pid := pid)
              && ctx.countCInit == CountOf(ctx.generation) && ctx.pcache == null
    {
      var pending := DecidePending(pid);
      ctx.Ask(pending, ChooseSlot(cfg, Activity(countActivity, slotActivity), ndx), countCInit, generation, pid);
    }

    method CountOpen(slot: nat)
      requires Valid()
      modifies this`slotActivity, this`countActivity
      ensures Valid() && State() == old(State()).(activity := CountUp(old(State()).activity, slot))
    {
      slotActivity := slotActivity.With(slot, slotActivity.At(slot) + 1);
      countActivity := countActivity + 1;
    }

    /** The body of luna_open_context_ndx between its two uses of the mutex. */
    method OpenFresh(ctx: LunaContext, pid: Pid, ndx: nat, e: OpenEnv)
      requires Valid() && ctx.Value() == DEAD_CONTEXT && ctx.pcache == null
      modifies this, ctx, cache0, cache0.nodes, cache1, cache1.nodes
      ensures Valid() && cache0.nodes <= old(cache0.nodes) && cache1.nodes <= old(cache1.nodes)
      ensures (ctx.Value(), State()) == Open(cfg, old(State()), pid, ndx, e) && mutexHeld == old(mutexHeld)
      ensures ctx.flagInit ==> ctx.Open()
      ensures ctx.pcache != null ==> ctx.pcache !in Items()
      ensures Accounted(old(Items()) - {ctx.pcache})
    {
      var ready := PrepareP11(pid, e);
      if ready {
        AskAndTake(ctx, pid, ndx, e);
      }
    }

    /** The context asks for a session, and is counted when it gets one. */
    method AskAndTake(ctx: LunaContext, pid: Pid, ndx: nat, e: OpenEnv)
      requires Valid() && ctx.Value() == DEAD_CONTEXT && ctx.pcache == null
      modifies this, ctx, cache0, cache0.nodes, cache1, cache1.nodes
      ensures Valid() && cache0.nodes <= old(cache0.nodes) && cache1.nodes <= old(cache1.nodes)
      ensures (ctx.Value(), State()) == OpenPrepared(cfg, old(State()), pid, ndx, e) && mutexHeld == old(mutexHeld)
      ensures ctx.flagInit ==> ctx.Open()
      ensures ctx.pcache != null ==> ctx.pcache !in Items()
      ensures Accounted(old(Items()) - {ctx.pcache})
    {
      AskFor(ctx, pid, ndx);
      var slot := ctx.perSlot;
      TakeFromP11(ctx, e);
      if ctx.flagInit {
        CountOpen(slot);
      }
    }

    /** luna_open_context_ndx. The wait for a recovery to end is behind the caller, who finds the
        mutex free. A context that is already open or dead is left as it is. */
    method OpenContextNdx(ctx: LunaContext, pid: Pid, ndx: nat, e: OpenEnv) returns (rc: nat)
      requires Valid()
      requires !ctx.flagError && !ctx.flagInit ==> !mutexHeld && !recovering
      modifies this, ctx, cache0, cache0.nodes, cache1, cache1.nodes
      ensures Valid() && cache0.nodes <= old(cache0.nodes) && cache1.nodes <= old(cache1.nodes)
      ensures old(ctx.flagError) || old(ctx.flagInit) ==>
                rc == (if old(ctx.flagError) then 0 else 1)
                && unchanged(this) && unchanged(ctx) && State() == old(State())
      ensures !old(ctx.flagError) && !old(ctx.flagInit) ==>
                && (ctx.Value(), State()) == Open(cfg, old(State()), pid, ndx, e)
                && rc == (if ctx.flagInit then 1 else 0)
                && mutexHeld == (ctx.flagInit && HoldsMutex(cfg, ctx.Value()))
                && (ctx.flagInit ==> ctx.Open())
                && (ctx.pcache != null ==> ctx.pcache !in Items())
                && Accounted(old(Items()) - {ctx.pcache})
    {
      if ctx.flagError {
        return 0;
      }
      if ctx.flagInit {
        return 1;
      }
      ctx.Kill();
      MutexEnter();
      OpenFresh(ctx, pid, ndx, e);
      rc := if ctx.flagInit then 1 else 0;
      if rc == 0 || (!ctx.finalizePending && !cfg.disableMultiThread) {
        MutexExit();
      }
    }

    method CountClose(slot: nat)
      requires Valid()
      modifies this`slotActivity, this`countActivity
      ensures Valid() && State() == old(State()).(activity := CountDown(old(State()).activity, slot))
    {
      if slotActivity.At(slot) > 0 {
        slotActivity := slotActivity.With(slot, slotActivity.At(slot) - 1);
      }
      if countActivity > 0 {
        countActivity := countActivity - 1;
      }
    }

    /** The caches are emptied and their items freed, without closing their sessions. */
    method PurgeCaches()
      requires Valid()
      modifies cache0, cache0.nodes, cache1, cache1.nodes
      ensures Valid() && cache0.nodes == {} && cache1.nodes == {} && cache0.contents == [] && cache1.contents == []
      ensures forall x | x in old(cache0.nodes + cache1.nodes) :: x.freed
    {
      cache0.DeleteAll(null);
      cache1.DeleteAll(null);
    }

    method PushSession(slot: nat, item: CacheItem)
      requires Valid() && haveInit && item !in Items() && !item.freed
      modifies cache0, cache1, item`next
      ensures Valid() && Items() == old(Items()) + {item}
      ensures State() ==
              old(State()).(caches := old(State()).caches.With(slot, [item.ckses] + old(State()).caches.At(slot)))
    {
      if slot == 0 {
        cache0.Push(item);
      } else {
        cache1.Push(item);
      }
    }

    /** The session goes back to the cache, is closed, or is dropped. */
    method GiveBackP11(ctx: LunaContext, pid: Pid, wErr: bool, closed: bool) returns (pending: bool)
      requires Valid() && ctx.Open() && (ctx.pcache != null ==> ctx.pcache !in Items())
      modifies this`sessions, ctx`hSession, ctx`pcache, ctx.pcache, cache0, cache1
      ensures Valid()
      ensures (pending, ctx.Value(), State()) == GiveBack(cfg, old(State()), old(ctx.Value()), pid, wErr, closed)
      ensures pending ==> cache0.nodes == old(cache0.nodes) && cache1.nodes == old(cache1.nodes)
      ensures Items() <= old(ctx.Holding(Items()))
      ensures ctx.pcache == null && Accounted(old(ctx.Holding(Items())))
    {
      pending := false;
      if haveInit && ctx.countCInit == countCInit && ctx.pid == pid {
        if ctx.pcache == null || wErr || cfg.disableSessionCache {
          CloseBad(ctx, closed);
          pending := NeedsRecovery(ctx.rvLast);
        } else {
          PushItem(ctx);
        }
      } else {
        ctx.DeleteItem();
        pending := true;
      }
    }

    /** The session is closed and not cached. */
    method CloseBad(ctx: LunaContext, closed: bool)
      requires Valid() && ctx.Open() && (ctx.pcache != null ==> ctx.pcache !in Items())
      modifies this`sessions, ctx`hSession, ctx`pcache, ctx.pcache
      ensures Valid() && ctx.Value() == old(ctx.Value()).(hSession := INVALID_HANDLE, hasItem := false)
      ensures State() == old(State()).(token := CloseSession(old(State()).token, old(ctx.hSession), closed))
      ensures ctx.pcache == null && (old(ctx.pcache) != null ==> old(ctx.pcache).freed)
    {
      CloseP11(ctx.hSession, closed);
      ctx.hSession := INVALID_HANDLE;
      ctx.DeleteItem();
    }

    /** The item of the context becomes the top of its slot's cache. */
    method PushItem(ctx: LunaContext)
      requires Valid() && haveInit && ctx.Open() && ctx.pcache != null && ctx.pcache !in Items()
      modifies ctx`pcache, ctx.pcache, cache0, cache1
      ensures Valid() && ctx.pcache == null && ctx.Value() == old(ctx.Value()).(hasItem := false)
      ensures Items() == old(Items()) + {old(ctx.pcache)}
      ensures var slot, caches := old(ctx.perSlot), old(State()).caches;
              State() == old(State()).(caches := caches.With(slot, [old(ctx.hSession)] + caches.At(slot)))
    {
      PushSession(ctx.perSlot, ctx.pcache);
      ctx.pcache := null;
    }

    /** The first half of luna_close_context_w_err, with the mutex held. */
    method ReleaseP11(ctx: LunaContext, pid: Pid, wErr: bool, closed: bool) returns (pending: bool)
      requires Valid() && ctx.Open() && (ctx.pcache != null ==> ctx.pcache !in Items())
      modifies this`sessions, this`slotActivity, this`countActivity, ctx`hSession, ctx`pcache, ctx.pcache
      modifies cache0, cache0.nodes, cache1, cache1.nodes
      ensures Valid()
      ensures (pending, ctx.Value(), State()) == Release(cfg, old(State()), old(ctx.Value()), pid, wErr, closed)
      ensures Items() <= old(ctx.Holding(Items()))
      ensures ctx.pcache == null && Accounted(old(ctx.Holding(Items())))
    {
      CountClose(ctx.perSlot);
      pending := GiveBackP11(ctx, pid, wErr, closed);
      if pending {
        PurgeCaches();
      }
    }

    method CloseP11(h: Handle, closed: bool)
      requires Valid()
      modifies this`sessions
      ensures Valid() && State() == old(State()).(token := CloseSession(old(State()).token, h, closed))
    {
      if closed {
        sessions := sessions - {h};
      }
    }

    /** The second half of luna_close_context_w_err, with the mutex held, up to its end (done) or to
        the first sleep of its wait loop. */
    method FinishClose(ctx: LunaContext, pending: bool, survivors: set<Handle>, recovery: RecoveryEnv,
                       ghost held: set<CacheItem>) returns (done: bool)
      requires Valid() && mutexHeld && ctx.pcache == null && Accounted(held)
      modifies this, ctx, cache0, cache0.nodes, cache1, cache1.nodes
      ensures Valid() && !mutexHeld && ctx.pcache == null && Accounted(held)
      ensures (done, ctx.Value(), State()) ==
                 EndClose(cfg, old(State()), old(ctx.Value()), pending, survivors, recovery)
    {
      done := true;
      if ctx.finalizePending {
        FiniP11(survivors);
      } else if pending {
        done := WaitAndRecover(ctx.rvLast, recovery);
      }
      MutexExit();
      if done {
        ctx.Kill();
      }
    }

    /** The recovery at the end of a close, up to its end (done) or to the first sleep of the wait loop. */
    method WaitAndRecover(rvLast: ReturnCode, recovery: RecoveryEnv) returns (done: bool)
      requires Valid()
      modifies this, cache0, cache0.nodes, cache1, cache1.nodes
      ensures Valid() && mutexHeld == old(mutexHeld) && Accounted(old(Items()))
      ensures done == (old(countActivity) == 0)
      ensures State() == if done then Recover(cfg, old(State()), rvLast, recovery)
                         else old(State()).(recovering := true)
    {
      SetRecovery(true);
      done := countActivity == 0;
      if done {
        RecoverP11(rvLast, recovery);
      }
    }

    /** Both halves of luna_close_context_w_err. */
    method CloseLocked(ctx: LunaContext, pid: Pid, wErr: bool, closed: bool,
                       survivors: set<Handle>, recovery: RecoveryEnv)
      returns (done: bool)
      requires Valid() && mutexHeld && ctx.Open() && (ctx.pcache != null ==> ctx.pcache !in Items())
      modifies this, ctx, ctx.pcache, cache0, cache0.nodes, cache1, cache1.nodes
      ensures Valid() && !mutexHeld && ctx.pcache == null && Accounted(old(ctx.Holding(Items())))
      ensures var (pending, rest, mid) := Release(cfg, old(State()), old(ctx.Value()), pid, wErr, closed);
              (done, ctx.Value(), State()) == EndClose(cfg, mid, rest, pending, survivors, recovery)
    {
      ghost var held := ctx.Holding(Items());
      var pending := ReleaseP11(ctx, pid, wErr, closed);
      done := FinishClose(ctx, pending, survivors, recovery, held);
    }

    /** luna_close_context_w_err, up to its end (done) or to the first sleep of its wait loop. */
    method CloseContextWErr(ctx: LunaContext, pid: Pid, flagErr: bool, rv: ReturnCode,
                            closed: bool, survivors: set<Handle>, recovery: RecoveryEnv) returns (done: bool)
      requires Valid()
      requires ctx.flagInit ==> ctx.Open() && (ctx.pcache != null ==> ctx.pcache !in Items())
      requires ctx.flagInit ==> mutexHeld == HoldsMutex(cfg, ctx.Value())
      modifies this, ctx, ctx.pcache, cache0, cache0.nodes, cache1, cache1.nodes
      ensures Valid()
      ensures !old(ctx.flagInit) ==>
                && done && ctx.Value() == RecordError(old(ctx.Value()), rv) && ctx.pcache == old(ctx.pcache)
                && State() == old(State()) && mutexHeld == old(mutexHeld) && Items() == old(Items())
      ensures old(ctx.flagInit) ==>
                && !mutexHeld && ctx.pcache == null && Accounted(old(ctx.Holding(Items())))
                && var c := RecordError(old(ctx.Value()), rv);
                   var (pending, rest, mid) := Release(cfg, old(State()), c, pid, flagErr || rv != CKR_OK, closed);
                   (done, ctx.Value(), State()) == EndClose(cfg, mid, rest, pending, survivors, recovery)
    {
      ctx.SetLastError(rv);
      if !ctx.flagInit {
        return true;
      }
      if !ctx.finalizePending && !cfg.disableMultiThread {
        MutexEnter();
      }
      done := CloseLocked(ctx, pid, flagErr || rv != CKR_OK, closed, survivors, recovery);
    }

    /** A turn of the wait loop, from the moment the mutex is free again. */
    method ResumeClose(ctx: LunaContext, recovery: RecoveryEnv) returns (done: bool)
      requires Valid() && !mutexHeld && ctx.pcache == null
      modifies this, ctx, cache0, cache0.nodes, cache1, cache1.nodes
      ensures Valid() && Accounted(old(Items())) && !mutexHeld && done == (old(countActivity) == 0)
      ensures done ==> ctx.Value() == DEAD_CONTEXT && State() == Recover(cfg, old(State()), old(ctx.rvLast), recovery)
      ensures !done ==> ctx.Value() == old(ctx.Value()) && State() == old(State())
    {
      MutexEnter();
      done := countActivity == 0;
      if done {
        RecoverP11(ctx.rvLast, recovery);
      }
      MutexExit();
      if done {
        ctx.Kill();
      }
    }
  }
}
