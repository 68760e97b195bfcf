/** What the critical sections of SessionCore change and what they leave alone: summaries that
    the invariants are proved from. */
module SessionFacts {
  import opened Cryptoki
  import opened SessionCore

  /** A store is locked out exactly when a login sent from it has failed, so at most one fails. */
  predicate PassOk(p: PassStore) {
    p.failures <= 1 && (p.failures == 1 <==> p.boolInit == 2)
  }

  predicate PassesOk(t: Token) {
    PassOk(t.pass.zero) && PassOk(t.pass.one)
  }

  /** Sessions may have been added; those that were open still are, in the same generation. */
  predicate Grows(t: Token, r: Token) {
    && (forall h | h in t.sessions :: h in r.sessions && r.sessions[h] == t.sessions[h])
    && (PassesOk(t) ==> PassesOk(r))
  }

  /** All that a finalization clears is clear; the rest is as it was. */
  predicate Finalized(s: Core, r: Core) {
    && r == s.(haveInit := false, caches := NO_CACHES, activity := IDLE, token := r.token)
    && (PassesOk(s.token) ==> PassesOk(r.token))
  }

  lemma LoginSlotFacts(cfg: Config, t: Token, generation: nat, slot: nat, e: LoginEnv)
    ensures Grows(t, LoginSlot(cfg, t, generation, slot, e).1)
  {
  }

  lemma DeferredLoginFacts(cfg: Config, s: Core, e: Pair<LoginEnv>)
    ensures Grows(s.token, DeferredLogin(cfg, s, e).1)
  {
    if s.haveInit {
      LoginSlotFacts(cfg, s.token, s.generation, 0, e.zero);
      LoginSlotFacts(cfg, LoginSlot(cfg, s.token, s.generation, 0, e.zero).1, s.generation, 1, e.one);
    }
  }

  lemma FiniFacts(cfg: Config, s: Core, survivors: set<Handle>)
    ensures Finalized(s, Fini(cfg, s, survivors))
  {
  }

  predicate ForkSeen(cfg: Config, s: Core, pid: Pid) {
    !cfg.disableCheckFinalize && pid != s.pidCInit
  }

  /** Summary of Prepare. */
  predicate Prepared(cfg: Config, s: Core, pid: Pid, ok: bool, r: Core) {
    && r.haveInit == ok
    && r.lineage == s.lineage && r.recovering == s.recovering
    && (PassesOk(s.token) ==> PassesOk(r.token))
    && (s.loaded ==> r.loaded)
    && r.activity == (if ForkSeen(cfg, s, pid) then IDLE else s.activity)
    && (if s.haveInit && !ForkSeen(cfg, s, pid) then ok && r == s
        else if r.pidCInit == pid && r.loaded then
          r.caches == NO_CACHES && s.generation <= r.generation && (ok ==> s.generation < r.generation)
        else
          !ok && !s.loaded && r.pidCInit == s.pidCInit && r.generation == s.generation
          && (s.caches == NO_CACHES || ForkSeen(cfg, s, pid) ==> r.caches == NO_CACHES))
  }

  lemma InitLoadedFacts(cfg: Config, s: Core, e: InitEnv)
    requires !s.haveInit
    ensures var (ok, r) := InitLoaded(cfg, s, e);
            && r.haveInit == ok
            && r == s.(haveInit := ok, generation := r.generation, token := r.token)
            && (PassesOk(s.token) ==> PassesOk(r.token))
            && s.generation <= r.generation && (ok ==> s.generation < r.generation)
  {
    DeferredLoginFacts(cfg, s.(generation := s.generation + 1, haveInit := true), e.login);
  }

  lemma InitFacts(cfg: Config, s: Core, pid: Pid, e: InitEnv)
    requires !s.haveInit
    ensures var (ok, r) := InitDeferred(cfg, s, pid, e);
            && r.haveInit == ok
            && r == s.(loaded := r.loaded, haveInit := r.haveInit, generation := r.generation,
                       pidCInit := r.pidCInit, caches := r.caches, token := r.token)
            && (PassesOk(s.token) ==> PassesOk(r.token))
            && if !s.loaded && !e.loads then !ok && r == s
               else r.loaded && r.pidCInit == pid && r.caches == NO_CACHES && s.generation <= r.generation
                    && (ok ==> s.generation < r.generation)
  {
    InitLoadedFacts(cfg, s.(loaded := true, caches := NO_CACHES, pidCInit := pid), e);
  }

  lemma PrepareFacts(cfg: Config, s: Core, pid: Pid, e: OpenEnv)
    ensures Prepared(cfg, s, pid, Prepare(cfg, s, pid, e).0, Prepare(cfg, s, pid, e).1)
  {
    FiniFacts(cfg, s, e.forkSurvivors);
    var s1 := if ForkSeen(cfg, s, pid) then Fini(cfg, s, e.forkSurvivors) else s;
    if !s1.haveInit {
      InitFacts(cfg, s1, pid, e.init);
    }
  }

  /** Summary of TakeSession. */
  predicate Taken(s: Core, c: Context, c1: Context, r: Core) {
    && (PassesOk(s.token) ==> PassesOk(r.token))
    && if c1.flagInit then
         && c1 == Success(c, c1.hSession, c1.hasItem)
         && (var cache := s.caches.At(c.perSlot);
             if cache != [] then
               c1.hSession == cache[0] && r == s.(caches := s.caches.With(c.perSlot, cache[1..]))
             else
               && c1.hSession !in s.token.sessions
               && r.token.sessions == s.token.sessions[c1.hSession := s.generation]
               && r == s.(token := r.token))
       else
         c1 == c && if c.finalizePending then Finalized(s, r) else r == s.(token := r.token) && Grows(s.token, r.token)
  }

  lemma LoginOnOpenFacts(t: Token, slot: nat, answer: LoginAnswer)
    ensures var (ok, t1) := LoginOnOpen(t, slot, answer); t1.sessions == t.sessions && (PassesOk(t) ==> PassesOk(t1))
  {
  }

  lemma TakeSessionFacts(cfg: Config, s: Core, c: Context, e: OpenEnv)
    requires !c.flagInit
    ensures Taken(s, c, TakeSession(cfg, s, c, e).0, TakeSession(cfg, s, c, e).1)
  {
    if s.caches.At(c.perSlot) == [] {
      match OpenSession(s.token, e.open)
      case None => FiniFacts(cfg, s, e.survivors);
      case Some(h) => NewSessionFacts(cfg, s, c, e, h);
    }
  }

  lemma NewSessionFacts(cfg: Config, s: Core, c: Context, e: OpenEnv, h: Handle)
    requires !c.flagInit && s.caches.At(c.perSlot) == [] && OpenSession(s.token, e.open) == Some(h)
    ensures Taken(s, c, TakeSession(cfg, s, c, e).0, TakeSession(cfg, s, c, e).1)
  {
    var t := s.token.(sessions := s.token.sessions[h := s.generation]);
    LoginOnOpenFacts(t, c.perSlot, e.login);
    var (ok, t1) := if cfg.protectServer then LoginOnOpen(t, c.perSlot, e.login) else (true, t);
    if !ok {
      FiniFacts(cfg, s.(token := CloseSession(t1, h, e.closed)), e.survivors);
    }
  }

  /** Summary of Open: the library was prepared, giving p; then a session was sought for the
      context c, giving t. */
  predicate Opened(cfg: Config, s: Core, pid: Pid, ctx: Context, r: Core,
                   ready: bool, p: Core, c: Context, t: Core) {
    && Prepared(cfg, s, pid, ready, p)
    && if !ready then ctx == DEAD_CONTEXT && r == p
       else
         && c == DEAD_CONTEXT.(finalizePending := DecideFinalize(cfg, p.lineage, pid).0,
                               perSlot := c.perSlot, generation := p.generation, pid := pid)
         && c.perSlot < MAX_SLOT
         && Taken(p.(lineage := DecideFinalize(cfg, p.lineage, pid).1), c, ctx, t)
         && r == if ctx.flagInit then t.(activity := CountUp(t.activity, c.perSlot)) else t
  }

  lemma OpenFacts(cfg: Config, s: Core, pid: Pid, ndx: nat, e: OpenEnv)
    returns (ready: bool, p: Core, c: Context, t: Core)
    ensures ready == Prepare(cfg, s, pid, e).0
    ensures Opened(cfg, s, pid, Open(cfg, s, pid, ndx, e).0, Open(cfg, s, pid, ndx, e).1, ready, p, c, t)
  {
    PrepareFacts(cfg, s, pid, e);
    ready, p := Prepare(cfg, s, pid, e).0, Prepare(cfg, s, pid, e).1;
    var (pending, l) := DecideFinalize(cfg, p.lineage, pid);
    c := DEAD_CONTEXT.(finalizePending := pending, perSlot := ChooseSlot(cfg, p.activity, ndx),
                       generation := p.generation, pid := pid);
    TakeSessionFacts(cfg, p.(lineage := l), c, e);
    t := TakeSession(cfg, p.(lineage := l), c, e).1;
  }

  /** Summary of Release: the counters went down, and the session went to the cache (cached), or
      was closed or dropped. */
  predicate Released(s: Core, c: Context, pid: Pid, pending: bool, cached: bool, c1: Context, r: Core) {
    && c1 == c.(hSession := c1.hSession, hasItem := false)
    && r == s.(activity := CountDown(s.activity, c.perSlot), caches := r.caches, token := r.token)
    && r.token.pass == s.token.pass
    && (cached ==> SameLibrary(s, c, pid) && r.token == s.token && !pending)
    && (!SameLibrary(s, c, pid) ==> pending && r.token == s.token)
    && r.caches == (if pending then NO_CACHES
                    else if cached then s.caches.With(c.perSlot, [c.hSession] + s.caches.At(c.perSlot))
                    else s.caches)
    && (forall h | h in s.token.sessions && h != c.hSession ::
          h in r.token.sessions && r.token.sessions[h] == s.token.sessions[h])
  }

  lemma ReleaseFacts(cfg: Config, s: Core, c: Context, pid: Pid, wErr: bool, closed: bool)
    ensures var (pending, c1, r) := Release(cfg, s, c, pid, wErr, closed);
            Released(s, c, pid, pending,
              SameLibrary(s, c, pid) && c.hasItem && !wErr && !cfg.disableSessionCache, c1, r)
  {
  }

  /** Summary of Recover. */
  predicate Recovered(s: Core, r: Core) {
    || (r == s.(recovering := false, token := r.token) && Grows(s.token, r.token))
    || Finalized(s.(recovering := false), r)
  }

  lemma RecoverFacts(cfg: Config, s: Core, rvLast: ReturnCode, e: RecoveryEnv)
    ensures Recovered(s, Recover(cfg, s, rvLast, e))
  {
    DeferredLoginFacts(cfg, s, e.login);
    var t := if cfg.recoveryLevel >= 1 then DeferredLogin(cfg, s, e.login).1 else s.token;
    FiniFacts(cfg, s.(token := t), e.survivors);
  }
}
