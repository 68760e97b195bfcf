/** Who owns a session handle: a cache or one open context, never two of them, and always the
    process and library generation that opened it. */
module SessionOwnership {
  import opened Cryptoki
  import opened SessionCore
  import opened SessionFacts
  import opened SessionInvariants
  import opened ForkDepth
  import opened SessionOutcomes
  import opened SessionProtocol

  type Caches = Pair<seq<Handle>>
  type Holders = map<ContextId, Handle>

  predicate Cached(caches: Caches, h: Handle) {
    h in caches.zero || h in caches.one
  }

  predicate Distinct(handles: seq<Handle>) {
    forall i, j | 0 <= i < j < |handles| :: handles[i] != handles[j]
  }

  /** No handle is in two places among the two caches and the holders. */
  ghost predicate Exclusive(caches: Caches, held: Holders) {
    && Distinct(caches.zero)
    && Distinct(caches.one)
    && (forall h | h in caches.zero :: h !in caches.one)
    && (forall c | c in held :: !Cached(caches, held[c]))
    && (forall c, d | c in held && d in held && c != d :: held[c] != held[d])
  }

  /** The HSM holds every cached and every held handle open for this process, in the given
      generation of its library. */
  ghost predicate Owned(caches: Caches, held: Holders, sessions: map<Handle, nat>, generation: nat) {
    && (forall h | Cached(caches, h) :: h in sessions && sessions[h] == generation)
    && (forall c | c in held :: held[c] in sessions && sessions[held[c]] == generation)
  }

  lemma PopKeeps(caches: Caches, held: Holders, slot: nat, c: ContextId, sessions: map<Handle, nat>, generation: nat)
    requires caches.At(slot) != [] && c !in held && slot < MAX_SLOT
    ensures var popped, now := caches.With(slot, caches.At(slot)[1..]), held[c := caches.At(slot)[0]];
            && (Exclusive(caches, held) ==> Exclusive(popped, now))
            && (Owned(caches, held, sessions, generation) ==> Owned(popped, now, sessions, generation))
  {
    var popped := caches.With(slot, caches.At(slot)[1..]);
    assert forall h | Cached(popped, h) :: Cached(caches, h);
    assert Cached(caches, caches.At(slot)[0]);
  }

  lemma NewKeeps(caches: Caches, held: Holders, h: Handle, c: ContextId, sessions: map<Handle, nat>, generation: nat)
    requires Owned(caches, held, sessions, generation) && h !in sessions && c !in held
    ensures Exclusive(caches, held) ==> Exclusive(caches, held[c := h])
    ensures Owned(caches, held[c := h], sessions[h := generation], generation)
  {
  }

  lemma PushKeeps(caches: Caches, held: Holders, slot: nat, c: ContextId, sessions: map<Handle, nat>, generation: nat)
    requires c in held && slot < MAX_SLOT
    ensures var pushed := caches.With(slot, [held[c]] + caches.At(slot));
            && (Exclusive(caches, held) ==> Exclusive(pushed, held - {c}))
            && (Owned(caches, held, sessions, generation) ==> Owned(pushed, held - {c}, sessions, generation))
  {
    var pushed := caches.With(slot, [held[c]] + caches.At(slot));
    assert forall h | Cached(pushed, h) :: Cached(caches, h) || h == held[c];
  }

  lemma CloseKeeps(caches: Caches, held: Holders, c: ContextId,
                   sessions: map<Handle, nat>, after: map<Handle, nat>, generation: nat)
    requires c in held && Exclusive(caches, held) && Owned(caches, held, sessions, generation)
    requires forall h | h in sessions && h != held[c] :: h in after && after[h] == sessions[h]
    ensures Exclusive(caches, held - {c}) && Owned(caches, held - {c}, after, generation)
    ensures Exclusive(NO_CACHES, held - {c}) && Owned(NO_CACHES, held - {c}, after, generation)
  {
  }

  /** In use, and opened with the library as it now is. */
  predicate Current(p: Process, c: ContextId) {
    InUse(p, c) && p.core.haveInit && p.ctxs[c].pid == p.core.pidCInit && p.ctxs[c].generation == p.core.generation
  }

  /** The session handles of the current contexts. */
  function Held(p: Process): Holders {
    map c | c in p.ctxs && Current(p, c) :: p.ctxs[c].hSession
  }

  /** Forks are detected, or this process did not fork from an initialized one. */
  predicate Watched(cfg: Config, pid: Pid, s: Core) {
    !cfg.disableCheckFinalize || pid == s.pidCInit
  }

  /** The caches and holders held share no handle, and own what they hold. */
  ghost predicate Settled(cfg: Config, pid: Pid, s: Core, held: Holders) {
    && (Watched(cfg, pid, s) ==> Exclusive(s.caches, held))
    && (pid == s.pidCInit ==> Owned(s.caches, held, s.token.sessions, s.generation))
  }

  /** Every live context was opened with the library as it is or was; with forks detected, a process has
      contexts of its own only if it has initialized the library itself. */
  ghost predicate LibraryOk(cfg: Config, pid: Pid, p: Process) {
    && (p.core.pidCInit != NO_PID ==> p.core.loaded)
    && (p.core.haveInit ==> p.core.pidCInit != NO_PID)
    && (forall c: ContextId | Live(p, c) ::
          && p.core.pidCInit != NO_PID
          && p.ctxs[c].generation <= p.core.generation
          && (!cfg.disableCheckFinalize && p.ctxs[c].pid == pid ==> p.core.pidCInit == pid))
  }

  ghost predicate OwnershipOk(cfg: Config, pid: Pid, p: Process) {
    LibraryOk(cfg, pid, p) && Settled(cfg, pid, p.core, Held(p))
  }

  /** Once the library is ready for an open, nothing that it has dropped is still counted on. */
  lemma PrepareSettles(cfg: Config, pid: Pid, p: Process, ready: bool, prep: Core)
    requires pid != NO_PID && OwnershipOk(cfg, pid, p) && Rested(p) && Prepared(cfg, p.core, pid, ready, prep)
    ensures OwnershipOk(cfg, pid, p.(core := prep))
    ensures prep.haveInit && !cfg.disableCheckFinalize ==> prep.pidCInit == pid
  {
    var r := p.(core := prep);
    if !(p.core.haveInit && !ForkSeen(cfg, p.core, pid)) {
      assert Held(r) == map[];
    }
  }

  /** Dropping holders, adding sessions and clearing the caches settle nothing anew. */
  lemma LessIsSettled(cfg: Config, pid: Pid, s: Core, held: Holders, r: Core, fewer: Holders)
    requires Settled(cfg, pid, s, held) && r.pidCInit == s.pidCInit && r.generation == s.generation
    requires forall c | c in fewer :: c in held && fewer[c] == held[c]
    requires (r.caches == s.caches && Grows(s.token, r.token))
          || (r.caches == NO_CACHES && (Grows(s.token, r.token) || fewer == map[]))
    ensures Settled(cfg, pid, r, fewer)
  {
  }

  /** The new context joins the holders. */
  lemma HolderJoins(cfg: Config, pid: Pid, p: Process, c: ContextId, q: Process,
                    ready: bool, prep: Core, asked: Context, got: Core)
    requires c !in p.ctxs && c !in p.waiting && prep.haveInit && prep.pidCInit == pid
    requires OpenOutcome(cfg, pid, p, c, q, ready, prep, asked, got) && ready && q.ctxs[c].flagInit
    ensures c !in Held(p.(core := prep)) && Held(q) == Held(p.(core := prep))[c := q.ctxs[c].hSession]
  {
  }

  lemma OpenSucceeds(cfg: Config, pid: Pid, p: Process, c: ContextId, q: Process,
                     ready: bool, prep: Core, asked: Context, got: Core)
    requires OwnershipOk(cfg, pid, p.(core := prep)) && c !in p.ctxs && c !in p.waiting
    requires prep.haveInit && !cfg.disableCheckFinalize ==> prep.pidCInit == pid
    requires OpenOutcome(cfg, pid, p, c, q, ready, prep, asked, got) && ready && q.ctxs[c].flagInit
    ensures Settled(cfg, pid, q.core, Held(q))
  {
    var held, h := Held(p.(core := prep)), q.ctxs[c].hSession;
    if prep.pidCInit == pid {
      HolderJoins(cfg, pid, p, c, q, ready, prep, asked, got);
      if prep.caches.At(asked.perSlot) != [] {
        PopKeeps(prep.caches, held, asked.perSlot, c, prep.token.sessions, prep.generation);
      } else {
        NewKeeps(prep.caches, held, h, c, prep.token.sessions, prep.generation);
      }
    }
  }

  lemma OpenFails(cfg: Config, pid: Pid, p: Process, c: ContextId, q: Process,
                  ready: bool, prep: Core, asked: Context, got: Core)
    requires OwnershipOk(cfg, pid, p.(core := prep)) && c !in p.ctxs
    requires OpenOutcome(cfg, pid, p, c, q, ready, prep, asked, got) && !q.ctxs[c].flagInit
    ensures Settled(cfg, pid, q.core, Held(q))
  {
    var held := Held(p.(core := prep));
    if !ready {
      assert Held(q) == held;
    } else {
      if asked.finalizePending {
        assert Held(q) == map[];
      }
      LessIsSettled(cfg, pid, prep, held, q.core, Held(q));
    }
  }

  lemma OpenKeepsLibrary(cfg: Config, pid: Pid, p: Process, c: ContextId, q: Process,
                         ready: bool, prep: Core, asked: Context, got: Core)
    requires LibraryOk(cfg, pid, p.(core := prep)) && pid != NO_PID
    requires prep.haveInit && !cfg.disableCheckFinalize ==> prep.pidCInit == pid
    requires OpenOutcome(cfg, pid, p, c, q, ready, prep, asked, got)
    ensures LibraryOk(cfg, pid, q)
  {
  }

  lemma OpenKeepsOwnership(cfg: Config, pid: Pid, p: Process, c: ContextId, q: Process,
                           ready: bool, prep: Core, asked: Context, got: Core)
    requires Shaped(cfg, p) && DepthOk(cfg, pid, p) && OwnershipOk(cfg, pid, p) && c !in p.ctxs
    requires OpenOutcome(cfg, pid, p, c, q, ready, prep, asked, got)
    ensures OwnershipOk(cfg, pid, q)
  {
    PrepareSettles(cfg, pid, p, ready, prep);
    OpenKeepsLibrary(cfg, pid, p, c, q, ready, prep, asked, got);
    OpenSettles(cfg, pid, p, c, q, ready, prep, asked, got);
  }

  lemma OpenSettles(cfg: Config, pid: Pid, p: Process, c: ContextId, q: Process,
                    ready: bool, prep: Core, asked: Context, got: Core)
    requires OwnershipOk(cfg, pid, p.(core := prep)) && c !in p.ctxs && c !in p.waiting
    requires prep.haveInit && !cfg.disableCheckFinalize ==> prep.pidCInit == pid
    requires OpenOutcome(cfg, pid, p, c, q, ready, prep, asked, got)
    ensures Settled(cfg, pid, q.core, Held(q))
  {
    if q.ctxs[c].flagInit {
      OpenSucceeds(cfg, pid, p, c, q, ready, prep, asked, got);
    } else {
      OpenFails(cfg, pid, p, c, q, ready, prep, asked, got);
    }
  }

  lemma CloseKeepsLibrary(cfg: Config, pid: Pid, p: Process, c: ContextId, q: Process,
                          ctx: Context, pending: bool, cached: bool, rest: Context, mid: Core)
    requires LibraryOk(cfg, pid, p) && InUse(p, c)
    requires ctx == p.ctxs[c].(rvLast := ctx.rvLast, errors := ctx.errors)
    requires CloseOutcome(cfg, pid, p, c, q, ctx, pending, cached, rest, mid)
    ensures LibraryOk(cfg, pid, q)
  {
  }

  /** The session of a closing context is in no place anymore, or only in the cache. */
  lemma ReleaseSettles(cfg: Config, pid: Pid, p: Process, c: ContextId,
                       ctx: Context, pending: bool, cached: bool, rest: Context, mid: Core)
    requires Shaped(cfg, p) && OwnershipOk(cfg, pid, p) && InUse(p, c)
    requires p.core.generation - p.ctxs[c].generation < COUNTER_PERIOD
    requires ctx == p.ctxs[c].(rvLast := ctx.rvLast, errors := ctx.errors)
    requires Released(p.core, ctx, pid, pending, cached, rest, mid)
    ensures Settled(cfg, pid, mid, Held(p) - {c})
  {
    SameCount(ctx.generation, p.core.generation);
    var held, less := Held(p), Held(p) - {c};
    if Watched(cfg, pid, p.core) {
      if !SameLibrary(p.core, ctx, pid) {
        LessIsSettled(cfg, pid, p.core, held, mid, less);
      } else if cached {
        PushKeeps(p.core.caches, held, ctx.perSlot, c, p.core.token.sessions, p.core.generation);
      } else {
        CloseKeeps(p.core.caches, held, c, p.core.token.sessions, mid.token.sessions, p.core.generation);
      }
    }
  }

  lemma EndSettles(cfg: Config, pid: Pid, p: Process, c: ContextId, q: Process,
                   ctx: Context, pending: bool, cached: bool, rest: Context, mid: Core)
    requires OwnershipOk(cfg, pid, p) && InUse(p, c) && Settled(cfg, pid, mid, Held(p) - {c})
    requires ctx == p.ctxs[c].(rvLast := ctx.rvLast, errors := ctx.errors)
    requires CloseOutcome(cfg, pid, p, c, q, ctx, pending, cached, rest, mid)
    ensures Settled(cfg, pid, q.core, Held(q))
  {
    var less := Held(p) - {c};
    assert forall d | d in Held(q) :: d in less && Held(q)[d] == less[d];
    LessIsSettled(cfg, pid, mid, less, q.core, Held(q));
  }

  lemma CloseKeepsOwnership(cfg: Config, pid: Pid, p: Process, c: ContextId, q: Process,
                            ctx: Context, pending: bool, cached: bool, rest: Context, mid: Core)
    requires Shaped(cfg, p) && OwnershipOk(cfg, pid, p) && InUse(p, c)
    requires p.core.generation - p.ctxs[c].generation < COUNTER_PERIOD
    requires ctx == p.ctxs[c].(rvLast := ctx.rvLast, errors := ctx.errors)
    requires CloseOutcome(cfg, pid, p, c, q, ctx, pending, cached, rest, mid)
    ensures OwnershipOk(cfg, pid, q)
  {
    CloseKeepsLibrary(cfg, pid, p, c, q, ctx, pending, cached, rest, mid);
    ReleaseSettles(cfg, pid, p, c, ctx, pending, cached, rest, mid);
    EndSettles(cfg, pid, p, c, q, ctx, pending, cached, rest, mid);
  }

  lemma RetryKeepsOwnership(cfg: Config, pid: Pid, p: Process, c: ContextId, q: Process)
    requires OwnershipOk(cfg, pid, p) && RetryOutcome(p, c, q)
    ensures OwnershipOk(cfg, pid, q)
  {
    if q != p {
      LessIsSettled(cfg, pid, p.core, Held(p), q.core, Held(q));
    }
  }

  lemma SameCoreKeeps(cfg: Config, pid: Pid, p: Process, q: Process)
    requires OwnershipOk(cfg, pid, p) && q.waiting == p.waiting && q.ctxs.Keys == p.ctxs.Keys
    requires q.core == p.core.(token := q.core.token, lineage := q.core.lineage)
    requires q.core.token.sessions == p.core.token.sessions
    requires forall c | c in p.ctxs :: q.ctxs[c] == p.ctxs[c].(rvLast := q.ctxs[c].rvLast, errors := q.ctxs[c].errors)
    ensures OwnershipOk(cfg, pid, q)
  {
    assert Held(q) == Held(p);
  }

  lemma OpenStepKeepsOwnership(cfg: Config, pid: Pid, p: Process, step: Step)
    requires Shaped(cfg, p) && DepthOk(cfg, pid, p) && OwnershipOk(cfg, pid, p)
    requires step.OpenNew? && Enabled(cfg, p, step)
    ensures OwnershipOk(cfg, pid, Apply(cfg, pid, p, step))
  {
    var ready, prep, asked, got := OpenHasOutcome(cfg, pid, p, step.c, step.ndx, step.open);
    OpenKeepsOwnership(cfg, pid, p, step.c, Apply(cfg, pid, p, step), ready, prep, asked, got);
  }

  lemma CloseStepKeepsOwnership(cfg: Config, pid: Pid, p: Process, step: Step)
    requires Shaped(cfg, p) && OwnershipOk(cfg, pid, p) && step.Close? && Enabled(cfg, p, step)
    ensures OwnershipOk(cfg, pid, Apply(cfg, pid, p, step))
  {
    var pending, rest, mid := CloseHasOutcome(cfg, pid, p, step);
    CloseKeepsOwnership(cfg, pid, p, step.c, Apply(cfg, pid, p, step), RecordError(p.ctxs[step.c], step.rv),
                        pending, CloseCaches(cfg, pid, p, step), rest, mid);
  }

  lemma RetryStepKeepsOwnership(cfg: Config, pid: Pid, p: Process, step: Step)
    requires OwnershipOk(cfg, pid, p) && step.CloseRetry? && Enabled(cfg, p, step)
    ensures OwnershipOk(cfg, pid, Apply(cfg, pid, p, step))
  {
    RetryHasOutcome(cfg, p, step.c, step.recovery);
    RetryKeepsOwnership(cfg, pid, p, step.c, Apply(cfg, pid, p, step));
  }

  lemma OtherStepKeepsOwnership(cfg: Config, pid: Pid, p: Process, step: Step)
    requires OwnershipOk(cfg, pid, p) && Enabled(cfg, p, step)
    requires !step.OpenNew? && !step.Close? && !step.CloseRetry?
    ensures OwnershipOk(cfg, pid, Apply(cfg, pid, p, step))
  {
    if step.SetFinalizePending? {
      FiniFacts(cfg, p.core, step.survivors);
      assert Held(Apply(cfg, pid, p, step)) == map[];
    } else {
      SameCoreKeeps(cfg, pid, p, Apply(cfg, pid, p, step));
    }
  }

  lemma StepKeepsOwnership(cfg: Config, pid: Pid, p: Process, step: Step)
    requires Shaped(cfg, p) && DepthOk(cfg, pid, p) && OwnershipOk(cfg, pid, p) && Enabled(cfg, p, step)
    ensures OwnershipOk(cfg, pid, Apply(cfg, pid, p, step))
  {
    if step.OpenNew? {
      OpenStepKeepsOwnership(cfg, pid, p, step);
    } else if step.Close? {
      CloseStepKeepsOwnership(cfg, pid, p, step);
    } else if step.CloseRetry? {
      RetryStepKeepsOwnership(cfg, pid, p, step);
    } else {
      OtherStepKeepsOwnership(cfg, pid, p, step);
    }
  }

  lemma ForkKeepsOwnership(cfg: Config, pid: Pid, p: Process, child: Pid)
    requires OwnershipOk(cfg, pid, p)
    requires child != NO_PID && child != p.core.pidCInit && forall c | c in p.ctxs :: p.ctxs[c].pid != child
    ensures OwnershipOk(cfg, child, Child(p))
  {
    assert Held(Child(p)) == Held(p);
  }
}
