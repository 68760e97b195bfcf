/** The writer-preferring reader/writer lock of a provider key. */
module KeyLock {
  import opened Cryptoki

  type Thread = nat
  type Reason = nat

  /** readers, writers and want_writers are ints; reason is what a writer leaves in the key. exited
      says that a LUNA_ASSERT failed, which ends the process. */
  datatype Key = Key(readers: int, writers: int, wantWriters: int, reason: Reason, exited: bool)

  /** One turn of the loop in LUNA_OQS_WRITEKEY_LOCK, after which the thread holds the key or sleeps. */
  function TryWrite(k: Key, reason: Reason): (bool, Key) {
    if k.writers != 0 || k.readers != 0 then (false, k)
    else
      var k1 := k.(writers := k.writers + 1, wantWriters := k.wantWriters - 1);
      (true, k1.(reason := reason, exited := k.exited || k1.writers != 1 || k1.readers != 0))
  }

  /** One turn of the loop in LUNA_OQS_READKEY_NDX_LOCK. */
  function TryRead(k: Key): (bool, Key) {
    if k.writers != 0 || k.wantWriters != 0 then (false, k)
    else
      var k1 := k.(readers := k.readers + 1);
      (true, k1.(exited := k.exited || k1.writers != 0 || k1.wantWriters != 0))
  }

  /** The fields of luna_prov_key_ctx that the lock uses. Each method is one critical section. */
  class KeyCtx {
    var readers: int
    var writers: int
    var wantWriters: int
    var reason: Reason
    var exited: bool

    ghost function Value(): Key
      reads this
    {
      Key(readers, writers, wantWriters, reason, exited)
    }

    constructor ()
      ensures Value() == Key(0, 0, 0, 0, false)
    {
      readers, writers, wantWriters, reason, exited := 0, 0, 0, 0, false;
    }

    method LunaAssert(cond: bool)
      modifies this`exited
      ensures Value() == old(Value()).(exited := old(exited) || !cond)
    {
      if !cond {
        exited := true;
      }
    }

    /** LUNA_OQS_WRITEKEY_LOCK up to the first sleep of its loop or to its end. */
    method StartWrite(reason: Reason) returns (held: bool)
      modifies this
      ensures (held, Value()) == TryWrite(old(Value()).(wantWriters := old(wantWriters) + 1), reason)
    {
      wantWriters := wantWriters + 1;
      held := RetryWrite(reason);
    }

    method RetryWrite(reason: Reason) returns (held: bool)
      modifies this
      ensures (held, Value()) == TryWrite(old(Value()), reason)
    {
      if writers != 0 || readers != 0 {
        return false;
      }
      writers := writers + 1;
      wantWriters := wantWriters - 1;
      LunaAssert(writers == 1);
      LunaAssert(readers == 0);
      this.reason := reason;
      held := true;
    }

    method EndWrite()
      modifies this`writers
      ensures Value() == old(Value()).(writers := old(writers) - 1)
    {
      writers := writers - 1;
    }

    /** A turn of the loop of LUNA_OQS_READKEY_NDX_LOCK. */
    method RetryRead() returns (held: bool)
      modifies this
      ensures (held, Value()) == TryRead(old(Value()))
    {
      if writers != 0 || wantWriters != 0 {
        return false;
      }
      readers := readers + 1;
      LunaAssert(writers == 0);
      LunaAssert(wantWriters == 0);
      held := true;
    }

    method EndRead()
      modifies this`readers
      ensures Value() == old(Value()).(readers := old(readers) - 1)
    {
      readers := readers - 1;
    }
  }

  datatype Role = WantsWrite(reason: Reason) | Writing | WantsRead | Reading

  /** The key and what each thread that is at the lock does there. */
  datatype State = State(key: Key, roles: map<Thread, Role>)

  datatype Step =
    | StartWrite(t: Thread, reason: Reason)
    | RetryWrite(t: Thread)
    | EndWrite(t: Thread)
    | StartRead(t: Thread)
    | RetryRead(t: Thread)
    | EndRead(t: Thread)

  /** A thread gives back only a lock that it holds. */
  predicate Enabled(s: State, step: Step) {
    match step
    case StartWrite(t, _) => t !in s.roles
    case RetryWrite(t) => t in s.roles && s.roles[t].WantsWrite?
    case EndWrite(t) => t in s.roles && s.roles[t].Writing?
    case StartRead(t) => t !in s.roles
    case RetryRead(t) => t in s.roles && s.roles[t].WantsRead?
    case EndRead(t) => t in s.roles && s.roles[t].Reading?
  }

  function Apply(s: State, step: Step): State
    requires Enabled(s, step)
  {
    match step
    case StartWrite(t, reason) =>
      var (held, k) := TryWrite(s.key.(wantWriters := s.key.wantWriters + 1), reason);
      State(k, s.roles[t := if held then Writing else WantsWrite(reason)])
    case RetryWrite(t) =>
      var (held, k) := TryWrite(s.key, s.roles[t].reason);
      State(k, s.roles[t := if held then Writing else s.roles[t]])
    case EndWrite(t) => State(s.key.(writers := s.key.writers - 1), s.roles - {t})
    case StartRead(t) =>
      var (held, k) := TryRead(s.key);
      State(k, s.roles[t := if held then Reading else WantsRead])
    case RetryRead(t) =>
      var (held, k) := TryRead(s.key);
      State(k, s.roles[t := if held then Reading else WantsRead])
    case EndRead(t) => State(s.key.(readers := s.key.readers - 1), s.roles - {t})
  }

  const FREE := State(Key(0, 0, 0, 0, false), map[])

  /** s is reached by the given steps from a free key. */
  function Exec(steps: seq<Step>): Option<State> {
    if steps == [] then Some(FREE)
    else match Exec(steps[..|steps| - 1])
      case None => None
      case Some(s) => if Enabled(s, steps[|steps| - 1]) then Some(Apply(s, steps[|steps| - 1])) else None
  }

  function Readers(s: State): set<Thread> {
    set t | t in s.roles && s.roles[t].Reading?
  }

  function Writers(s: State): set<Thread> {
    set t | t in s.roles && s.roles[t].Writing?
  }

  function Waiting(s: State): set<Thread> {
    set t | t in s.roles && s.roles[t].WantsWrite?
  }

  /** The counters count the threads in each role; a writer is alone; no assertion has failed. */
  predicate Safe(s: State) {
    && s.key.readers == |Readers(s)| && s.key.writers == |Writers(s)| && s.key.wantWriters == |Waiting(s)|
    && s.key.writers <= 1
    && (s.key.writers == 1 ==> s.key.readers == 0)
    && !s.key.exited
  }

  ghost predicate Elsewhere(s: State, r: State, t: Thread) {
    forall u :: u != t ==> (u in r.roles <==> u in s.roles) && (u in r.roles ==> r.roles[u] == s.roles[u])
  }

  lemma MovesElsewhere(s: State, step: Step)
    requires Enabled(s, step)
    ensures Elsewhere(s, Apply(s, step), step.t)
  {
  }

  /** A thread that moves changes only the roles it leaves and takes. */
  lemma SizeChange(was: set<Thread>, now: set<Thread>, t: Thread)
    requires was - {t} == now - {t}
    ensures |now| - |was| == In(t, now) - In(t, was)
  {
    SizeWithout(was, t);
    SizeWithout(now, t);
  }

  lemma RoleChanges(s: State, r: State, t: Thread)
    requires Elsewhere(s, r, t)
    ensures |Readers(r)| - |Readers(s)| == In(t, Readers(r)) - In(t, Readers(s))
    ensures |Writers(r)| - |Writers(s)| == In(t, Writers(r)) - In(t, Writers(s))
    ensures |Waiting(r)| - |Waiting(s)| == In(t, Waiting(r)) - In(t, Waiting(s))
  {
    assert Readers(s) - {t} == Readers(r) - {t};
    SizeChange(Readers(s), Readers(r), t);
    assert Writers(s) - {t} == Writers(r) - {t};
    SizeChange(Writers(s), Writers(r), t);
    assert Waiting(s) - {t} == Waiting(r) - {t};
    SizeChange(Waiting(s), Waiting(r), t);
  }

  function In(t: Thread, threads: set<Thread>): int {
    if t in threads then 1 else 0
  }

  lemma SizeWithout(threads: set<Thread>, t: Thread)
    ensures |threads| == |threads - {t}| + In(t, threads)
  {
    if t in threads {
      assert threads == (threads - {t}) + {t};
    } else {
      assert threads - {t} == threads;
    }
  }

  lemma StepIsSafe(s: State, step: Step)
    requires Safe(s) && Enabled(s, step)
    ensures Safe(Apply(s, step))
  {
    var r := Apply(s, step);
    MovesElsewhere(s, step);
    RoleChanges(s, r, step.t);
    assert step.RetryWrite? ==> step.t in Waiting(s);
    assert step.EndWrite? ==> step.t in Writers(s);
    assert step.EndRead? ==> step.t in Readers(s);
  }

  /** For any number of threads and any interleaving: at most one writer, no reader beside it,
      exact counters, and no failed assertion. */
  lemma {:induction false} AlwaysSafe(steps: seq<Step>, s: State)
    requires Exec(steps) == Some(s)
    ensures Safe(s)
    ensures |Writers(s)| <= 1 && (Writers(s) != {} ==> Readers(s) == {})
  {
    if steps == [] {
      assert Readers(s) == {} && Writers(s) == {} && Waiting(s) == {};
    } else {
      var before := Exec(steps[..|steps| - 1]).value;
      AlwaysSafe(steps[..|steps| - 1], before);
      StepIsSafe(before, steps[|steps| - 1]);
    }
  }

  ghost predicate WriterThroughout(steps: seq<Step>, n: nat) {
    forall k :: n <= k < |steps| && Exec(steps[..k]).Some? ==>
      Waiting(Exec(steps[..k]).value) + Writers(Exec(steps[..k]).value) != {}
  }

  /** As long as there is always a writer that waits or writes, no reader gets in. */
  lemma {:induction false} WritersComeFirst(steps: seq<Step>, n: nat)
    requires n <= |steps| && Exec(steps).Some? && WriterThroughout(steps, n)
    ensures Exec(steps[..n]).Some?
    ensures Readers(Exec(steps).value) <= Readers(Exec(steps[..n]).value)
    ensures Exec(steps).value.key.readers <= Exec(steps[..n]).value.key.readers
    decreases |steps|
  {
    if n == |steps| {
      assert steps[..n] == steps;
    } else {
      var before := steps[..|steps| - 1];
      assert forall k :: n <= k <= |before| ==> before[..k] == steps[..k];
      WritersComeFirst(before, n);
      assert before[..n] == steps[..n];
      AlwaysSafe(before, Exec(before).value);
      NoReaderStarts(Exec(before).value, steps[|steps| - 1]);
    }
  }

  lemma NoReaderStarts(s: State, step: Step)
    requires Safe(s) && Enabled(s, step) && Waiting(s) + Writers(s) != {}
    ensures Readers(Apply(s, step)) <= Readers(s) && Apply(s, step).key.readers <= s.key.readers
  {
    if Waiting(s) == {} {
      assert s.key.writers != 0;
    } else {
      assert s.key.wantWriters != 0;
    }
  }

  /** While a thread reads, no step changes what the last writer left in the key, and the thread
      goes on reading until it ends its read itself. */
  lemma ReadersSeeOneValue(steps: seq<Step>, s: State, step: Step, t: Thread)
    requires Exec(steps) == Some(s) && Enabled(s, step) && t in Readers(s)
    ensures Apply(s, step).key.reason == s.key.reason
    ensures t in Readers(Apply(s, step)) || step == EndRead(t)
  {
    AlwaysSafe(steps, s);
  }

  /** No step of another thread ends a write, nor overwrites the reason of a writer that writes. */
  lemma WriterIsUndisturbed(steps: seq<Step>, s: State, step: Step, t: Thread)
    requires Exec(steps) == Some(s) && Enabled(s, step) && t in Writers(s)
    ensures step == EndWrite(t) || (t in Writers(Apply(s, step)) && Apply(s, step).key.reason == s.key.reason)
  {
    AlwaysSafe(steps, s);
  }

  /** In every run a reader gets in, at once or after a sleep, exactly when no writer writes or waits. */
  lemma ReaderGetsIn(steps: seq<Step>, s: State, step: Step)
    requires Exec(steps) == Some(s) && Enabled(s, step) && (step.StartRead? || step.RetryRead?)
    ensures var r := Apply(s, step);
            && (step.t in Readers(r) <==> Writers(s) + Waiting(s) == {})
            && (step.t !in Readers(r) ==> r.roles == s.roles[step.t := WantsRead] && r.key == s.key)
  {
    AlwaysSafe(steps, s);
    EmptyCounts(Writers(s), Waiting(s));
  }

  /** A writer gets in exactly when no thread reads or writes, and leaves its reason in the key. */
  lemma WriterGetsIn(steps: seq<Step>, s: State, step: Step)
    requires Exec(steps) == Some(s) && Enabled(s, step) && (step.StartWrite? || step.RetryWrite?)
    ensures var r := Apply(s, step);
            var reason := if step.StartWrite? then step.reason else s.roles[step.t].reason;
            && (step.t in Writers(r) <==> Readers(s) + Writers(s) == {})
            && (step.t in Writers(r) ==> r.key.reason == reason)
            && (step.t !in Writers(r) ==>
                  r.roles == s.roles[step.t := WantsWrite(reason)] && r.key.reason == s.key.reason)
  {
    AlwaysSafe(steps, s);
    EmptyCounts(Readers(s), Writers(s));
  }

  lemma EmptyCounts(a: set<Thread>, b: set<Thread>)
    ensures a + b == {} <==> |a| == 0 && |b| == 0
  {
    if |a| == 0 && |b| == 0 {
      assert a == {} && b == {};
    }
  }

  /** A thread that ends its read or its write leaves the lock, and what it left in the key stays. */
  lemma ThreadLeaves(s: State, step: Step)
    requires Enabled(s, step) && (step.EndRead? || step.EndWrite?)
    ensures var r := Apply(s, step);
            && r.roles == s.roles - {step.t} && r.key.reason == s.key.reason
            && (step.EndRead? ==> Readers(r) == Readers(s) - {step.t} && Writers(r) == Writers(s))
            && (step.EndWrite? ==> Writers(r) == Writers(s) - {step.t} && Readers(r) == Readers(s))
            && Waiting(r) == Waiting(s)
  {
  }
}
