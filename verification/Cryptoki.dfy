/** The PKCS #11 vocabulary of the engine: handles, return codes and how severe each code is. */
module Cryptoki {

  datatype Option<+T> = None | Some(value: T)

  /** A pair indexed by the engine's slot index, LUNA_MAX_SLOT being 2. */
  datatype Pair<T> = Pair(zero: T, one: T) {
    function At(i: nat): T {
      if i == 0 then zero else one
    }

    function With(i: nat, v: T): Pair<T> {
      if i == 0 then Pair(v, one) else Pair(zero, v)
    }
  }

  const MAX_SLOT := 2

  type Handle = nat
  const INVALID_HANDLE: Handle := 0

  type Pid = nat
  const NO_PID: Pid := 0

  type ReturnCode = nat
  const CKR_OK: ReturnCode := 0x0
  const CKR_GENERAL_ERROR: ReturnCode := 0x5
  const CKR_DEVICE_ERROR: ReturnCode := 0x30
  const CKR_SESSION_HANDLE_INVALID: ReturnCode := 0xB3
  const CKR_TOKEN_NOT_PRESENT: ReturnCode := 0xE0

  /** 2: the library must be finalized to recover; 1: a new login may do; 0: no recovery. */
  function Severity(rv: ReturnCode): nat {
    if rv == CKR_DEVICE_ERROR then 2
    else if rv == CKR_TOKEN_NOT_PRESENT then 2
    else if rv == CKR_SESSION_HANDLE_INVALID then 1
    else 0
  }

  predicate NeedsRecovery(rv: ReturnCode) {
    Severity(rv) >= 1
  }

  predicate NeedsFinalize(rv: ReturnCode) {
    Severity(rv) >= 2
  }

  /** luna_context_set_last_error: a severe code is never overwritten by a milder one. */
  function Worse(stored: ReturnCode, rv: ReturnCode): ReturnCode {
    if Severity(rv) > Severity(stored) then rv else stored
  }

  /** The greatest severity among the codes of a history. */
  function MaxSeverity(codes: seq<ReturnCode>): nat {
    if codes == [] then 0
    else
      var rest := MaxSeverity(codes[..|codes| - 1]);
      var last := Severity(codes[|codes| - 1]);
      if last > rest then last else rest
  }

  lemma {:induction false} MaxSeverityBounds(codes: seq<ReturnCode>)
    ensures forall rv | rv in codes :: Severity(rv) <= MaxSeverity(codes)
    ensures MaxSeverity(codes) == 0 || exists rv | rv in codes :: Severity(rv) == MaxSeverity(codes)
  {
    if codes == [] {
    } else {
      var front, last := codes[..|codes| - 1], codes[|codes| - 1];
      MaxSeverityBounds(front);
      assert codes == front + [last];
    }
  }

  /** The library-initialization counter is an unsigned int that skips zero when it wraps. */
  const COUNTER_PERIOD := 0xFFFF_FFFF

  function NextCount(count: nat): nat {
    var next := (count + 1) % 0x1_0000_0000;
    if next == 0 then 1 else next
  }

  /** The value of the counter in the given generation, generations being numbered from 0. */
  function CountOf(generation: nat): (count: nat)
    ensures 1 <= count < 0x1_0000_0000
  {
    1 + generation % COUNTER_PERIOD
  }

  /** CountOf is the counter: it starts at 1 and moves by the increment that skips zero. */
  lemma CountOfIsTheCounter(generation: nat)
    ensures CountOf(0) == 1
    ensures CountOf(generation + 1) == NextCount(CountOf(generation))
  {
    var q, r := generation / COUNTER_PERIOD, generation % COUNTER_PERIOD;
    if r + 1 == COUNTER_PERIOD {
      assert generation + 1 == (q + 1) * COUNTER_PERIOD;
    } else {
      assert generation + 1 == q * COUNTER_PERIOD + (r + 1);
    }
  }

  /** Two generations show the same counter exactly when a multiple of 2^32 - 1 lies between them. */
  lemma SameCount(older: nat, newer: nat)
    requires older <= newer
    ensures CountOf(older) == CountOf(newer) <==> (newer - older) % COUNTER_PERIOD == 0
    ensures newer - older < COUNTER_PERIOD ==> (CountOf(older) == CountOf(newer) <==> older == newer)
  {
    var q, r := older / COUNTER_PERIOD, older % COUNTER_PERIOD;
    var d, e := (newer - older) / COUNTER_PERIOD, (newer - older) % COUNTER_PERIOD;
    assert newer == (q + d) * COUNTER_PERIOD + (r + e);
    if r + e >= COUNTER_PERIOD {
      assert newer == (q + d + 1) * COUNTER_PERIOD + (r + e - COUNTER_PERIOD);
    }
  }
}
