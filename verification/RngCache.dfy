/** The hardware random number cache of the provider. The hardware delivers the bytes of a stream,
    which is a parameter; every C_GenerateRandom takes the next ones. */
module RngCache {
  import opened Cryptoki

  type Byte = bv8
  type Stream = nat -> Byte

  const SMALL := 32
  const CACHE := SMALL * 40 * 2

  /** What the hardware does with a request: on an error it may use up bytes of the stream and may
      leave anything in the buffer. Opening the session context may fail as well. */
  datatype Answer = Answer(session: bool, rv: ReturnCode, lost: nat, scribble: nat -> Byte)

  /** dirty, offset and bytes are those of rcache, hwError is the sticky flag, position is the number
      of stream bytes the hardware has used, and block is the position of the last refill. */
  datatype Rng = Rng(dirty: bool, offset: nat, bytes: seq<Byte>, hwError: bool, position: nat, block: nat)

  /** Got: bytes that start at position `at` of the stream, out of the delivery that starts at `from`. */
  datatype Outcome = Got(bytes: seq<Byte>, at: nat, from: nat) | Failed(rv: ReturnCode)

  ghost function Slice(stream: Stream, at: nat, n: nat): (r: seq<Byte>)
    ensures |r| == n
    ensures forall i :: 0 <= i < n ==> r[i] == stream(at + i)
  {
    seq(n, i requires 0 <= i < n => stream(at + i))
  }

  function ResultOf(a: Answer): ReturnCode {
    if a.session then a.rv else CKR_GENERAL_ERROR
  }

  /** luna_pqc_rng_hw_pkcs11: the state afterwards; what the buffer holds is in Filled. */
  function Asked(s: Rng, n: nat, a: Answer): Rng {
    var used := if !a.session then 0 else if a.rv == CKR_OK then n else a.lost;
    s.(position := s.position + used, hwError := s.hwError || ResultOf(a) != CKR_OK)
  }

  ghost function Filled(stream: Stream, s: Rng, buffer: seq<Byte>, a: Answer): (r: seq<Byte>)
    ensures |r| == |buffer|
  {
    if !a.session then buffer
    else if a.rv == CKR_OK then Slice(stream, s.position, |buffer|)
    else Slice(a.scribble, 0, |buffer|)
  }

  /** luna_pqc_rng_hw_cache_locked. */
  ghost function Locked(stream: Stream, s: Rng, n: nat, a: Answer): (Rng, Outcome)
    requires |s.bytes| == CACHE
  {
    if n > CACHE then
      var after := Asked(s, n, a);
      (after, if ResultOf(a) == CKR_OK then
              Got(Slice(stream, s.position, n), s.position, s.position) else Failed(ResultOf(a)))
    else if s.dirty || s.offset + n > CACHE then
      var after := Asked(s, CACHE, a).(dirty := true, bytes := Filled(stream, s, s.bytes, a));
      if ResultOf(a) != CKR_OK then (after, Failed(ResultOf(a)))
      else (after.(dirty := false, offset := n, block := s.position), Got(after.bytes[..n], s.position, s.position))
    else
      (s.(offset := s.offset + n), Got(s.bytes[s.offset..s.offset + n], s.block + s.offset, s.block))
  }

  /** rcache with the hardware behind it. */
  class RngDevice {
    var dirty: bool
    var offset: nat
    const bytes: array<Byte>
    var hwError: bool
    var position: nat
    ghost var block: nat

    ghost function Value(): (r: Rng)
      reads this, bytes
      ensures |r.bytes| == bytes.Length
    {
      Rng(dirty, offset, bytes[..], hwError, position, block)
    }

    constructor ()
      ensures bytes.Length == CACHE && fresh(bytes)
      ensures dirty && offset == 0 && !hwError && position == 0
    {
      dirty, offset, hwError, position, block := true, 0, false, 0, 0;
      bytes := new Byte[CACHE](_ => 0);
    }

    /** luna_pqc_rng_hw_pkcs11 with the answer of the hardware. */
    method HwPkcs11(stream: Stream, out: array<Byte>, outlen: nat, a: Answer) returns (rv: ReturnCode)
      requires outlen <= out.Length
      modifies this`position, this`hwError, out
      ensures rv == ResultOf(a)
      ensures out[..outlen] == Filled(stream, old(Value()), old(out[..outlen]), a)
      ensures out[outlen..] == old(out[outlen..])
      ensures Value().(bytes := []) == Asked(old(Value()), outlen, a).(bytes := [])
    {
      rv := if a.session then CKR_OK else CKR_GENERAL_ERROR;
      if rv == CKR_OK {
        rv := a.rv;
        if rv == CKR_OK {
          forall i | 0 <= i < outlen {
            out[i] := stream(position + i);
          }
          position := position + outlen;
        } else {
          forall i | 0 <= i < outlen {
            out[i] := a.scribble(i);
          }
          position := position + a.lost;
        }
      }
      if rv != CKR_OK {
        hwError := true;
      }
    }

    /** luna_pqc_rng_hw_cache_locked. The mutex is held. */
    method HwCacheLocked(stream: Stream, out: array<Byte>, outlen: nat, a: Answer) returns (rv: ReturnCode)
      requires bytes.Length == CACHE && outlen <= out.Length && out != bytes
      modifies this, bytes, out
      ensures Value() == Locked(stream, old(Value()), outlen, a).0
      ensures var outcome := Locked(stream, old(Value()), outlen, a).1;
              if outcome.Got? then rv == CKR_OK && out[..outlen] == outcome.bytes else rv == outcome.rv != CKR_OK
      ensures out[outlen..] == old(out[outlen..])
    {
      if outlen > CACHE {
        rv := HwPkcs11(stream, out, outlen, a);
        return;
      }
      var offset0 := offset;
      var offset1 := offset0 + outlen;
      if dirty || offset1 > CACHE {
        dirty := true;
        ghost var start := position;
        assert bytes[..CACHE] == bytes[..];
        rv := HwPkcs11(stream, bytes, CACHE, a);
        assert bytes[..CACHE] == bytes[..];
        if rv != CKR_OK {
          return;
        }
        dirty := false;
        offset := outlen;
        block := start;
        Memcpy(out, bytes, 0, outlen);
      } else {
        dirty := false;
        offset := offset1;
        Memcpy(out, bytes, offset0, outlen);
      }
      rv := CKR_OK;
    }

    /** luna_pqc_rng: the hardware as long as it has never failed, and only for short requests;
        otherwise the software generator, whose answer overwrites whatever is in the buffer. */
    method PqcRng(stream: Stream, software: Stream, out: array<Byte>, outlen: nat, a: Answer)
      requires bytes.Length == CACHE && outlen <= out.Length && out != bytes
      modifies this, bytes, out
      ensures var (after, outcome) := Locked(stream, old(Value()), outlen, a);
              if old(hwError) || outlen > SMALL then
                Value() == old(Value()) && out[..outlen] == Slice(software, 0, outlen)
              else Value() == after && out[..outlen]
                                          == if outcome.Got? then outcome.bytes else Slice(software, 0, outlen)
      ensures !old(hwError) && outlen <= SMALL && !Locked(stream, old(Value()), outlen, a).1.Got? ==> hwError
      ensures out[outlen..] == old(out[outlen..])
    {
      if !hwError && outlen <= SMALL {
        var rv := HwCacheLocked(stream, out, outlen, a);
        if rv == CKR_OK {
          return;
        }
      }
      forall i | 0 <= i < outlen {
        out[i] := software(i);
      }
    }

    method Memcpy(out: array<Byte>, from: array<Byte>, at: nat, n: nat)
      requires out != from && n <= out.Length && at + n <= from.Length
      modifies out
      ensures out[..n] == from[at..at + n] && out[n..] == old(out[n..])
    {
      forall i | 0 <= i < n {
        out[i] := from[at + i];
      }
    }
  }

  /** A clean cache holds the block it was filled with, which the hardware has left behind. */
  ghost predicate Coherent(stream: Stream, s: Rng) {
    && |s.bytes| == CACHE
    && (!s.dirty ==>
          && s.offset <= CACHE && s.block + CACHE <= s.position
          && s.bytes == Slice(stream, s.block, CACHE))
  }

  datatype Request = Request(n: nat, answer: Answer)

  ghost function After(stream: Stream, requests: seq<Request>): (s: Rng)
    ensures Coherent(stream, s)
  {
    if requests == [] then Rng(true, 0, seq(CACHE, _ => 0), false, 0, 0)
    else
      var last := requests[|requests| - 1];
      var before := After(stream, requests[..|requests| - 1]);
      StaysCoherent(stream, before, last);
      Locked(stream, before, last.n, last.answer).0
  }

  ghost function Served(stream: Stream, requests: seq<Request>, k: nat): Outcome
    requires k < |requests|
  {
    Locked(stream, After(stream, requests[..k]), requests[k].n, requests[k].answer).1
  }

  lemma StaysCoherent(stream: Stream, s: Rng, r: Request)
    requires Coherent(stream, s)
    ensures Coherent(stream, Locked(stream, s, r.n, r.answer).0)
  {
  }

  /** What a request got lies in front of the hardware's position, outside what the cache still holds. */
  predicate Spent(s: Rng, o: Outcome) {
    o.Got? ==>
      && o.at + |o.bytes| <= s.position
      && (s.dirty || o.at + |o.bytes| <= s.block + s.offset || s.block + CACHE <= o.at)
  }

  lemma ServedIsSpent(stream: Stream, s: Rng, r: Request)
    requires Coherent(stream, s)
    ensures var (after, o) := Locked(stream, s, r.n, r.answer); Spent(after, o)
    ensures var (after, o) := Locked(stream, s, r.n, r.answer);
            o.Got? ==> |o.bytes| == r.n && o.bytes == Slice(stream, o.at, r.n)
  {
  }

  lemma StaysSpent(stream: Stream, s: Rng, r: Request, o: Outcome)
    requires Coherent(stream, s) && Spent(s, o)
    ensures var (after, next) := Locked(stream, s, r.n, r.answer); Spent(after, o)
    ensures var (after, next) := Locked(stream, s, r.n, r.answer); next.Got? ==> Apart(o, next)
  {
  }

  predicate Apart(o: Outcome, p: Outcome) {
    o.Got? && p.Got? ==> o.at + |o.bytes| <= p.at || p.at + |p.bytes| <= o.at
  }

  lemma {:induction false} SpentForGood(stream: Stream, requests: seq<Request>, k: nat)
    requires k < |requests|
    ensures Spent(After(stream, requests), Served(stream, requests, k))
    decreases |requests|
  {
    var n := |requests| - 1;
    var shorter := requests[..n];
    if k == n {
      ServedIsSpent(stream, After(stream, shorter), requests[n]);
    } else {
      SpentForGood(stream, shorter, k);
      assert shorter[..k] == requests[..k];
      StaysSpent(stream, After(stream, shorter), requests[n], Served(stream, requests, k));
    }
  }

  /** Over any run of requests no byte of the hardware's stream is handed out twice, whatever
      refills fail in between. */
  lemma NoByteTwice(stream: Stream, requests: seq<Request>, j: nat, k: nat)
    requires j < k < |requests|
    ensures Apart(Served(stream, requests, j), Served(stream, requests, k))
  {
    var upToK := requests[..k];
    SpentForGood(stream, upToK, j);
    assert upToK[..j] == requests[..j];
    StaysSpent(stream, After(stream, upToK), requests[k], Served(stream, requests, j));
  }

  /** A request that succeeds gets as many bytes as it asks for, contiguous in the stream and out of
      one delivery that the hardware completed; what a failed refill leaves behind is never served. */
  lemma ServesTheStream(stream: Stream, requests: seq<Request>, k: nat)
    requires k < |requests| && Served(stream, requests, k).Got?
    ensures var o := Served(stream, requests, k);
            && o.bytes == Slice(stream, o.at, requests[k].n)
            && o.from <= o.at
            && (requests[k].n <= CACHE ==> o.at + requests[k].n <= o.from + CACHE)
            && (requests[k].n > CACHE ==> o.at == o.from)
            && Delivered(stream, requests[..k + 1], o.from, if requests[k].n <= CACHE then CACHE else requests[k].n)
  {
    var r := requests[k];
    var s := After(stream, requests[..k]);
    ServedIsSpent(stream, s, r);
    assert requests[..k + 1][..k] == requests[..k];
    if r.n <= CACHE && !s.dirty && s.offset + r.n <= CACHE {
      BlockWasDelivered(stream, requests[..k]);
      DeliveredEarlier(stream, requests[..k + 1], k, s.block, CACHE);
    } else {
      assert DeliveredBy(stream, requests[..k + 1], k, s.position, if r.n <= CACHE then CACHE else r.n);
    }
  }

  /** What the k-th request of a run does. As long as the cache can serve, the hardware is not asked and the
      next bytes of the delivery follow; otherwise the request fails exactly if the hardware does, which
      sets the sticky flag, and for a short request leaves the cache dirty. */
  lemma RequestActs(stream: Stream, requests: seq<Request>, k: nat)
    requires k < |requests|
    ensures var s, r, n := After(stream, requests[..k]), After(stream, requests[..k + 1]), requests[k].n;
            var a, o := requests[k].answer, Served(stream, requests, k);
            if n <= CACHE && !s.dirty && s.offset + n <= CACHE then
              && o.Got? && o.at == s.block + s.offset && r == s.(offset := s.offset + n)
            else
              && (o.Failed? <==> !a.session || a.rv != CKR_OK)
              && (o.Failed? ==> o.rv == if a.session then a.rv else CKR_GENERAL_ERROR)
              && (o.Got? ==> o.at == s.position)
              && (r.hwError <==> s.hwError || o.Failed?)
              && r.position == s.position + (if !a.session then 0 else if o.Failed? then a.lost
                                             else if n <= CACHE then CACHE else n)
              && (n > CACHE ==> r.dirty == s.dirty && r.bytes == s.bytes && r.offset == s.offset && r.block == s.block)
              && (n <= CACHE ==> r.dirty == o.Failed?)
              && (n <= CACHE && o.Got? ==> r.offset == n && r.block == s.position)
  {
    assert requests[..k + 1][..k] == requests[..k];
  }

  /** How many bytes a request makes the provider ask the hardware for. */
  function Asks(s: Rng, n: nat): nat {
    if n > CACHE then n
    else if s.dirty || s.offset + n > CACHE then CACHE
    else 0
  }

  /** For some request of the run the hardware was asked for n bytes, at position at, and delivered. */
  ghost predicate Delivered(stream: Stream, requests: seq<Request>, at: nat, n: nat) {
    exists j :: 0 <= j < |requests| && DeliveredBy(stream, requests, j, at, n)
  }

  ghost predicate DeliveredBy(stream: Stream, requests: seq<Request>, j: nat, at: nat, n: nat)
    requires j < |requests|
  {
    var s := After(stream, requests[..j]);
    s.position == at && Asks(s, requests[j].n) == n && ResultOf(requests[j].answer) == CKR_OK
  }

  lemma DeliveredEarlier(stream: Stream, requests: seq<Request>, k: nat, at: nat, n: nat)
    requires k <= |requests| && Delivered(stream, requests[..k], at, n)
    ensures Delivered(stream, requests, at, n)
  {
    var j :| 0 <= j < k && DeliveredBy(stream, requests[..k], j, at, n);
    assert requests[..k][..j] == requests[..j];
    assert DeliveredBy(stream, requests, j, at, n);
  }

  lemma {:induction false} BlockWasDelivered(stream: Stream, requests: seq<Request>)
    requires !After(stream, requests).dirty
    ensures Delivered(stream, requests, After(stream, requests).block, CACHE)
  {
    var n := |requests| - 1;
    var before := After(stream, requests[..n]);
    if Asks(before, requests[n].n) == CACHE {
      assert DeliveredBy(stream, requests, n, before.position, CACHE);
    } else {
      BlockWasDelivered(stream, requests[..n]);
      DeliveredEarlier(stream, requests, n, before.block, CACHE);
    }
  }
}
