/** The private value that marks an EC key as a hardware key. */
module EcMarker {
  import opened Cryptoki

  type Byte = b: nat | b < 256

  const MAX_BYTES := 512

  function Pow2(e: nat): (r: nat)
    ensures r > 0
  {
    if e == 0 then 1 else 2 * Pow2(e - 1)
  }

  /** BN_num_bits */
  function Bits(n: nat): nat {
    if n == 0 then 0 else 1 + Bits(n / 2)
  }

  /** BN_num_bytes */
  function Bytes(n: nat): nat {
    (Bits(n) + 7) / 8
  }

  /** BN_bin2bn */
  function Value(bytes: seq<Byte>): nat {
    if bytes == [] then 0 else 256 * Value(bytes[..|bytes| - 1]) + bytes[|bytes| - 1]
  }

  function Min(a: nat, b: nat): nat {
    if a < b then a else b
  }

  /** How many bytes the marker of a group has. */
  function Width(order: nat): nat {
    Min(Bytes(order), MAX_BYTES)
  }

  /** The shift of the leading byte is a legal one in C. */
  predicate Supported(order: nat) {
    0 < Bits(order) <= 8 * MAX_BYTES + 1
  }

  function Shift(order: nat): (r: nat)
    requires Supported(order)
    ensures r <= 8
  {
    8 * Width(order) - Bits(order) + 1
  }

  function Leading(order: nat): Byte
    requires Supported(order)
  {
    0x80 / Pow2(Shift(order))
  }

  /** lead followed by j bytes 0x5A. */
  function Run(lead: Byte, j: nat): seq<Byte> {
    [lead] + seq(j, _ => 0x5A)
  }

  function Marker(order: nat): nat
    requires Supported(order)
  {
    Value(Run(Leading(order), Width(order) - 1))
  }

  /** The parts of an EC_KEY: the order of its group, whether it has a public key, and its private key. */
  datatype EcKey = EcKey(order: Option<nat>, public: bool, private: Option<nat>)

  datatype Check = Error | Hardware | Software

  /** The private part that luna_load_ecdsa_FAST gives to a key; memory tells whether BIGNUMs can be allocated. */
  method LoadPrivate(key: EcKey, hintPublic: bool, memory: bool) returns (r: Option<EcKey>)
    requires key.order.Some? ==> Supported(key.order.value)
    ensures r == if hintPublic then Some(key)
                 else if key.order == None || !memory then None
                 else Some(key.(private := Some(Marker(key.order.value))))
  {
    if hintPublic {
      return Some(key);
    }
    if key.order == None || !memory {
      return None;
    }
    var order: int := Bytes(key.order.value);
    var privateBin := new Byte[MAX_BYTES];
    order := Min(order, privateBin.Length);
    var bits: int := Bits(key.order.value);
    assert order * 8 - bits + 1 == Shift(key.order.value);
    privateBin[0] := 0x80 / Pow2(order * 8 - bits + 1);
    var i := 1;
    while i < order
      invariant 1 <= i <= order
      invariant privateBin[0] == Leading(key.order.value)
      invariant forall j :: 1 <= j < i ==> privateBin[j] == 0x5A
    {
      privateBin[i] := 0x5A;
      i := i + 1;
    }
    assert privateBin[..order] == Run(Leading(key.order.value), order - 1);
    r := Some(key.(private := Some(Value(privateBin[..order]))));
  }

  /** luna_ecdsa_check_enhanced on a key with a group and a private value. */
  method CheckEnhanced(order: nat, private: nat, memory: bool) returns (r: Check)
    requires Supported(order)
    ensures r == if !memory then Error else if private == Marker(order) then Hardware else Software
  {
    if !memory {
      return Error;
    }
    var width: int := Bytes(order);
    var privateBin := new Byte[MAX_BYTES];
    width := Min(width, privateBin.Length);
    var bits: int := Bits(order);
    assert width * 8 - bits + 1 == Shift(order);
    privateBin[0] := 0x80 / Pow2(width * 8 - bits + 1);
    var i := 1;
    while i < width
      invariant 1 <= i <= width
      invariant privateBin[0] == Leading(order)
      invariant forall j :: 1 <= j < i ==> privateBin[j] == 0x5A
    {
      privateBin[i] := 0x5A;
      i := i + 1;
    }
    assert privateBin[..width] == Run(Leading(order), width - 1);
    r := if Value(privateBin[..width]) == private then Hardware else Software;
  }

  /** luna_ecdsa_check_private */
  method CheckPrivate(key: EcKey, memory: bool) returns (r: Check)
    requires key.order.Some? ==> Supported(key.order.value)
    ensures r == Classified(key, memory)
  {
    if key.order == None || !key.public {
      return Error;
    }
    if key.private == None {
      return Hardware;
    }
    var private := key.private.value;
    EightBytes(private);
    if private == 1 || Bytes(private) <= 8 {
      return Hardware;
    }
    r := CheckEnhanced(key.order.value, private, memory);
  }

  const EIGHT_BYTES := 0x1_0000_0000_0000_0000

  /** A complete key counts as hardware if and only if it has no private value, or one below 2^64, or
      the marker of its group. */
  function Classified(key: EcKey, memory: bool): Check
    requires key.order.Some? ==> Supported(key.order.value)
  {
    if key.order == None || !key.public then Error
    else if key.private == None || key.private.value < EIGHT_BYTES then Hardware
    else if !memory then Error
    else if key.private.value == Marker(key.order.value) then Hardware
    else Software
  }

  /** How keys are told apart: without a group or a public part, or where the memory to compare is wanting,
      it is an error; a private value of 2^64 and more is software exactly if it is not the marker. */
  lemma ClassifiesExactly(key: EcKey, memory: bool)
    requires key.order.Some? ==> Supported(key.order.value)
    ensures Classified(key, memory) == Software <==>
              && key.order.Some? && key.public && key.private.Some? && memory
              && key.private.value >= 0x1_0000_0000_0000_0000 && key.private.value != Marker(key.order.value)
    ensures Classified(key, memory) == Hardware <==>
              && key.order.Some? && key.public
              && (key.private == None || key.private.value < 0x1_0000_0000_0000_0000
                  || (memory && key.private.value == Marker(key.order.value)))
  {
  }

  lemma EightBytes(n: nat)
    ensures Bytes(n) <= 8 <==> n < EIGHT_BYTES
    ensures Bits(n) <= 64 <==> n < EIGHT_BYTES
  {
    BitsBound(n, 64);
    Pow2Of64();
  }

  lemma Pow2Of64()
    ensures Pow2(64) == EIGHT_BYTES
  {
    Pow2Of32();
    Pow2Sum(32, 32);
  }

  lemma Pow2Of32()
    ensures Pow2(32) == 0x1_0000_0000
  {
    Pow2Of16();
    Pow2Sum(16, 16);
  }

  lemma Pow2Of16()
    ensures Pow2(16) == 0x1_0000
  {
    assert Pow2(8) == 0x100;
    Pow2Sum(8, 8);
  }

  /** n has at most e bits exactly when it is below 2^e. */
  lemma {:induction false} BitsBound(n: nat, e: nat)
    ensures Bits(n) <= e <==> n < Pow2(e)
  {
    if n == 0 || e == 0 {
    } else {
      BitsBound(n / 2, e - 1);
    }
  }

  lemma {:induction false} Pow2Sum(a: nat, b: nat)
    ensures Pow2(a + b) == Pow2(a) * Pow2(b)
  {
    if a == 0 {
    } else {
      Pow2Sum(a - 1, b);
      calc {
        Pow2(a + b);
        2 * Pow2(a - 1 + b);
        2 * (Pow2(a - 1) * Pow2(b));
        Pow2(a) * Pow2(b);
      }
    }
  }

  lemma NextByte(k: nat)
    ensures Pow2(8 * k + 8) == 256 * Pow2(8 * k)
  {
    Pow2Sum(8, 8 * k);
  }

  lemma BitsOf(n: nat, e: nat)
    requires Pow2(e) <= n < Pow2(e + 1)
    ensures Bits(n) == e + 1
  {
    BitsBound(n, e);
    BitsBound(n, e + 1);
  }

  lemma {:induction false} RunValue(lead: Byte, j: nat)
    ensures lead * Pow2(8 * j) <= Value(Run(lead, j)) < (lead + 1) * Pow2(8 * j)
  {
    if j == 0 {
      assert Run(lead, 0)[..0] == [];
    } else {
      RunValue(lead, j - 1);
      assert Run(lead, j)[..j] == Run(lead, j - 1);
      NextByte(j - 1);
      AppendByte(lead, Pow2(8 * (j - 1)), Value(Run(lead, j - 1)));
    }
  }

  lemma AppendByte(lead: nat, p: nat, v: nat)
    requires lead * p <= v < (lead + 1) * p
    ensures lead * (256 * p) <= 256 * v + 0x5A < (lead + 1) * (256 * p)
  {
    assert lead * (256 * p) == 256 * (lead * p);
    assert (lead + 1) * (256 * p) == 256 * ((lead + 1) * p);
  }

  /** Behind an empty leading byte the first 0x5A leads. */
  lemma {:induction false} EmptyLead(j: nat)
    ensures Value(Run(0, j + 1)) == Value(Run(0x5A, j))
  {
    assert Run(0, j + 1)[..j + 1] == Run(0, j);
    if j == 0 {
      assert Run(0, 0)[..0] == [] && Run(0x5A, 0)[..0] == [];
    } else {
      EmptyLead(j - 1);
      assert Run(0x5A, j)[..j] == Run(0x5A, j - 1);
    }
  }

  lemma BitsOfRun(lead: Byte, e: nat, j: nat)
    requires Pow2(e) <= lead < Pow2(e + 1)
    ensures Bits(Value(Run(lead, j))) == e + 1 + 8 * j
  {
    var v, p := Value(Run(lead, j)), Pow2(8 * j);
    RunValue(lead, j);
    Pow2Sum(e, 8 * j);
    Pow2Sum(e + 1, 8 * j);
    Scale(Pow2(e), lead, p);
    Scale(lead + 1, Pow2(e + 1), p);
    assert e + 1 + 8 * j == e + 8 * j + 1;
    BitsOf(v, e + 8 * j);
  }

  lemma Scale(a: nat, b: nat, p: nat)
    requires a <= b
    ensures a * p <= b * p
  {
  }

  lemma LeadingIsPower(order: nat)
    requires Supported(order)
    ensures Leading(order) == if Shift(order) == 8 then 0 else Pow2(7 - Shift(order))
  {
    SmallPowers();
  }

  lemma SmallPowers()
    ensures Pow2(0) == 1 && Pow2(1) == 2 && Pow2(2) == 4 && Pow2(3) == 8 && Pow2(4) == 0x10
    ensures Pow2(5) == 0x20 && Pow2(6) == 0x40 && Pow2(7) == 0x80 && Pow2(8) == 0x100
  {
    assert Pow2(2) == 2 * Pow2(1) && Pow2(4) == 2 * Pow2(3) && Pow2(6) == 2 * Pow2(5) && Pow2(8) == 2 * Pow2(7);
  }

  /** The marker has one bit less than the order, or two less where the shift empties the leading byte. */
  lemma MarkerBits(order: nat)
    requires Supported(order) && order >= 2
    ensures Bits(Marker(order)) == if Bits(order) % 8 == 1 && Bits(order) < 8 * MAX_BYTES
                                  then Bits(order) - 2 else Bits(order) - 1
  {
    var k := Width(order) - 1;
    LeadingIsPower(order);
    EmptyOrNot(order);
    if Shift(order) == 8 {
      EmptyLead(k - 1);
      BitsOfRun(0x5A, 6, k - 1);
    } else {
      BitsOfRun(Leading(order), 7 - Shift(order), k);
    }
  }

  lemma EmptyOrNot(order: nat)
    requires Supported(order) && order >= 2
    ensures Shift(order) == 8 <==> Bits(order) % 8 == 1 && Bits(order) < 8 * MAX_BYTES
    ensures Shift(order) == 8 ==> Width(order) >= 2
    ensures 8 * (Width(order) - 1) == Bits(order) + Shift(order) - 9
  {
    BitsBound(order, 1);
    Rounding(Bits(order), Width(order));
  }

  lemma Rounding(bits: nat, width: nat)
    requires 2 <= bits <= 8 * MAX_BYTES + 1 && width == Min((bits + 7) / 8, MAX_BYTES)
    ensures 8 * width - bits == 7 <==> bits % 8 == 1 && bits < 8 * MAX_BYTES
    ensures 8 * width - bits == 7 ==> width >= 2
  {
    var q, r := bits / 8, bits % 8;
    assert bits == 8 * q + r;
    assert width == if q >= MAX_BYTES then MAX_BYTES else if r == 0 then q else q + 1;
  }

  /** The value of the marker: its leading byte, and 0x5A in all bytes behind. */
  lemma MarkerValue(order: nat)
    requires Supported(order)
    ensures var p := Pow2(8 * (Width(order) - 1));
            255 * Marker(order) == 255 * (Leading(order) * p) + 0x5A * (p - 1)
  {
    RepeatedByte(Leading(order), Width(order) - 1);
  }

  lemma {:induction false} RepeatedByte(lead: Byte, j: nat)
    ensures 255 * Value(Run(lead, j)) == 255 * (lead * Pow2(8 * j)) + 0x5A * (Pow2(8 * j) - 1)
  {
    if j == 0 {
      assert Run(lead, 0)[..0] == [];
    } else {
      RepeatedByte(lead, j - 1);
      assert Run(lead, j)[..j] == Run(lead, j - 1);
      NextByte(j - 1);
      var p := Pow2(8 * (j - 1));
      assert lead * (256 * p) == 256 * (lead * p);
    }
  }

  /** The marker is a possible private value of the group, for every order but 1. */
  lemma MarkerIsInRange(order: nat)
    requires Supported(order)
    ensures 0 < Marker(order) < order <==> order >= 2
  {
    if order >= 2 {
      MarkerBits(order);
      BitsBound(Marker(order), Bits(order) - 1);
      BitsBound(order, Bits(order) - 1);
      assert Bits(order) >= 2;
      if Marker(order) == 0 {
        assert Bits(Marker(order)) == 0;
      }
    }
  }

  /** The marker is below 2^64 exactly for orders of at most 65 bits. */
  lemma ShortMarker(order: nat)
    requires Supported(order)
    ensures Marker(order) < EIGHT_BYTES <==> Bits(order) <= 65
  {
    EightBytes(Marker(order));
    if order >= 2 {
      MarkerBits(order);
      WhichIsShort(Bits(order), Bits(Marker(order)));
    } else {
      OnlyOne(order);
    }
  }

  lemma WhichIsShort(bits: nat, marker: nat)
    requires bits > 1 && marker == if bits % 8 == 1 && bits < 8 * MAX_BYTES then bits - 2 else bits - 1
    ensures marker <= 64 <==> bits <= 65
  {
  }

  lemma OnlyOne(order: nat)
    requires order == 1
    ensures Bits(order) == 1 && Marker(order) == 0
  {
    assert Bits(1) == 1 + Bits(0);
    assert Width(1) == 1 && Shift(1) == 8;
    LeadingIsPower(1);
    assert Run(0, 0) == [0] && [0][..0] == [];
  }

  /** Loading a private key from the HSM and checking it: it is taken for a hardware key exactly if it was
      loaded at all, has its public part, and either the check gets its memory or needs none because the
      order has at most 65 bits; and it is never taken for a software key. */
  method LoadAndCheck(key: EcKey, memory: bool, memoryToCheck: bool) returns (loaded: bool, r: Check)
    requires key.order.Some? ==> Supported(key.order.value)
    ensures loaded == (key.order.Some? && memory)
    ensures loaded ==> (r == Hardware <==> key.public && (memoryToCheck || Bits(key.order.value) <= 65))
    ensures r != Software
  {
    r := Error;
    var k := LoadPrivate(key, false, memory);
    loaded := k.Some?;
    if loaded {
      ShortMarker(key.order.value);
      r := CheckPrivate(k.value, memoryToCheck);
    }
  }
}
