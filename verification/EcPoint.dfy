/** The EC point of a public key: OpenSSL's octet string within the OCTET STRING of PKCS #11,
    in the form of the new and in that of the old firmware. */
module EcPoint {
  import opened Cryptoki

  type Byte = b: nat | b < 256

  const OCTET_STRING: Byte := 0x04
  const UNCOMPRESSED: Byte := 0x04

  /** FORM X Y of section 2.3.3 of SEC 1, uncompressed, over a field of f bytes. */
  predicate IsPoint(f: nat, p: seq<Byte>) {
    f > 0 && |p| == 1 + 2 * f && p[0] == UNCOMPRESSED
  }

  /** The three ways in which the decoder lets a point be wrapped. */
  function Short(p: seq<Byte>): seq<Byte>
    requires |p| < 256
  {
    [OCTET_STRING, |p|] + p
  }

  function Long81(p: seq<Byte>): seq<Byte>
    requires |p| < 256
  {
    [OCTET_STRING, 0x81, |p|] + p
  }

  function Long82(p: seq<Byte>): seq<Byte>
    requires |p| < 256
  {
    [OCTET_STRING, 0x82, 0x00, |p|] + p
  }

  predicate Wraps(s: seq<Byte>, p: seq<Byte>) {
    |p| < 256 && (s == Long81(p) || s == Long82(p) || (|p| != 0x81 && |p| != 0x82 && s == Short(p)))
  }

  /** The point that input wraps, if it wraps one over a field of f bytes. */
  function Decoded(f: nat, input: seq<Byte>): (r: Option<seq<Byte>>)
  {
    if 1 + 2 * f > |input| then None
    else
      var p := input[|input| - (1 + 2 * f)..];
      if IsPoint(f, p) && Wraps(input, p) then Some(p) else None
  }

  /** The decoder accepts the short, the 81 and the 82 00 forms of matching length, and no others. */
  lemma AcceptsExactly(f: nat, input: seq<Byte>, p: seq<Byte>)
    ensures Decoded(f, input) == Some(p) <==> IsPoint(f, p) && Wraps(input, p)
  {
    if IsPoint(f, p) && Wraps(input, p) {
      assert input[|input| - |p|..] == p;
    }
  }

  /** LUNA_o2i_ECPublicKey for a field of f bytes: the octets that go to o2i_ECPublicKey. */
  method O2iEcPublicKey(f: nat, input: seq<Byte>) returns (point: Option<seq<Byte>>)
    ensures point == Decoded(f, input)
  {
    if |input| < 5 || f == 0 {
      return None;
    }
    var out, outlen := 0, |input|;
    if input[out] != 0x04 {
      return None;
    }
    out, outlen := out + 1, outlen - 1;
    if input[out] == 0x81 {
      out, outlen := out + 1, outlen - 1;
    } else if input[out] == 0x82 {
      if input[out + 1] != 0x00 {
        return None;
      }
      out, outlen := out + 2, outlen - 2;
    }
    var len: nat := input[out];
    out, outlen := out + 1, outlen - 1;
    var form := input[out];
    if form != UNCOMPRESSED || len != outlen || outlen != 1 + 2 * f {
      return None;
    }
    ghost var prefix := input[..out];
    assert input == prefix + input[out..];
    point := Some(input[out..]);
  }

  /** The length octets of section 8.1.3 of X.690, as few as possible (section 10.1). */
  function LengthOctets(n: nat): seq<Byte> {
    if n < 0x80 then [n] else [0x80 + |BaseOctets(n)| % 0x80] + BaseOctets(n)
  }

  function BaseOctets(n: nat): seq<Byte> {
    if n < 256 then [n] else BaseOctets(n / 256) + [n % 256]
  }

  function DerEncode(p: seq<Byte>): seq<Byte> {
    [OCTET_STRING] + LengthOctets(|p|) + p
  }

  /** The form of the old firmware: two length octets where one would do. */
  function OldEncode(p: seq<Byte>): seq<Byte>
    requires |p| < 256
  {
    if |p| < 0x80 then Short(p) else Long82(p)
  }

  /** The contents of an OCTET STRING of definite length, section 8.7 of X.690. */
  function BerDecode(s: seq<Byte>): Option<seq<Byte>> {
    if |s| < 2 || s[0] != OCTET_STRING then None
    else if s[1] < 0x80 then
      if s[1] == |s| - 2 then Some(s[2..]) else None
    else
      var k := s[1] - 0x80;
      if k == 0 || k == 0x7f || |s| < 2 + k then None
      else if Number(s[2..2 + k]) == |s| - 2 - k then Some(s[2 + k..]) else None
  }

  function Number(octets: seq<Byte>): nat {
    if octets == [] then 0 else 256 * Number(octets[..|octets| - 1]) + octets[|octets| - 1]
  }

  lemma DerOfPoint(p: seq<Byte>)
    requires |p| < 256
    ensures DerEncode(p) == if |p| < 0x80 then Short(p) else Long81(p)
  {
    assert BaseOctets(|p|) == [|p|];
  }

  /** The second output has the contents as X.690 sees them and, for points of 128 octets and more, two
      length octets, one more than the first output: the form that the old firmware expects. */
  lemma OldOfPoint(p: seq<Byte>)
    requires |p| < 256
    ensures BerDecode(OldEncode(p)) == Some(p)
    ensures |p| < 0x80 ==> OldEncode(p) == DerEncode(p)
    ensures |p| >= 0x80 ==> OldEncode(p) == [OCTET_STRING, 0x82, 0x00, |p|] + p && |OldEncode(p)| == |DerEncode(p)| + 1
  {
    DerOfPoint(p);
    BerOfShort(p);
    BerOfLong82(p);
  }

  /** Both outputs of the encoder are decoded to the point again, for every field that it encodes at all. */
  lemma RoundTrip(f: nat, p: seq<Byte>)
    requires IsPoint(f, p) && |p| <= 255
    ensures Decoded(f, DerEncode(p)) == Some(p) && Decoded(f, OldEncode(p)) == Some(p)
  {
    DerOfPoint(p);
    AcceptsExactly(f, DerEncode(p), p);
    AcceptsExactly(f, OldEncode(p), p);
  }

  /** What the decoder accepts is the OCTET STRING that X.690 sees there, except for one form: a
      length of 128 or more in a single octet, which X.690 reads as a count of length octets. */
  lemma AgreesWithBer(f: nat, input: seq<Byte>, p: seq<Byte>)
    requires Decoded(f, input) == Some(p)
    ensures BerDecode(input) == Some(p) <==> !(|p| >= 0x80 && input == Short(p))
  {
    AcceptsExactly(f, input, p);
    if input == Long81(p) {
      BerOfLong81(p);
      assert Long81(p)[1] != Short(p)[1] || |p| == 0x81;
      assert |Long81(p)| != |Short(p)|;
    } else if input == Long82(p) {
      BerOfLong82(p);
      assert |Long82(p)| != |Short(p)|;
    } else {
      BerOfShort(p);
    }
  }

  /** A point behind a single length octet is accepted, and is not what X.690 sees there, exactly for
      fields of 65 bytes and more. */
  lemma AcceptsBeyondBer(f: nat, p: seq<Byte>)
    requires IsPoint(f, p) && |p| < 256
    ensures Decoded(f, Short(p)) == Some(p) && BerDecode(Short(p)) != Some(p) <==> f >= 65
  {
    AcceptsExactly(f, Short(p), p);
    BerOfShort(p);
  }

  lemma BerOfLong81(p: seq<Byte>)
    requires |p| < 256
    ensures BerDecode(Long81(p)) == Some(p)
  {
    var s := Long81(p);
    assert s[2..3] == [|p|] && s[3..] == p;
    assert Number([|p|]) == |p| by {
      assert [|p|][..0] == [];
    }
  }

  lemma BerOfLong82(p: seq<Byte>)
    requires |p| < 256
    ensures BerDecode(Long82(p)) == Some(p)
  {
    var s := Long82(p);
    assert s[2..4] == [0, |p|] && s[4..] == p;
    assert Number([0, |p|]) == |p| by {
      assert [0, |p|][..1] == [0] && [0][..0] == [];
    }
  }

  lemma BerOfShort(p: seq<Byte>)
    requires |p| < 256
    ensures BerDecode(Short(p)) == Some(p) <==> |p| < 0x80
  {
    var s := Short(p);
    if |p| < 0x80 {
      assert s[2..] == p;
    } else if BerDecode(s).Some? {
      assert |BerDecode(s).value| < |p|;
    }
  }

  /** LUNA_i2o_ECPublicKey; point is what i2o_ECPublicKey writes. Returns the buffers and how much of
      each is used, 0 on a failure. */
  method I2oEcPublicKey(point: seq<Byte>) returns (out1: array<Byte>, len1: nat, out2: array<Byte>, len2: nat)
    ensures len1 <= out1.Length && len2 <= out2.Length && fresh(out1) && fresh(out2)
    ensures if 1 <= |point| <= 255 && point[0] == UNCOMPRESSED
            then out1[..len1] == DerEncode(point) && out2[..len2] == OldEncode(point)
            else len1 == 0 && len2 == 0
  {
    var tmplen := |point|;
    if tmplen < 1 || tmplen > 255 {
      out1, len1, out2, len2 := new Byte[0], 0, new Byte[0], 0;
      return;
    }
    var isLarge := tmplen >= 0x80;
    out1, out2 := new Byte[3 + tmplen], new Byte[4 + tmplen];
    var p1, p2 := 0, 0;
    out1[p1], p1 := 0x04, p1 + 1;
    out2[p2], p2 := 0x04, p2 + 1;
    if isLarge {
      out1[p1], p1 := 0x81, p1 + 1;
      out2[p2], p2 := 0x82, p2 + 1;
      out2[p2], p2 := 0x00, p2 + 1;
    }
    out1[p1], p1 := tmplen, p1 + 1;
    out2[p2], p2 := tmplen, p2 + 1;
    ghost var front1, front2 := out1[..p1], out2[..p2];
    assert front1 == if isLarge then [0x04, 0x81, tmplen] else [0x04, tmplen];
    assert front2 == if isLarge then [0x04, 0x82, 0x00, tmplen] else [0x04, tmplen];
    Memcpy(out1, p1, point);
    if out1[p1] != UNCOMPRESSED {
      return out1, 0, out2, 0;
    }
    Memcpy(out2, p2, out1[p1..p1 + tmplen]);
    len1, len2 := p1 + tmplen, p2 + tmplen;
    DerOfPoint(point);
    assert out1[..len1] == front1 + point;
    assert out2[..len2] == front2 + point;
  }

  /** The encoder, and the decoder on each of its outputs. */
  method EncodeAndDecode(f: nat, point: seq<Byte>) returns (back1: Option<seq<Byte>>, back2: Option<seq<Byte>>)
    requires IsPoint(f, point)
    ensures back1 == back2 == if f <= 127 then Some(point) else None
  {
    var out1, len1, out2, len2 := I2oEcPublicKey(point);
    back1 := O2iEcPublicKey(f, out1[..len1]);
    back2 := O2iEcPublicKey(f, out2[..len2]);
    if f <= 127 {
      RoundTrip(f, point);
    }
  }

  method Memcpy(out: array<Byte>, at: nat, bytes: seq<Byte>)
    requires at + |bytes| <= out.Length
    modifies out
    ensures out[..at] == old(out[..at]) && out[at..at + |bytes|] == bytes
    ensures out[..at + |bytes|] == old(out[..at]) + bytes
  {
    forall i | 0 <= i < |bytes| {
      out[at + i] := bytes[i];
    }
  }
}
