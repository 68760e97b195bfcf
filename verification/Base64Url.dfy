/** The unpadded base64url encoding of RFC 4648, section 5. */
module Base64Url {
  import opened Cryptoki

  type Byte = b: nat | b < 256
  type Sextet = v: nat | v < 64

  const UPPER := "ABCDEFGHIJKLMNOPQRSTUVWXYZ"
  const LOWER := "abcdefghijklmnopqrstuvwxyz"
  const ALPHABET := UPPER + LOWER + "0123456789-_"

  /** The indices that the encoder computes, and its shifts and masks for them. */
  function First(b: Byte): Sextet { b / 4 }

  function Second(b: Byte, c: Byte): Sextet { b % 4 * 16 + c / 16 }

  function Third(c: Byte, d: Byte): Sextet { c % 16 * 4 + d / 64 }

  function Fourth(d: Byte): Sextet { d % 64 }

  lemma FirstAndFourth(x: bv8)
    ensures ((x >> 2) & 0x3f) as nat == First(x as nat) && (x & 0x3f) as nat == Fourth(x as nat)
  {
    assert (x >> 2) & 0x3f == x / 4;
    assert x & 0x3f == x % 64;
  }

  lemma SecondByShifts(x: bv8, y: bv8)
    ensures ((x << 4) & 0x30) as nat + ((y >> 4) & 0x0f) as nat == Second(x as nat, y as nat)
  {
    Low2(x);
    High4(y);
  }

  lemma ThirdByShifts(y: bv8, z: bv8)
    ensures ((y << 2) & 0x3c) as nat + ((z >> 6) & 0x03) as nat == Third(y as nat, z as nat)
  {
    Low4(y);
    High2(z);
  }

  lemma Low2(x: bv8)
    ensures ((x << 4) & 0x30) as nat == x as nat % 4 * 16
  {
    assert (x << 4) & 0x30 == (x % 4) * 16;
    assert x % 4 <= 3;
  }

  lemma High4(x: bv8)
    ensures ((x >> 4) & 0x0f) as nat == x as nat / 16
  {
    assert (x >> 4) & 0x0f == x / 16;
  }

  lemma Low4(x: bv8)
    ensures ((x << 2) & 0x3c) as nat == x as nat % 16 * 4
  {
    assert (x << 2) & 0x3c == (x % 16) * 4;
    assert x % 16 <= 15;
  }

  lemma High2(x: bv8)
    ensures ((x >> 6) & 0x03) as nat == x as nat / 64
  {
    assert (x >> 6) & 0x03 == x / 64;
  }

  /** The indices of a group of at most three bytes. */
  function Group(g: seq<Byte>): (r: seq<Sextet>)
    requires 1 <= |g| <= 3
    ensures |r| == |g| + 1
  {
    if |g| == 1 then [First(g[0]), Second(g[0], 0)]
    else if |g| == 2 then [First(g[0]), Second(g[0], g[1]), Third(g[1], 0)]
    else [First(g[0]), Second(g[0], g[1]), Third(g[1], g[2]), Fourth(g[2])]
  }

  function Sextets(s: seq<Byte>): (r: seq<Sextet>)
    ensures |r| == (4 * |s| + 2) / 3
  {
    if s == [] then [] else if |s| <= 3 then Group(s) else Group(s[..3]) + Sextets(s[3..])
  }

  /** An alphabet of 64 letters, bstr in the source. */
  type Alphabet = s: string | |s| == 64 witness ALPHABET

  function Text(bstr: Alphabet, sextets: seq<Sextet>): (r: string)
    ensures |r| == |sextets|
  {
    seq(|sextets|, i requires 0 <= i < |sextets| => bstr[sextets[i]])
  }

  function EncodedIn(bstr: Alphabet, s: seq<Byte>): (r: string)
    ensures |r| == (4 * |s| + 2) / 3
  {
    Text(bstr, Sextets(s))
  }

  function Encoded(s: seq<Byte>): (r: string)
    ensures |r| == (4 * |s| + 2) / 3
  {
    EncodedIn(ALPHABET, s)
  }

  /** What the loop has still to encode at position i, and its next group. */
  function From(s: seq<Byte>, i: nat): seq<Byte> {
    if i < |s| then s[i..] else []
  }

  function Chunk<T>(s: seq<T>, i: nat): (g: seq<T>)
    requires i < |s|
    ensures 1 <= |g| <= 3
  {
    if |s| - i > 3 then s[i..i + 3] else s[i..]
  }

  lemma GroupFirst(bstr: Alphabet, s: seq<Byte>, i: nat)
    requires i < |s|
    ensures EncodedIn(bstr, From(s, i)) == Text(bstr, Group(Chunk(s, i))) + EncodedIn(bstr, From(s, i + 3))
    ensures |Text(bstr, Group(Chunk(s, i)))| == |Chunk(s, i)| + 1
  {
    var t := s[i..];
    if |t| > 3 {
      assert t[..3] == Chunk(s, i) && t[3..] == From(s, i + 3);
      TextConcat(bstr, Group(t[..3]), Sextets(t[3..]));
    } else {
      assert Sextets(t) == Group(t);
      assert EncodedIn(bstr, []) == "";
    }
  }

  lemma TextConcat(bstr: Alphabet, a: seq<Sextet>, b: seq<Sextet>)
    ensures Text(bstr, a + b) == Text(bstr, a) + Text(bstr, b)
  {
  }

  lemma Advance(bstr: Alphabet, done: string, s: seq<Byte>, i: nat)
    requires i < |s|
    ensures done + EncodedIn(bstr, From(s, i))
         == (done + Text(bstr, Group(Chunk(s, i)))) + EncodedIn(bstr, From(s, i + 3))
    ensures |done| + |Chunk(s, i)| + 1 <= |done + EncodedIn(bstr, From(s, i))|
  {
    GroupFirst(bstr, s, i);
  }

  /** The values of the bytes in memory. */
  function Bytes(s: seq<bv8>): (r: seq<Byte>)
    ensures |r| == |s| && forall i :: 0 <= i < |s| ==> r[i] == s[i] as nat
  {
    seq(|s|, i requires 0 <= i < |s| => s[i] as nat)
  }

  /** The letters of the encoder, looked up with its shifts and masks; x and y are the values of b and c. */
  method FirstLetter(bstr: Alphabet, b: bv8, ghost x: Byte) returns (letter: char)
    requires x == b as nat
    ensures letter == bstr[First(x)]
  {
    FirstAndFourth(b);
    letter := bstr[((b >> 2) & 0x3f) as nat];
  }

  method LastSecondLetter(bstr: Alphabet, b: bv8, ghost x: Byte) returns (letter: char)
    requires x == b as nat
    ensures letter == bstr[Second(x, 0)]
  {
    Low2(b);
    letter := bstr[((b << 4) & 0x30) as nat];
  }

  method SecondLetter(bstr: Alphabet, b: bv8, c: bv8, ghost x: Byte, ghost y: Byte) returns (letter: char)
    requires x == b as nat && y == c as nat
    ensures letter == bstr[Second(x, y)]
  {
    SecondByShifts(b, c);
    letter := bstr[((b << 4) & 0x30) as nat + ((c >> 4) & 0x0f) as nat];
  }

  method LastThirdLetter(bstr: Alphabet, b: bv8, ghost x: Byte) returns (letter: char)
    requires x == b as nat
    ensures letter == bstr[Third(x, 0)]
  {
    Low4(b);
    letter := bstr[((b << 2) & 0x3c) as nat];
  }

  method ThirdLetter(bstr: Alphabet, b: bv8, c: bv8, ghost x: Byte, ghost y: Byte) returns (letter: char)
    requires x == b as nat && y == c as nat
    ensures letter == bstr[Third(x, y)]
  {
    ThirdByShifts(b, c);
    letter := bstr[((b << 2) & 0x3c) as nat + ((c >> 6) & 0x03) as nat];
  }

  method FourthLetter(bstr: Alphabet, b: bv8, ghost x: Byte) returns (letter: char)
    requires x == b as nat
    ensures letter == bstr[Fourth(x)]
  {
    FirstAndFourth(b);
    letter := bstr[(b & 0x3f) as nat];
  }

  /** The switch over the bytes that remain: the letters of the next group go to obuf. */
  method SprintfGroup(bstr: Alphabet, obuf: array<char>, ondx: nat, g: seq<bv8>) returns (n: nat)
    requires 1 <= |g| <= 3 && ondx + |g| + 1 <= obuf.Length
    modifies obuf
    ensures n == ondx + |g| + 1 && obuf[..n] == old(obuf[..ondx]) + Text(bstr, Group(Bytes(g)))
  {
    var letters := GroupLetters(bstr, g, Bytes(g));
    n := Append(obuf, ondx, letters);
  }

  method GroupLetters(bstr: Alphabet, g: seq<bv8>, ghost s: seq<Byte>) returns (letters: string)
    requires 1 <= |g| == |s| <= 3 && forall i :: 0 <= i < |g| ==> s[i] == g[i] as nat
    ensures letters == Text(bstr, Group(s))
  {
    match |g| {
      case 1 => letters := OneLeft(bstr, g[0], s[0]);
      case 2 => letters := TwoLeft(bstr, g[0], g[1], s[0], s[1]);
      case _ => letters := ThreeLeft(bstr, g[0], g[1], g[2], s[0], s[1], s[2]);
    }
  }

  method OneLeft(bstr: Alphabet, b: bv8, ghost x: Byte) returns (letters: string)
    requires x == b as nat
    ensures letters == Text(bstr, [First(x), Second(x, 0)])
  {
    var c0 := FirstLetter(bstr, b, x);
    var c1 := LastSecondLetter(bstr, b, x);
    letters := [c0, c1];
  }

  method TwoLeft(bstr: Alphabet, b: bv8, c: bv8, ghost x: Byte, ghost y: Byte) returns (letters: string)
    requires x == b as nat && y == c as nat
    ensures letters == Text(bstr, [First(x), Second(x, y), Third(y, 0)])
  {
    var c0 := FirstLetter(bstr, b, x);
    var c1 := SecondLetter(bstr, b, c, x, y);
    var c2 := LastThirdLetter(bstr, c, y);
    letters := [c0, c1, c2];
  }

  method ThreeLeft(bstr: Alphabet, b: bv8, c: bv8, d: bv8, ghost x: Byte, ghost y: Byte, ghost z: Byte)
    returns (letters: string)
    requires x == b as nat && y == c as nat && z == d as nat
    ensures letters == Text(bstr, [First(x), Second(x, y), Third(y, z), Fourth(z)])
  {
    var c0 := FirstLetter(bstr, b, x);
    var c1 := SecondLetter(bstr, b, c, x, y);
    var c2 := ThirdLetter(bstr, c, d, y, z);
    var c3 := FourthLetter(bstr, d, z);
    letters := [c0, c1, c2, c3];
  }

  method Append(obuf: array<char>, ondx: nat, letters: string) returns (n: nat)
    requires ondx + |letters| <= obuf.Length
    modifies obuf
    ensures n == ondx + |letters| && obuf[..n] == old(obuf[..ondx]) + letters
  {
    forall i | 0 <= i < |letters| {
      obuf[ondx + i] := letters[i];
    }
    n := ondx + |letters|;
  }

  lemma ChunkOfBytes(input: seq<bv8>, i: nat)
    requires i < |input|
    ensures Bytes(Chunk(input, i)) == Chunk(Bytes(input), i)
  {
  }

  /** luna_sprintf_base64url writes the encoding and a NUL. */
  method Sprintf(obuf: array<char>, input: seq<bv8>)
    requires |Encoded(Bytes(input))| < obuf.Length
    modifies obuf
    ensures var text := Encoded(Bytes(input)); obuf[..|text|] == text && obuf[|text|] == '\0'
  {
    SprintfIn(ALPHABET, obuf, input, Bytes(input));
  }

  method SprintfIn(bstr: Alphabet, obuf: array<char>, input: seq<bv8>, ghost bytes: seq<Byte>)
    requires bytes == Bytes(input) && |EncodedIn(bstr, bytes)| < obuf.Length
    modifies obuf
    ensures var text := EncodedIn(bstr, bytes); obuf[..|text|] == text && obuf[|text|] == '\0'
  {
    var i: nat, ondx: nat := 0, 0;
    obuf[0] := '\0';
    assert From(bytes, 0) == bytes;
    while i < |input|
      invariant i <= |input| + 2 && ondx < obuf.Length
      invariant obuf[..ondx] + EncodedIn(bstr, From(bytes, i)) == EncodedIn(bstr, bytes)
    {
      Advance(bstr, obuf[..ondx], bytes, i);
      ChunkOfBytes(input, i);
      ondx := SprintfGroup(bstr, obuf, ondx, Chunk(input, i));
      i := i + 3;
    }
    obuf[ondx] := '\0';
  }

  /** n consecutive characters from c. */
  function Range(c: char, n: nat): (r: string)
    requires c as nat + n < 128
    ensures |r| == n && forall i :: 0 <= i < n ==> r[i] == (c as nat + i) as char
  {
    if n == 0 then "" else Range(c, n - 1) + [(c as nat + n - 1) as char]
  }

  lemma UpperIsRange()
    ensures UPPER == Range('A', 26)
  {
  }

  lemma LowerIsRange()
    ensures LOWER == Range('a', 26)
  {
  }

  lemma DigitsAreRange()
    ensures "0123456789-_" == Range('0', 10) + "-_"
  {
  }

  function ValueOfLetter(c: char): Option<Sextet> {
    if 'A' <= c <= 'Z' then Some(c as nat - 'A' as nat)
    else if 'a' <= c <= 'z' then Some(26 + (c as nat - 'a' as nat))
    else if '0' <= c <= '9' then Some(52 + (c as nat - '0' as nat))
    else if c == '-' then Some(62)
    else if c == '_' then Some(63)
    else None
  }

  /** Table 2 of RFC 4648. */
  lemma LetterHasValue(v: Sextet)
    ensures ValueOfLetter(ALPHABET[v]) == Some(v)
  {
    UpperIsRange();
    LowerIsRange();
    DigitsAreRange();
    var upper, lower, digits := Range('A', 26), Range('a', 26), Range('0', 10);
    assert ALPHABET == upper + lower + (digits + "-_");
    assert ALPHABET[v] == if v < 26 then upper[v] else if v < 52 then lower[v - 26] else if v < 62 then digits[v - 52]
                          else "-_"[v - 62];
  }

  /** A decoder of the unpadded form: the values of the letters, then whole bytes of their bits. */
  function Decoded(r: string): Option<seq<Byte>> {
    match ValuesOf(r)
    case None => None
    case Some(sextets) => if |sextets| % 4 == 1 then None else Some(BytesOf(sextets))
  }

  function ValuesOf(r: string): Option<seq<Sextet>> {
    if r == "" then Some([])
    else match (ValueOfLetter(r[0]), ValuesOf(r[1..]))
      case (Some(v), Some(rest)) => Some([v] + rest)
      case _ => None
  }

  function BytesOf(v: seq<Sextet>): seq<Byte> {
    if |v| < 2 then []
    else if |v| < 3 then [Byte1(v[0], v[1])]
    else if |v| < 4 then [Byte1(v[0], v[1]), Byte2(v[1], v[2])]
    else [Byte1(v[0], v[1]), Byte2(v[1], v[2]), Byte3(v[2], v[3])] + BytesOf(v[4..])
  }

  function Byte1(v: nat, w: nat): nat { v * 4 % 256 + w / 16 % 4 }

  function Byte2(v: nat, w: nat): nat { v % 16 * 16 + w / 4 % 16 }

  function Byte3(v: nat, w: nat): nat { v % 4 * 64 + w % 64 }

  lemma {:induction false} ValuesOfText(v: seq<Sextet>)
    ensures ValuesOf(Text(ALPHABET, v)) == Some(v)
  {
    var r := Text(ALPHABET, v);
    if v == [] {
      assert r == "";
    } else {
      ValuesOfText(v[1..]);
      LetterHasValue(v[0]);
      assert r[0] == ALPHABET[v[0]] && r[1..] == Text(ALPHABET, v[1..]);
      assert v == [v[0]] + v[1..];
      assert ValueOfLetter(r[0]) == Some(v[0]);
      assert ValuesOf(r[1..]) == Some(v[1..]);
    }
  }

  lemma Byte1Back(b: Byte, c: Byte)
    ensures Byte1(First(b), Second(b, c)) == b
  {
    assert Second(b, c) / 16 == b % 4;
  }

  lemma Byte2Back(b: Byte, c: Byte, d: Byte)
    ensures Byte2(Second(b, c), Third(c, d)) == c
  {
    assert Second(b, c) % 16 == c / 16;
    assert Third(c, d) / 4 == c % 16;
  }

  lemma Byte3Back(c: Byte, d: Byte)
    ensures Byte3(Third(c, d), Fourth(d)) == d
  {
  }

  lemma BytesOfTriple(b: Byte, c: Byte, d: Byte, rest: seq<Sextet>)
    ensures BytesOf([First(b), Second(b, c), Third(c, d), Fourth(d)] + rest) == [b, c, d] + BytesOf(rest)
  {
    Byte1Back(b, c);
    Byte2Back(b, c, d);
    Byte3Back(c, d);
    var v: seq<Sextet> := [First(b), Second(b, c), Third(c, d), Fourth(d)] + rest;
    assert v[4..] == rest;
    assert BytesOf(v) == [Byte1(v[0], v[1]), Byte2(v[1], v[2]), Byte3(v[2], v[3])] + BytesOf(v[4..]);
  }

  lemma BytesOfPair(b: Byte, c: Byte)
    ensures BytesOf([First(b), Second(b, c), Third(c, 0)]) == [b, c]
  {
    Byte1Back(b, c);
    Byte2Back(b, c, 0);
  }

  lemma BytesOfSingle(b: Byte)
    ensures BytesOf([First(b), Second(b, 0)]) == [b]
  {
    Byte1Back(b, 0);
  }

  lemma BytesOfGroup(g: seq<Byte>)
    requires 1 <= |g| <= 3
    ensures BytesOf(Group(g)) == g
  {
    if |g| == 1 {
      BytesOfSingle(g[0]);
    } else if |g| == 2 {
      BytesOfPair(g[0], g[1]);
    } else {
      BytesOfTriple(g[0], g[1], g[2], []);
      assert Group(g) + [] == Group(g);
    }
  }

  /** Every input, of whatever length, is recovered from its encoding. */
  lemma RoundTrip(s: seq<Byte>)
    ensures Decoded(Encoded(s)) == Some(s)
  {
    BytesOfSextets(s);
    WholeGroups(|s|);
    DecodedText(Sextets(s));
  }

  lemma DecodedText(v: seq<Sextet>)
    requires |v| % 4 != 1
    ensures Decoded(Text(ALPHABET, v)) == Some(BytesOf(v))
  {
    ValuesOfText(v);
  }

  lemma WholeGroups(n: nat)
    ensures (4 * n + 2) / 3 % 4 != 1
  {
    var q, r := n / 3, n % 3;
    assert (4 * n + 2) / 3 == 4 * q + (4 * r + 2) / 3;
  }

  lemma {:induction false} BytesOfSextets(s: seq<Byte>)
    ensures BytesOf(Sextets(s)) == s
  {
    if s == [] {
    } else if |s| <= 3 {
      BytesOfGroup(s);
    } else {
      BytesOfSextets(s[3..]);
      BytesOfTriple(s[0], s[1], s[2], Sextets(s[3..]));
      assert Group(s[..3]) == [First(s[0]), Second(s[0], s[1]), Third(s[1], s[2]), Fourth(s[2])];
      assert s == [s[0], s[1], s[2]] + s[3..];
    }
  }

  /** The number that a sequence of digits stands for. */
  function Number(digits: seq<nat>, base: nat): nat {
    if digits == [] then 0 else Number(digits[..|digits| - 1], base) * base + digits[|digits| - 1]
  }

  /** The indices of a group are the base-64 digits of the number whose base-256 digits are its bytes;
      a short group gets zero bits at the end (section 4 of RFC 4648). */
  lemma GroupIsOneNumber(g: seq<Byte>)
    requires 1 <= |g| <= 3
    ensures |g| == 1 ==> Number(Group(g), 64) == Number(g, 256) * 16
    ensures |g| == 2 ==> Number(Group(g), 64) == Number(g, 256) * 4
    ensures |g| == 3 ==> Number(Group(g), 64) == Number(g, 256)
  {
    match |g| {
      case 1 => OneByteGroup(g);
      case 2 => TwoByteGroup(g);
      case _ => ThreeByteGroup(g);
    }
  }

  lemma OneByteGroup(g: seq<Byte>)
    requires |g| == 1
    ensures Number(Group(g), 64) == Number(g, 256) * 16
  {
    assert g == [g[0]] && Group(g) == [First(g[0]), Second(g[0], 0)];
    OneByte(g[0]);
  }

  lemma TwoByteGroup(g: seq<Byte>)
    requires |g| == 2
    ensures Number(Group(g), 64) == Number(g, 256) * 4
  {
    assert g == [g[0], g[1]] && Group(g) == [First(g[0]), Second(g[0], g[1]), Third(g[1], 0)];
    TwoBytes(g[0], g[1]);
  }

  lemma ThreeByteGroup(g: seq<Byte>)
    requires |g| == 3
    ensures Number(Group(g), 64) == Number(g, 256)
  {
    assert g == [g[0], g[1], g[2]];
    assert Group(g) == [First(g[0]), Second(g[0], g[1]), Third(g[1], g[2]), Fourth(g[2])];
    ThreeBytes(g[0], g[1], g[2]);
  }

  lemma OneByte(b: Byte)
    ensures Number([First(b), Second(b, 0)], 64) == Number([b], 256) * 16
  {
    TwoDigits([First(b), Second(b, 0)], 64);
    OneDigit([b], 256);
  }

  lemma TwoBytes(b: Byte, c: Byte)
    ensures Number([First(b), Second(b, c), Third(c, 0)], 64) == Number([b, c], 256) * 4
  {
    ThreeDigits([First(b), Second(b, c), Third(c, 0)], 64);
    TwoDigits([b, c], 256);
  }

  lemma ThreeBytes(b: Byte, c: Byte, d: Byte)
    ensures Number([First(b), Second(b, c), Third(c, d), Fourth(d)], 64) == Number([b, c, d], 256)
  {
    FourDigits([First(b), Second(b, c), Third(c, d), Fourth(d)], 64);
    ThreeDigits([b, c, d], 256);
  }

  lemma OneDigit(d: seq<nat>, base: nat)
    requires |d| == 1
    ensures Number(d, base) == d[0]
  {
    assert d[..0] == [];
  }

  lemma TwoDigits(d: seq<nat>, base: nat)
    requires |d| == 2
    ensures Number(d, base) == d[0] * base + d[1]
  {
    OneDigit(d[..1], base);
  }

  lemma ThreeDigits(d: seq<nat>, base: nat)
    requires |d| == 3
    ensures Number(d, base) == (d[0] * base + d[1]) * base + d[2]
  {
    TwoDigits(d[..2], base);
  }

  lemma FourDigits(d: seq<nat>, base: nat)
    requires |d| == 4
    ensures Number(d, base) == ((d[0] * base + d[1]) * base + d[2]) * base + d[3]
  {
    ThreeDigits(d[..3], base);
  }
}
