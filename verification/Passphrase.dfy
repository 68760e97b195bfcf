/** The masked passphrase of a slot. SHA-1 is an uninterpreted function, whose computation may fail. */
module Passphrase {
  import opened Cryptoki
  import opened SessionCore

  type Byte = bv8
  type Digest = s: seq<Byte> | |s| == 20 witness seq(20, _ => 0)
  type Pointer = s: seq<Byte> | |s| == 8 witness seq(8, _ => 0)

  const LOCAL_HLEN := 20
  const LOCAL_ITERATIONS := 5
  const MAXLEN := 255
  const MAXBLK := 20 + (MAXLEN + 1) + 4

  /** Where the text and its checksum lie in a block. */
  const TEXT := MAXBLK - MAXLEN - 1
  const CHECKSUM := TEXT - 20

  const CKR_USER_ALREADY_LOGGED_IN: ReturnCode := 0x100

  /** The hash function, and for which data an operation succeeds in computing it. */
  datatype Sha1 = Sha1(digest: seq<Byte> -> Digest, works: seq<Byte> -> bool) {
    function Of(d: seq<Byte>): Option<Digest> {
      if works(d) then Some(digest(d)) else None
    }
  }

  function Xor(a: seq<Byte>, b: seq<Byte>): (r: seq<Byte>)
    requires |a| == |b|
    ensures |r| == |a|
    ensures forall i :: 0 <= i < |r| ==> r[i] == a[i] ^ b[i]
  {
    seq(|a|, i requires 0 <= i < |a| => a[i] ^ b[i])
  }

  lemma XorTwice(a: seq<Byte>, m: seq<Byte>)
    requires |a| == |m|
    ensures Xor(Xor(a, m), m) == a
  {
    forall i | 0 <= i < |a| ensures Xor(Xor(a, m), m)[i] == a[i] {
      SelfInverse(a[i], m[i]);
    }
  }

  lemma SelfInverse(a: Byte, m: Byte)
    ensures (a ^ m) ^ m == a
  {
  }

  function BigEndian(i: nat): (r: seq<Byte>)
    ensures |r| == 4
  {
    [(i / 0x1000000 % 256) as Byte, (i / 0x10000 % 256) as Byte, (i / 0x100 % 256) as Byte, (i % 256) as Byte]
  }

  /** The rounds of LUNA_PBKDF2_F that follow its first value u. */
  function Rounds(sha: Sha1, p: Digest, u: Digest, c: nat): Option<Digest>
    decreases c
  {
    if c == 0 then Some(u)
    else match sha.Of(p + u)
      case None => None
      case Some(md) => Rounds(sha, p, Xor(u, md), c - 1)
  }

  /** The i-th 20 bytes of a key, i counting from 1. */
  function Block(sha: Sha1, p: Digest, s: Digest, c: nat, i: nat): Option<Digest> {
    Rounds(sha, p, s[..16] + BigEndian(i), c)
  }

  /** The first n blocks. */
  function Blocks(sha: Sha1, p: Digest, s: Digest, c: nat, n: nat): (r: Option<seq<Byte>>)
    ensures r.Some? ==> |r.value| == n * LOCAL_HLEN
  {
    if n == 0 then Some([])
    else match Blocks(sha, p, s, c, n - 1)
      case None => None
      case Some(front) => match Block(sha, p, s, c, n)
        case None => None
        case Some(last) => Some(front + last)
  }

  /** The masking key for a store at address `store` whose buffer is at address `buffer`. */
  function Mask(sha: Sha1, store: Pointer, buffer: Pointer): (r: Option<seq<Byte>>)
    ensures r.Some? ==> |r.value| == MAXBLK
  {
    match sha.Of(store + seq(8, _ => 0xff))
    case None => None
    case Some(p) => match sha.Of(store + buffer)
      case None => None
      case Some(s) => Blocks(sha, p, s, LOCAL_ITERATIONS, MAXBLK / LOCAL_HLEN)
  }

  /** The key is a sequence of whole blocks: the i-th lies at 20 * (i - 1), and together they fill it. */
  lemma {:induction false} BlockAt(sha: Sha1, p: Digest, s: Digest, c: nat, n: nat, i: nat)
    requires Blocks(sha, p, s, c, n).Some? && 1 <= i <= n
    ensures Block(sha, p, s, c, i).Some?
    ensures Blocks(sha, p, s, c, n).value[(i - 1) * LOCAL_HLEN..i * LOCAL_HLEN] == Block(sha, p, s, c, i).value
  {
    if i == n {
    } else {
      BlockAt(sha, p, s, c, n - 1, i);
      var front := Blocks(sha, p, s, c, n - 1).value;
      assert i * LOCAL_HLEN <= |front|;
      assert Blocks(sha, p, s, c, n).value[..|front|] == front;
    }
  }

  /** The digests u are those of a chain of hashes under p, each folded into the one before. */
  ghost predicate Chained(sha: Sha1, p: Digest, u: seq<Digest>) {
    forall k | 0 <= k && k + 1 < |u| :: sha.works(p + u[k]) && u[k + 1] == Xor(u[k], sha.digest(p + u[k]))
  }

  /** A block is the end of such a chain of c steps, from 16 bytes of the salt and the number of the block. */
  lemma BlockIsChained(sha: Sha1, p: Digest, s: Digest, c: nat, i: nat) returns (u: seq<Digest>)
    requires Block(sha, p, s, c, i).Some?
    ensures |u| == c + 1 && Chained(sha, p, u) && u[c] == Block(sha, p, s, c, i).value
    ensures u[0][..16] == s[..16]
    ensures u[0][16] == (i / 0x1000000 % 256) as Byte && u[0][17] == (i / 0x10000 % 256) as Byte
    ensures u[0][18] == (i / 0x100 % 256) as Byte && u[0][19] == (i % 256) as Byte
  {
    var start := s[..16] + BigEndian(i);
    u := RoundsAreChained(sha, p, start, c);
    assert start[..16] == s[..16] && start[16..] == BigEndian(i);
  }

  lemma {:induction false} RoundsAreChained(sha: Sha1, p: Digest, start: Digest, c: nat) returns (u: seq<Digest>)
    requires Rounds(sha, p, start, c).Some?
    ensures |u| == c + 1 && Chained(sha, p, u) && u[0] == start && u[c] == Rounds(sha, p, start, c).value
    decreases c
  {
    if c == 0 {
      u := [start];
    } else {
      var next: Digest := Xor(start, sha.digest(p + start));
      var rest := RoundsAreChained(sha, p, next, c - 1);
      u := [start] + rest;
      forall k | 0 <= k && k + 1 < |u| ensures sha.works(p + u[k]) && u[k + 1] == Xor(u[k], sha.digest(p + u[k])) {
        if k > 0 {
          assert u[k] == rest[k - 1] && u[k + 1] == rest[k - 1 + 1];
        }
      }
    }
  }

  /** luna_SHA1too */
  method HashTwo(sha: Sha1, d1: seq<Byte>, d2: seq<Byte>) returns (ok: bool, md: Digest)
    ensures ok == sha.Of(d1 + d2).Some?
    ensures ok ==> md == sha.Of(d1 + d2).value
  {
    ok, md := sha.works(d1 + d2), sha.digest(d1 + d2);
  }

  /** LUNA_PBKDF2_F: works in place on the 20 bytes of u from at. */
  method Pbkdf2F(sha: Sha1, p: Digest, s: Digest, c: nat, ii: nat, u: array<Byte>, at: nat) returns (ok: bool)
    requires at + LOCAL_HLEN <= u.Length
    modifies u
    ensures ok == Block(sha, p, s, c, ii).Some?
    ensures ok ==> u[at..at + LOCAL_HLEN] == Block(sha, p, s, c, ii).value
    ensures u[..at] == old(u[..at]) && u[at + LOCAL_HLEN..] == old(u[at + LOCAL_HLEN..])
  {
    var start := s[..16] + BigEndian(ii);
    forall i | 0 <= i < LOCAL_HLEN {
      u[at + i] := start[i];
    }
    assert u[at..at + LOCAL_HLEN] == start;
    var left := c;
    while left > 0
      invariant Rounds(sha, p, u[at..at + LOCAL_HLEN], left) == Block(sha, p, s, c, ii)
      invariant u[..at] == old(u[..at]) && u[at + LOCAL_HLEN..] == old(u[at + LOCAL_HLEN..])
    {
      ghost var before := u[at..at + LOCAL_HLEN];
      var works, md := HashTwo(sha, p, u[at..at + LOCAL_HLEN]);
      if !works {
        return false;
      }
      XorInto(u, at, md);
      assert u[at..at + LOCAL_HLEN] == Xor(before, md);
      left := left - 1;
    }
    ok := true;
  }

  method XorInto(u: array<Byte>, at: nat, md: seq<Byte>)
    requires at + |md| <= u.Length
    modifies u
    ensures u[at..at + |md|] == Xor(old(u[at..at + |md|]), md)
    ensures u[..at] == old(u[..at]) && u[at + |md|..] == old(u[at + |md|..])
  {
    var jj := 0;
    while jj < |md|
      invariant 0 <= jj <= |md|
      invariant forall i :: 0 <= i < u.Length ==>
                  u[i] == if at <= i < at + jj then old(u[i]) ^ md[i - at] else old(u[i])
    {
      u[at + jj] := u[at + jj] ^ md[jj];
      jj := jj + 1;
    }
  }

  /** LUNA_PBKDF2_main: fills maskout[..dkLen]. */
  method Pbkdf2Main(sha: Sha1, p: Digest, s: Digest, c: nat, dkLen: nat, maskout: array<Byte>) returns (r: int)
    requires dkLen <= maskout.Length
    modifies maskout
    ensures c < LOCAL_ITERATIONS || dkLen % LOCAL_HLEN != 0 ==> r == -1
    ensures c >= LOCAL_ITERATIONS && dkLen % LOCAL_HLEN == 0 ==>
              (r == 1 <==> Blocks(sha, p, s, c, dkLen / LOCAL_HLEN).Some?)
    ensures r == 1 ==> Some(maskout[..dkLen]) == Blocks(sha, p, s, c, dkLen / LOCAL_HLEN)
    ensures maskout[dkLen..] == old(maskout[dkLen..])
  {
    if c < LOCAL_ITERATIONS || dkLen % LOCAL_HLEN != 0 {
      return -1;
    }
    var ok := FillBlocks(sha, p, s, c, dkLen / LOCAL_HLEN, maskout);
    r := if ok then 1 else -2;
  }

  /** The loop of LUNA_PBKDF2_main. */
  method FillBlocks(sha: Sha1, p: Digest, s: Digest, c: nat, n: nat, maskout: array<Byte>) returns (ok: bool)
    requires n * LOCAL_HLEN <= maskout.Length
    modifies maskout
    ensures ok == Blocks(sha, p, s, c, n).Some?
    ensures ok ==> Some(maskout[..n * LOCAL_HLEN]) == Blocks(sha, p, s, c, n)
    ensures maskout[n * LOCAL_HLEN..] == old(maskout[n * LOCAL_HLEN..])
  {
    var l, it, at := n, 1, 0;
    while l > 0
      invariant 0 <= l && it == n - l + 1 && at == (it - 1) * LOCAL_HLEN
      invariant Some(maskout[..at]) == Blocks(sha, p, s, c, it - 1)
      invariant maskout[n * LOCAL_HLEN..] == old(maskout[n * LOCAL_HLEN..])
    {
      var next := NextBlock(sha, p, s, c, it, maskout, at);
      if !next {
        NeverMore(sha, p, s, c, it, n);
        return false;
      }
      l, it, at := l - 1, it + 1, at + LOCAL_HLEN;
    }
    ok := true;
  }

  /** One turn of the loop in LUNA_PBKDF2_main: the block that follows the it - 1 blocks already there. */
  method NextBlock(sha: Sha1, p: Digest, s: Digest, c: nat, it: nat, maskout: array<Byte>, at: nat) returns (ok: bool)
    requires it > 0 && at + LOCAL_HLEN <= maskout.Length && Some(maskout[..at]) == Blocks(sha, p, s, c, it - 1)
    modifies maskout
    ensures ok == Block(sha, p, s, c, it).Some?
    ensures ok ==> Some(maskout[..at + LOCAL_HLEN]) == Blocks(sha, p, s, c, it)
    ensures maskout[at + LOCAL_HLEN..] == old(maskout[at + LOCAL_HLEN..])
  {
    ghost var front := maskout[..at];
    ok := Pbkdf2F(sha, p, s, c, it, maskout, at);
    if ok {
      assert maskout[..at + LOCAL_HLEN] == front + Block(sha, p, s, c, it).value;
    }
  }

  lemma {:induction false} NeverMore(sha: Sha1, p: Digest, s: Digest, c: nat, i: nat, n: nat)
    requires 1 <= i <= n && Block(sha, p, s, c, i).None?
    ensures Blocks(sha, p, s, c, n).None?
  {
    if i == n {
    } else {
      NeverMore(sha, p, s, c, i, n - 1);
    }
  }

  /** Two computations of a mask that both succeed agree, whichever of their hashes worked when. */
  lemma MaskIsFixed(one: Sha1, two: Sha1, store: Pointer, buffer: Pointer)
    requires one.digest == two.digest
    requires Mask(one, store, buffer).Some? && Mask(two, store, buffer).Some?
    ensures Mask(one, store, buffer) == Mask(two, store, buffer)
  {
    BlocksAreFixed(one, two, one.digest(store + seq(8, _ => 0xff)), one.digest(store + buffer),
                       LOCAL_ITERATIONS, MAXBLK / LOCAL_HLEN);
  }

  lemma {:induction false} BlocksAreFixed(one: Sha1, two: Sha1, p: Digest, s: Digest, c: nat, n: nat)
    requires one.digest == two.digest
    requires Blocks(one, p, s, c, n).Some? && Blocks(two, p, s, c, n).Some?
    ensures Blocks(one, p, s, c, n) == Blocks(two, p, s, c, n)
  {
    if n == 0 {
    } else {
      BlocksAreFixed(one, two, p, s, c, n - 1);
      RoundsAreFixed(one, two, p, s[..16] + BigEndian(n), c);
    }
  }

  lemma {:induction false} RoundsAreFixed(one: Sha1, two: Sha1, p: Digest, u: Digest, c: nat)
    requires one.digest == two.digest
    requires Rounds(one, p, u, c).Some? && Rounds(two, p, u, c).Some?
    ensures Rounds(one, p, u, c) == Rounds(two, p, u, c)
    decreases c
  {
    if c == 0 {
    } else {
      RoundsAreFixed(one, two, p, Xor(u, one.digest(p + u)), c - 1);
    }
  }

  /** strlen within a buffer. */
  function Strlen(s: seq<Byte>): (n: nat)
    ensures n <= |s| && 0 !in s[..n] && (n < |s| ==> s[n] == 0)
  {
    if s == [] || s[0] == 0 then 0 else 1 + Strlen(s[1..])
  }

  function Zeros(n: nat): (r: seq<Byte>)
    ensures |r| == n && forall i :: 0 <= i < n ==> r[i] == 0
  {
    seq(n, _ => 0)
  }

  /** The text part of a block: the password, its NUL and zeros to the end. */
  function Text(pw: seq<Byte>): (r: seq<Byte>)
    requires |pw| <= MAXLEN
    ensures |r| == MAXLEN + 1
  {
    pw + Zeros(MAXLEN + 1 - |pw|)
  }

  /** What LUNA_pw_malloc writes to the buffer at address `buffer`, if it gets that far. */
  function Stored(sha: Sha1, store: Pointer, buffer: Pointer, pw: seq<Byte>): (r: Option<seq<Byte>>)
    requires |pw| <= MAXLEN
    ensures r.Some? ==> |r.value| == MAXBLK
  {
    match sha.Of(Text(pw))
    case None => None
    case Some(checksum) => match Mask(sha, store, buffer)
      case None => None
      case Some(mask) => Some(Xor(Zeros(CHECKSUM) + checksum + Text(pw), mask))
  }

  /** Each 20 bytes of masked are those of the block with zeros, checksum and text, XORed with a block of
      the key derivation of their own, under the digests of the addresses of store and buffer. */
  ghost predicate Masked(sha: Sha1, store: Pointer, buffer: Pointer, pw: seq<Byte>, masked: seq<Byte>)
    requires |pw| <= MAXLEN
  {
    var p, s := sha.digest(store + seq(8, _ => 0xff)), sha.digest(store + buffer);
    var plain := Zeros(CHECKSUM) + sha.digest(Text(pw)) + Text(pw);
    && |masked| == MAXBLK
    && forall i | 1 <= i <= MAXBLK / LOCAL_HLEN ::
         && Block(sha, p, s, LOCAL_ITERATIONS, i).Some?
         && masked[20 * (i - 1)..20 * i]
            == Xor(plain[20 * (i - 1)..20 * i], Block(sha, p, s, LOCAL_ITERATIONS, i).value)
  }

  /** The mask covers all of the stored block. */
  lemma StoredIsMasked(sha: Sha1, store: Pointer, buffer: Pointer, pw: seq<Byte>)
    requires |pw| <= MAXLEN && Stored(sha, store, buffer, pw).Some?
    ensures Masked(sha, store, buffer, pw, Stored(sha, store, buffer, pw).value)
  {
    var p, s := sha.digest(store + seq(8, _ => 0xff)), sha.digest(store + buffer);
    var plain := Zeros(CHECKSUM) + sha.digest(Text(pw)) + Text(pw);
    var mask := Mask(sha, store, buffer).value;
    forall i | 1 <= i <= MAXBLK / LOCAL_HLEN
      ensures Block(sha, p, s, LOCAL_ITERATIONS, i).Some?
      ensures Xor(plain, mask)[20 * (i - 1)..20 * i]
           == Xor(plain[20 * (i - 1)..20 * i], Block(sha, p, s, LOCAL_ITERATIONS, i).value)
    {
      BlockAt(sha, p, s, LOCAL_ITERATIONS, MAXBLK / LOCAL_HLEN, i);
      XorSlice(plain, mask, 20 * (i - 1), 20 * i);
    }
  }

  lemma XorSlice(a: seq<Byte>, m: seq<Byte>, lo: nat, hi: nat)
    requires |a| == |m| && lo <= hi <= |a|
    ensures Xor(a, m)[lo..hi] == Xor(a[lo..hi], m[lo..hi])
  {
  }

  /** What LUNA_pw_login sends to the HSM, if the masked bytes pass its tests. */
  function Recovered(sha: Sha1, store: Pointer, buffer: Pointer, masked: seq<Byte>): Option<seq<Byte>>
    requires |masked| == MAXBLK
  {
    match Mask(sha, store, buffer)
    case None => None
    case Some(mask) =>
      var block := Xor(masked, mask);
      match sha.Of(block[TEXT..])
      case None => None
      case Some(checksum) =>
        if checksum != block[CHECKSUM..TEXT] then None
        else Some(block[TEXT..][..Strlen(block[TEXT..])])
  }

  /** Whatever the buffer holds, a login sends something only if the checksum under the mask is that of the
      text under the mask, and then that text up to its first NUL. */
  lemma SendsOnlyIntact(sha: Sha1, store: Pointer, buffer: Pointer, masked: seq<Byte>)
    requires |masked| == MAXBLK
    ensures var sent := Recovered(sha, store, buffer, masked);
            match Mask(sha, store, buffer)
            case None => sent == None
            case Some(mask) =>
              var text, checksum := Xor(masked, mask)[TEXT..], Xor(masked, mask)[CHECKSUM..TEXT];
              && (sent.Some? <==> sha.works(text) && sha.digest(text) == checksum)
              && (sent.Some? ==> sent.value <= text && 0 !in sent.value
                                 && (|sent.value| < |text| ==> text[|sent.value|] == 0))
  {
  }

  /** A login sends exactly the password that was stored, if and only if it can compute its hashes. */
  lemma RoundTrip(storing: Sha1, login: Sha1, store: Pointer, buffer: Pointer, pw: seq<Byte>)
    requires storing.digest == login.digest
    requires 0 !in pw && |pw| <= MAXLEN && Stored(storing, store, buffer, pw).Some?
    ensures var sent := Recovered(login, store, buffer, Stored(storing, store, buffer, pw).value);
            if Mask(login, store, buffer).Some? && login.works(Text(pw)) then sent == Some(pw) else sent == None
  {
    if Mask(login, store, buffer).Some? {
      MaskIsFixed(storing, login, store, buffer);
      var checksum := storing.digest(Text(pw));
      var block := Zeros(CHECKSUM) + checksum + Text(pw);
      XorTwice(block, Mask(login, store, buffer).value);
      assert block[TEXT..] == Text(pw);
      assert block[CHECKSUM..TEXT] == checksum;
      StrlenOfText(pw);
    }
  }

  lemma StrlenOfText(pw: seq<Byte>)
    requires 0 !in pw && |pw| <= MAXLEN
    ensures Strlen(Text(pw)) == |pw| && Text(pw)[..|pw|] == pw
  {
    var text := Text(pw);
    var n := Strlen(text);
    assert forall i :: 0 <= i < |pw| ==> text[i] == pw[i] && pw[i] in pw;
    assert forall i :: 0 <= i < n ==> text[..n][i] == text[i] && text[i] in text[..n];
    assert text[|pw|] == 0;
  }

  /** What a login amounts to for the session protocol. */
  function AnswerOf(sent: Option<seq<Byte>>, answer: ReturnCode): LoginAnswer {
    if sent == None then DigestFailed
    else if answer == CKR_OK then Accepted
    else if answer == CKR_USER_ALREADY_LOGGED_IN then AlreadyLoggedIn
    else Rejected
  }

  method XorOf(dest: array<Byte>, src: array<Byte>, mask: array<Byte>)
    requires dest.Length == src.Length == mask.Length && dest != src && dest != mask
    modifies dest
    ensures dest[..] == Xor(src[..], mask[..])
  {
    var ii := 0;
    while ii < dest.Length
      invariant 0 <= ii <= dest.Length
      invariant forall i :: 0 <= i < ii ==> dest[i] == src[i] ^ mask[i]
    {
      dest[ii] := src[ii] ^ mask[ii];
      ii := ii + 1;
    }
  }

  /** luna_passphrase_t */
  class PassphraseStore {
    const address: Pointer
    var boolInit: nat
    var szPass: array?<Byte>
    var buffer: Pointer
    var hSession: Handle
    ghost var failures: nat        // C_Login calls that failed since the last PwMalloc

    ghost predicate Valid()
      reads this
    {
      szPass != null ==> szPass.Length == MAXBLK
    }

    /** The store as the session protocol sees it. */
    ghost function Store(): PassStore
      reads this
    {
      PassStore(boolInit, szPass != null, hSession, failures)
    }

    constructor (address: Pointer)
      ensures Valid() && boolInit == 0 && szPass == null && hSession == INVALID_HANDLE
      ensures this.address == address && Store() == FilledStore(false, false)
    {
      this.address := address;
      boolInit, szPass, buffer, hSession, failures := 0, null, address, INVALID_HANDLE, 0;
    }

    /** LUNA_pw_mask, writing to dest; src and dest are different buffers. */
    method PwMask(sha: Sha1, dest: array<Byte>, src: array<Byte>) returns (ok: bool)
      requires dest.Length == MAXBLK && src.Length == MAXBLK && dest != src
      modifies dest
      ensures ok == Mask(sha, address, buffer).Some?
      ensures ok ==> dest[..] == Xor(src[..], Mask(sha, address, buffer).value)
    {
      var p: Digest, s: Digest;
      ok, p := HashTwo(sha, address, seq(8, _ => 0xff));
      if !ok {
        return;
      }
      ok, s := HashTwo(sha, address, buffer);
      if !ok {
        return;
      }
      var baMask := new Byte[MAXBLK](_ => 0);
      var r := Pbkdf2Main(sha, p, s, LOCAL_ITERATIONS, MAXBLK, baMask);
      assert Mask(sha, address, buffer) == Blocks(sha, p, s, LOCAL_ITERATIONS, MAXBLK / LOCAL_HLEN);
      if r != 1 {
        return false;
      }
      assert baMask[..MAXBLK] == baMask[..];
      XorOf(dest, src, baMask);
    }

    /** LUNA_pw_malloc; memory is what the allocator answers. */
    method PwMalloc(sha: Sha1, szpw: seq<Byte>, memory: Option<Pointer>)
      modifies this
      ensures Valid() && hSession == INVALID_HANDLE
      ensures boolInit == if 4 <= |szpw| <= MAXLEN && memory.Some? && Stored(sha, address, memory.value, szpw).Some?
                                   then 1 else 0
      ensures boolInit == 1 ==> szPass != null && buffer == memory.value
                                   && Some(szPass[..]) == Stored(sha, address, buffer, szpw)
      ensures boolInit == 1 ==> Masked(sha, address, buffer, szpw, szPass[..])
      ensures szPass != null ==> fresh(szPass)
      ensures Store() == FilledStore(4 <= |szpw| <= MAXLEN && memory.Some?, boolInit == 1)
    {
      boolInit, szPass, hSession, failures := 0, null, INVALID_HANDLE, 0;
      if |szpw| > MAXLEN || |szpw| < 4 || memory == None {
        return;
      }
      szPass, buffer := new Byte[MAXBLK], memory.value;
      var ok, blkPw := PlainBlock(sha, szpw);
      if !ok {
        return;
      }
      ok := PwMask(sha, szPass, blkPw);
      if !ok {
        return;
      }
      boolInit := 1;
      StoredIsMasked(sha, address, buffer, szpw);
    }

    /** The block with the password and its checksum, not yet masked. */
    static method PlainBlock(sha: Sha1, szpw: seq<Byte>) returns (ok: bool, blkPw: array<Byte>)
      requires |szpw| <= MAXLEN
      ensures fresh(blkPw) && blkPw.Length == MAXBLK && ok == sha.Of(Text(szpw)).Some?
      ensures ok ==> blkPw[..] == Zeros(CHECKSUM) + sha.Of(Text(szpw)).value + Text(szpw)
    {
      blkPw := new Byte[MAXBLK](_ => 0);
      forall i | 0 <= i < |szpw| {
        blkPw[TEXT + i] := szpw[i];
      }
      assert blkPw[TEXT..] == Text(szpw);
      assert blkPw[TEXT..] + [] == blkPw[TEXT..];
      var shaPw: Digest;
      ok, shaPw := HashTwo(sha, blkPw[TEXT..], []);
      if ok {
        forall i | 0 <= i < 20 {
          blkPw[CHECKSUM + i] := shaPw[i];
        }
        assert blkPw[..] == Zeros(CHECKSUM) + shaPw + Text(szpw);
      }
    }

    /** LUNA_pw_free */
    method PwFree()
      modifies this, szPass
      ensures Valid() && boolInit == 0 && szPass == null && hSession == INVALID_HANDLE
      ensures Store() == FilledStore(false, false)
      ensures old(szPass) != null ==> forall i :: 0 <= i < old(szPass).Length ==> old(szPass)[i] == 0
    {
      if szPass != null {
        forall i | 0 <= i < szPass.Length {
          szPass[i] := 0;
        }
      }
      boolInit, szPass, hSession, failures := 0, null, INVALID_HANDLE, 0;
    }

    /** LUNA_pw_login; sent is the password that C_Login gets, answer its return code. A refusal by
        the HSM locks the store until the next PwMalloc. */
    method PwLogin(sha: Sha1, answer: ReturnCode) returns (rv: ReturnCode, sent: Option<seq<Byte>>)
      requires Valid()
      modifies this`boolInit, this`failures
      ensures sent == if szPass != null && old(boolInit) == 1 then Recovered(sha, address, buffer, szPass[..]) else None
      ensures rv == if sent == None then CKR_GENERAL_ERROR
                    else if answer == CKR_USER_ALREADY_LOGGED_IN then CKR_OK else answer
      ensures boolInit == if sent.Some? && rv != CKR_OK then 2 else old(boolInit)
      ensures (rv == CKR_OK, Store()) == PassLogin(old(Store()), AnswerOf(sent, answer))
    {
      rv, sent := CKR_GENERAL_ERROR, None;
      if szPass == null || boolInit != 1 {
        return;
      }
      sent := Unmask(sha);
      if sent == None {
        return;
      }
      rv := Note(answer);
    }

    /** What the store makes of the answer to C_Login. */
    method Note(answer: ReturnCode) returns (rv: ReturnCode)
      requires szPass != null && boolInit == 1
      modifies this`boolInit, this`failures
      ensures rv == if answer == CKR_USER_ALREADY_LOGGED_IN then CKR_OK else answer
      ensures boolInit == if rv != CKR_OK then 2 else 1
      ensures (rv == CKR_OK, Store()) == PassLogin(old(Store()), AnswerOf(Some([]), answer))
    {
      rv := if answer == CKR_USER_ALREADY_LOGGED_IN then CKR_OK else answer;
      if rv != CKR_OK {
        boolInit, failures := 2, failures + 1;
      }
    }

    /** The part of LUNA_pw_login that takes the mask off and compares the checksum. */
    method Unmask(sha: Sha1) returns (password: Option<seq<Byte>>)
      requires Valid() && szPass != null
      ensures password == Recovered(sha, address, buffer, szPass[..])
    {
      var blkPw := new Byte[MAXBLK];
      var ok := PwMask(sha, blkPw, szPass);
      if !ok {
        return None;
      }
      assert blkPw[..][TEXT..] == blkPw[TEXT..] && blkPw[..][CHECKSUM..TEXT] == blkPw[CHECKSUM..TEXT];
      assert blkPw[TEXT..] + [] == blkPw[TEXT..];
      var works, shaPw := HashTwo(sha, blkPw[TEXT..], []);
      if !works || shaPw != blkPw[CHECKSUM..TEXT] {
        return None;
      }
      password := Some(blkPw[TEXT..][..Strlen(blkPw[TEXT..])]);
    }
  }
}
