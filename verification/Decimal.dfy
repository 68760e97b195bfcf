/** Decimal numbers, as printf writes them and atoi and atol read them. */
module Decimal {

  predicate IsDigit(c: char) {
    '0' <= c <= '9'
  }

  predicate AllDigits(s: string) {
    forall i :: 0 <= i < |s| ==> IsDigit(s[i])
  }

  function DigitOf(n: nat): (c: char)
    requires n < 10
    ensures IsDigit(c) && (c as int) - ('0' as int) == n
  {
    ('0' as int + n) as char
  }

  /** printf's %lu */
  function Digits(n: nat): (s: string)
    ensures |s| > 0 && AllDigits(s)
  {
    if n < 10 then [DigitOf(n)] else Digits(n / 10) + [DigitOf(n % 10)]
  }

  function DigitValue(c: char): nat {
    if IsDigit(c) then c as int - '0' as int else 0
  }

  function ValueOf(s: string): nat {
    if s == [] then 0 else 10 * ValueOf(s[..|s| - 1]) + DigitValue(s[|s| - 1])
  }

  /** The digits at the beginning of a string, which are what atoi and atol read of it. */
  function DigitRun(s: string): (r: string)
    ensures r <= s && AllDigits(r) && (|r| < |s| ==> !IsDigit(s[|r|]))
  {
    if s == [] || !IsDigit(s[0]) then [] else [s[0]] + DigitRun(s[1..])
  }

  function Pow10(k: nat): (r: nat)
    ensures r > 0
  {
    if k == 0 then 1 else 10 * Pow10(k - 1)
  }

  lemma {:induction false} ValueOfDigits(n: nat)
    ensures ValueOf(Digits(n)) == n
  {
    var s := Digits(n);
    if n < 10 {
      assert s[..0] == [];
    } else {
      ValueOfDigits(n / 10);
      assert s[..|s| - 1] == Digits(n / 10);
    }
  }

  lemma LastOff(n: nat)
    requires n >= 10
    ensures Digits(n)[..|Digits(n)| - 1] == Digits(n / 10) && |Digits(n)| == |Digits(n / 10)| + 1
    ensures Digits(n)[|Digits(n)| - 1] == DigitOf(n % 10)
  {
  }

  /** Division by 10^k, digit by digit. */
  function Drop(n: nat, k: nat): nat {
    if k == 0 then n else Drop(n / 10, k - 1)
  }

  function Keep(n: nat, k: nat): nat {
    if k == 0 then 0 else 10 * Keep(n / 10, k - 1) + n % 10
  }

  lemma DropKeep(n: nat, k: nat)
    ensures Drop(n, k) == n / Pow10(k) && Keep(n, k) == n % Pow10(k)
  {
    SplitAt(n, k);
    UniqueQuotient(n, Pow10(k), Drop(n, k), Keep(n, k));
  }

  lemma {:induction false} SplitAt(n: nat, k: nat)
    ensures n == Pow10(k) * Drop(n, k) + Keep(n, k) && Keep(n, k) < Pow10(k)
  {
    if k == 0 {
    } else {
      SplitAt(n / 10, k - 1);
      Regroup(n, Pow10(k - 1), Drop(n, k), Keep(n / 10, k - 1));
    }
  }

  lemma Regroup(n: nat, p: nat, q: nat, r: nat)
    requires n / 10 == p * q + r && r < p
    ensures n == (10 * p) * q + (10 * r + n % 10) && 10 * r + n % 10 < 10 * p
  {
    assert n == 10 * (n / 10) + n % 10;
    assert (10 * p) * q == 10 * (p * q);
  }

  /** The first digits of a number are those of its quotient by a power of ten. */
  lemma {:induction false} DigitsOfDrop(n: nat, k: nat)
    requires k < |Digits(n)|
    ensures Digits(n)[..|Digits(n)| - k] == Digits(Drop(n, k))
  {
    if k == 0 {
      assert Digits(n)[..|Digits(n)|] == Digits(n);
    } else {
      LastOff(n);
      DigitsOfDrop(n / 10, k - 1);
      FrontOfFront(Digits(n), Digits(n / 10), k);
    }
  }

  lemma FrontOfFront(s: string, front: string, k: nat)
    requires 0 < k <= |s| && front == s[..|s| - 1]
    ensures s[..|s| - k] == front[..|front| - (k - 1)]
  {
  }

  lemma UniqueQuotient(n: nat, d: nat, q: nat, r: nat)
    requires d > 0 && n == d * q + r && r < d
    ensures n / d == q && n % d == r
  {
    var k := n / d - q;
    assert d * k == d * (n / d) - d * q;
    assert d * k == r - n % d;
    Multiple(d, k);
  }

  lemma Multiple(d: nat, k: int)
    ensures k >= 1 ==> d * k >= d
    ensures k <= -1 ==> d * k <= 0 - d
  {
  }

  /** The last k digits of a number are its remainder by 10^k. */
  lemma LastDigits(n: nat, k: nat)
    requires k <= |Digits(n)|
    ensures ValueOf(Digits(n)[|Digits(n)| - k..]) == n % Pow10(k)
  {
    ValueOfKeep(n, k);
    DropKeep(n, k);
  }

  lemma {:induction false} ValueOfKeep(n: nat, k: nat)
    requires k <= |Digits(n)|
    ensures ValueOf(Digits(n)[|Digits(n)| - k..]) == Keep(n, k)
  {
    if k == 0 {
    } else if n < 10 {
      OneDigit(n);
    } else {
      ValueOfKeep(n / 10, k - 1);
      LastOff(n);
      BackOfFront(Digits(n), Digits(n / 10), k);
      Snoc(Digits(n)[|Digits(n)| - k..]);
    }
  }

  lemma Snoc(s: string)
    requires s != []
    ensures ValueOf(s) == 10 * ValueOf(s[..|s| - 1]) + DigitValue(s[|s| - 1])
  {
  }

  lemma OneDigit(n: nat)
    requires n < 10
    ensures |Digits(n)| == 1 && ValueOf(Digits(n)[0..]) == n == Keep(n, 1)
  {
    var s := Digits(n)[0..];
    assert s == [DigitOf(n)] && s[..0] == [];
    assert Keep(n, 1) == 10 * Keep(n / 10, 0) + n % 10;
  }

  lemma BackOfFront(s: string, front: string, k: nat)
    requires 0 < k <= |s| && front == s[..|s| - 1]
    ensures s[|s| - k..][..k - 1] == front[|front| - (k - 1)..]
  {
  }

  /** A number has at most k digits exactly when it is below 10^k. */
  lemma {:induction false} HowManyDigits(n: nat, k: nat)
    requires k > 0
    ensures |Digits(n)| <= k <==> n < Pow10(k)
  {
    if n < 10 {
      assert Pow10(k) >= 10;
    } else if k == 1 {
      assert |Digits(n / 10)| > 0;
    } else {
      HowManyDigits(n / 10, k - 1);
    }
  }
}
