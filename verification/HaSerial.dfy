/** The serial numbers in the status of a high availability group, as numbers (before SA6) and as strings (since). */
module HaSerial {
  import opened Decimal

  const CK_TOKEN_SERIAL_NUMBER_SIZE := 16
  const SERIAL_BYTES := CK_TOKEN_SERIAL_NUMBER_SIZE + 4

  /** snprintf with %lu into a serial number field: the text that its terminating NUL ends. */
  function Printed(serial: nat): (s: string)
    ensures |s| < SERIAL_BYTES && AllDigits(s)
  {
    var s := Digits(serial);
    if |s| < SERIAL_BYTES then s else s[..SERIAL_BYTES - 1]
  }

  /** The text at the beginning of the field, at most 20 characters of it. */
  function Strnlen(field: string): (n: nat)
    ensures n <= |field| && n <= SERIAL_BYTES
    ensures '\0' !in field[..n] && (n < |field| && n < SERIAL_BYTES ==> field[n] == '\0')
  {
    StrnlenUpTo(field, SERIAL_BYTES)
  }

  function StrnlenUpTo(field: string, limit: nat): (n: nat)
    ensures n <= |field| && n <= limit
    ensures '\0' !in field[..n] && (n < |field| && n < limit ==> field[n] == '\0')
    decreases limit
  {
    if limit == 0 || field == [] || field[0] == '\0' then 0 else 1 + StrnlenUpTo(field[1..], limit - 1)
  }

  /** get_ulong_serial_from_string_serial; memory begins with the field and ends in a NUL, in the
      field or behind it. */
  method SerialFromString(memory: string, defaultSerial: nat) returns (serial: nat)
    requires '\0' in memory
    ensures var n := Strnlen(memory);
            var last := memory[if n > 9 then n - 9 else 0..n];
            if !AllDigits(last) then serial == defaultSerial
            else if n < SERIAL_BYTES then serial == ValueOf(last)
            else serial == ValueOf(DigitRun(memory[n - 9..]))
  {
    var n := Strnlen(memory);
    var s := if n > 9 then n - 9 else 0;
    var p := s;
    while p < n
      invariant s <= p <= n
      invariant forall i :: s <= i < p ==> IsDigit(memory[i])
    {
      if !IsDigit(memory[p]) {
        assert memory[s..n][p - s] == memory[p];
        return defaultSerial;
      }
      p := p + 1;
    }
    serial := ValueOf(DigitRun(memory[s..]));
    if n < SERIAL_BYTES {
      RunEndsAtNul(memory, s, n);
    }
  }

  lemma RunEndsAtNul(memory: string, s: nat, n: nat)
    requires s <= n < |memory| && AllDigits(memory[s..n]) && memory[n] == '\0'
    ensures DigitRun(memory[s..]) == memory[s..n]
  {
    var t := memory[s..];
    var run := DigitRun(t);
    assert forall i :: 0 <= i < n - s ==> t[i] == memory[s..n][i];
    assert t[n - s] == '\0';
    assert forall i :: 0 <= i < |run| ==> run[i] == t[i];
    assert |run| == n - s;
    assert run == memory[s..n];
  }

  /** What the parser makes of a printed serial number. */
  function Reparsed(serial: nat): nat {
    var s := Printed(serial);
    ValueOf(if |s| > 9 then s[|s| - 9..] else s)
  }

  /** The parser applied to a field that snprintf wrote, whatever lies behind its NUL. */
  method PrintAndParse(serial: nat, rest: string, defaultSerial: nat) returns (r: nat)
    ensures r == Reparsed(serial)
  {
    var memory := Printed(serial) + ['\0'] + rest;
    ghost var n := |Printed(serial)|;
    assert memory[n] == '\0';
    LengthOfField(Printed(serial), rest);
    assert memory[..n] == Printed(serial);
    assert memory[if n > 9 then n - 9 else 0..n] == if n > 9 then Printed(serial)[n - 9..] else Printed(serial);
    r := SerialFromString(memory, defaultSerial);
  }

  lemma LengthOfField(s: string, rest: string)
    requires |s| < SERIAL_BYTES && AllDigits(s)
    ensures Strnlen(s + ['\0'] + rest) == |s|
  {
    var memory := s + ['\0'] + rest;
    var n := Strnlen(memory);
    assert memory[|s|] == '\0';
    assert forall i :: 0 <= i < |s| ==> memory[i] == s[i];
    assert forall i :: 0 <= i < n ==> memory[..n][i] == memory[i];
  }

  /** Nine digits survive: the last nine of the number, or, when it has 20 digits, of its first 19. */
  lemma ReparsedSerial(serial: nat)
    requires serial < Pow10(20)
    ensures Reparsed(serial) == if serial < Pow10(19) then serial % Pow10(9) else serial / 10 % Pow10(9)
  {
    HowManyDigits(serial, 19);
    HowManyDigits(serial, 20);
    if serial < Pow10(19) {
      LastNine(serial);
    } else {
      TwentyDigits(serial);
    }
  }

  lemma TwentyDigits(serial: nat)
    requires |Digits(serial)| == 20
    ensures Reparsed(serial) == serial / 10 % Pow10(9)
  {
    assert Drop(serial, 1) == Drop(serial / 10, 0) == serial / 10;
    DigitsOfDrop(serial, 1);
    LastNine(serial / 10);
  }

  lemma LastNine(n: nat)
    ensures var s := Digits(n); ValueOf(if |s| > 9 then s[|s| - 9..] else s) == n % Pow10(9)
  {
    if |Digits(n)| > 9 {
      LastDigits(n, 9);
    } else {
      ValueOfDigits(n);
      HowManyDigits(n, 9);
    }
  }

  /** Of the serial numbers that a CK_ULONG can hold, exactly those of at most nine digits come back. */
  lemma SurvivesExactly(serial: nat)
    requires serial < 0x1_0000_0000_0000_0000
    ensures Reparsed(serial) == serial <==> serial < 1_000_000_000
  {
    assert Pow10(9) == 1_000_000_000;
    assert Pow10(20) == 100_000_000_000_000_000_000;
    ReparsedSerial(serial);
  }
}
