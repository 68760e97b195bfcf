/** The strings that describe a slot, application ids and a password to the engine:
    slotid:appidhi:appidlo[:password]. */
module InitString {
  import opened Cryptoki
  import opened Decimal

  const FORM_FEED := 0x0C as char
  const VERTICAL_TAB := 0x0B as char

  predicate IsSpace(c: char) {
    c == ' ' || c == FORM_FEED || c == '\n' || c == '\r' || c == '\t' || c == VERTICAL_TAB
  }

  predicate IsQuote(c: char) {
    c == '"' || c == '@' || c == '#' || c == '%' || c == '^' || c == '~'
  }

  /** A C string has no NUL in it. */
  predicate IsCString(s: string) {
    '\0' !in s
  }

  function SkipSpace(s: string): (n: nat)
    ensures n <= |s| && (forall i :: 0 <= i < n ==> IsSpace(s[i])) && (n < |s| ==> !IsSpace(s[n]))
  {
    if s == "" || !IsSpace(s[0]) then 0 else 1 + SkipSpace(s[1..])
  }

  /** strchr */
  function Find(s: string, c: char): (r: Option<nat>)
    ensures r.Some? ==> r.value < |s| && s[r.value] == c && c !in s[..r.value]
    ensures r == None ==> c !in s
  {
    if s == "" then None
    else if s[0] == c then Some(0)
    else match Find(s[1..], c)
      case None => None
      case Some(i) => Some(i + 1)
  }

  predicate PairAt(s: string, q: char, i: nat) {
    i + 1 < |s| && s[i] == q && s[i + 1] == ':'
  }

  /** strstr of a quote character and a colon */
  function FindPair(s: string, q: char): (r: Option<nat>)
    ensures r.Some? ==> PairAt(s, q, r.value) && forall i :: 0 <= i < r.value ==> !PairAt(s, q, i)
    ensures r == None ==> forall i :: 0 <= i ==> !PairAt(s, q, i)
  {
    if |s| < 2 then None
    else if s[0] == q && s[1] == ':' then Some(0)
    else match FindPair(s[1..], q)
      case None =>
        assert forall i :: 0 < i ==> (PairAt(s, q, i) ==> PairAt(s[1..], q, i - 1));
        None
      case Some(n) =>
        assert forall i :: 0 < i ==> (PairAt(s, q, i) ==> PairAt(s[1..], q, i - 1));
        Some(n + 1)
  }

  /** The slot field, whether it is a label, and what follows its colon. */
  datatype Split = Split(named: bool, slot: string, rest: string)

  function SplitSlot(arg: string): Option<Split> {
    SplitField(arg[SkipSpace(arg)..])
  }

  function SplitField(t: string): Option<Split> {
    match Closing(t)
    case Some(i) => Some(Split(true, t[1..][..i], t[1..][i + 1..][1..]))
    case None => match Find(t, ':')
      case None => None
      case Some(i) => Some(Split(false, t[..i], t[i + 1..]))
  }

  /** Where, behind an opening quote, the same quote and a colon follow. */
  function Closing(t: string): (r: Option<nat>)
    ensures r.Some? ==> t != "" && PairAt(t[1..], t[0], r.value)
  {
    if t != "" && IsQuote(t[0]) then FindPair(t[1..], t[0]) else None
  }

  /** The fields behind the slot: the application ids and what follows a third colon. */
  datatype Fields = Fields(hi: string, lo: string, extra: Option<string>)

  function SplitIds(rest: string): Option<Fields> {
    match Find(rest, ':')
    case None => None
    case Some(i) => Some(FieldsOf(rest[..i], rest[i + 1..]))
  }

  function FieldsOf(hi: string, lo: string): Fields {
    match Find(lo, ':')
    case None => Fields(hi, lo, None)
    case Some(j) => Fields(hi, lo[..j], Some(lo[j + 1..]))
  }

  /** atoi: white space, a sign, digits. */
  function Atoi(s: string): int {
    var t := s[SkipSpace(s)..];
    if t != "" && t[0] == '-' then -(ValueOf(DigitRun(t[1..])) as int)
    else if t != "" && t[0] == '+' then ValueOf(DigitRun(t[1..]))
    else ValueOf(DigitRun(t))
  }

  /** The conversion of an int to CK_ULONG. */
  function Ulong(n: int): (r: nat) {
    n % 0x1_0000_0000_0000_0000
  }

  datatype SessionDesc = SessionDesc(hi: nat, low: nat, handle: Handle, slot: nat)

  /** What no password stands for. */
  function Password(text: string): Option<string> {
    if text == "" || text == "NULL" then None else Some(text)
  }

  /** What luna_parse_session_desc makes of the fields behind the slot. */
  function Described(slot: nat, f: Fields): (SessionDesc, Option<string>) {
    (SessionDesc(Ulong(Atoi(f.hi)), Ulong(Atoi(f.lo)), INVALID_HANDLE, slot),
     if f.extra == None then None else Password(f.extra.value))
  }

  function SlotOf(slotOfLabel: string -> Option<nat>, split: Split): Option<nat> {
    if split.named then slotOfLabel(split.slot) else Some(Ulong(Atoi(split.slot)))
  }

  /** What luna_parse_session_desc makes of its argument. */
  function SessionOf(slotOfLabel: string -> Option<nat>, arg: string): Option<(SessionDesc, Option<string>)> {
    match SplitSlot(arg)
    case None => None
    case Some(split) => match SlotOf(slotOfLabel, split)
      case None => None
      case Some(slot) => match SplitIds(split.rest)
        case None => None
        case Some(f) => Some(Described(slot, f))
  }

  /** Where luna_parse_password may get a password from: the text that each reader delivers, "" where
      it fails, and the environment. */
  datatype Sources = Sources(file: string -> string, environment: string -> Option<string>,
                             console: string -> string, dll: (string, string) -> string)

  /** The password of a descriptor: None when the engine is to refuse it, Some(None) for no password. */
  function PasswordFrom(sources: Sources, arg: string, text: string): Option<Option<string>> {
    if "passfile=" <= text then AtLeast4(sources.file(text[9..]))
    else if "passenv=" <= text then
      match sources.environment(text[8..])
      case None => None
      case Some(value) => Some(Password(value))
    else if "passdev=" <= text then
      if "passdev=console" <= text then AtLeast4(sources.console(arg)) else None
    else if "password=" <= text then Some(Password(text[9..]))
    else if "passdll=" <= text then AtLeast4(sources.dll(arg, text[8..]))
    else None
  }

  function AtLeast4(s: string): Option<Option<string>> {
    if |s| < 4 then None else Some(Password(s))
  }

  /** What luna_parse_password makes of its argument. */
  function PasswordOf(sources: Sources, arg: string): Option<Option<string>> {
    match SplitSlot(arg)
    case None => None
    case Some(split) => match SplitIds(split.rest)
      case None => None
      case Some(f) => if f.extra == None then Some(None) else PasswordFrom(sources, arg, f.extra.value)
  }

  /** Memory holds the C string text at position p. */
  ghost predicate Holds(memory: string, p: nat, text: string) {
    && p + |text| < |memory| && IsCString(text)
    && memory[p..p + |text|] == text && memory[p + |text|] == '\0'
  }

  /** A NUL written into a string makes two of it. */
  lemma CutInTwo(memory: string, p: nat, text: string, i: nat)
    requires Holds(memory, p, text) && i < |text|
    ensures Holds(memory[p + i := '\0'], p, text[..i]) && Holds(memory[p + i := '\0'], p + i + 1, text[i + 1..])
  {
    var m := memory[p + i := '\0'];
    assert forall k :: 0 <= k < |text| ==> text[k] == memory[p..p + |text|][k];
    assert m[p..p + i] == text[..i];
    assert m[p + i + 1..p + |text|] == text[i + 1..];
  }

  lemma Elsewhere(memory: string, p: nat, text: string, k: nat)
    requires Holds(memory, p, text) && k < |memory| && (k < p || p + |text| < k)
    ensures Holds(memory[k := '\0'], p, text)
  {
    assert memory[k := '\0'][p..p + |text|] == memory[p..p + |text|];
  }

  /** BUF_strdup of the argument */
  method Strdup(arg: string) returns (s0: array<char>)
    requires IsCString(arg)
    ensures fresh(s0) && s0[..] == arg + ['\0'] && Holds(s0[..], 0, arg)
  {
    s0 := new char[|arg| + 1](i requires 0 <= i => if i < |arg| then arg[i] else '\0');
    assert s0[..][0..|arg|] == arg;
  }

  /** The C string at position p. */
  method Load(s0: array<char>, p: nat, ghost text: string) returns (r: string)
    requires Holds(s0[..], p, text)
    ensures r == text
  {
    var n: nat := p;
    while s0[n] != '\0'
      invariant p <= n <= p + |text|
      invariant s0[p..n] == text[..n - p]
      decreases p + |text| - n
    {
      assert s0[n] == text[n - p];
      n := n + 1;
    }
    r := s0[p..n];
  }

  method Strchr(s0: array<char>, p: nat, c: char, ghost text: string) returns (r: Option<nat>)
    requires Holds(s0[..], p, text) && c != '\0'
    ensures r == match Find(text, c) case None => None case Some(i) => Some(p + i)
  {
    var n: nat := p;
    while s0[n] != '\0'
      invariant p <= n <= p + |text|
      invariant c !in text[..n - p]
      decreases p + |text| - n
    {
      assert s0[n] == text[n - p];
      if s0[n] == c {
        FindFirst(text, c, n - p);
        return Some(n);
      }
      n := n + 1;
    }
    r := None;
  }

  lemma {:induction false} FindFirst(s: string, c: char, i: nat)
    requires i < |s| && s[i] == c && c !in s[..i]
    ensures Find(s, c) == Some(i)
  {
    if i == 0 {
    } else {
      assert s[0] == s[..i][0];
      assert s[1..][..i - 1] == s[..i][1..];
      FindFirst(s[1..], c, i - 1);
    }
  }

  /** strstr of quote and colon */
  method Strstr(s0: array<char>, p: nat, q: char, ghost text: string) returns (r: Option<nat>)
    requires Holds(s0[..], p, text) && q != '\0'
    ensures r == match FindPair(text, q) case None => None case Some(i) => Some(p + i)
  {
    var n: nat := p;
    while s0[n] != '\0'
      invariant p <= n <= p + |text|
      invariant forall i :: 0 <= i < n - p ==> !PairAt(text, q, i)
      decreases p + |text| - n
    {
      assert s0[n] == text[n - p];
      assert s0[n + 1] == if n + 1 - p < |text| then text[n + 1 - p] else '\0';
      if s0[n] == q && s0[n + 1] == ':' {
        assert PairAt(text, q, n - p);
        return Some(n);
      }
      n := n + 1;
    }
    r := None;
  }

  /** Ends the string that contains position k. */
  method EndAt(s0: array<char>, k: nat)
    requires k < s0.Length
    modifies s0
    ensures s0[..] == old(s0[..])[k := '\0']
  {
    s0[k] := '\0';
  }

  /** Where a parser finds the slot field and what follows it in its copy of the argument. */
  datatype Place = Place(named: bool, slot: nat, rest: nat)

  /** The memory after the field in front of rest has been ended: a label by two NULs, a number by one. */
  function Ended(memory: string, at: Place): string
    requires at.rest <= |memory| && at.rest >= (if at.named then 2 else 1)
  {
    if at.named then memory[at.rest - 2 := '\0'][at.rest - 1 := '\0'] else memory[at.rest - 1 := '\0']
  }

  method End(s0: array<char>, at: Place)
    requires at.rest <= s0.Length && at.rest >= (if at.named then 2 else 1)
    modifies s0
    ensures s0[..] == Ended(old(s0[..]), at)
  {
    if at.named {
      s0[at.rest - 2] := '\0';
    }
    s0[at.rest - 1] := '\0';
  }

  /** What each parser does with the slot field: the place is the one that the text determines, memory
      is as before but for the NULs, and both parts are there as C strings. */
  ghost predicate Splits(before: string, memory: string, arg: string, r: Option<Place>) {
    match SplitSlot(arg)
    case None => r == None && memory == before
    case Some(split) =>
      && r.Some? && r.value == PlaceOf(arg, split)
      && r.value.rest <= |before| && memory == Ended(before, r.value)
      && IsSplit(memory, split, r.value.slot, r.value.rest)
  }

  function PlaceOf(arg: string, split: Split): Place {
    var slot := SkipSpace(arg) + (if split.named then 1 else 0);
    Place(split.named, slot, slot + |split.slot| + (if split.named then 2 else 1))
  }

  lemma FirstHeld(memory: string, p: nat, t: string)
    requires Holds(memory, p, t)
    ensures memory[p] == if t == "" then '\0' else t[0]
    ensures t != "" ==> Holds(memory, p + 1, t[1..])
  {
    if t != "" {
      TailHeld(memory, p, t, 1);
    }
  }

  /** The choice of quotes in luna_parse_slotid2. */
  method Slotid2Quote(s0: array<char>, sslot: nat, ghost t: string) returns (ptr: Option<nat>)
    requires Holds(s0[..], sslot, t)
    ensures ptr == match Closing(t) case None => None case Some(i) => Some(sslot + 1 + i)
  {
    FirstHeld(s0[..], sslot, t);
    ptr := None;
    if s0[sslot] == '"' {
      ptr := Strstr(s0, sslot + 1, '"', t[1..]);
    } else if s0[sslot] == '@' {
      ptr := Strstr(s0, sslot + 1, '@', t[1..]);
    } else if s0[sslot] == '#' {
      ptr := Strstr(s0, sslot + 1, '#', t[1..]);
    } else if s0[sslot] == '%' {
      ptr := Strstr(s0, sslot + 1, '%', t[1..]);
    } else if s0[sslot] == '^' {
      ptr := Strstr(s0, sslot + 1, '^', t[1..]);
    } else if s0[sslot] == '~' {
      ptr := Strstr(s0, sslot + 1, '~', t[1..]);
    }
  }

  /** luna_parse_slotid2 up to the end of the slot field. */
  method Slotid2Slot(s0: array<char>, ghost arg: string) returns (r: Option<Place>)
    requires Holds(s0[..], 0, arg)
    modifies s0
    ensures Splits(old(s0[..]), s0[..], arg, r)
  {
    var sslot: nat := 0;
    while s0[sslot] != '\0' && IsSpace(s0[sslot])
      invariant sslot <= SkipSpace(arg)
      decreases |arg| - sslot
    {
      assert s0[sslot] == arg[sslot];
      sslot := sslot + 1;
    }
    SpaceEaten(s0[..], arg, sslot);
    var ptr := Slotid2Quote(s0, sslot, arg[sslot..]);
    if ptr.Some? {
      var at := Place(true, sslot + 1, ptr.value + 2);
      EndsLabel(s0[..], arg, at);
      End(s0, at);
      return Some(at);
    }
    ptr := Strchr(s0, sslot, ':', arg[sslot..]);
    if ptr == None {
      return None;
    }
    var at := Place(false, sslot, ptr.value + 1);
    EndsNumber(s0[..], arg, at);
    End(s0, at);
    r := Some(at);
  }

  /** The choice of quotes in luna_parse_session_desc. */
  method DescQuote(s0: array<char>, sslot: nat, ghost t: string) returns (ptr: Option<nat>)
    requires Holds(s0[..], sslot, t)
    ensures ptr == match Closing(t) case None => None case Some(i) => Some(sslot + 1 + i)
  {
    FirstHeld(s0[..], sslot, t);
    ptr := None;
    if s0[sslot] == '"' {
      ptr := Strstr(s0, sslot + 1, '"', t[1..]);
    } else if s0[sslot] == '@' {
      ptr := Strstr(s0, sslot + 1, '@', t[1..]);
    } else if s0[sslot] == '#' {
      ptr := Strstr(s0, sslot + 1, '#', t[1..]);
    } else if s0[sslot] == '%' {
      ptr := Strstr(s0, sslot + 1, '%', t[1..]);
    } else if s0[sslot] == '^' {
      ptr := Strstr(s0, sslot + 1, '^', t[1..]);
    } else if s0[sslot] == '~' {
      ptr := Strstr(s0, sslot + 1, '~', t[1..]);
    }
  }

  /** luna_parse_session_desc up to the end of the slot field. */
  method DescSlot(s0: array<char>, ghost arg: string) returns (r: Option<Place>)
    requires Holds(s0[..], 0, arg)
    modifies s0
    ensures Splits(old(s0[..]), s0[..], arg, r)
  {
    var sslot: nat := 0;
    while s0[sslot] != '\0' && IsSpace(s0[sslot])
      invariant sslot <= SkipSpace(arg)
      decreases |arg| - sslot
    {
      assert s0[sslot] == arg[sslot];
      sslot := sslot + 1;
    }
    SpaceEaten(s0[..], arg, sslot);
    var ptr := DescQuote(s0, sslot, arg[sslot..]);
    if ptr.Some? {
      var at := Place(true, sslot + 1, ptr.value + 2);
      EndsLabel(s0[..], arg, at);
      End(s0, at);
      return Some(at);
    }
    ptr := Strchr(s0, sslot, ':', arg[sslot..]);
    if ptr == None {
      return None;
    }
    var at := Place(false, sslot, ptr.value + 1);
    EndsNumber(s0[..], arg, at);
    End(s0, at);
    r := Some(at);
  }

  /** The choice of quotes in luna_parse_password. */
  method PasswordQuote(s0: array<char>, sslot: nat, ghost t: string) returns (ptr: Option<nat>)
    requires Holds(s0[..], sslot, t)
    ensures ptr == match Closing(t) case None => None case Some(i) => Some(sslot + 1 + i)
  {
    FirstHeld(s0[..], sslot, t);
    ptr := None;
    if s0[sslot] == '"' {
      ptr := Strstr(s0, sslot + 1, '"', t[1..]);
    } else if s0[sslot] == '@' {
      ptr := Strstr(s0, sslot + 1, '@', t[1..]);
    } else if s0[sslot] == '#' {
      ptr := Strstr(s0, sslot + 1, '#', t[1..]);
    } else if s0[sslot] == '%' {
      ptr := Strstr(s0, sslot + 1, '%', t[1..]);
    } else if s0[sslot] == '^' {
      ptr := Strstr(s0, sslot + 1, '^', t[1..]);
    } else if s0[sslot] == '~' {
      ptr := Strstr(s0, sslot + 1, '~', t[1..]);
    }
  }

  /** luna_parse_password up to the end of the slot field. */
  method PasswordSlot(s0: array<char>, ghost arg: string) returns (r: Option<Place>)
    requires Holds(s0[..], 0, arg)
    modifies s0
    ensures Splits(old(s0[..]), s0[..], arg, r)
  {
    var sslot: nat := 0;
    while s0[sslot] != '\0' && IsSpace(s0[sslot])
      invariant sslot <= SkipSpace(arg)
      decreases |arg| - sslot
    {
      assert s0[sslot] == arg[sslot];
      sslot := sslot + 1;
    }
    SpaceEaten(s0[..], arg, sslot);
    var ptr := PasswordQuote(s0, sslot, arg[sslot..]);
    if ptr.Some? {
      var at := Place(true, sslot + 1, ptr.value + 2);
      EndsLabel(s0[..], arg, at);
      End(s0, at);
      return Some(at);
    }
    ptr := Strchr(s0, sslot, ':', arg[sslot..]);
    if ptr == None {
      return None;
    }
    var at := Place(false, sslot, ptr.value + 1);
    EndsNumber(s0[..], arg, at);
    End(s0, at);
    r := Some(at);
  }

  lemma SpaceEaten(memory: string, arg: string, sslot: nat)
    requires Holds(memory, 0, arg) && sslot <= SkipSpace(arg)
    requires memory[sslot] == '\0' || !IsSpace(memory[sslot])
    ensures sslot == SkipSpace(arg) && Holds(memory, sslot, arg[sslot..])
  {
    assert memory[sslot] == if sslot < |arg| then arg[sslot] else '\0';
    TailHeld(memory, 0, arg, sslot);
  }

  lemma EndsLabel(memory: string, arg: string, at: Place)
    requires Holds(memory, 0, arg)
    requires var sslot := SkipSpace(arg);
             at.named && at.slot == sslot + 1 && at.rest >= sslot + 3
             && Closing(arg[sslot..]) == Some(at.rest - sslot - 3)
    ensures at.rest <= |memory| && Splits(memory, Ended(memory, at), arg, Some(at))
  {
    var sslot := SkipSpace(arg);
    var t, i := arg[sslot..], at.rest - sslot - 3;
    TailHeld(memory, 0, arg, sslot);
    LabelEnded(memory, sslot, i, t, at);
    PlacesAgree(memory, arg, Split(true, t[1..][..i], t[1..][i + 1..][1..]), at);
  }

  lemma EndsNumber(memory: string, arg: string, at: Place)
    requires Holds(memory, 0, arg)
    requires var sslot := SkipSpace(arg);
             && !at.named && at.slot == sslot && at.rest >= sslot + 1
             && Closing(arg[sslot..]) == None && Find(arg[sslot..], ':') == Some(at.rest - sslot - 1)
    ensures at.rest <= |memory| && Splits(memory, Ended(memory, at), arg, Some(at))
  {
    var sslot := SkipSpace(arg);
    var t, i := arg[sslot..], at.rest - sslot - 1;
    TailHeld(memory, 0, arg, sslot);
    NumberEnded(memory, sslot, i, t, at);
    PlacesAgree(memory, arg, Split(false, t[..i], t[i + 1..]), at);
  }

  lemma NumberEnded(memory: string, sslot: nat, i: nat, t: string, at: Place)
    requires Holds(memory, sslot, t) && i < |t| && at == Place(false, sslot, sslot + i + 1)
    ensures at.rest <= |memory| && IsSplit(Ended(memory, at), Split(false, t[..i], t[i + 1..]), at.slot, at.rest)
  {
    CutInTwo(memory, sslot, t, i);
  }

  lemma PlacesAgree(memory: string, arg: string, split: Split, at: Place)
    requires SplitField(arg[SkipSpace(arg)..]) == Some(split) && at == PlaceOf(arg, split)
    requires at.rest <= |memory| && IsSplit(Ended(memory, at), split, at.slot, at.rest)
    ensures Splits(memory, Ended(memory, at), arg, Some(at))
  {
  }

  ghost predicate IsSplit(memory: string, split: Split, slot: nat, rest: nat) {
    Holds(memory, slot, split.slot) && Holds(memory, rest, split.rest)
  }

  lemma LabelEnded(memory: string, sslot: nat, i: nat, t: string, at: Place)
    requires Holds(memory, sslot, t) && i + 2 < |t| && at == Place(true, sslot + 1, sslot + i + 3)
    ensures at.rest <= |memory|
    ensures IsSplit(Ended(memory, at), Split(true, t[1..][..i], t[1..][i + 1..][1..]), at.slot, at.rest)
  {
    var body, ptr := t[1..], sslot + 1 + i;
    TailHeld(memory, sslot, t, 1);
    CutInTwo(memory, sslot + 1, body, i);
    var m := memory[ptr := '\0'];
    Elsewhere(m, sslot + 1, body[..i], ptr + 1);
    CutInTwo(m, ptr + 1, body[i + 1..], 0);
  }

  lemma TailHeld(memory: string, p: nat, text: string, i: nat)
    requires Holds(memory, p, text) && i <= |text|
    ensures Holds(memory, p + i, text[i..])
  {
    assert memory[p + i..p + |text|] == text[i..];
    assert forall k :: 0 <= k < |text[i..]| ==> text[i..][k] == text[k + i];
  }

  /** The second part of two of the parsers: ends the application ids with NULs. */
  method IdsInPlace(s0: array<char>, hi: nat, ghost rest: string) returns (found: bool, lo: nat, extra: Option<nat>)
    requires Holds(s0[..], hi, rest)
    modifies s0
    ensures found == SplitIds(rest).Some?
    ensures found ==> AreFields(s0[..], SplitIds(rest).value, hi, lo, extra)
  {
    var ptr: Option<nat>;
    ghost var hiText, loText;
    ptr, hiText, loText := EndField(s0, hi, rest);
    if ptr == None {
      return false, 0, None;
    }
    lo := ptr.value;
    extra := EndLo(s0, hi, hiText, lo, loText);
    found := true;
  }

  /** The second colon of the ids, which need not be there. */
  method EndLo(s0: array<char>, ghost hi: nat, ghost hiText: string, lo: nat, ghost loText: string)
    returns (extra: Option<nat>)
    requires Holds(s0[..], hi, hiText) && Holds(s0[..], lo, loText) && hi + |hiText| < lo
    modifies s0
    ensures AreFields(s0[..], FieldsOf(hiText, loText), hi, lo, extra)
  {
    ghost var front, back;
    ghost var m := s0[..];
    extra, front, back := EndField(s0, lo, loText);
    if extra.Some? {
      Elsewhere(m, hi, hiText, extra.value - 1);
    }
  }

  /** strchr for a colon, which becomes a NUL: the field at p ends there, the next one begins behind it. */
  method EndField(s0: array<char>, p: nat, ghost text: string)
    returns (next: Option<nat>, ghost front: string, ghost back: string)
    requires Holds(s0[..], p, text)
    modifies s0
    ensures match Find(text, ':')
            case None => next == None && s0[..] == old(s0[..])
            case Some(i) => (front == text[..i] && back == text[i + 1..] && next == Some(p + |front| + 1)
                             && p + |front| < s0.Length && s0[..] == old(s0[..])[p + |front| := '\0']
                             && Holds(s0[..], p, front) && Holds(s0[..], p + |front| + 1, back))
  {
    ghost var m := s0[..];
    front, back := "", "";
    next := Strchr(s0, p, ':', text);
    if next.Some? {
      front, back := text[..next.value - p], text[next.value - p + 1..];
      CutInTwo(m, p, text, next.value - p);
      EndAt(s0, next.value);
      next := Some(next.value + 1);
    }
  }

  ghost predicate AreFields(memory: string, f: Fields, hi: nat, lo: nat, extra: Option<nat>) {
    && Holds(memory, hi, f.hi) && Holds(memory, lo, f.lo)
    && extra.Some? == f.extra.Some?
    && (extra.Some? ==> Holds(memory, extra.value, f.extra.value))
  }

  /** luna_parse_slotid2: the slot field and whether it is a label. */
  method ParseSlotid2(arg: string) returns (r: Option<(string, bool)>)
    requires IsCString(arg)
    ensures r == match SplitSlot(arg) case None => None case Some(split) => Some((split.slot, split.named))
  {
    var s0 := Strdup(arg);
    var at := Slotid2Slot(s0, arg);
    if at == None {
      return None;
    }
    var text := Load(s0, at.value.slot, SplitSlot(arg).value.slot);
    r := Some((text, at.value.named));
  }

  /** luna_parse_session_desc; slotOfLabel is luna_label_to_slotid. */
  method ParseSessionDesc(slotOfLabel: string -> Option<nat>, arg: string)
    returns (r: Option<(SessionDesc, Option<string>)>)
    requires IsCString(arg)
    ensures r == SessionOf(slotOfLabel, arg)
  {
    var s0 := Strdup(arg);
    var at := DescSlot(s0, arg);
    if at == None {
      return None;
    }
    var slot := ResolveSlot(slotOfLabel, s0, at.value, SplitSlot(arg).value);
    if slot == None {
      return None;
    }
    r := DescribeRest(s0, at.value.rest, slot.value, SplitSlot(arg).value.rest);
  }

  method ResolveSlot(slotOfLabel: string -> Option<nat>, s0: array<char>, at: Place, ghost split: Split)
    returns (slot: Option<nat>)
    requires Holds(s0[..], at.slot, split.slot) && at.named == split.named
    ensures slot == SlotOf(slotOfLabel, split)
  {
    var text := Load(s0, at.slot, split.slot);
    slot := if at.named then slotOfLabel(text) else Some(Ulong(Atoi(text)));
  }

  method DescribeRest(s0: array<char>, hi: nat, slot: nat, ghost rest: string)
    returns (r: Option<(SessionDesc, Option<string>)>)
    requires Holds(s0[..], hi, rest)
    modifies s0
    ensures r == match SplitIds(rest) case None => None case Some(f) => Some(Described(slot, f))
  {
    var ids, lo, spwd := IdsInPlace(s0, hi, rest);
    if !ids {
      return None;
    }
    var desc := Describe(s0, hi, lo, spwd, slot, SplitIds(rest).value);
    r := Some(desc);
  }

  method Describe(s0: array<char>, hi: nat, lo: nat, spwd: Option<nat>, slot: nat, ghost f: Fields)
    returns (r: (SessionDesc, Option<string>))
    requires AreFields(s0[..], f, hi, lo, spwd)
    ensures r == Described(slot, f)
  {
    var password: Option<string> := None;
    if spwd.Some? {
      var given := Load(s0, spwd.value, f.extra.value);
      if |given| > 0 && given != "NULL" {
        password := Some(given);
      }
    }
    var hiText := Load(s0, hi, f.hi);
    var loText := Load(s0, lo, f.lo);
    r := (SessionDesc(Ulong(Atoi(hiText)), Ulong(Atoi(loText)), INVALID_HANDLE, slot), password);
  }

  /** luna_parse_password */
  method ParsePassword(sources: Sources, arg: string) returns (r: Option<Option<string>>)
    requires IsCString(arg)
    ensures r == PasswordOf(sources, arg)
  {
    var s0 := Strdup(arg);
    var at := PasswordSlot(s0, arg);
    if at == None {
      return None;
    }
    r := PasswordOfRest(sources, arg, s0, at.value.rest, SplitSlot(arg).value.rest);
  }

  method PasswordOfRest(sources: Sources, arg: string, s0: array<char>, hi: nat, ghost rest: string)
    returns (r: Option<Option<string>>)
    requires Holds(s0[..], hi, rest)
    modifies s0
    ensures r == match SplitIds(rest)
                 case None => None
                 case Some(f) => if f.extra == None then Some(None) else PasswordFrom(sources, arg, f.extra.value)
  {
    var ids, lo, spwd := IdsInPlace(s0, hi, rest);
    if !ids {
      return None;
    }
    if spwd == None {
      return Some(None);
    }
    var text := Load(s0, spwd.value, SplitIds(rest).value.extra.value);
    r := GatherPassword(sources, arg, text);
  }

  /** The chain of keywords in luna_parse_password. */
  method GatherPassword(sources: Sources, arg: string, spwd: string) returns (r: Option<Option<string>>)
    ensures r == PasswordFrom(sources, arg, spwd)
  {
    var buf: string;
    if "passfile=" <= spwd {
      buf := sources.file(spwd[9..]);
      if |buf| < 4 {
        return None;
      }
    } else if "passenv=" <= spwd {
      var envvar := sources.environment(spwd[8..]);
      if envvar == None {
        return None;
      }
      buf := envvar.value;
    } else if "passdev=" <= spwd {
      if !("passdev=console" <= spwd) {
        return None;
      }
      buf := sources.console(arg);
      if |buf| < 4 {
        return None;
      }
    } else if "password=" <= spwd {
      buf := spwd[9..];
    } else if "passdll=" <= spwd {
      buf := sources.dll(arg, spwd[8..]);
      if |buf| < 4 {
        return None;
      }
    } else {
      return None;
    }
    r := if |buf| > 0 && buf != "NULL" then Some(Some(buf)) else Some(None);
  }

  /** How a slot is named in a descriptor. */
  datatype SlotName = Number(n: nat) | Label(text: string, quote: char)

  /** The largest int, up to which atoi is defined. */
  const INT_MAX := 0x7FFF_FFFF

  function PrintedSlot(slot: SlotName): string {
    match slot
    case Number(n) => Digits(n)
    case Label(text, quote) => [quote] + text + [quote]
  }

  function PrintedFields(f: Fields): string {
    match f.extra
    case None => f.hi + ":" + f.lo
    case Some(text) => f.hi + ":" + (f.lo + ":" + text)
  }

  function PrintedIds(hi: nat, lo: nat, extra: Option<string>): string {
    PrintedFields(Fields(Digits(hi), Digits(lo), extra))
  }

  function Printed(slot: SlotName, hi: nat, lo: nat, extra: Option<string>): string {
    PrintedSlot(slot) + ":" + PrintedIds(hi, lo, extra)
  }

  /** Space, form feed, line feed, carriage return and both tabs. */
  const SPACES := [' ', FORM_FEED, '\n', '\r', '\t', VERTICAL_TAB]

  /** The quotes that may enclose a label. */
  const QUOTES := ['"', '@', '#', '%', '^', '~']

  predicate AllSpace(s: string) {
    forall i :: 0 <= i < |s| ==> s[i] in SPACES
  }

  ghost predicate NoPair(s: string, q: char) {
    forall i :: 0 <= i ==> !PairAt(s, q, i)
  }

  /** A descriptor that names its slot in a way that the parsers understand. */
  ghost predicate Printable(slot: SlotName) {
    match slot
    case Number(n) => n <= INT_MAX
    case Label(text, quote) => quote in QUOTES && NoPair(text, quote)
  }

  lemma SkipsLead(lead: string, s: string)
    requires AllSpace(lead) && (s != "" ==> s[0] !in SPACES)
    ensures (lead + s)[SkipSpace(lead + s)..] == s
  {
    var all := lead + s;
    assert forall i :: 0 <= i < |lead| ==> IsSpace(all[i]);
    assert s != "" ==> all[|lead|] == s[0];
    assert SkipSpace(all) == |lead|;
  }

  lemma FindsColon(field: string, rest: string)
    requires ':' !in field
    ensures var s := field + ":" + rest;
            Find(s, ':') == Some(|field|) && s[..|field|] == field && s[|field| + 1..] == rest
  {
    var s := field + ":" + rest;
    assert s[..|field|] == field;
    FindFirst(s, ':', |field|);
  }

  lemma FindsPair(text: string, q: char, rest: string)
    requires q in QUOTES
    ensures FindPair(text + [q] + ":" + rest, q) == Some(|text|) <==> NoPair(text, q)
  {
    var s := text + [q] + ":" + rest;
    assert PairAt(s, q, |text|);
    assert forall i :: 0 <= i < |text| ==> (PairAt(s, q, i) <==> PairAt(text, q, i));
  }

  /** Behind white space, a quoted slot field is recovered exactly when its label does not contain its
      closing quote followed by a colon. */
  lemma LabelSplits(lead: string, text: string, q: char, rest: string)
    requires AllSpace(lead) && q in QUOTES
    ensures SplitSlot(lead + ([q] + text + [q] + ":" + rest)) == Some(Split(true, text, rest)) <==> NoPair(text, q)
  {
    var t := [q] + text + [q] + ":" + rest;
    SkipsLead(lead, t);
    FindsPair(text, q, rest);
    var body := t[1..];
    assert body == text + [q] + ":" + rest;
    assert PairAt(body, q, |text|);
    var i := Closing(t).value;
    if i == |text| {
      assert body[..i] == text && body[i + 1..][1..] == rest;
    } else {
      assert |body[..i]| != |text|;
    }
  }

  lemma NumberSplits(lead: string, n: nat, rest: string)
    requires AllSpace(lead)
    ensures SplitSlot(lead + (Digits(n) + ":" + rest)) == Some(Split(false, Digits(n), rest))
  {
    SkipsLead(lead, Digits(n) + ":" + rest);
    NumberField(Digits(n), rest);
  }

  lemma NumberField(digits: string, rest: string)
    requires digits != "" && AllDigits(digits)
    ensures SplitField(digits + ":" + rest) == Some(Split(false, digits, rest))
  {
    FindsColon(digits, rest);
    assert Closing(digits + ":" + rest) == None;
  }

  lemma FieldsSplit(f: Fields)
    requires ':' !in f.hi && ':' !in f.lo
    ensures SplitIds(PrintedFields(f)) == Some(f)
  {
    match f.extra {
      case None =>
        FindsColon(f.hi, f.lo);
        assert Find(f.lo, ':') == None;
      case Some(text) =>
        FindsColon(f.hi, f.lo + ":" + text);
        FindsColon(f.lo, text);
    }
  }

  lemma AtoiOfDigits(n: nat)
    ensures Atoi(Digits(n)) == n
  {
    var s := Digits(n);
    assert IsDigit(s[0]) && s[0] != '-' && s[0] != '+';
    assert SkipSpace(s) == 0 && s[0..] == s;
    var run := DigitRun(s);
    assert |run| == |s|;
    assert run == s;
    ValueOfDigits(n);
  }

  /** atoi on white space, a sign and digits, whatever stands behind them. */
  lemma AtoiOfSigned(lead: string, sign: string, n: nat, rest: string)
    requires AllSpace(lead) && sign in {"", "+", "-"} && (rest != "" ==> !IsDigit(rest[0]))
    ensures Atoi(lead + (sign + (Digits(n) + rest))) == if sign == "-" then -(n as int) else n
  {
    var digits := Digits(n) + rest;
    RunOfDigits(n, rest);
    ValueOfDigits(n);
    SignFirst(sign, digits);
    AtoiBehind(lead, sign + digits);
  }

  lemma SignFirst(sign: string, digits: string)
    requires sign in {"", "+", "-"} && digits != "" && IsDigit(digits[0])
    ensures var t := sign + digits;
            && t != "" && t[0] !in SPACES
            && (sign == "-" <==> t[0] == '-') && (sign == "+" <==> t[0] == '+')
            && (if sign == "" then t else t[1..]) == digits
  {
  }

  lemma AtoiBehind(lead: string, t: string)
    requires AllSpace(lead) && t != "" && t[0] !in SPACES
    ensures Atoi(lead + t) == if t[0] == '-' then -(ValueOf(DigitRun(t[1..])) as int)
                              else if t[0] == '+' then ValueOf(DigitRun(t[1..])) else ValueOf(DigitRun(t))
  {
    SkipsLead(lead, t);
  }

  /** Without digits it is zero. */
  lemma AtoiOfNone(lead: string, rest: string)
    requires AllSpace(lead) && (rest != "" ==> rest[0] !in SPACES && !IsDigit(rest[0]) && rest[0] !in "+-")
    ensures Atoi(lead + rest) == 0
  {
    SkipsLead(lead, rest);
    assert DigitRun(rest) == "";
  }

  lemma RunOfDigits(n: nat, rest: string)
    requires rest != "" ==> !IsDigit(rest[0])
    ensures DigitRun(Digits(n) + rest) == Digits(n)
  {
    var s, run := Digits(n) + rest, DigitRun(Digits(n) + rest);
    assert forall i :: 0 <= i < |Digits(n)| ==> IsDigit(s[i]);
    assert rest != "" ==> s[|Digits(n)|] == rest[0];
    assert |run| == |Digits(n)| && run == s[..|run|];
  }

  /** A negative number becomes a CK_ULONG by adding 2^64. */
  lemma UlongOfNegative(n: nat)
    requires 0 < n <= 0x8000_0000
    ensures Ulong(-(n as int)) == 0x1_0000_0000_0000_0000 - n
  {
  }

  lemma PrintedSplits(lead: string, slot: SlotName, hi: nat, lo: nat, extra: Option<string>)
    requires AllSpace(lead) && Printable(slot)
    ensures var text := if slot.Label? then slot.text else Digits(slot.n);
            SplitSlot(lead + Printed(slot, hi, lo, extra)) == Some(Split(slot.Label?, text, PrintedIds(hi, lo, extra)))
    ensures SplitIds(PrintedIds(hi, lo, extra)) == Some(Fields(Digits(hi), Digits(lo), extra))
  {
    var rest := PrintedIds(hi, lo, extra);
    match slot {
      case Number(n) =>
        NumberSplits(lead, n, rest);
      case Label(text, quote) =>
        LabelSplits(lead, text, quote, rest);
        assert Printed(slot, hi, lo, extra) == [quote] + text + [quote] + ":" + rest;
    }
    FieldsSplit(Fields(Digits(hi), Digits(lo), extra));
  }

  /** Every field of a printed descriptor is recovered; a label must be the label of some slot. */
  lemma RoundTrip(slotOfLabel: string -> Option<nat>, lead: string,
                    slot: SlotName, hi: nat, lo: nat, extra: Option<string>)
    requires AllSpace(lead) && Printable(slot) && hi <= INT_MAX && lo <= INT_MAX
    ensures SessionOf(slotOfLabel, lead + Printed(slot, hi, lo, extra))
         == match (if slot.Label? then slotOfLabel(slot.text) else Some(slot.n))
            case None => None
            case Some(n) => Some((SessionDesc(hi, lo, INVALID_HANDLE, n),
                                      if extra == None then None else Password(extra.value)))
  {
    var arg, rest, f := lead + Printed(slot, hi, lo, extra), PrintedIds(hi, lo, extra),
                           Fields(Digits(hi), Digits(lo), extra);
    var split := Split(slot.Label?, if slot.Label? then slot.text else Digits(slot.n), rest);
    PrintedSplits(lead, slot, hi, lo, extra);
    SlotPrinted(slotOfLabel, slot, rest);
    FromParts(slotOfLabel, arg, split, f, hi, lo);
  }

  lemma FromParts(slotOfLabel: string -> Option<nat>, arg: string, split: Split, f: Fields, hi: nat, lo: nat)
    requires SplitSlot(arg) == Some(split) && SplitIds(split.rest) == Some(f)
    requires hi <= INT_MAX && lo <= INT_MAX && f.hi == Digits(hi) && f.lo == Digits(lo)
    ensures SessionOf(slotOfLabel, arg)
         == match SlotOf(slotOfLabel, split)
            case None => None
            case Some(n) => Some((SessionDesc(hi, lo, INVALID_HANDLE, n),
                                      if f.extra == None then None else Password(f.extra.value)))
  {
    match SlotOf(slotOfLabel, split) {
      case None =>
      case Some(n) => DescribesIds(n, f, hi, lo);
    }
  }

  lemma DescribesIds(slot: nat, f: Fields, hi: nat, lo: nat)
    requires hi <= INT_MAX && lo <= INT_MAX && f.hi == Digits(hi) && f.lo == Digits(lo)
    ensures Described(slot, f)
         == (SessionDesc(hi, lo, INVALID_HANDLE, slot), if f.extra == None then None else Password(f.extra.value))
  {
    UlongOfDigits(hi);
    UlongOfDigits(lo);
  }

  lemma UlongOfDigits(n: nat)
    requires n <= INT_MAX
    ensures Ulong(Atoi(Digits(n))) == n
  {
    AtoiOfDigits(n);
  }

  lemma SlotPrinted(slotOfLabel: string -> Option<nat>, slot: SlotName, rest: string)
    requires Printable(slot)
    ensures SlotOf(slotOfLabel, Split(slot.Label?, if slot.Label? then slot.text else Digits(slot.n), rest))
         == if slot.Label? then slotOfLabel(slot.text) else Some(slot.n)
  {
    if slot.Number? {
      UlongOfDigits(slot.n);
    }
  }

  lemma PasswordFromPrinted(sources: Sources, lead: string, slot: SlotName, hi: nat, lo: nat, extra: Option<string>)
    requires AllSpace(lead) && Printable(slot)
    ensures var arg := lead + Printed(slot, hi, lo, extra);
            PasswordOf(sources, arg) == if extra == None then Some(None) else PasswordFrom(sources, arg, extra.value)
  {
    PrintedSplits(lead, slot, hi, lo, extra);
  }

  /** luna_parse_password recovers the password from a printed descriptor, and refuses a descriptor
      whose password does not say where it comes from. */
  lemma PasswordRoundTrip(sources: Sources, lead: string, slot: SlotName, hi: nat, lo: nat, password: string)
    requires AllSpace(lead) && Printable(slot)
    ensures PasswordOf(sources, lead + Printed(slot, hi, lo, Some("password=" + password))) == Some(Password(password))
    ensures PasswordOf(sources, lead + Printed(slot, hi, lo, None)) == Some(None)
    ensures '=' !in password ==> PasswordOf(sources, lead + Printed(slot, hi, lo, Some(password))) == None
  {
    PasswordFromPrinted(sources, lead, slot, hi, lo, Some("password=" + password));
    PasswordFromPrinted(sources, lead, slot, hi, lo, None);
    PasswordFromPrinted(sources, lead, slot, hi, lo, Some(password));
    KeywordFirst(sources, password);
  }

  /** What a password text stands for: none, or itself. */
  predicate StandsFor(text: string, password: Option<string>) {
    if text == "" || text == "NULL" then password == None else password == Some(text)
  }

  /** Where the password of a descriptor comes from: a file, the environment, the console or a library, by
      the keyword in front of it; at least four characters are wanted from all but the environment. */
  lemma PasswordSources(sources: Sources, lead: string, slot: SlotName, hi: nat, lo: nat, name: string)
    requires AllSpace(lead) && Printable(slot)
    ensures var arg := lead + Printed(slot, hi, lo, Some("passfile=" + name));
            ReadAs(sources.file(name), PasswordOf(sources, arg))
    ensures var arg := lead + Printed(slot, hi, lo, Some("passdll=" + name));
            ReadAs(sources.dll(arg, name), PasswordOf(sources, arg))
    ensures var arg := lead + Printed(slot, hi, lo, Some("passdev=console" + name));
            ReadAs(sources.console(arg), PasswordOf(sources, arg))
    ensures var arg := lead + Printed(slot, hi, lo, Some("passdev=" + name));
            !("console" <= name) ==> PasswordOf(sources, arg) == None
    ensures var arg := lead + Printed(slot, hi, lo, Some("passenv=" + name));
            match sources.environment(name)
            case None => PasswordOf(sources, arg) == None
            case Some(text) => PasswordOf(sources, arg).Some? && StandsFor(text, PasswordOf(sources, arg).value)
  {
    PasswordFromPrinted(sources, lead, slot, hi, lo, Some("passfile=" + name));
    PasswordFromPrinted(sources, lead, slot, hi, lo, Some("passdll=" + name));
    PasswordFromPrinted(sources, lead, slot, hi, lo, Some("passdev=console" + name));
    PasswordFromPrinted(sources, lead, slot, hi, lo, Some("passdev=" + name));
    PasswordFromPrinted(sources, lead, slot, hi, lo, Some("passenv=" + name));
    FromKeyword(sources, name);
  }

  /** The password that was read, or a refusal of one that is too short. */
  predicate ReadAs(text: string, r: Option<Option<string>>) {
    if |text| < 4 then r == None else r.Some? && StandsFor(text, r.value)
  }

  lemma FromKeyword(sources: Sources, name: string)
    ensures forall arg :: ReadAs(sources.file(name), PasswordFrom(sources, arg, "passfile=" + name))
    ensures forall arg :: ReadAs(sources.dll(arg, name), PasswordFrom(sources, arg, "passdll=" + name))
    ensures forall arg :: ReadAs(sources.console(arg), PasswordFrom(sources, arg, "passdev=console" + name))
    ensures forall arg :: !("console" <= name) ==> PasswordFrom(sources, arg, "passdev=" + name) == None
    ensures forall arg :: match sources.environment(name)
                          case None => PasswordFrom(sources, arg, "passenv=" + name) == None
                          case Some(text) =>
                            && PasswordFrom(sources, arg, "passenv=" + name).Some?
                            && StandsFor(text, PasswordFrom(sources, arg, "passenv=" + name).value)
  {
    var file, dll, console := "passfile=" + name, "passdll=" + name, "passdev=console" + name;
    var device, environment := "passdev=" + name, "passenv=" + name;
    assert file[9..] == name && dll[8..] == name && environment[8..] == name;
    assert dll[4] == 'd' && dll[5] == 'l' && console[5] == 'e' && device[5] == 'e' && environment[4] == 'e';
    assert "passfile="[4] == 'f' && "passenv="[4] == 'e' && "passdev="[5] == 'e' && "password="[4] == 'w';
    assert "passdev=console" <= device ==> "console" <= name by {
      assert device[8..] == name;
      assert "passdev=console"[8..] == "console";
    }
  }

  lemma KeywordFirst(sources: Sources, password: string)
    ensures forall arg :: PasswordFrom(sources, arg, "password=" + password) == Some(Password(password))
    ensures '=' !in password ==> forall arg :: PasswordFrom(sources, arg, password) == None
  {
    var s := "password=" + password;
    assert s[9..] == password && s[4] == 'w';
    assert forall k: string :: k <= password ==> forall i :: 0 <= i < |k| ==> k[i] in password;
    assert "passfile="[4] == 'f' && "passenv="[4] == 'e' && "passdev="[4] == 'd' && "passdll="[4] == 'd';
    assert "passfile="[8] == '=' && "passenv="[7] == '=' && "passdev="[7] == '='
           && "passdll="[7] == '=' && "password="[8] == '=';
  }

  /** The first parts of the three parsers, each on its own copy of the argument: they find or miss the
      slot field together, at the same place, and leave the same memory. */
  method SplitThreeTimes(arg: string) returns (r1: Option<Place>, r2: Option<Place>, r3: Option<Place>, same: bool)
    requires IsCString(arg)
    ensures r1 == r2 == r3 && same
    ensures r1 == match SplitSlot(arg) case None => None case Some(split) => Some(PlaceOf(arg, split))
  {
    var one := Strdup(arg);
    var two := Strdup(arg);
    var three := Strdup(arg);
    r1 := Slotid2Slot(one, arg);
    r2 := DescSlot(two, arg);
    r3 := PasswordSlot(three, arg);
    same := one[..] == two[..] && two[..] == three[..];
  }

  predicate HasPassword(arg: string) {
    match SplitSlot(arg)
    case None => false
    case Some(split) => match SplitIds(split.rest)
      case None => false
      case Some(f) => f.extra.Some?
  }

  /** The three parsers on one string. What the session or the password parser accepts has a slot field
      for all three; the session parser resolves the very field that luna_parse_slotid2 yields; where the
      password parser accepts, the session parser fails only for want of the label; and where only the
      session parser accepts, there is a password field. */
  method ParseThreeWays(slotOfLabel: string -> Option<nat>, sources: Sources, arg: string)
    returns (id: Option<(string, bool)>, desc: Option<(SessionDesc, Option<string>)>, password: Option<Option<string>>)
    requires IsCString(arg)
    ensures desc.Some? || password.Some? ==> id.Some?
    ensures desc.Some? ==>
              Some(desc.value.0.slot) == if id.value.1 then slotOfLabel(id.value.0) else Some(Ulong(Atoi(id.value.0)))
    ensures password.Some? ==> (desc == None <==> id.value.1 && slotOfLabel(id.value.0) == None)
    ensures desc.Some? && password == None ==> HasPassword(arg)
  {
    id := ParseSlotid2(arg);
    desc := ParseSessionDesc(slotOfLabel, arg);
    password := ParsePassword(sources, arg);
  }
}
