/** The caches of object handles in the extension data of RSA, DSA and EC keys. */
module KeyHandleCache {
  import opened Cryptoki

  datatype Family = Rsa | Dsa | Ecdsa

  /** One of the extension index variables of g_luna_per_slot. */
  datatype Name = Name(family: Family, slot: nat, private: bool)

  /** The address of a key object of OpenSSL, which one key after the other may have. */
  type Key = nat

  datatype Owner = Owner(family: Family, key: Key)

  datatype Entry = Entry(family: Family, key: Key, index: nat)

  datatype Counters = Counters(rsa: nat, dsa: nat, ecdsa: nat) {
    function At(f: Family): nat {
      match f
      case Rsa => rsa
      case Dsa => dsa
      case Ecdsa => ecdsa
    }

    function Next(f: Family): Counters {
      match f
      case Rsa => Counters(rsa + 1, dsa, ecdsa)
      case Dsa => Counters(rsa, dsa + 1, ecdsa)
      case Ecdsa => Counters(rsa, dsa, ecdsa + 1)
    }
  }

  /** index holds the variables that are not -1; data and next belong to OpenSSL: the extension data
      of all keys, and how many indices of each family have been given out. lives is history: how many
      keys at an address have been freed. */
  datatype Handles = Handles(running: bool, generation: nat, index: map<Name, nat>, data: map<Entry, Handle>,
                             next: Counters, lives: map<Owner, nat>)

  const NOTHING := Handles(false, 0, map[], map[], Counters(0, 0, 0), map[])

  /** Which of the keys that have had an address has it now. */
  function Life(s: Handles, f: Family, key: Key): nat {
    if Owner(f, key) in s.lives then s.lives[Owner(f, key)] else 0
  }

  /** Which families are cached, and which requests for an index OpenSSL grants. */
  datatype Grants = Grants(enabled: Family -> bool, granted: Name -> bool)

  function Register(s: Handles, name: Name, g: Grants): Handles {
    if !g.enabled(name.family) then s
    else if !g.granted(name) then s.(index := s.index - {name})
    else s.(index := s.index[name := s.next.At(name.family)], next := s.next.Next(name.family))
  }

  /** The four variables of each family, in the order in which they get their indices. */
  const NAMES := [
    Name(Rsa, 0, true), Name(Rsa, 0, false), Name(Rsa, 1, true), Name(Rsa, 1, false),
    Name(Dsa, 0, true), Name(Dsa, 0, false), Name(Dsa, 1, true), Name(Dsa, 1, false),
    Name(Ecdsa, 0, true), Name(Ecdsa, 0, false), Name(Ecdsa, 1, true), Name(Ecdsa, 1, false)
  ]

  /** The first n of the variables are registered. */
  function RegisterUpTo(s: Handles, n: nat, g: Grants): Handles
    requires n <= |NAMES|
  {
    if n == 0 then s else Register(RegisterUpTo(s, n - 1, g), NAMES[n - 1], g)
  }

  /** The part of luna_init_p11_deferred that follows C_Initialize; completed tells whether the
      engine commands and the deferred login succeed. */
  function Init(s: Handles, g: Grants, completed: bool): Handles {
    var r := RegisterUpTo(s, |NAMES|, g);
    r.(running := completed, generation := r.generation + 1)
  }

  /** luna_fini_p11. */
  function Fini(s: Handles): Handles {
    s.(running := false, index := map[])
  }

  /** What a lookup finds in the extension data. */
  function Cached(s: Handles, name: Name, key: Key): Option<Handle> {
    if name in s.index && Entry(name.family, key, s.index[name]) in s.data
    then Some(s.data[Entry(name.family, key, s.index[name])]) else None
  }

  /** A handle goes into the extension data unless it is invalid or OpenSSL has no room. */
  function Store(s: Handles, name: Name, key: Key, h: Handle, room: bool): Handles {
    if name in s.index && h != INVALID_HANDLE && room
    then s.(data := s.data[Entry(name.family, key, s.index[name]) := h]) else s
  }

  /** luna_find_*_handle_FAST: the handle and the caches afterwards; found is what the full search
      would answer. */
  function FindFast(s: Handles, name: Name, key: Key, found: Handle, room: bool): (Handle, Handles) {
    match Cached(s, name, key)
    case Some(h) => (h, s)
    case None => (found, Store(s, name, key, found, room))
  }

  function StoreIfNone(s: Handles, name: Name, key: Key, h: Handle, room: bool): Handles {
    if Cached(s, name, key) == None then Store(s, name, key, h, room) else s
  }

  /** luna_cache_rsa_handle: handles already there stay. */
  function CacheRsa(s: Handles, slot: nat, key: Key, private: Handle, public: Handle, room: bool): Handles {
    StoreIfNone(StoreIfNone(s, Name(Rsa, slot, true), key, private, room), Name(Rsa, slot, false), key, public, room)
  }

  /** luna_cache_ecdsa_handle: handles already there are overwritten. */
  function CacheEcdsa(s: Handles, slot: nat, key: Key, public: Handle, private: Handle, room: bool): Handles {
    Store(Store(s, Name(Ecdsa, slot, false), key, public, room), Name(Ecdsa, slot, true), key, private, room)
  }

  /** OpenSSL frees a key and its extension data; the next key at its address is another one. */
  function FreeKey(s: Handles, f: Family, key: Key): Handles {
    s.(data := map e | e in s.data && !(e.family == f && e.key == key) :: s.data[e],
       lives := s.lives[Owner(f, key) := Life(s, f, key) + 1])
  }

  /** g_luna_per_slot with OpenSSL's extension data. */
  class KeyHandles {
    var running: bool
    var generation: nat
    var index: map<Name, nat>
    var data: map<Entry, Handle>
    var next: Counters
    ghost var lives: map<Owner, nat>

    ghost function Value(): Handles
      reads this
    {
      Handles(running, generation, index, data, next, lives)
    }

    constructor ()
      ensures Value() == NOTHING
    {
      running, generation, index, data, next, lives := false, 0, map[], map[], Counters(0, 0, 0), map[];
    }

    method RegisterOne(name: Name, g: Grants)
      modifies this
      ensures Value() == Register(old(Value()), name, g)
    {
      if g.enabled(name.family) {
        if g.granted(name) {
          index := index[name := next.At(name.family)];
          next := next.Next(name.family);
        } else {
          index := index - {name};
        }
      }
    }

    method RegisterSlots(n: nat, f: Family, g: Grants, ghost s: Handles)
      requires n + 4 <= |NAMES|
      requires NAMES[n] == Name(f, 0, true) && NAMES[n + 1] == Name(f, 0, false)
      requires NAMES[n + 2] == Name(f, 1, true) && NAMES[n + 3] == Name(f, 1, false)
      requires Value() == RegisterUpTo(s, n, g)
      modifies this
      ensures Value() == RegisterUpTo(s, n + 4, g)
    {
      RegisterOne(Name(f, 0, true), g);
      assert Value() == RegisterUpTo(s, n + 1, g);
      RegisterOne(Name(f, 0, false), g);
      assert Value() == RegisterUpTo(s, n + 2, g);
      RegisterOne(Name(f, 1, true), g);
      assert Value() == RegisterUpTo(s, n + 3, g);
      RegisterOne(Name(f, 1, false), g);
    }

    method RegisterAll(g: Grants)
      modifies this
      ensures Value() == RegisterUpTo(old(Value()), |NAMES|, g)
    {
      ghost var s := Value();
      assert RegisterUpTo(s, 0, g) == s;
      RegisterSlots(0, Rsa, g, s);
      RegisterSlots(4, Dsa, g, s);
      RegisterSlots(8, Ecdsa, g, s);
    }

    method InitP11(g: Grants, completed: bool)
      modifies this
      ensures Value() == Init(old(Value()), g, completed)
    {
      RegisterAll(g);
      generation := generation + 1;
      running := completed;
    }

    method FiniP11()
      modifies this
      ensures Value() == Fini(old(Value()))
    {
      running := false;
      index := map[];
    }

    method Get(name: Name, key: Key) returns (h: Handle)
      ensures h == if Cached(Value(), name, key).Some? then Cached(Value(), name, key).value else INVALID_HANDLE
    {
      h := INVALID_HANDLE;
      if name in index {
        var e := Entry(name.family, key, index[name]);
        if e in data {
          h := data[e];
        }
      }
    }

    method Set(name: Name, key: Key, h: Handle, room: bool)
      modifies this`data
      ensures Value() == Store(old(Value()), name, key, h, room)
    {
      if name in index && h != INVALID_HANDLE && room {
        data := data[Entry(name.family, key, index[name]) := h];
      }
    }

    method FindHandleFast(name: Name, key: Key, found: Handle, room: bool) returns (h: Handle)
      requires NoNull(Value())
      modifies this`data
      ensures (h, Value()) == FindFast(old(Value()), name, key, found, room)
    {
      h := Get(name, key);
      if h == INVALID_HANDLE {
        h := found;
        Set(name, key, h, room);
      }
    }

    method CacheRsaHandle(slot: nat, key: Key, handlePri: Handle, handlePub: Handle, room: bool)
      requires NoNull(Value())
      modifies this`data
      ensures Value() == CacheRsa(old(Value()), slot, key, handlePri, handlePub, room)
    {
      var h := Get(Name(Rsa, slot, true), key);
      if h == INVALID_HANDLE {
        Set(Name(Rsa, slot, true), key, handlePri, room);
      }
      h := Get(Name(Rsa, slot, false), key);
      if h == INVALID_HANDLE {
        Set(Name(Rsa, slot, false), key, handlePub, room);
      }
    }

    method CacheEcdsaHandle(slot: nat, key: Key, hPublic: Handle, hPrivate: Handle, room: bool)
      modifies this`data
      ensures Value() == CacheEcdsa(old(Value()), slot, key, hPublic, hPrivate, room)
    {
      Set(Name(Ecdsa, slot, false), key, hPublic, room);
      Set(Name(Ecdsa, slot, true), key, hPrivate, room);
    }
  }

  predicate NoNull(s: Handles) {
    forall e :: e in s.data ==> s.data[e] != INVALID_HANDLE
  }

  datatype Step =
    | InitLibrary(grants: Grants, completed: bool)
    | FiniLibrary
    | Find(name: Name, key: Key, found: Handle, room: bool)
    | PreloadRsa(slot: nat, key: Key, private: Handle, public: Handle, room: bool)
    | PreloadEcdsa(slot: nat, key: Key, private: Handle, public: Handle, room: bool)
    | Free(family: Family, key: Key)

  /** The handle of a key in a generation of the library, or INVALID_HANDLE: of the key that is the given
      one of those at its address. */
  type Search = (nat, Name, Key, nat) -> Handle

  /** What the search is to find for the key that now has the address. */
  function Sought(search: Search, s: Handles, name: Name, key: Key): Handle {
    search(s.generation, name, key, Life(s, name.family, key))
  }

  /** A search may fail, but what it finds is the handle that the key has in this generation. */
  predicate Finds(search: Search, s: Handles, name: Name, key: Key, h: Handle) {
    h == INVALID_HANDLE || h == Sought(search, s, name, key)
  }

  /** Handles are looked up or preloaded only through a context, hence while the library runs. */
  predicate Enabled(search: Search, s: Handles, step: Step) {
    match step
    case InitLibrary(_, _) => !s.running
    case FiniLibrary => true
    case Find(name, key, found, _) => s.running && Finds(search, s, name, key, found)
    case PreloadRsa(slot, key, private, public, _) =>
      s.running && Finds(search, s, Name(Rsa, slot, true), key, private)
      && Finds(search, s, Name(Rsa, slot, false), key, public)
    case PreloadEcdsa(slot, key, private, public, _) =>
      s.running && Finds(search, s, Name(Ecdsa, slot, true), key, private)
      && Finds(search, s, Name(Ecdsa, slot, false), key, public)
    case Free(_, _) => true
  }

  function Apply(s: Handles, step: Step): Handles {
    match step
    case InitLibrary(g, completed) => Init(s, g, completed)
    case FiniLibrary => Fini(s)
    case Find(name, key, found, room) => FindFast(s, name, key, found, room).1
    case PreloadRsa(slot, key, private, public, room) => CacheRsa(s, slot, key, private, public, room)
    case PreloadEcdsa(slot, key, private, public, room) => CacheEcdsa(s, slot, key, public, private, room)
    case Free(f, key) => FreeKey(s, f, key)
  }

  /** The state after a run, if every step of it could be taken. */
  function Exec(search: Search, steps: seq<Step>): Option<Handles> {
    if steps == [] then Some(NOTHING)
    else match Exec(search, steps[..|steps| - 1])
      case None => None
      case Some(s) => if Enabled(search, s, steps[|steps| - 1]) then Some(Apply(s, steps[|steps| - 1])) else None
  }

  /** Index variables hold distinct indices that OpenSSL has given out. */
  predicate Registered(s: Handles) {
    && (forall n :: n in s.index ==> s.index[n] < s.next.At(n.family))
    && (forall n, m :: n in s.index && m in s.index && n.family == m.family && s.index[n] == s.index[m] ==> n == m)
    && (forall e :: e in s.data ==> e.index < s.next.At(e.family))
  }

  /** What the current index variables lead to was found in this generation. */
  ghost predicate Coherent(search: Search, s: Handles) {
    && Registered(s) && NoNull(s)
    && forall n, k :: Cached(s, n, k).Some? ==> Cached(s, n, k).value == Sought(search, s, n, k)
  }

  /** No index variable leads to any data. */
  ghost predicate Empty(s: Handles) {
    forall n, k :: n in s.index ==> Entry(n.family, k, s.index[n]) !in s.data
  }

  lemma RegisterForgets(s: Handles, name: Name, g: Grants)
    requires Registered(s) && Empty(s)
    ensures var r := Register(s, name, g); Registered(r) && Empty(r) && r.data == s.data && r.generation == s.generation
  {
    if g.enabled(name.family) && g.granted(name) {
      NewIndexIsDistinct(s, name, g);
      NewIndexIsEmpty(s, name, g);
    }
  }

  lemma NewIndexIsDistinct(s: Handles, name: Name, g: Grants)
    requires Registered(s) && g.enabled(name.family) && g.granted(name)
    ensures Registered(Register(s, name, g))
  {
    var r, i := Register(s, name, g), s.next.At(name.family);
    assert r.index == s.index[name := i];
    assert forall f: Family :: s.next.At(f) <= r.next.At(f);
    assert i < r.next.At(name.family);
  }

  lemma NewIndexIsEmpty(s: Handles, name: Name, g: Grants)
    requires Registered(s) && Empty(s) && g.enabled(name.family) && g.granted(name)
    ensures Empty(Register(s, name, g))
  {
    var r, i := Register(s, name, g), s.next.At(name.family);
    forall n, k | n in r.index ensures Entry(n.family, k, r.index[n]) !in r.data {
      if n == name {
        assert Entry(name.family, k, i) !in s.data;
      }
    }
  }

  lemma {:induction false} InitForgetsUpTo(s: Handles, n: nat, g: Grants)
    requires n <= |NAMES| && Registered(s) && Empty(s)
    ensures var r := RegisterUpTo(s, n, g);
            Registered(r) && Empty(r) && r.data == s.data && r.generation == s.generation
  {
    if n == 0 {
    } else {
      InitForgetsUpTo(s, n - 1, g);
      RegisterForgets(RegisterUpTo(s, n - 1, g), NAMES[n - 1], g);
    }
  }

  /** What holds in every state of a run. While the library does not run nothing is cached. */
  ghost predicate Safe(search: Search, s: Handles) {
    Coherent(search, s) && (!s.running ==> Empty(s))
  }

  lemma StoreIsCoherent(search: Search, s: Handles, name: Name, key: Key, h: Handle, room: bool)
    requires Coherent(search, s) && Finds(search, s, name, key, h)
    ensures var r := Store(s, name, key, h, room);
            Coherent(search, r) && r.generation == s.generation && r.running == s.running && r.index == s.index
  {
    var r := Store(s, name, key, h, room);
    forall n, k | Cached(r, n, k).Some? ensures Cached(r, n, k).value == Sought(search, r, n, k) {
      if Entry(n.family, k, r.index[n]) in s.data {
        assert Cached(s, n, k).Some?;
      }
    }
  }

  lemma InitIsSafe(search: Search, s: Handles, g: Grants, completed: bool)
    requires Safe(search, s) && !s.running
    ensures Safe(search, Init(s, g, completed)) && Empty(Init(s, g, completed))
  {
    InitForgetsUpTo(s, |NAMES|, g);
    NothingCached(Init(s, g, completed));
  }

  lemma PreloadRsaIsSafe(search: Search, s: Handles, slot: nat, key: Key, private: Handle, public: Handle, room: bool)
    requires Safe(search, s) && Enabled(search, s, PreloadRsa(slot, key, private, public, room))
    ensures Safe(search, CacheRsa(s, slot, key, private, public, room))
  {
    StoreIsCoherent(search, s, Name(Rsa, slot, true), key, private, room);
    StoreIsCoherent(search, StoreIfNone(s, Name(Rsa, slot, true), key, private, room),
                    Name(Rsa, slot, false), key, public, room);
  }

  lemma PreloadEcdsaIsSafe(search: Search, s: Handles, slot: nat, key: Key, private: Handle, public: Handle, room: bool)
    requires Safe(search, s) && Enabled(search, s, PreloadEcdsa(slot, key, private, public, room))
    ensures Safe(search, CacheEcdsa(s, slot, key, public, private, room))
  {
    StoreIsCoherent(search, s, Name(Ecdsa, slot, false), key, public, room);
    StoreIsCoherent(search, Store(s, Name(Ecdsa, slot, false), key, public, room),
                    Name(Ecdsa, slot, true), key, private, room);
  }

  lemma FindIsSafe(search: Search, s: Handles, name: Name, key: Key, found: Handle, room: bool)
    requires Safe(search, s) && Enabled(search, s, Find(name, key, found, room))
    ensures Safe(search, FindFast(s, name, key, found, room).1)
  {
    StoreIsCoherent(search, s, name, key, found, room);
  }

  lemma StepIsSafe(search: Search, s: Handles, step: Step)
    requires Safe(search, s) && Enabled(search, s, step)
    ensures Safe(search, Apply(s, step))
  {
    match step {
      case InitLibrary(g, completed) => InitIsSafe(search, s, g, completed);
      case FiniLibrary =>
      case Find(name, key, found, room) => FindIsSafe(search, s, name, key, found, room);
      case PreloadRsa(slot, key, private, public, room) =>
        PreloadRsaIsSafe(search, s, slot, key, private, public, room);
      case PreloadEcdsa(slot, key, private, public, room) =>
        PreloadEcdsaIsSafe(search, s, slot, key, private, public, room);
      case Free(f, key) => FreeIsSafe(search, s, f, key);
    }
  }

  lemma NothingCached(s: Handles)
    requires Empty(s)
    ensures forall n, k :: Cached(s, n, k) == None
  {
  }

  lemma FreeIsSafe(search: Search, s: Handles, f: Family, key: Key)
    requires Safe(search, s)
    ensures Safe(search, FreeKey(s, f, key))
  {
    var r := FreeKey(s, f, key);
    forall n, k | Cached(r, n, k).Some? ensures Cached(r, n, k).value == Sought(search, r, n, k) {
      assert Cached(s, n, k) == Cached(r, n, k);
    }
  }

  lemma {:induction false} RunIsSafe(search: Search, steps: seq<Step>, s: Handles)
    requires Exec(search, steps) == Some(s)
    ensures Safe(search, s)
  {
    if steps == [] {
    } else {
      var before := Exec(search, steps[..|steps| - 1]).value;
      RunIsSafe(search, steps[..|steps| - 1], before);
      StepIsSafe(search, before, steps[|steps| - 1]);
    }
  }

  /** In every reachable state a fast lookup answers what the full search answers, and when the
      search itself fails, the right handle or none. */
  lemma FastIsSearch(search: Search, steps: seq<Step>, s: Handles, name: Name, key: Key, found: Handle, room: bool)
    requires Exec(search, steps) == Some(s) && Finds(search, s, name, key, found)
    ensures Finds(search, s, name, key, FindFast(s, name, key, found, room).0)
    ensures found == Sought(search, s, name, key) ==> FindFast(s, name, key, found, room).0 == found
  {
    RunIsSafe(search, steps, s);
  }

  /** A lookup that hits does not search, and changes nothing. */
  lemma HitNeedsNoSearch(s: Handles, name: Name, key: Key, found: Handle, room: bool, h: Handle)
    requires Cached(s, name, key) == Some(h)
    ensures FindFast(s, name, key, found, room) == (h, s)
  {
  }

  /** The step puts h into the extension data of the key, under the index of the variable. */
  predicate Writes(step: Step, name: Name, key: Key, h: Handle) {
    match step
    case Find(n, k, found, room) => n == name && k == key && found == h && room
    case PreloadRsa(slot, k, private, public, room) =>
      k == key && room
      && ((name == Name(Rsa, slot, true) && private == h) || (name == Name(Rsa, slot, false) && public == h))
    case PreloadEcdsa(slot, k, private, public, room) =>
      k == key && room
      && ((name == Name(Ecdsa, slot, true) && private == h) || (name == Name(Ecdsa, slot, false) && public == h))
    case _ => false
  }

  /** Step j of the run wrote h, and since then the library was neither finalized nor initialized, nor the key freed. */
  ghost predicate WrittenSince(steps: seq<Step>, j: nat, name: Name, key: Key, h: Handle) {
    && j < |steps| && Writes(steps[j], name, key, h)
    && forall i :: j < i < |steps| ==>
            !steps[i].InitLibrary? && !steps[i].FiniLibrary? && steps[i] != Free(name.family, key)
  }

  /** No handle survives a finalization: what a lookup finds in the caches was put there after the
      library was last finalized, initialized, or the key freed. */
  lemma {:induction false} HitsAreRecent(search: Search, steps: seq<Step>, s: Handles, name: Name, key: Key, h: Handle)
    requires Exec(search, steps) == Some(s) && Cached(s, name, key) == Some(h)
    ensures exists j :: WrittenSince(steps, j, name, key, h)
    decreases |steps|
  {
    var n := |steps| - 1;
    var before := Exec(search, steps[..n]).value;
    RunIsSafe(search, steps[..n], before);
    HitsComeFromSteps(search, before, steps[n], name, key, h);
    if Writes(steps[n], name, key, h) {
      assert WrittenSince(steps, n, name, key, h);
    } else {
      HitsAreRecent(search, steps[..n], before, name, key, h);
      var j :| WrittenSince(steps[..n], j, name, key, h);
      StillWritten(steps, j, name, key, h);
    }
  }

  lemma StillWritten(steps: seq<Step>, j: nat, name: Name, key: Key, h: Handle)
    requires steps != [] && WrittenSince(steps[..|steps| - 1], j, name, key, h)
    requires var last := steps[|steps| - 1]; !last.InitLibrary? && !last.FiniLibrary? && last != Free(name.family, key)
    ensures WrittenSince(steps, j, name, key, h)
  {
    var before := steps[..|steps| - 1];
    assert forall i :: 0 <= i < |before| ==> before[i] == steps[i];
  }

  lemma HitsComeFromSteps(search: Search, s: Handles, step: Step, name: Name, key: Key, h: Handle)
    requires Safe(search, s) && Enabled(search, s, step) && Cached(Apply(s, step), name, key) == Some(h)
    ensures !step.InitLibrary? && !step.FiniLibrary? && step != Free(name.family, key)
    ensures Writes(step, name, key, h) || Cached(s, name, key) == Some(h)
  {
    match step {
      case InitLibrary(g, completed) =>
        InitIsSafe(search, s, g, completed);
        NothingCached(Apply(s, step));
      case FiniLibrary =>
      case Find(n, k, found, room) => StoreHits(s, n, k, found, room, name, key, h);
      case PreloadRsa(_, _, _, _, _) => RsaHits(search, s, step, name, key, h);
      case PreloadEcdsa(_, _, _, _, _) => EcdsaHits(search, s, step, name, key, h);
      case Free(f, k) =>
    }
  }

  lemma RsaHits(search: Search, s: Handles, step: Step, name: Name, key: Key, h: Handle)
    requires Coherent(search, s) && step.PreloadRsa? && Enabled(search, s, step)
    requires Cached(Apply(s, step), name, key) == Some(h)
    ensures Writes(step, name, key, h) || Cached(s, name, key) == Some(h)
  {
    var mine, theirs := Name(Rsa, step.slot, true), Name(Rsa, step.slot, false);
    var s1 := StoreIfNone(s, mine, step.key, step.private, step.room);
    StoreIsCoherent(search, s, mine, step.key, step.private, step.room);
    StoreIfNoneHits(s1, theirs, step.key, step.public, step.room, name, key, h);
    StoreIfNoneHits(s, mine, step.key, step.private, step.room, name, key, h);
  }

  lemma EcdsaHits(search: Search, s: Handles, step: Step, name: Name, key: Key, h: Handle)
    requires Coherent(search, s) && step.PreloadEcdsa? && Enabled(search, s, step)
    requires Cached(Apply(s, step), name, key) == Some(h)
    ensures Writes(step, name, key, h) || Cached(s, name, key) == Some(h)
  {
    var mine, theirs := Name(Ecdsa, step.slot, true), Name(Ecdsa, step.slot, false);
    StoreIsCoherent(search, s, theirs, step.key, step.public, step.room);
    StoreHits(Store(s, theirs, step.key, step.public, step.room),
              mine, step.key, step.private, step.room, name, key, h);
    StoreHits(s, theirs, step.key, step.public, step.room, name, key, h);
  }

  lemma StoreIfNoneHits(s: Handles, n: Name, k: Key, stored: Handle, room: bool, name: Name, key: Key, h: Handle)
    requires Registered(s)
    ensures Cached(StoreIfNone(s, n, k, stored, room), name, key) == Some(h) ==>
              Cached(s, name, key) == Some(h) || (n == name && k == key && stored == h && room)
  {
    StoreHits(s, n, k, stored, room, name, key, h);
  }

  lemma StoreHits(s: Handles, n: Name, k: Key, stored: Handle, room: bool, name: Name, key: Key, h: Handle)
    requires Registered(s)
    ensures Cached(Store(s, n, k, stored, room), name, key) == Some(h) ==>
              Cached(s, name, key) == Some(h) || (n == name && k == key && stored == h && room)
  {
  }

  predicate Requested(g: Grants, name: Name) {
    g.enabled(name.family) && g.granted(name)
  }

  lemma NamesDiffer(j: nat, k: nat)
    requires j < k < |NAMES|
    ensures NAMES[j] != NAMES[k]
  {
  }

  /** From no indices, the first n variables have got theirs, where asked for and granted, in the order of
      NAMES and out of those that OpenSSL had not given out before. */
  ghost predicate Indexed(s: Handles, r: Handles, n: nat, g: Grants)
    requires n <= |NAMES|
  {
    && (forall k | 0 <= k < |NAMES| :: NAMES[k] in r.index <==> k < n && Requested(g, NAMES[k]))
    && (forall f: Family :: s.next.At(f) <= r.next.At(f))
    && (forall k | 0 <= k < |NAMES| && NAMES[k] in r.index ::
          s.next.At(NAMES[k].family) <= r.index[NAMES[k]] < r.next.At(NAMES[k].family))
    && (forall j, k | 0 <= j < k < |NAMES| && NAMES[j] in r.index && NAMES[k] in r.index
          && NAMES[j].family == NAMES[k].family :: r.index[NAMES[j]] < r.index[NAMES[k]])
  }

  lemma IndexNext(s: Handles, r: Handles, n: nat, g: Grants)
    requires n < |NAMES| && Indexed(s, r, n, g)
    ensures Indexed(s, Register(r, NAMES[n], g), n + 1, g)
  {
    var name, next := NAMES[n], Register(r, NAMES[n], g);
    OthersKeepIndex(s, r, n, g);
    if Requested(g, name) {
      assert next.index[name] == r.next.At(name.family) < next.next.At(name.family);
    }
  }

  lemma OthersKeepIndex(s: Handles, r: Handles, n: nat, g: Grants)
    requires n < |NAMES| && Indexed(s, r, n, g)
    ensures var next := Register(r, NAMES[n], g);
            && (NAMES[n] in next.index <==> Requested(g, NAMES[n]))
            && (forall f: Family :: r.next.At(f) <= next.next.At(f))
            && (forall k | 0 <= k < |NAMES| && k != n ::
                  (NAMES[k] in next.index <==> NAMES[k] in r.index)
                  && (NAMES[k] in r.index ==> next.index[NAMES[k]] == r.index[NAMES[k]]))
  {
    forall k | 0 <= k < |NAMES| && k != n ensures NAMES[k] != NAMES[n] {
      NamesDiffer(if k < n then k else n, if k < n then n else k);
    }
  }

  lemma {:induction false} IndicesUpTo(s: Handles, n: nat, g: Grants)
    requires n <= |NAMES| && s.index == map[]
    ensures Indexed(s, RegisterUpTo(s, n, g), n, g)
  {
    if n == 0 {
    } else {
      IndicesUpTo(s, n - 1, g);
      IndexNext(s, RegisterUpTo(s, n - 1, g), n - 1, g);
    }
  }

  /** An initialization begins a new generation, and the variables have indices exactly where they are
      enabled and granted. */
  lemma InitIndexes(s: Handles, g: Grants, completed: bool)
    requires s.index == map[]
    ensures var r := Init(s, g, completed);
            && Indexed(s, r, |NAMES|, g) && r.data == s.data
            && r.generation == s.generation + 1 && r.running == completed
  {
    IndicesUpTo(s, |NAMES|, g);
    DataStays(s, |NAMES|, g);
  }

  /** A finalization leaves the extension data to OpenSSL, but no variable that leads to any of it. */
  lemma FiniForgets(s: Handles)
    ensures var r := Fini(s);
            && r == s.(running := r.running, index := r.index) && !r.running
            && forall name, key :: name !in r.index && Cached(r, name, key) == None
  {
  }

  lemma {:induction false} DataStays(s: Handles, n: nat, g: Grants)
    requires n <= |NAMES|
    ensures RegisterUpTo(s, n, g).data == s.data && RegisterUpTo(s, n, g).generation == s.generation
  {
    if n == 0 {
    } else {
      DataStays(s, n - 1, g);
    }
  }

  /** A handle that is written can be looked up. */
  lemma WriteHits(search: Search, s: Handles, step: Step, name: Name, key: Key, h: Handle)
    requires Safe(search, s) && Enabled(search, s, step) && Writes(step, name, key, h)
    requires name in s.index && h != INVALID_HANDLE
    ensures Cached(Apply(s, step), name, key) == Some(h)
  {
    match step {
      case Find(_, _, _, room) => StoreWrites(search, s, name, key, h);
      case PreloadRsa(_, _, _, _, _) => RsaWrites(search, s, step, name, key, h);
      case PreloadEcdsa(_, _, _, _, _) => EcdsaWrites(search, s, step, name, key, h);
    }
  }

  lemma StoreWrites(search: Search, s: Handles, name: Name, key: Key, h: Handle)
    requires Coherent(search, s) && Finds(search, s, name, key, h) && name in s.index && h != INVALID_HANDLE
    ensures Cached(Store(s, name, key, h, true), name, key) == Some(h)
    ensures Cached(StoreIfNone(s, name, key, h, true), name, key) == Some(h)
  {
  }

  /** Storing for another variable or key, or what the search finds once more, changes no hit. */
  lemma StoreKeeps(search: Search, s: Handles, n: Name, k: Key, stored: Handle, room: bool,
                   name: Name, key: Key, h: Handle)
    requires Coherent(search, s) && Finds(search, s, n, k, stored) && Cached(s, name, key) == Some(h)
    ensures Cached(Store(s, n, k, stored, room), name, key) == Some(h)
    ensures Cached(StoreIfNone(s, n, k, stored, room), name, key) == Some(h)
  {
  }

  lemma RsaWrites(search: Search, s: Handles, step: Step, name: Name, key: Key, h: Handle)
    requires Safe(search, s) && step.PreloadRsa? && Enabled(search, s, step) && Writes(step, name, key, h)
    requires name in s.index && h != INVALID_HANDLE
    ensures Cached(Apply(s, step), name, key) == Some(h)
  {
    var mine := Name(Rsa, step.slot, true);
    StoreIsCoherent(search, s, mine, step.key, step.private, step.room);
    if name == mine {
      StoreWrites(search, s, name, key, h);
      SecondKeeps(search, s, step, name, key, h);
    } else {
      StoreWrites(search, StoreIfNone(s, mine, step.key, step.private, step.room), name, key, h);
    }
  }

  /** Preloading the public handle of an RSA key keeps what preloading the private one has left. */
  lemma SecondKeeps(search: Search, s: Handles, step: Step, name: Name, key: Key, h: Handle)
    requires Safe(search, s) && step.PreloadRsa? && Enabled(search, s, step)
    requires Cached(StoreIfNone(s, Name(Rsa, step.slot, true), step.key, step.private, step.room), name, key) == Some(h)
    ensures Cached(Apply(s, step), name, key) == Some(h)
  {
    var mine, theirs := Name(Rsa, step.slot, true), Name(Rsa, step.slot, false);
    var s1 := StoreIfNone(s, mine, step.key, step.private, step.room);
    StoreIsCoherent(search, s, mine, step.key, step.private, step.room);
    StoreKeeps(search, s1, theirs, step.key, step.public, step.room, name, key, h);
  }

  lemma EcdsaWrites(search: Search, s: Handles, step: Step, name: Name, key: Key, h: Handle)
    requires Safe(search, s) && step.PreloadEcdsa? && Enabled(search, s, step) && Writes(step, name, key, h)
    requires name in s.index && h != INVALID_HANDLE
    ensures Cached(Apply(s, step), name, key) == Some(h)
  {
    var mine, theirs := Name(Ecdsa, step.slot, true), Name(Ecdsa, step.slot, false);
    var s1 := Store(s, theirs, step.key, step.public, step.room);
    StoreIsCoherent(search, s, theirs, step.key, step.public, step.room);
    if name == theirs {
      StoreWrites(search, s, name, key, h);
      StoreKeeps(search, s1, mine, step.key, step.private, step.room, name, key, h);
    } else {
      StoreWrites(search, s1, name, key, h);
    }
  }

  lemma RsaKeeps(search: Search, s: Handles, step: Step, name: Name, key: Key, h: Handle)
    requires Safe(search, s) && step.PreloadRsa? && Enabled(search, s, step) && Cached(s, name, key) == Some(h)
    ensures Cached(Apply(s, step), name, key) == Some(h)
  {
    StoreKeeps(search, s, Name(Rsa, step.slot, true), step.key, step.private, step.room, name, key, h);
    SecondKeeps(search, s, step, name, key, h);
  }

  lemma EcdsaKeeps(search: Search, s: Handles, step: Step, name: Name, key: Key, h: Handle)
    requires Safe(search, s) && step.PreloadEcdsa? && Enabled(search, s, step) && Cached(s, name, key) == Some(h)
    ensures Cached(Apply(s, step), name, key) == Some(h)
  {
    var mine, theirs := Name(Ecdsa, step.slot, true), Name(Ecdsa, step.slot, false);
    var s1 := Store(s, theirs, step.key, step.public, step.room);
    StoreIsCoherent(search, s, theirs, step.key, step.public, step.room);
    StoreKeeps(search, s, theirs, step.key, step.public, step.room, name, key, h);
    StoreKeeps(search, s1, mine, step.key, step.private, step.room, name, key, h);
  }

  /** What can be looked up stays so until the library is finalized or initialized, or the key freed. */
  lemma HitStays(search: Search, s: Handles, step: Step, name: Name, key: Key, h: Handle)
    requires Safe(search, s) && Enabled(search, s, step) && Cached(s, name, key) == Some(h)
    requires !step.InitLibrary? && !step.FiniLibrary? && step != Free(name.family, key)
    ensures Cached(Apply(s, step), name, key) == Some(h)
  {
    match step {
      case Find(n, k, found, room) =>
        if Cached(s, n, k) == None {
          StoreKeeps(search, s, n, k, found, room, name, key, h);
        }
      case PreloadRsa(_, _, _, _, _) => RsaKeeps(search, s, step, name, key, h);
      case PreloadEcdsa(_, _, _, _, _) => EcdsaKeeps(search, s, step, name, key, h);
      case Free(f, k) =>
    }
  }

  /** In every reachable state a lookup hits exactly what a step has written, the variable having an index,
      since the library was last finalized or initialized, or the key freed. */
  lemma HitsExactly(search: Search, steps: seq<Step>, s: Handles, name: Name, key: Key, h: Handle)
    requires Exec(search, steps) == Some(s)
    ensures Cached(s, name, key) == Some(h) <==>
              name in s.index && h != INVALID_HANDLE && exists j :: WrittenSince(steps, j, name, key, h)
  {
    RunIsSafe(search, steps, s);
    if Cached(s, name, key) == Some(h) {
      HitsAreRecent(search, steps, s, name, key, h);
    }
    if j :| WrittenSince(steps, j, name, key, h) && name in s.index && h != INVALID_HANDLE {
      WrittenIsHit(search, steps, s, j, name, key, h);
    }
  }

  lemma {:induction false} WrittenIsHit(search: Search, steps: seq<Step>, s: Handles, j: nat,
                                        name: Name, key: Key, h: Handle)
    requires Exec(search, steps) == Some(s) && WrittenSince(steps, j, name, key, h)
    requires name in s.index && h != INVALID_HANDLE
    ensures Cached(s, name, key) == Some(h)
    decreases |steps|
  {
    var n := |steps| - 1;
    var before := Exec(search, steps[..n]).value;
    RunIsSafe(search, steps[..n], before);
    if j == n {
      IndexKept(before, steps[n]);
      WriteHits(search, before, steps[n], name, key, h);
    } else {
      IndexKept(before, steps[n]);
      assert WrittenSince(steps[..n], j, name, key, h);
      WrittenIsHit(search, steps[..n], before, j, name, key, h);
      HitStays(search, before, steps[n], name, key, h);
    }
  }

  lemma IndexKept(s: Handles, step: Step)
    requires !step.InitLibrary? && !step.FiniLibrary?
    ensures Apply(s, step).index == s.index
  {
  }
}
