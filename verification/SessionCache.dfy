/** The per-slot cache of session handles: a linked list used as a stack. */
module SessionCache {
  import opened Cryptoki

  /** An allocated list node. freed says whether LUNA_free has been called on it; using or freeing
      a node afterwards is ruled out by preconditions. */
  class CacheItem {
    var next: CacheItem?
    var ckses: Handle
    ghost var freed: bool

    constructor (ckses: Handle)
      ensures this.ckses == ckses && next == null && !freed
    {
      this.ckses := ckses;
      next := null;
      freed := false;
    }

    /** luna_cache_delete_item */
    ghost method Delete()
      requires !freed
      modifies this`freed
      ensures freed
    {
      freed := true;
    }
  }

  /** One call of the closing callback: the handles attempted so far and the taint flag. */
  function NextAttempt(attempted: seq<Handle>, tainted: bool, h: Handle, closable: set<Handle>): (seq<Handle>, bool) {
    if tainted || h == INVALID_HANDLE then (attempted, tainted) else (attempted + [h], h in closable)
  }

  /** What the callback attempts over a list of handles, after those already attempted, and its
      final taint flag. */
  function Attempts(attempted: seq<Handle>, tainted: bool, handles: seq<Handle>, closable: set<Handle>)
      : (seq<Handle>, bool)
    decreases |handles|
  {
    if handles == [] then (attempted, tainted)
    else
      var (a, t) := NextAttempt(attempted, tainted, handles[0], closable);
      Attempts(a, t, handles[1..], closable)
  }

  /** The callback stops after the first session that it closes, and so closes at most one. */
  lemma {:induction false} CallbackClosesOne(before: seq<Handle>, handles: seq<Handle>, closable: set<Handle>)
    requires INVALID_HANDLE !in handles
    ensures var (attempted, tainted) := Attempts(before, false, handles, closable);
            && before <= attempted <= before + handles
            && (tainted <==> exists h :: h in handles && h in closable)
            && (!tainted ==> attempted == before + handles)
            && (tainted ==> |attempted| > |before| && attempted[|attempted| - 1] in closable)
            && forall i | |before| <= i < |attempted| - 1 :: attempted[i] !in closable
    decreases |handles|
  {
    if handles == [] {
    } else {
      var h, rest := handles[0], handles[1..];
      assert handles == [h] + rest;
      if h in closable {
        TaintedAttemptsNothing(before + [h], rest, closable);
      } else {
        CallbackClosesOne(before + [h], rest, closable);
        assert before + handles == before + [h] + rest;
      }
    }
  }

  /** Items without a session are passed over. */
  lemma {:induction false} SkipsInvalid(before: seq<Handle>, tainted: bool, handles: seq<Handle>, closable: set<Handle>)
    ensures Attempts(before, tainted, handles, closable)
         == Attempts(before, tainted, Sessions(handles), closable)
    ensures INVALID_HANDLE !in Sessions(handles)
    decreases |handles|
  {
    if handles == [] {
    } else {
      var (a, t) := NextAttempt(before, tainted, handles[0], closable);
      SkipsInvalid(a, t, handles[1..], closable);
      if handles[0] != INVALID_HANDLE {
        assert Sessions(handles)[1..] == Sessions(handles[1..]);
      }
    }
  }

  /** The handles that are valid, in their order. */
  function Sessions(handles: seq<Handle>): seq<Handle> {
    if handles == [] then []
    else if handles[0] == INVALID_HANDLE then Sessions(handles[1..]) else [handles[0]] + Sessions(handles[1..])
  }

  /** Every session that can be closed is attempted if and only if there are no two of them. */
  lemma ClosesAllExactly(handles: seq<Handle>, closable: set<Handle>)
    requires INVALID_HANDLE !in handles
    ensures (forall h | h in handles && h in closable :: h in Attempts([], false, handles, closable).0)
       <==> (forall h, k | h in handles && k in handles && h in closable && k in closable :: h == k)
  {
    var (attempted, tainted) := Attempts([], false, handles, closable);
    CallbackClosesOne([], handles, closable);
    assert [] + handles == handles;
    forall h | h in attempted && h in closable ensures tainted && h == attempted[|attempted| - 1] {
      var i :| 0 <= i < |attempted| && attempted[i] == h;
      assert h in handles;
    }
  }

  lemma {:induction false} TaintedAttemptsNothing(before: seq<Handle>, handles: seq<Handle>, closable: set<Handle>)
    ensures Attempts(before, true, handles, closable) == (before, true)
    decreases |handles|
  {
    if handles == [] {
    } else {
      TaintedAttemptsNothing(before, handles[1..], closable);
    }
  }

  /** luna_callback_close_session. luna_close_session returns 1 when C_CloseSession succeeds, which
      the callback takes for a failure, so that the first success sets the taint flag. */
  class Closer {
    var tainted: bool              // luna_is_cb_tainted
    var attempted: seq<Handle>     // the handles passed to C_CloseSession
    const closable: set<Handle>    // those for which it succeeds

    constructor (closable: set<Handle>)
      ensures this.closable == closable && attempted == []
    {
      this.closable := closable;
      tainted, attempted := false, [];
    }

    method Close(item: CacheItem, index: nat)
      modifies this, item`ckses
      ensures item.ckses == INVALID_HANDLE
      ensures (attempted, tainted) ==
                NextAttempt(old(attempted), old(tainted) && index != 0, old(item.ckses), closable)
    {
      if index == 0 {
        tainted := false;
      }
      if item.ckses == INVALID_HANDLE {
        return;
      }
      if !tainted {
        attempted := attempted + [item.ckses];
        tainted := item.ckses in closable;
      }
      item.ckses := INVALID_HANDLE;
    }
  }

  /** The list from head is finite and acyclic: it runs through items, which all differ and none
      of which is freed, and ends. contents are its handles. */
  ghost predicate Intact(head: CacheItem?, items: seq<CacheItem>, contents: seq<Handle>)
    reads items
  {
    && head == (if items == [] then null else items[0])
    && (forall i, j | 0 <= i && j == i + 1 && j < |items| :: items[i].next == items[j])
    && (items != [] ==> items[|items| - 1].next == null)
    && (forall i, j | 0 <= i < j < |items| :: items[i] != items[j])
    && |contents| == |items|
    && (forall i | 0 <= i < |items| :: !items[i].freed && contents[i] == items[i].ckses)
  }

  /** One turn of the loop in luna_cache_delete_ALL: the head is given to the callback and freed. */
  method FreeHead(head: CacheItem, cb: Closer?, count: nat, ghost items: seq<CacheItem>, ghost contents: seq<Handle>)
    returns (next: CacheItem?)
    requires Intact(head, items, contents)
    modifies head, cb
    ensures head.freed && Intact(next, items[1..], contents[1..])
    ensures cb != null ==>
              (cb.attempted, cb.tainted) ==
              NextAttempt(old(cb.attempted), old(cb.tainted) && count != 0, contents[0], cb.closable)
  {
    next := head.next;
    if cb != null {
      cb.Close(head, count);
    }
    head.Delete();
  }

  /** The loop of luna_cache_delete_ALL over the unlinked list. */
  method FreeList(head: CacheItem?, cb: Closer?, ghost items: seq<CacheItem>, ghost contents: seq<Handle>)
    requires Intact(head, items, contents) && (cb != null ==> cb.attempted == [])
    modifies items, cb
    ensures forall item | item in items :: item.freed
    ensures cb != null ==> cb.attempted == Attempts([], false, contents, cb.closable).0
  {
    var item, count := head, 0;
    while item != null
      invariant count <= |items| == |contents| && Intact(item, items[count..], contents[count..])
      invariant forall i | 0 <= i < count :: items[i].freed
      invariant cb != null ==> Attempts([], false, contents, cb.closable)
                               == Attempts(cb.attempted, cb.tainted && count != 0, contents[count..], cb.closable)
      decreases |items| - count
    {
      assert item == items[count] && items[count..][1..] == items[count + 1..];
      assert contents[count..][1..] == contents[count + 1..];
      item := FreeHead(item, cb, count, items[count..], contents[count..]);
      count := count + 1;
    }
  }

  lemma TailItems(items: seq<CacheItem>)
    requires items != [] && forall i, j | 0 <= i < j < |items| :: items[i] != items[j]
    ensures forall x | x in items[1..] :: x in items && x != items[0]
    ensures forall x | x in items :: x == items[0] || x in items[1..]
  {
    forall x | x in items ensures x == items[0] || x in items[1..] {
      var i :| 0 <= i < |items| && items[i] == x;
      assert i > 0 ==> items[1..][i - 1] == x;
    }
  }

  class Cache {
    var next: CacheItem?
    ghost var items: seq<CacheItem>
    ghost var contents: seq<Handle>
    ghost var nodes: set<CacheItem>

    ghost predicate Valid()
      reads this, nodes
    {
      && (forall x | x in items :: x in nodes)
      && (forall x | x in nodes :: x in items)
      && Intact(next, items, contents)
    }

    constructor ()
      ensures Valid() && nodes == {} && contents == []
    {
      next := null;
      items, contents, nodes := [], [], {};
    }

    /** luna_cache_init and luna_cache_fini: forget the list without freeing it. */
    method Clear()
      modifies this
      ensures Valid() && nodes == {} && contents == []
    {
      next := null;
      items, contents, nodes := [], [], {};
    }

    method Push(item: CacheItem)
      requires Valid() && item !in nodes && !item.freed
      modifies this, item`next
      ensures Valid() && nodes == old(nodes) + {item} && contents == [item.ckses] + old(contents)
    {
      item.next := next;
      next := item;
      items, contents, nodes := [item] + items, [item.ckses] + contents, nodes + {item};
    }

    method Pop() returns (item: CacheItem?)
      requires Valid()
      modifies this, nodes`next
      ensures Valid()
      ensures old(contents) == [] ==> item == null && nodes == {} && contents == []
      ensures old(contents) != [] ==> item != null && item in old(nodes) && nodes == old(nodes) - {item}
                                      && item.ckses == old(contents)[0] && !item.freed && contents == old(contents)[1..]
    {
      item := next;
      if item != null {
        next := item.next;
        item.next := null;
        TailItems(items);
        items, contents, nodes := items[1..], contents[1..], nodes - {item};
      }
    }

    /** luna_cache_delete_ALL with or without the closing callback: the list is unlinked and every
        item on it is freed, once. */
    method DeleteAll(cb: Closer?)
      requires Valid() && (cb != null ==> cb.attempted == [])
      modifies this, nodes, cb
      ensures Valid() && nodes == {} && contents == []
      ensures forall item | item in old(nodes) :: item.freed
      ensures cb != null ==> cb.attempted == Attempts([], false, old(contents), cb.closable).0
    {
      var head := next;
      next := null;
      ghost var all, handles := items, contents;
      items, contents, nodes := [], [], {};
      FreeList(head, cb, all, handles);
    }
  }
}
