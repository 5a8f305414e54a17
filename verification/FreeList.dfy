/** The Kernighan-Ritchie allocator of user/umalloc.c.  Addresses count header-sized units
    (16 bytes); `mem` is the headers in memory.  The free list is a cycle through `base` in
    address order. */
module FreeList {
  import opened Blocks

  datatype Header = Header(ptr: nat, size: nat)

  type Memory = map<nat, Header>

  function After(n: nat, i: nat): nat {
    if i + 1 < n then i + 1 else 0
  }

  /** The pointers run through `order` once and back to its first element. */
  ghost predicate Ring(mem: Memory, order: seq<nat>) {
    && |order| > 0
    && (forall i: nat :: i < |order| ==> order[i] in mem)
    && (forall i: nat {:trigger mem[order[i]]} :: i < |order| ==> mem[order[i]].ptr == order[After(|order|, i)])
    && Ascending(order)
  }

  /** A block of the heap: free (on the list, not the base) or handed out. */
  ghost predicate IsBlock(order: seq<nat>, live: set<nat>, a: nat) {
    a in live || (|order| > 0 && a in order[1..])
  }

  /** Every heap unit belongs to exactly one block, and every block is the units from its
      header up to its size. */
  ghost predicate Tiled(mem: Memory, order: seq<nat>, live: set<nat>, owner: map<nat, nat>) {
    && (forall u :: u in owner ==> IsBlock(order, live, owner[u]))
    && (forall a: nat :: IsBlock(order, live, a) ==>
          a in mem && mem[a].size >= 1
          && (forall u: nat :: a <= u < a + mem[a].size <==> u in owner && owner[u] == a))
    && (forall a :: a in live ==> a !in order)
  }

  /** The base is a free block of size 0 below the heap. */
  ghost predicate BaseOk(mem: Memory, order: seq<nat>, base: nat, owner: map<nat, nat>) {
    |order| > 0 && order[0] == base && base in mem && mem[base].size == 0 && 0 < base && forall u :: u in owner ==>
        base < u
  }

  ghost predicate Linked(mem: Memory, order: seq<nat>, base: nat, live: set<nat>, owner: map<nat, nat>) {
    Ring(mem, order) && BaseOk(mem, order, base, owner) && Tiled(mem, order, live, owner)
  }

  /** Free block a ends where free block b starts. */
  ghost predicate Touch(mem: Memory, order: seq<nat>, a: nat, b: nat) {
    |order| > 0 && a in order && b in order[1..] && a in mem && a + mem[a].size == b
  }

  ghost predicate NoTouch(mem: Memory, order: seq<nat>) {
    forall a: nat, b: nat :: !Touch(mem, order, a, b)
  }

  // ---------- Putting a block on the list ----------

  function InsertMem(mem: Memory, p: nat, bp: nat): (r: Memory)
    requires p in mem && bp in mem
  {
    var m := mem[bp := mem[bp].(ptr := mem[p].ptr)];
    m[p := m[p].(ptr := bp)]
  }

  function InsertOrder(order: seq<nat>, k: nat, bp: nat): (r: seq<nat>)
    requires k < |order|
  {
    order[..k + 1] + [bp] + order[k + 1..]
  }

  lemma InsertAt(order: seq<nat>, k: nat, bp: nat, i: nat)
    requires k < |order| && i <= |order|
    ensures var r := InsertOrder(order, k, bp);
            |r| == |order| + 1 && r[i] == if i <= k then order[i] else if i == k + 1 then bp else order[i - 1]
  {
  }

  /** bp lies between entries k and k+1. */
  ghost predicate Between(order: seq<nat>, k: nat, bp: nat) {
    k < |order| && order[k] < bp && (k + 1 < |order| ==> bp < order[k + 1])
  }

  ghost predicate Ascending(order: seq<nat>) {
    forall i: nat, j: nat :: i < j < |order| ==> order[i] < order[j]
  }

  lemma NotListed(order: seq<nat>, k: nat, bp: nat)
    requires Between(order, k, bp) && Ascending(order)
    ensures bp !in order
  {
    forall j: nat | j < |order|
      ensures order[j] != bp
    {
      assert j <= k || k + 1 <= j;
    }
  }

  lemma LinkOf(mem: Memory, order: seq<nat>, i: nat, j: nat)
    requires Ring(mem, order) && i < |order| && j < |order|
    ensures order[i] in mem && mem[order[i]].ptr == order[After(|order|, i)]
    ensures i < j ==> order[i] < order[j]
  {
  }

  lemma InsertLink(mem: Memory, order: seq<nat>, k: nat, bp: nat, i: nat)
    requires Ring(mem, order) && Between(order, k, bp) && bp in mem && bp !in order && i <= |order|
    ensures var r, m := InsertOrder(order, k, bp), InsertMem(mem, order[k], bp);
            |r| == |order| + 1 && r[i] in m && m[r[i]].ptr == r[After(|r|, i)]
  {
    hide InsertOrder; hide Ring;
    var j := if i <= k then i else if i == k + 1 then k else i - 1;
    LinkOf(mem, order, k, j);
    LinkOf(mem, order, j, k);
    InsertAt(order, k, bp, i);
    InsertAt(order, k, bp, After(|order| + 1, i));
  }

  lemma InsertAscending(order: seq<nat>, k: nat, bp: nat)
    requires Between(order, k, bp) && Ascending(order)
    ensures Ascending(InsertOrder(order, k, bp)) && |InsertOrder(order, k, bp)| == |order| + 1
  {
    hide InsertOrder;
    InsertAt(order, k, bp, 0);
    forall i: nat, j: nat | i < j <= |order|
      ensures InsertOrder(order, k, bp)[i] < InsertOrder(order, k, bp)[j]
    {
      InsertAt(order, k, bp, i);
      InsertAt(order, k, bp, j);
      assert i <= k ==> order[i] <= order[k];
      assert k + 1 < j ==> order[k + 1] <= order[j - 1];
    }
  }

  lemma InsertRing(mem: Memory, order: seq<nat>, k: nat, bp: nat)
    requires Ring(mem, order) && Between(order, k, bp) && bp in mem
    ensures Ring(InsertMem(mem, order[k], bp), InsertOrder(order, k, bp)) && bp !in order
  {
    hide InsertOrder; hide InsertMem; hide Ascending;
    NotListed(order, k, bp);
    InsertAscending(order, k, bp);
    var r, m := InsertOrder(order, k, bp), InsertMem(mem, order[k], bp);
    forall i: nat | i < |r|
      ensures r[i] in m && m[r[i]].ptr == r[After(|r|, i)]
    {
      InsertLink(mem, order, k, bp, i);
    }
  }

  lemma InsertOk(mem: Memory, order: seq<nat>, base: nat, live: set<nat>, owner: map<nat, nat>, k: nat, bp: nat)
    requires Linked(mem, order, base, live, owner) && bp in live && Between(order, k, bp)
    ensures var m, r := InsertMem(mem, order[k], bp), InsertOrder(order, k, bp);
            && Linked(m, r, base, live - {bp}, owner)
            && (forall a :: a in mem ==> a in m && m[a].size == mem[a].size)
  {
    hide InsertOrder; hide Ring;
    InsertAt(order, k, bp, 0);
    assert |order| > 0 && order[0] == base;
    var r, m := InsertOrder(order, k, bp), InsertMem(mem, order[k], bp);
    InsertRing(mem, order, k, bp);
    forall a: nat
      ensures IsBlock(r, live - {bp}, a) <==> IsBlock(order, live, a)
      ensures a in r <==> a in order || a == bp
    {
      InsertMembers(order, k, bp, a);
    }
  }

  lemma InsertMembers(order: seq<nat>, k: nat, bp: nat, a: nat)
    requires k < |order|
    ensures a in InsertOrder(order, k, bp)[1..] <==> a in order[1..] || a == bp
    ensures a in InsertOrder(order, k, bp) <==> a in order || a == bp
  {
    var r := InsertOrder(order, k, bp);
    assert r[1..] == order[1..k + 1] + [bp] + order[k + 1..];
    assert order[1..] == order[1..k + 1] + order[k + 1..];
    assert order == order[..k + 1] + order[k + 1..];
  }

  // ---------- Taking a block off the list ----------

  function RemoveOrder(order: seq<nat>, k: nat): (r: seq<nat>)
    requires k < |order|
  {
    order[..k] + order[k + 1..]
  }

  lemma RemoveAt(order: seq<nat>, k: nat, i: nat)
    requires k < |order| && i < |order| - 1
    ensures var r := RemoveOrder(order, k);
            |r| == |order| - 1 && r[i] == if i < k then order[i] else order[i + 1]
  {
  }

  /** m is mem with entry k skipped by its predecessor. */
  ghost predicate Skips(mem: Memory, m: Memory, order: seq<nat>, k: nat) {
    && 1 <= k < |order|
    && (forall i: nat :: i < |order| && i != k ==> order[i] in m && order[i] in mem)
    && (forall i: nat :: i < |order| && i != k && i != k - 1 ==> m[order[i]].ptr == mem[order[i]].ptr)
    && order[k] in mem && m[order[k - 1]].ptr == mem[order[k]].ptr
  }

  lemma RemoveLink(mem: Memory, m: Memory, order: seq<nat>, k: nat, i: nat)
    requires Ring(mem, order) && Skips(mem, m, order, k) && i < |order| - 1
    ensures var r := RemoveOrder(order, k);
            |r| == |order| - 1 && r[i] in m && m[r[i]].ptr == r[After(|r|, i)]
  {
    hide RemoveOrder; hide Ring;
    var j := if i < k then i else i + 1;
    LinkOf(mem, order, j, k);
    LinkOf(mem, order, k, j);
    RemoveAt(order, k, i);
    RemoveAt(order, k, After(|order| - 1, i));
  }

  lemma RingFrom(m: Memory, r: seq<nat>)
    requires |r| > 0 && (forall i: nat :: i < |r| ==> LinkedAt(m, r, i)) && Ascending(r)
    ensures Ring(m, r)
  {
    hide Ascending;
    forall i: nat | i < |r|
      ensures r[i] in m && m[r[i]].ptr == r[After(|r|, i)]
    {
      assert LinkedAt(m, r, i);
    }
  }

  ghost predicate LinkedAt(m: Memory, r: seq<nat>, i: nat) {
    i < |r| && r[i] in m && m[r[i]].ptr == r[After(|r|, i)]
  }

  lemma RemoveAscending(order: seq<nat>, k: nat)
    requires Ascending(order) && k < |order|
    ensures Ascending(RemoveOrder(order, k))
  {
    assert |RemoveOrder(order, k)| == |order| - 1;
    hide RemoveOrder;
    var r := RemoveOrder(order, k);
    forall i: nat, j: nat | i < j < |r|
      ensures r[i] < r[j]
    {
      RemoveAt(order, k, i);
      RemoveAt(order, k, j);
    }
  }

  lemma RemoveRing(mem: Memory, m: Memory, order: seq<nat>, k: nat)
    requires Ring(mem, order) && Skips(mem, m, order, k)
    ensures Ring(m, RemoveOrder(order, k)) && |RemoveOrder(order, k)| == |order| - 1
  {
    RemoveLinkable(mem, m, order, k);
    RingAscends(mem, order);
    hide RemoveOrder; hide Skips; hide Ring; hide Ascending;
    RemoveAt(order, k, 0);
    RemoveAscending(order, k);
    var r := RemoveOrder(order, k);
    forall i: nat | i < |r|
      ensures LinkedAt(m, r, i)
    {
      RemoveLink(mem, m, order, k, i);
    }
    RingFrom(m, r);
  }

  lemma RingAscends(mem: Memory, order: seq<nat>)
    requires Ring(mem, order)
    ensures Ascending(order) && |order| > 0
  {
    hide Ascending;
  }

  lemma RemoveLinkable(mem: Memory, m: Memory, order: seq<nat>, k: nat)
    requires Skips(mem, m, order, k)
    ensures |order| > 1 && 1 <= k < |order|
  {
  }

  lemma RemoveMembers(order: seq<nat>, k: nat, a: nat)
    requires 1 <= k < |order| && Ascending(order)
    ensures a in RemoveOrder(order, k)[1..] <==> a in order[1..] && a != order[k]
    ensures a in RemoveOrder(order, k) <==> a in order && a != order[k]
  {
    var r := RemoveOrder(order, k);
    assert r[1..] == order[1..k] + order[k + 1..];
    assert order[1..] == order[1..k] + [order[k]] + order[k + 1..];
    assert order == order[..k] + [order[k]] + order[k + 1..];
    assert order[k] !in order[..k] && order[k] !in order[k + 1..];
    assert order[k] !in order[1..k];
  }

  /** Coalescing entry k into the entry before it, which it touches. */
  function MergeMem(mem: Memory, a: nat, b: nat): (r: Memory)
    requires a in mem && b in mem
  {
    mem[a := Header(mem[b].ptr, mem[a].size + mem[b].size)]
  }

  function MergeOwner(owner: map<nat, nat>, a: nat, b: nat): (r: map<nat, nat>) {
    map u | u in owner :: if owner[u] == b then a else owner[u]
  }

  lemma MergeOk(mem: Memory, order: seq<nat>, base: nat, live: set<nat>, owner: map<nat, nat>, k: nat)
    requires Linked(mem, order, base, live, owner) && 2 <= k < |order|
    requires order[k - 1] + mem[order[k - 1]].size == order[k]
    ensures var a, b := order[k - 1], order[k];
            && Linked(MergeMem(mem, a, b), RemoveOrder(order, k), base, live, MergeOwner(owner, a, b))
            && MergeOwner(owner, a, b).Keys == owner.Keys
  {
    MergeRing(mem, order, k);
    RingAscends(mem, order);
    hide RemoveOrder; hide Ring; hide Ascending; hide Tiled;
    var a, b := order[k - 1], order[k];
    var m := MergeMem(mem, a, b);
    RemoveAt(order, k, 0);
    assert a in order[1..] && b in order[1..] by { assert order[1..][k - 2] == a && order[1..][k - 1] == b; }
    forall x: nat
      ensures IsBlock(RemoveOrder(order, k), live, x) <==> IsBlock(order, live, x) && x != b
      ensures x in RemoveOrder(order, k) <==> x in order && x != b
    {
      MergeMembers(mem, order, live, owner, k, x);
    }
    MergeTiled(mem, order, RemoveOrder(order, k), live, owner, a, b);
  }

  lemma MergeRing(mem: Memory, order: seq<nat>, k: nat)
    requires Ring(mem, order) && 2 <= k < |order|
    ensures order[k - 1] in mem && order[k] in mem && order[k - 1] != order[k]
    ensures Ring(MergeMem(mem, order[k - 1], order[k]), RemoveOrder(order, k)) && |RemoveOrder(order, k)| == |order| - 1
  {
    LinkOf(mem, order, k - 1, k);
    LinkOf(mem, order, k, k);
    MergeSkips(mem, order, k);
    hide RemoveOrder; hide Ring; hide Skips;
    RemoveRing(mem, MergeMem(mem, order[k - 1], order[k]), order, k);
  }

  lemma MergeSkips(mem: Memory, order: seq<nat>, k: nat)
    requires Ring(mem, order) && 2 <= k < |order| && order[k - 1] in mem && order[k] in mem
    ensures Skips(mem, MergeMem(mem, order[k - 1], order[k]), order, k)
  {
    hide Ascending;
    forall i: nat | i < |order| && i != k && i != k - 1
      ensures order[i] != order[k - 1]
    {
      LinkOf(mem, order, i, k - 1);
      LinkOf(mem, order, k - 1, i);
    }
  }

  lemma MergeMembers(mem: Memory, order: seq<nat>, live: set<nat>, owner: map<nat, nat>, k: nat, x: nat)
    requires Tiled(mem, order, live, owner) && Ascending(order) && 1 <= k < |order|
    ensures |RemoveOrder(order, k)| > 0
    ensures IsBlock(RemoveOrder(order, k), live, x) <==> IsBlock(order, live, x) && x != order[k]
    ensures x in RemoveOrder(order, k) <==> x in order && x != order[k]
  {
    RemoveMembers(order, k, x);
    assert order[k] in order && order[k] !in live;
    hide Tiled; hide Ascending;
  }

  lemma MergeTiled(mem: Memory, order: seq<nat>, r: seq<nat>, live: set<nat>, owner: map<nat, nat>, a: nat, b: nat)
    requires Tiled(mem, order, live, owner) && IsBlock(order, live, a) && IsBlock(order, live, b) && a != b
    requires a + mem[a].size == b
    requires forall x: nat :: IsBlock(r, live, x) <==> IsBlock(order, live, x) && x != b
    requires forall x: nat :: x in r ==> x in order
    ensures Tiled(MergeMem(mem, a, b), r, live, MergeOwner(owner, a, b))
  {
    hide IsBlock;
    var m, o := MergeMem(mem, a, b), MergeOwner(owner, a, b);
    forall x: nat | IsBlock(r, live, x)
      ensures x in m && m[x].size >= 1 && forall u: nat :: x <= u < x + m[x].size <==> u in o && o[u] == x
    {
    }
  }

  // ---------- free ----------

  /** Only its neighbours in the list can touch a block that has been put on it. */
  lemma InsertTouch(mem: Memory, order: seq<nat>, base: nat, live: set<nat>, owner: map<nat, nat>, k: nat, bp: nat,
      a: nat, b: nat)
    requires Linked(mem, order, base, live, owner) && bp in live && Between(order, k, bp) && NoTouch(mem, order)
    requires Touch(InsertMem(mem, order[k], bp), InsertOrder(order, k, bp), a, b)
    ensures (a == order[k] && b == bp) || (a == bp && k + 1 < |order| && b == order[k + 1])
  {
    hide InsertOrder; hide Ring;
    InsertMembers(order, k, bp, a);
    InsertMembers(order, k, bp, b);
    assert Ascending(order) && forall i: nat :: i < |order| ==> order[i] in mem by { RingFacts(mem, order); }
    assert !Touch(mem, order, a, b);
    if a == bp {
      Above(mem, order, live, owner, k, bp, b);
    } else {
      Below(mem, order, base, live, owner, k, bp, a);
    }
  }

  lemma RingFacts(mem: Memory, order: seq<nat>)
    requires Ring(mem, order)
    ensures Ascending(order) && |order| > 0 && forall i: nat :: i < |order| ==> order[i] in mem
  {
  }

  lemma Above(mem: Memory, order: seq<nat>, live: set<nat>, owner: map<nat, nat>, k: nat, bp: nat, b: nat)
    requires Tiled(mem, order, live, owner) && Ascending(order) && Between(order, k, bp) && bp in live
    requires b in order[1..] && bp + mem[bp].size == b
    ensures k + 1 < |order| && b == order[k + 1]
  {
    assert IsBlock(order, live, bp);
    var j: nat :| j < |order[1..]| && order[1..][j] == b;
    assert order[j + 1] == b && j + 1 > k;
    var q := order[k + 1];
    assert order[1..][k] == q && IsBlock(order, live, q);
    assert owner[q] == q;
    assert !(bp <= q < bp + mem[bp].size);
  }

  lemma Below(mem: Memory, order: seq<nat>, base: nat, live: set<nat>, owner: map<nat, nat>, k: nat, bp: nat, a: nat)
    requires Tiled(mem, order, live, owner) && BaseOk(mem, order, base, owner) && Ascending(order)
    requires Between(order, k, bp) && bp in live
    requires a in order && a in mem && a + mem[a].size == bp
    ensures a == order[k]
  {
    assert IsBlock(order, live, bp) && owner[bp] == bp && a != base;
    var j: nat :| j < |order| && order[j] == a;
    assert 0 < j <= k;
    var q := order[k];
    assert order[1..][j - 1] == a && IsBlock(order, live, a);
    assert order[1..][k - 1] == q && IsBlock(order, live, q);
    assert owner[q] == q;
  }

  /** Coalescing keeps apart what was apart. */
  lemma MergeTouch(mem: Memory, order: seq<nat>, base: nat, live: set<nat>, owner: map<nat, nat>, k: nat, a: nat,
      b: nat)
    requires Linked(mem, order, base, live, owner) && 2 <= k < |order|
    requires order[k - 1] + mem[order[k - 1]].size == order[k]
    requires Touch(MergeMem(mem, order[k - 1], order[k]), RemoveOrder(order, k), a, b)
    ensures b != order[k] && (a == order[k - 1] ==> Touch(mem, order, order[k], b))
    ensures a != order[k - 1] ==> Touch(mem, order, a, b)
  {
    hide RemoveOrder; hide Ring;
    RingFacts(mem, order);
    RemoveMembers(order, k, a);
    RemoveMembers(order, k, b);
  }

  /** What free() does to the headers once it has found p. */
  function FreeMem(mem: Memory, p: nat, bp: nat): (r: Memory)
    requires p in mem && bp in mem && mem[p].ptr in mem
  {
    var q := mem[p].ptr;
    var m := if bp + mem[bp].size == q then mem[bp := Header(mem[q].ptr, mem[bp].size + mem[q].size)]
             else mem[bp := mem[bp].(ptr := q)];
    if p + m[p].size == bp then m[p := Header(m[bp].ptr, m[p].size + m[bp].size)]
    else m[p := m[p].(ptr := bp)]
  }

  /** Every entry of the list r is an entry of the old list with its old size, or covers the whole of bp. */
  ghost predicate Covered(mem: Memory, m: Memory, order: seq<nat>, r: seq<nat>, bp: nat) {
    bp in mem && forall x: nat :: x in r ==>
        x in m && (KeepsSize(mem, m, order, x) || (x <= bp && bp + mem[bp].size <= x + m[x].size))
  }

  ghost predicate KeepsSize(mem: Memory, m: Memory, order: seq<nat>, x: nat) {
    x in order && x in mem && x in m && m[x].size == mem[x].size
  }

  /** The result of free: the block is on the list, coalesced with whatever it touched. */
  ghost predicate Freed(mem: Memory, m: Memory, order: seq<nat>, base: nat, live: set<nat>, owner: map<nat, nat>,
      bp: nat, keep: nat) {
    && Linked(m, order, base, live - {bp}, owner) && NoTouch(m, order)
    && keep in order && bp in mem
    && (exists x: nat :: x in order[1..] && x in m && m[x].size >= mem[bp].size)
    && (forall a :: a in live && a != bp && a in mem ==> a in m && m[a] == mem[a])
  }

  /** After the first half of free: bp is on the list right after p, and touches at most p. */
  ghost predicate HalfFreed(mem: Memory, m: Memory, order: seq<nat>, base: nat, live: set<nat>, owner: map<nat, nat>,
      bp: nat, p: nat, k: nat) {
    && Linked(m, order, base, live - {bp}, owner)
    && k + 1 < |order| && order[k] == p && order[k + 1] == bp
    && (forall a: nat, b: nat :: Touch(m, order, a, b) ==> a == p && b == bp)
    && bp in mem && bp in m && m[bp].size >= mem[bp].size
    && (forall a :: a in live && a != bp && a in mem ==> a in m && m[a] == mem[a])
  }

  ghost predicate HalfKept(mem: Memory, m: Memory, order: seq<nat>, r: seq<nat>, bp: nat) {
    forall x: nat :: x in r ==> x == bp || KeepsSize(mem, m, order, x)
  }

  function HalfMem(mem: Memory, p: nat, bp: nat): (r: Memory)
    requires p in mem && bp in mem && mem[p].ptr in mem
  {
    var q := mem[p].ptr;
    var m := if bp + mem[bp].size == q then mem[bp := Header(mem[q].ptr, mem[bp].size + mem[q].size)]
             else mem[bp := mem[bp].(ptr := q)];
    m[p := m[p].(ptr := bp)]
  }

  lemma FreeHalf(mem: Memory, order: seq<nat>, base: nat, live: set<nat>, owner: map<nat, nat>, k: nat, bp: nat)
    returns (r: seq<nat>, o: map<nat, nat>)
    requires Linked(mem, order, base, live, owner) && NoTouch(mem, order) && bp in live && Between(order, k, bp)
    ensures order[k] in mem && bp in mem && mem[order[k]].ptr in mem
    ensures HalfFreed(mem, HalfMem(mem, order[k], bp), r, base, live, o, bp, order[k], k) && o.Keys == owner.Keys
    ensures HalfKept(mem, HalfMem(mem, order[k], bp), order, r, bp)
  {
    hide InsertOrder; hide RemoveOrder; hide Ring; hide Tiled; hide Touch; hide NoTouch;
    assert IsBlock(order, live, bp);
    LinkOf(mem, order, k, 0);
    BlockAboveBase(mem, order, base, live, owner, bp);
    RingFacts(mem, order);
    var p, q := order[k], mem[order[k]].ptr;
    var m1, r1 := InsertMem(mem, p, bp), InsertOrder(order, k, bp);
    InsertOk(mem, order, base, live, owner, k, bp);
    assert p !in live && (k + 1 < |order| ==> order[k + 1] !in live) by { FreeNotLive(mem, order, live, owner); }
    NotListed(order, k, bp);
    InsertAt(order, k, bp, k);
    InsertAt(order, k, bp, k + 1);
    forall a: nat, b: nat | Touch(m1, r1, a, b)
      ensures (a == p && b == bp) || (a == bp && k + 1 < |order| && b == order[k + 1])
    {
      InsertTouch(mem, order, base, live, owner, k, bp, a, b);
    }
    if bp + mem[bp].size == q {
      InsertAt(order, k, bp, k + 2);
      MergeOk(m1, r1, base, live - {bp}, owner, k + 2);
      r, o := RemoveOrder(r1, k + 2), MergeOwner(owner, bp, q);
      RemoveAt(r1, k + 2, k);
      RemoveAt(r1, k + 2, k + 1);
      assert MergeMem(m1, bp, q) == HalfMem(mem, p, bp);
      forall a: nat, b: nat | Touch(HalfMem(mem, p, bp), r, a, b)
        ensures a == p && b == bp
      {
        MergeTouch(m1, r1, base, live - {bp}, owner, k + 2, a, b);
      }
      RingFacts(m1, r1);
      forall x: nat | x in r
        ensures x == bp || KeepsSize(mem, HalfMem(mem, p, bp), order, x)
      {
        RemoveMembers(r1, k + 2, x);
        InsertMembers(order, k, bp, x);
      }
    } else {
      r, o := r1, owner;
      assert m1 == HalfMem(mem, p, bp);
      forall x: nat | x in r
        ensures x == bp || KeepsSize(mem, m1, order, x)
      {
        InsertMembers(order, k, bp, x);
      }
      assert !Touch(m1, r1, bp, q) by { NotTouching(m1, r1, bp, q); }
    }
  }

  lemma MergeNoTouch(mem: Memory, order: seq<nat>, base: nat, live: set<nat>, owner: map<nat, nat>, k: nat)
    requires Linked(mem, order, base, live, owner) && 2 <= k < |order|
    requires order[k - 1] + mem[order[k - 1]].size == order[k]
    requires forall a: nat, b: nat :: Touch(mem, order, a, b) ==> a == order[k - 1] && b == order[k]
    ensures NoTouch(MergeMem(mem, order[k - 1], order[k]), RemoveOrder(order, k))
  {
    hide RemoveOrder; hide Tiled; hide Touch;
    var m, r := MergeMem(mem, order[k - 1], order[k]), RemoveOrder(order, k);
    forall a: nat, b: nat
      ensures !Touch(m, r, a, b)
    {
      if Touch(m, r, a, b) {
        MergeTouch(mem, order, base, live, owner, k, a, b);
        assert false;
      }
    }
  }

  lemma NotTouching(mem: Memory, order: seq<nat>, a: nat, b: nat)
    requires a in mem ==> a + mem[a].size != b
    ensures !Touch(mem, order, a, b)
  {
  }

  lemma FreeNotLive(mem: Memory, order: seq<nat>, live: set<nat>, owner: map<nat, nat>)
    requires Tiled(mem, order, live, owner)
    ensures forall i: nat :: i < |order| ==> order[i] !in live
  {
  }

  lemma FreeOk(mem: Memory, order: seq<nat>, base: nat, live: set<nat>, owner: map<nat, nat>, k: nat, bp: nat)
    returns (r: seq<nat>, o: map<nat, nat>)
    requires Linked(mem, order, base, live, owner) && NoTouch(mem, order) && bp in live && Between(order, k, bp)
    ensures order[k] in mem && bp in mem && mem[order[k]].ptr in mem
    ensures Freed(mem, FreeMem(mem, order[k], bp), r, base, live, o, bp, order[k]) && o.Keys == owner.Keys
    ensures Covered(mem, FreeMem(mem, order[k], bp), order, r, bp)
  {
    hide RemoveOrder; hide Ring; hide Tiled; hide Touch; hide HalfKept; hide Covered; hide KeepsSize;
    var p := order[k];
    r, o := FreeHalf(mem, order, base, live, owner, k, bp);
    var m := HalfMem(mem, p, bp);
    assert p in m && m[p].ptr == bp && m[p].size == mem[p].size;
    assert bp in r[1..] by { assert r[1..][k] == bp; }
    if p + m[p].size == bp {
      assert k > 0 by { BlockAboveBase(m, r, base, live - {bp}, o, bp); }
      MergeOk(m, r, base, live - {bp}, o, k + 1);
      assert MergeMem(m, p, bp) == FreeMem(mem, p, bp);
      RemoveAt(r, k + 1, k);
      MergeNoTouch(m, r, base, live - {bp}, o, k + 1);
      RingFacts(m, r);
      MergedCover(mem, m, order, r, k, p, bp);
      r, o := RemoveOrder(r, k + 1), MergeOwner(o, p, bp);
      assert p in r[1..] by { assert r[1..][k - 1] == p; }
      assert p !in live by { FreeNotLive(mem, order, live, owner); }
    } else {
      assert m == FreeMem(mem, p, bp);
      RingFacts(m, r);
      PlacedCover(mem, m, order, r, bp);
      forall a: nat, b: nat
        ensures !Touch(m, r, a, b)
      {
        NotTouching(m, r, p, bp);
      }
    }
  }

  lemma PlacedCover(mem: Memory, m: Memory, order: seq<nat>, r: seq<nat>, bp: nat)
    requires HalfKept(mem, m, order, r, bp) && bp in mem && bp in m && m[bp].size >= mem[bp].size
    ensures Covered(mem, m, order, r, bp)
  {
  }

  lemma MergedCover(mem: Memory, m: Memory, order: seq<nat>, r: seq<nat>, k: nat, p: nat, bp: nat)
    requires HalfKept(mem, m, order, r, bp) && bp in mem && bp in m && m[bp].size >= mem[bp].size
    requires k + 1 < |r| && r[k] == p && r[k + 1] == bp && Ascending(r) && p in m && p + m[p].size == bp
    ensures Covered(mem, MergeMem(m, p, bp), order, RemoveOrder(r, k + 1), bp)
  {
    hide RemoveOrder; hide Ascending;
    forall x: nat | x in RemoveOrder(r, k + 1)
      ensures x in MergeMem(m, p, bp)
      ensures KeepsSize(mem, MergeMem(m, p, bp), order, x)
              || (x <= bp && bp + mem[bp].size <= x + MergeMem(m, p, bp)[x].size)
    {
      RemoveMembers(r, k + 1, x);
      assert KeepsSize(mem, m, order, x);
    }
  }

  lemma BlockAboveBase(mem: Memory, order: seq<nat>, base: nat, live: set<nat>, owner: map<nat, nat>, a: nat)
    requires BaseOk(mem, order, base, owner) && Tiled(mem, order, live, owner) && IsBlock(order, live, a)
    ensures a in mem && base < a && mem[a].size >= 1
  {
    assert a in owner;
  }

  // ---------- malloc ----------

  /** Handing out a whole free block. */
  lemma TakeWhole(mem: Memory, order: seq<nat>, base: nat, live: set<nat>, owner: map<nat, nat>, k: nat)
    requires Linked(mem, order, base, live, owner) && NoTouch(mem, order) && 1 <= k < |order|
    ensures order[k] in mem && order[k - 1] in mem
    ensures var m, r := mem[order[k - 1] := mem[order[k - 1]].(ptr := mem[order[k]].ptr)], RemoveOrder(order, k);
            Linked(m, r, base, live + {order[k]}, owner) && NoTouch(m, r) && order[k - 1] in r
  {
    hide RemoveOrder; hide Ring; hide Touch; hide Tiled;
    LinkOf(mem, order, k - 1, k);
    LinkOf(mem, order, k, k - 1);
    RingFacts(mem, order);
    var m, r := mem[order[k - 1] := mem[order[k - 1]].(ptr := mem[order[k]].ptr)], RemoveOrder(order, k);
    SkipsOk(mem, order, k);
    RemoveRing(mem, m, order, k);
    RemoveAt(order, k, 0);
    RemoveAt(order, k, k - 1);
    assert order[k] in order[1..] by { assert order[1..][k - 1] == order[k]; }
    forall x: nat
      ensures IsBlock(r, live + {order[k]}, x) <==> IsBlock(order, live, x)
      ensures x in r <==> x in order && x != order[k]
      ensures x in r[1..] ==> x in order[1..]
    {
      RemoveMembers(order, k, x);
    }
    FreeNotLive(mem, order, live, owner);
    SameTiles(mem, m, order, r, live, live + {order[k]}, owner);
    SubsetNoTouch(mem, m, order, r);
  }

  lemma SkipsOk(mem: Memory, order: seq<nat>, k: nat)
    requires Ring(mem, order) && 1 <= k < |order|
    ensures order[k] in mem && order[k - 1] in mem
    ensures Skips(mem, mem[order[k - 1] := mem[order[k - 1]].(ptr := mem[order[k]].ptr)], order, k)
  {
    RingFacts(mem, order);
    hide Ring;
    Unequal(order, k - 1);
    hide Ascending;
  }

  lemma SameTiles(mem: Memory, m: Memory, order: seq<nat>, r: seq<nat>, live: set<nat>, live': set<nat>,
      owner: map<nat, nat>)
    requires Tiled(mem, order, live, owner)
    requires forall x: nat :: IsBlock(r, live', x) <==> IsBlock(order, live, x)
    requires forall x :: x in mem ==> x in m && m[x].size == mem[x].size
    requires forall a :: a in live' ==> a !in r
    ensures Tiled(m, r, live', owner)
  {
    hide IsBlock;
  }

  lemma SubsetNoTouch(mem: Memory, m: Memory, order: seq<nat>, r: seq<nat>)
    requires NoTouch(mem, order) && |r| > 0 && |order| > 0
    requires forall x: nat ::
               && (x in r ==> x in order && x in mem && x in m && m[x].size == mem[x].size)
               && (x in r[1..] ==> x in order[1..])
    ensures NoTouch(m, r)
  {
    forall a: nat, b: nat
      ensures !Touch(m, r, a, b)
    {
      assert !Touch(mem, order, a, b);
    }
  }

  lemma Unequal(order: seq<nat>, k: nat)
    requires Ascending(order) && k < |order|
    ensures forall i: nat :: i < |order| && i != k ==> order[i] != order[k]
  {
  }

  function TailMem(mem: Memory, p: nat, n: nat): (r: Memory)
    requires p in mem && n < mem[p].size
  {
    var t := p + mem[p].size - n;
    mem[p := mem[p].(size := mem[p].size - n)][t := Header(if t in mem then mem[t].ptr else 0, n)]
  }

  function TailOwner(owner: map<nat, nat>, p: nat, t: nat): (r: map<nat, nat>) {
    map u | u in owner :: if owner[u] == p && u >= t then t else owner[u]
  }

  /** Handing out the last n units of a larger free block. */
  lemma TakeTail(mem: Memory, order: seq<nat>, base: nat, live: set<nat>, owner: map<nat, nat>, k: nat, n: nat)
    requires Linked(mem, order, base, live, owner) && NoTouch(mem, order) && 1 <= k < |order|
    requires order[k] in mem && 1 <= n < mem[order[k]].size
    ensures var p := order[k];
            var t := p + mem[p].size - n;
            && Linked(TailMem(mem, p, n), order, base, live + {t}, TailOwner(owner, p, t))
            && NoTouch(TailMem(mem, p, n), order)
            && t !in live && TailOwner(owner, p, t).Keys == owner.Keys
  {
    hide Ring; hide Tiled; hide NoTouch;
    var p := order[k];
    var t := p + mem[p].size - n;
    var m, o := TailMem(mem, p, n), TailOwner(owner, p, t);
    assert order[1..][k - 1] == p && IsBlock(order, live, p);
    assert t in owner && owner[t] == p by { UnitOf(mem, order, live, owner, p, t); }
    Inside(mem, order, base, live, owner, p, t);
    FreeNotLive(mem, order, live, owner);
    TailTiled(mem, order, live, owner, p, n);
    TailNoTouch(mem, order, p, n);
    SameLinks(mem, m, order);
    assert forall u :: u in o ==> u in owner;
  }

  lemma UnitOf(mem: Memory, order: seq<nat>, live: set<nat>, owner: map<nat, nat>, p: nat, u: nat)
    requires Tiled(mem, order, live, owner) && IsBlock(order, live, p) && p in mem && p <= u < p + mem[p].size
    ensures u in owner && owner[u] == p
  {
  }

  lemma SameLinks(mem: Memory, m: Memory, order: seq<nat>)
    requires Ring(mem, order) && forall x :: x in order && x in mem ==> x in m && m[x].ptr == mem[x].ptr
    ensures Ring(m, order)
  {
    hide Ascending;
  }

  lemma TailNoTouch(mem: Memory, order: seq<nat>, p: nat, n: nat)
    requires p in mem && 1 <= n < mem[p].size && NoTouch(mem, order) && p + mem[p].size - n !in order
    ensures NoTouch(TailMem(mem, p, n), order)
  {
    var m := TailMem(mem, p, n);
    forall a: nat, b: nat
      ensures !Touch(m, order, a, b)
    {
      assert !Touch(mem, order, a, b);
      assert |order| > 0 && b in order[1..] ==> b in order;
    }
  }

  /** A unit strictly inside a block is no block's header. */
  lemma Inside(mem: Memory, order: seq<nat>, base: nat, live: set<nat>, owner: map<nat, nat>, p: nat, t: nat)
    requires Tiled(mem, order, live, owner) && BaseOk(mem, order, base, owner) && t in owner && owner[t] == p && t != p
    ensures t !in live && t !in order
  {
    assert !IsBlock(order, live, t);
    assert order == [base] + order[1..];
  }

  lemma TailTiled(mem: Memory, order: seq<nat>, live: set<nat>, owner: map<nat, nat>, p: nat, n: nat)
    requires Tiled(mem, order, live, owner) && IsBlock(order, live, p) && p !in live && 1 <= n < mem[p].size
    requires var t := p + mem[p].size - n; t !in live && t !in order
    ensures var t := p + mem[p].size - n;
            Tiled(TailMem(mem, p, n), order, live + {t}, TailOwner(owner, p, t))
  {
    var t := p + mem[p].size - n;
    var m, o := TailMem(mem, p, n), TailOwner(owner, p, t);
    assert forall x: nat :: IsBlock(order, live + {t}, x) <==> IsBlock(order, live, x) || x == t;
    assert !IsBlock(order, live, t);
    hide IsBlock;
    forall x: nat | IsBlock(order, live + {t}, x)
      ensures x in m && m[x].size >= 1 && forall u: nat :: x <= u < x + m[x].size <==> u in o && o[u] == x
    {
      assert x != t ==> IsBlock(order, live, x);
    }
  }

  // ---------- The search loops ----------

  function Dist(n: nat, i: nat, j: nat): (d: nat)
    requires i < n && j < n
  {
    if i <= j then j - i else n + j - i
  }

  /** The entry after which a block belongs. */
  ghost function Place(order: seq<nat>, bp: nat): (k: nat)
    requires Ascending(order) && |order| > 0 && order[0] < bp && bp !in order
    ensures k < |order| && Between(order, k, bp)
  {
    PlaceFrom(order, bp, |order| - 1)
  }

  ghost function PlaceFrom(order: seq<nat>, bp: nat, i: nat): (k: nat)
    requires i < |order| && order[0] < bp && bp !in order && (i + 1 < |order| ==> bp < order[i + 1])
    ensures Between(order, k, bp)
    decreases i
  {
    if order[i] < bp then i else PlaceFrom(order, bp, i - 1)
  }

  /** free()'s loop conditions at entry i: stop exactly at the entry the block belongs after. */
  lemma StopHere(mem: Memory, order: seq<nat>, bp: nat, i: nat)
    requires Ring(mem, order) && order[0] < bp && bp !in order && i < |order|
    ensures order[i] in mem
    ensures var p, q := order[i], mem[order[i]].ptr;
            (bp > p && bp < q) || (p >= q && (bp > p || bp < q)) <==> Between(order, i, bp)
    ensures mem[order[i]].ptr == order[After(|order|, i)]
  {
    LinkOf(mem, order, i, i);
    LinkOf(mem, order, 0, i);
    if i + 1 < |order| {
      LinkOf(mem, order, i, i + 1);
    }
  }

  lemma BetweenOnce(order: seq<nat>, bp: nat, i: nat, j: nat)
    requires Ascending(order) && Between(order, i, bp) && Between(order, j, bp)
    ensures i == j
  {
  }

  /** Units for nbytes of payload plus a header. */
  function Units(nbytes: nat): (n: nat)
    ensures n >= 1 && 16 * (n - 1) >= nbytes
  {
    (nbytes + 15) / 16 + 1
  }

  const SBRK_MIN := 4096

  /** morecore's request in units. */
  function Request(nu: nat): (n: nat) {
    if nu < SBRK_MIN then SBRK_MIN else nu
  }

  /** The byte count morecore passes to sbrk: nu * sizeof(Header) converted to int. */
  function SbrkArg(nu: nat): (bytes: int) {
    var w := nu * 16 % 0x1_0000_0000;
    if w < 0x8000_0000 then w else w - 0x1_0000_0000
  }

  const EXACT := 0x800_0000    // 2^27 units are 2^31 bytes

  /** The conversion keeps the count exactly for requests below 2^27 units; beyond that sbrk is
      asked to shrink the process, or to leave it, or for one unit. */
  lemma SbrkArgExact(nu: nat)
    requires nu <= Units(UINT_MAX)
    ensures SbrkArg(Request(nu)) == 16 * Request(nu) <==> nu < EXACT
    ensures SbrkArg(Request(nu)) % 16 == 0 && (nu >= EXACT ==> SbrkArg(Request(nu)) <= 16)
  {
  }

  /** sbrk and growproc, in units: a shrink below 0 wraps around and is ignored. */
  function Moved(brk: nat, units: int): nat {
    if brk + units < 0 then brk else brk + units
  }

  /** Whether sbrk for nu units fails: growth beyond what the process can have. */
  predicate Fails(brk: nat, limit: nat, nu: nat) {
    SbrkArg(Request(nu)) > 0 && brk + SbrkArg(Request(nu)) / 16 > limit
  }

  /** The units the process has from sbrk after a call for that many bytes. */
  ghost function Obtained(got: set<nat>, brk: nat, bytes: int): set<nat> {
    if bytes > 0 then got + Range(brk, brk + bytes / 16) else set u | u in got && u < Moved(brk, bytes / 16)
  }

  /** The units of a block that starts at hp. */
  ghost predicate Within(hp: nat, n: nat, got: set<nat>) {
    forall u :: hp <= u < hp + n ==> u in got
  }

  // ---------- The allocator ----------

  class Heap {
    const base: nat
    var mem: Memory
    var freep: nat
    var brk: nat                   // end of the process, in units
    const limit: nat               // how far sbrk can move it
    ghost var got: set<nat>        // units obtained from sbrk by morecore
    ghost var order: seq<nat>
    ghost var live: set<nat>
    ghost var owner: map<nat, nat>

    /** The free list is well formed, and with the live blocks tiles the units of `owner`. */
    ghost predicate Shaped()
      reads this
    {
      && 0 < base
      && (if freep == 0 then live == {} && owner == map[]
          else Linked(mem, order, base, live, owner) && NoTouch(mem, order) && freep in order)
    }

    /** Those units are exactly the ones sbrk gave. */
    ghost predicate Valid()
      reads this
    {
      Shaped() && base < brk && owner.Keys == got && forall u :: u in got ==> base < u < brk
    }

    constructor (b: nat, start: nat, max: nat)
      requires 0 < b < start
      ensures Valid() && base == b && limit == max && brk == start && freep == 0 && live == {} && got == {}
    {
      base, mem, freep, brk, limit := b, map[], 0, start, max;
      got, order, live, owner := {}, [], {}, map[];
    }

    /** free's search: the entry after which bp belongs. */
    method FindPlace(bp: nat) returns (p: nat, ghost i: nat)
      requires Ring(mem, order) && order[0] < bp && bp !in order && freep in order
      ensures i < |order| && p == order[i] && Between(order, i, bp)
      ensures p == order[Place(order, bp)]
    {
      hide Ring; hide Between;
      RingFacts(mem, order);
      ghost var n, k := |order|, Place(order, bp);
      hide Ascending;
      i :| i < n && order[i] == freep;
      p := freep;
      StopHere(mem, order, bp, i);
      while !(bp > p && bp < mem[p].ptr)
        invariant i < n && p == order[i] && p in mem
        decreases Dist(n, i, k)
      {
        StopHere(mem, order, bp, i);
        if p >= mem[p].ptr && (bp > p || bp < mem[p].ptr) {
          BetweenOnce(order, bp, i, k);
          return;
        }
        assert i != k;
        p := mem[p].ptr;
        i := After(n, i);
        StopHere(mem, order, bp, i);
      }
      StopHere(mem, order, bp, i);
      BetweenOnce(order, bp, i, k);
    }

    /** free's header updates, coalescing upwards and downwards. */
    method Relink(p: nat, bp: nat)
      requires p in mem && bp in mem && mem[p].ptr in mem
      modifies this`mem
      ensures mem == FreeMem(old(mem), p, bp)
    {
      var q := mem[p].ptr;
      if bp + mem[bp].size == q {
        mem := mem[bp := Header(mem[q].ptr, mem[bp].size + mem[q].size)];
      } else {
        mem := mem[bp := mem[bp].(ptr := q)];
      }
      if p + mem[p].size == bp {
        mem := mem[p := Header(mem[bp].ptr, mem[p].size + mem[bp].size)];
      } else {
        mem := mem[p := mem[p].(ptr := bp)];
      }
    }

    /** free: the block leaves the live set; the units stay the same; nothing else moves.  The
        next search starts at the entry below the freed block. */
    method Free(ap: nat)
      requires Shaped() && ap > 0 && ap - 1 in live
      modifies this`mem, this`freep, this`order, this`live, this`owner
      ensures Shaped() && (old(Valid()) ==> Valid()) && live == old(live) - {ap - 1}
      ensures owner.Keys == old(owner).Keys && freep != 0
      ensures forall a :: a in live ==> a in mem && a in old(mem) && mem[a] == old(mem)[a]
      ensures ap - 1 in old(mem) && exists x: nat :: x in order[1..] && x in mem && mem[x].size >= old(mem)[ap - 1].size
      ensures Covered(old(mem), mem, old(order), order, ap - 1)
      ensures exists i: nat :: Between(old(order), i, ap - 1) && freep == old(order)[i]
    {
      hide Linked; hide NoTouch; hide Ring; hide Ascending; hide Between; hide FreeMem; hide Covered;
      var bp := ap - 1;
      LiveFacts(mem, order, base, live, owner, bp);
      var p, i := FindPlace(bp);
      ghost var r, o := FreeOk(mem, order, base, live, owner, i, bp);
      Relink(p, bp);
      freep := p;
      order, live, owner := r, live - {bp}, o;
      assert base <= p by { ListAboveBase(old(mem), old(order), base, old(live), old(owner), i); }
    }

    /** sbrk(bytes): 0 stands for its failure, else the old break. */
    method Sbrk(bytes: int) returns (p: nat)
      requires 0 < brk && bytes % 16 == 0
      modifies this`brk, this`got
      ensures p == 0 <==> bytes > 0 && old(brk) + bytes / 16 > limit
      ensures p == 0 ==> brk == old(brk) && got == old(got)
      ensures p != 0 ==> p == old(brk) && brk == Moved(old(brk), bytes / 16) && got == Obtained(old(got), old(brk), bytes)
    {
      if bytes > 0 && brk + bytes / 16 > limit {
        return 0;
      }
      p := brk;
      got := Obtained(got, brk, bytes);
      brk := Moved(brk, bytes / 16);
    }

    /** morecore: a free block of at least nu units is recorded at the old break; its units are
        those that sbrk gave exactly for requests below 2^27 units. */
    method Morecore(nu: nat) returns (p: nat)
      requires Valid() && freep != 0 && 1 <= nu <= Units(UINT_MAX)
      modifies this
      ensures Shaped() && live == old(live) && freep != 0
      ensures p == 0 <==> Fails(old(brk), limit, nu)
      ensures p == 0 ==> Valid() && got == old(got)
      ensures p != 0 ==> p == freep && owner.Keys == old(owner.Keys) + Range(old(brk), old(brk) + Request(nu)) && !NoFit(mem, order, nu)
      ensures p != 0 ==> (Within(old(brk), Request(nu), got) <==> nu < EXACT) && (Valid() <==> nu < EXACT)
      ensures p != 0 ==> got == Obtained(old(got), old(brk), SbrkArg(Request(nu)))
      ensures p != 0 && NoFit(old(mem), old(order), nu) ==> OnlyTop(mem, order, nu, old(brk) + Request(nu))
      ensures forall a :: a in live ==> a in mem && a in old(mem) && mem[a] == old(mem)[a]
    {
      hide Linked; hide NoTouch; hide Range; hide Within; hide NoFit;
      var n := Request(nu);
      assert nu <= n;
      LiveIn(mem, order, base, live, owner);
      SbrkArgExact(nu);
      var hp := Sbrk(SbrkArg(n));
      if hp == 0 {
        return 0;
      }
      Given(old(got), old(brk), nu);
      hide SbrkArg; hide Request; hide Obtained; hide Moved;
      Record(hp, n);
      p := freep;
    }

    /** hp->s.size = n, and free of the block. */
    method Record(hp: nat, n: nat)
      requires Shaped() && freep != 0 && n >= 1 && base < hp && forall u :: u in owner ==> u < hp
      modifies this`mem, this`freep, this`order, this`live, this`owner
      ensures Shaped() && live == old(live) && freep != 0 && owner.Keys == old(owner.Keys) + Range(hp, hp + n)
      ensures forall m: nat :: m <= n ==> !NoFit(mem, order, m)
      ensures forall m: nat :: NoFit(old(mem), old(order), m) ==> OnlyTop(mem, order, m, hp + n)
      ensures forall a :: a in live ==> a in mem && a in old(mem) && mem[a] == old(mem)[a]
    {
      hide Linked; hide NoTouch; hide Range; hide GrowOwner; hide IsBlock; hide Covered; hide Between; hide OnlyTop;
      LiveIn(mem, order, base, live, owner);
      GrowOk(mem, order, base, live, owner, hp, n);
      assert hp !in order by { AboveAll(mem, order, base, live, owner, hp); }
      mem := mem[hp := Header(if hp in mem then mem[hp].ptr else 0, n)];
      live := live + {hp};
      owner := GrowOwner(owner, hp, n);
      ghost var before := mem;
      Free(hp + 1);
      forall m: nat | NoFit(old(mem), old(order), m)
        ensures OnlyTop(mem, order, m, hp + n)
      {
        NoFitStill(old(mem), before, old(order), hp, m);
        InRange(old(owner).Keys, owner, hp, n);
        TopOnly(before, mem, old(order), order, base, live, owner, hp, n, m);
      }
    }

    /** malloc: a new live block of Units(nbytes) units, disjoint from every other block; no
        live block changes.  The block is the end of the first entry after freep that fits, or
        of the new memory.  More memory is requested only when no free block is large enough, and 0 is returned only when sbrk then fails.  The heap still consists of the
        units sbrk gave unless 2^27 units or more had to be requested. */
    method Malloc(nbytes: nat) returns (ap: nat)
      requires Valid() && nbytes <= UINT_MAX
      modifies this
      ensures Shaped()
      ensures var n := Units(nbytes);
              var full := old(freep) == 0 || NoFit(old(mem), old(order), n);
              && (ap == 0 <==> full && Fails(old(brk), limit, n))
              && (Valid() <==> !full || Fails(old(brk), limit, n) || n < EXACT)
              && got == if full && ap != 0 then Obtained(old(got), old(brk), SbrkArg(Request(n))) else old(got)
      ensures ap == 0 ==> live == old(live)
      ensures ap != 0 ==> ap > 1 && ap - 1 !in old(live) && live == old(live) + {ap - 1}
                          && ap - 1 in mem && mem[ap - 1].size == Units(nbytes)
      ensures ap != 0 && old(freep) != 0 && !NoFit(old(mem), old(order), Units(nbytes)) ==>
                NextFit(old(mem), old(order), old(freep), Units(nbytes), ap - 1, freep)
      ensures ap != 0 && (old(freep) == 0 || NoFit(old(mem), old(order), Units(nbytes))) ==>
                ap - 1 + Units(nbytes) == old(brk) + Request(Units(nbytes))
      ensures forall a :: a in old(live) ==> a in mem && a in old(mem) && mem[a] == old(mem)[a]
    {
      hide Linked; hide NoTouch;
      var nunits := Units(nbytes);
      if freep == 0 {
        InitOk(mem, base);
        mem := mem[base := Header(base, 0)];
        freep := base;
        order, owner := [base], map[];
      }
      LiveIn(mem, order, base, live, owner);
      ap := Search(nunits);
    }

    /** malloc's loop: the first block that fits after freep, round the list. */
    method Search(nunits: nat) returns (ap: nat)
      requires Valid() && freep != 0 && 1 <= nunits <= Units(UINT_MAX)
      modifies this
      ensures Shaped()
      ensures var full := NoFit(old(mem), old(order), nunits);
              && (ap == 0 <==> full && Fails(old(brk), limit, nunits))
              && (Valid() <==> !full || Fails(old(brk), limit, nunits) || nunits < EXACT)
              && got == if full && ap != 0 then Obtained(old(got), old(brk), SbrkArg(Request(nunits))) else old(got)
      ensures ap == 0 ==> live == old(live)
      ensures ap != 0 ==> ap > 1 && ap - 1 !in old(live) && live == old(live) + {ap - 1}
                          && ap - 1 in mem && mem[ap - 1].size == nunits
      ensures ap != 0 && !NoFit(old(mem), old(order), nunits) ==>
                NextFit(old(mem), old(order), old(freep), nunits, ap - 1, freep)
      ensures ap != 0 && NoFit(old(mem), old(order), nunits) ==> ap - 1 + nunits == old(brk) + Request(nunits)
      ensures forall a :: a in old(live) ==> a in mem && a in old(mem) && mem[a] == old(mem)[a]
    {
      hide Linked; hide NoTouch; hide Obtained; hide NoFit; hide Fails; hide Request; hide SbrkArg; hide Passed;
      LiveIn(mem, order, base, live, owner);
      ghost var grown := false;
      while true
        invariant Shaped() && freep != 0 && live == old(live)
        invariant if grown then NoFit(old(mem), old(order), nunits) && !Fails(old(brk), limit, nunits)
                                && (Valid() <==> nunits < EXACT)
                                && got == Obtained(old(got), old(brk), SbrkArg(Request(nunits)))
                  else Valid() && mem == old(mem) && order == old(order) && brk == old(brk) && got == old(got)
        invariant forall a :: a in old(live) ==> a in mem && a in old(mem) && mem[a] == old(mem)[a]
        invariant grown ==> !NoFit(mem, order, nunits) && OnlyTop(mem, order, nunits, old(brk) + Request(nunits))
        invariant !grown ==> freep == old(freep)
        decreases !grown
      {
        LiveIn(mem, order, base, live, owner);
        var found, prevp, p, k, f := Scan(nunits);
        if found {
          assert Fits(mem, order, freep, nunits, f, k);
          ap := Take(nunits, prevp, p, k);
          return;
        }
        p := Morecore(nunits);
        if p == 0 {
          return 0;
        }
        grown := true;
      }
    }

    /** One trip of malloc's loop round the list, up to the first block that fits. */
    method Scan(nunits: nat) returns (found: bool, prevp: nat, p: nat, ghost k: nat, ghost f: nat)
      requires Linked(mem, order, base, live, owner) && freep in order && 1 <= nunits
      ensures found ==> 1 <= k < |order| && prevp == order[k - 1] && p == order[k] && p in mem && mem[p].size >= nunits
      ensures found ==> f < |order| && order[f] == freep && Passed(mem, order, f, k, nunits)
      ensures found <==> !NoFit(mem, order, nunits)
    {
      hide Linked; hide Tiled; hide Ascending; hide Ring; hide Passed;
      assert Ring(mem, order) && |order| > 0 && order[0] == base && base in mem && mem[base].size == 0 by { LinkedFacts(mem, order, base, live, owner); }
      ghost var n := |order|;
      f :| f < n && order[f] == freep;
      k := After(n, f);
      LinkOf(mem, order, f, f);
      LinkOf(mem, order, k, k);
      prevp := freep;
      p := mem[prevp].ptr;
      PassedNone(mem, order, f, nunits);
      while true
        invariant k < n && p == order[k] && p in mem && (0 < k ==> prevp == order[k - 1])
        invariant Passed(mem, order, f, k, nunits)
        decreases Dist(n, k, f)
      {
        if mem[p].size >= nunits {
          return true, prevp, p, k, f;
        }
        if p == freep {
          assert k == f by { SameIndex(mem, order, k, f); }
          ScannedAll(mem, order, f, nunits);
          return false, prevp, p, k, f;
        }
        LinkOf(mem, order, k, k);
        LinkOf(mem, order, After(n, k), After(n, k));
        PassedNext(mem, order, f, k, nunits);
        prevp := p;
        p := mem[p].ptr;
        k := After(n, k);
      }
    }

    /** malloc's allocation step: unlink an exact fit, or cut the tail off a larger block. */
    method Take(nunits: nat, prevp: nat, p0: nat, ghost k: nat) returns (ap: nat)
      requires Shaped() && freep != 0 && 1 <= nunits
      requires 1 <= k < |order| && prevp == order[k - 1] && p0 == order[k] && p0 in mem && mem[p0].size >= nunits
      modifies this`mem, this`freep, this`order, this`live, this`owner
      ensures Shaped() && owner.Keys == old(owner).Keys
      ensures ap > 1 && ap - 1 !in old(live) && live == old(live) + {ap - 1} && ap - 1 in mem
      ensures mem[ap - 1].size == nunits
      ensures ap - 1 + nunits == p0 + old(mem)[p0].size && freep == prevp
      ensures forall a :: a in old(live) ==> a in mem && a in old(mem) && mem[a] == old(mem)[a]
    {
      hide Linked; hide NoTouch; hide RemoveOrder;
      LiveIn(mem, order, base, live, owner);
      assert prevp in order && p0 in order && base <= prevp && base < p0 && prevp !in live && p0 !in live
        by { EntryFacts(mem, order, base, live, owner, k); }
      var p := p0;
      if mem[p].size == nunits {
        TakeWhole(mem, order, base, live, owner, k);
        mem := mem[prevp := mem[prevp].(ptr := mem[p].ptr)];
        order := RemoveOrder(order, k);
      } else {
        TakeTail(mem, order, base, live, owner, k, nunits);
        ghost var before := mem;
        mem := mem[p := mem[p].(size := mem[p].size - nunits)];
        p := p + mem[p].size;
        mem := mem[p := Header(if p in mem then mem[p].ptr else 0, nunits)];
        assert mem == TailMem(before, p0, nunits);
        owner := TailOwner(owner, p0, p);
      }
      live := live + {p};
      freep := prevp;
      ap := p + 1;
    }
  }

  /** What sbrk gave for morecore's request, compared with what morecore records. */
  lemma Given(got: set<nat>, brk: nat, nu: nat)
    requires 1 <= nu <= Units(UINT_MAX) && (forall u :: u in got ==> u < brk)
    ensures var n := Request(nu);
            var got', brk' := Obtained(got, brk, SbrkArg(n)), Moved(brk, SbrkArg(n) / 16);
            && (Within(brk, n, got') <==> nu < EXACT)
            && (nu < EXACT ==> brk' == brk + n && got' == got + Range(brk, brk + n))
            && (nu >= EXACT ==> got + Range(brk, brk + n) != got')
  {
    SbrkArgExact(nu);
    var n := Request(nu);
    var got' := Obtained(got, brk, SbrkArg(n));
    if nu < EXACT {
      assert SbrkArg(n) / 16 == n;
    } else {
      assert brk + 1 !in got' && brk + 1 in Range(brk, brk + n);
      assert brk <= brk + 1 < brk + n;
    }
  }

  /** A run that leaves the heap invalid: the first malloc of 2^32 - 1 bytes asks sbrk for one
      unit, room for the header, and hands out a block of 2^28 + 1 units. */
  method PhantomBlock() returns (h: Heap, ap: nat)
    ensures fresh(h) && ap > 0 && h.Shaped() && !h.Valid() && h.live == {ap - 1} && h.got == {1024}
    ensures ap - 1 in h.mem && h.mem[ap - 1].size == 0x1000_0001
  {
    hide Linked; hide NoTouch; hide Obtained; hide Fails; hide NoFit;
    h := new Heap(1, 1024, 0x10_0000);
    OneUnit();
    ap := h.Malloc(UINT_MAX);
  }

  lemma OneUnit()
    ensures Units(UINT_MAX) == 0x1000_0001 && !Fails(1024, 0x10_0000, Units(UINT_MAX))
    ensures Obtained({}, 1024, SbrkArg(Request(Units(UINT_MAX)))) == {1024}
  {
    assert SbrkArg(Request(Units(UINT_MAX))) == 16;
    assert Range(1024, 1025) == {1024};
  }

  /** No block of the free list has n units. */
  ghost predicate NoFit(mem: Memory, order: seq<nat>, n: nat) {
    forall x: nat :: x in order && x in mem ==> mem[x].size < n
  }

  lemma LinkedFacts(mem: Memory, order: seq<nat>, base: nat, live: set<nat>, owner: map<nat, nat>)
    requires Linked(mem, order, base, live, owner)
    ensures Ring(mem, order) && |order| > 0 && order[0] == base && base in mem && mem[base].size == 0
  {
  }

  lemma SameIndex(mem: Memory, order: seq<nat>, i: nat, j: nat)
    requires Ring(mem, order) && i < |order| && j < |order| && order[i] == order[j]
    ensures i == j
  {
    LinkOf(mem, order, i, j);
    LinkOf(mem, order, j, i);
  }

  /** The entries from f's successor up to k, exclusive, are all too small. */
  ghost predicate Passed(mem: Memory, order: seq<nat>, f: nat, k: nat, nunits: nat) {
    f < |order| && k < |order|
    && forall j: nat :: j < |order| && Dist(|order|, j, f) > Dist(|order|, k, f) ==>
        order[j] in mem && mem[order[j]].size < nunits
  }

  /** Entry k is the first one after freep, round the list, with room for nunits. */
  ghost predicate Fits(mem: Memory, order: seq<nat>, freep: nat, nunits: nat, f: nat, k: nat) {
    && f < |order| && order[f] == freep && 1 <= k < |order| && order[k] in mem && mem[order[k]].size >= nunits
    && Passed(mem, order, f, k, nunits)
  }

  /** The block at b is the end of the first entry that fits, and the next search starts at the entry before. */
  ghost predicate NextFit(mem: Memory, order: seq<nat>, freep: nat, nunits: nat, b: nat, freep': nat) {
    exists f: nat, k: nat :: Fits(mem, order, freep, nunits, f, k) && freep' == order[k - 1]
                             && b + nunits == order[k] + mem[order[k]].size
  }

  /** Only a block that ends at `top` has n units. */
  ghost predicate OnlyTop(mem: Memory, order: seq<nat>, n: nat, top: nat) {
    forall x: nat :: x in order && x in mem && mem[x].size >= n ==> x + mem[x].size == top
  }

  lemma AboveAll(mem: Memory, order: seq<nat>, base: nat, live: set<nat>, owner: map<nat, nat>, hp: nat)
    requires Linked(mem, order, base, live, owner) && base < hp && forall u :: u in owner ==> u < hp
    ensures hp !in order
  {
    forall i: nat | i < |order|
      ensures order[i] < hp
    {
      if i > 0 {
        assert order[1..][i - 1] == order[i];
        assert IsBlock(order, live, order[i]);
        assert order[i] in owner;
      }
    }
  }

  lemma NoFitStill(mem: Memory, m: Memory, order: seq<nat>, hp: nat, n: nat)
    requires NoFit(mem, order, n) && hp !in order && forall x: nat :: x != hp && x in m ==> x in mem && m[x] == mem[x]
    ensures NoFit(m, order, n)
  {
  }

  lemma InRange(had: set<nat>, owner: map<nat, nat>, hp: nat, n: nat)
    requires owner.Keys == had + Range(hp, hp + n) && forall u :: u in had ==> u < hp
    ensures forall u :: u in owner ==> u < hp + n
  {
    forall u | u in owner
      ensures u < hp + n
    {
      assert u in owner.Keys;
    }
  }

  lemma TopOnly(before: Memory, mem: Memory, order0: seq<nat>, order: seq<nat>, base: nat, live: set<nat>, owner: map<nat, nat>,
      hp: nat, n: nat, m: nat)
    requires Linked(mem, order, base, live, owner) && Covered(before, mem, order0, order, hp) && before[hp].size == n && n >= 1
    requires NoFit(before, order0, m) && forall u :: u in owner ==> u < hp + n
    ensures OnlyTop(mem, order, m, hp + n)
  {
    forall x: nat | x in order && x in mem && mem[x].size >= m
      ensures x + mem[x].size == hp + n
    {
      assert !KeepsSize(before, mem, order0, x);
      var i: nat :| i < |order| && order[i] == x;
      assert i != 0;
      assert order[1..][i - 1] == x;
      assert IsBlock(order, live, x);
      assert x + mem[x].size - 1 in owner;
    }
  }

  lemma PassedNone(mem: Memory, order: seq<nat>, f: nat, nunits: nat)
    requires f < |order|
    ensures Passed(mem, order, f, After(|order|, f), nunits)
  {
  }

  lemma PassedNext(mem: Memory, order: seq<nat>, f: nat, k: nat, nunits: nat)
    requires Passed(mem, order, f, k, nunits) && k != f && order[k] in mem && mem[order[k]].size < nunits
    ensures Passed(mem, order, f, After(|order|, k), nunits)
    ensures Dist(|order|, After(|order|, k), f) < Dist(|order|, k, f)
  {
  }

  lemma ScannedAll(mem: Memory, order: seq<nat>, f: nat, nunits: nat)
    requires Passed(mem, order, f, f, nunits) && order[f] in mem && mem[order[f]].size < nunits
    ensures forall x: nat :: x in order && x in mem ==> mem[x].size < nunits
  {
    forall x: nat | x in order && x in mem
      ensures mem[x].size < nunits
    {
      var j: nat :| j < |order| && order[j] == x;
      assert j != f ==> Dist(|order|, j, f) > 0;
    }
  }

  lemma EntryFacts(mem: Memory, order: seq<nat>, base: nat, live: set<nat>, owner: map<nat, nat>, k: nat)
    requires Linked(mem, order, base, live, owner) && 1 <= k < |order|
    ensures order[k - 1] in order && order[k] in order && base <= order[k - 1] && base < order[k]
    ensures order[k - 1] !in live && order[k] !in live
  {
    LinkOf(mem, order, 0, k - 1);
    LinkOf(mem, order, 0, k);
  }

  ghost function Range(lo: nat, hi: nat): (r: set<nat>)
    ensures forall u: nat :: u in r <==> lo <= u < hi
    decreases hi
  {
    if hi <= lo then {} else Range(lo, hi - 1) + {hi - 1}
  }

  ghost function GrowOwner(owner: map<nat, nat>, hp: nat, n: nat): map<nat, nat> {
    var units := Range(hp, hp + n);
    owner + map u | u in units :: hp
  }

  /** New units above everything else form a new block. */
  lemma GrowOk(mem: Memory, order: seq<nat>, base: nat, live: set<nat>, owner: map<nat, nat>, hp: nat, n: nat)
    requires Linked(mem, order, base, live, owner) && NoTouch(mem, order) && n >= 1 && base < hp && forall u :: u in owner ==> u < hp
    ensures var m := mem[hp := Header(if hp in mem then mem[hp].ptr else 0, n)];
            && Linked(m, order, base, live + {hp}, GrowOwner(owner, hp, n)) && NoTouch(m, order)
            && GrowOwner(owner, hp, n).Keys == owner.Keys + Range(hp, hp + n)
            && hp !in live
  {
    hide Ring; hide Tiled; hide IsBlock; hide NoTouch; hide GrowOwner; hide Ascending;
    var m := mem[hp := Header(if hp in mem then mem[hp].ptr else 0, n)];
    GrowMembers(mem, order, base, live, owner, hp);
    RingFacts(mem, order);
    SameLinks(mem, m, order);
    GrowTiled(mem, order, live, owner, hp, n);
    SubsetNoTouch(mem, m, order, order);
    GrowUnits(owner, hp, n);
  }

  lemma GrowMembers(mem: Memory, order: seq<nat>, base: nat, live: set<nat>, owner: map<nat, nat>, hp: nat)
    requires Linked(mem, order, base, live, owner) && base < hp && forall u :: u in owner ==> u < hp
    ensures hp !in live && hp !in order && !IsBlock(order, live, hp)
    ensures forall x: nat :: IsBlock(order, live + {hp}, x) <==> IsBlock(order, live, x) || x == hp
  {
    BlocksOwned(mem, order, live, owner);
    assert order == [base] + order[1..];
    assert !IsBlock(order, live, hp);
  }

  lemma BlocksOwned(mem: Memory, order: seq<nat>, live: set<nat>, owner: map<nat, nat>)
    requires Tiled(mem, order, live, owner)
    ensures forall x: nat :: IsBlock(order, live, x) ==> x in owner
  {
    forall x: nat | IsBlock(order, live, x)
      ensures x in owner
    {
      assert x <= x < x + mem[x].size;
    }
  }

  lemma GrowTiled(mem: Memory, order: seq<nat>, live: set<nat>, owner: map<nat, nat>, hp: nat, n: nat)
    requires Tiled(mem, order, live, owner) && n >= 1 && (forall u :: u in owner ==> u < hp)
    requires !IsBlock(order, live, hp) && hp !in order
    requires forall x: nat :: IsBlock(order, live + {hp}, x) <==> IsBlock(order, live, x) || x == hp
    ensures Tiled(mem[hp := Header(if hp in mem then mem[hp].ptr else 0, n)], order, live + {hp}, GrowOwner(owner, hp, n))
  {
    hide IsBlock; hide Range;
    var m, o := mem[hp := Header(if hp in mem then mem[hp].ptr else 0, n)], GrowOwner(owner, hp, n);
    GrowUnits(owner, hp, n);
    hide GrowOwner;
    forall x: nat | IsBlock(order, live + {hp}, x)
      ensures x in m && m[x].size >= 1 && forall u: nat :: x <= u < x + m[x].size <==> u in o && o[u] == x
    {
      if x != hp {
        assert IsBlock(order, live, x);
      }
    }
  }

  lemma GrowUnits(owner: map<nat, nat>, hp: nat, n: nat)
    requires forall u :: u in owner ==> u < hp
    ensures var o := GrowOwner(owner, hp, n);
            && (forall u: nat :: u in o <==> u in owner || hp <= u < hp + n)
            && (forall u :: u in o ==> o[u] == if u < hp then owner[u] else hp)
  {
    hide Range;
  }

  lemma LiveIn(mem: Memory, order: seq<nat>, base: nat, live: set<nat>, owner: map<nat, nat>)
    requires Linked(mem, order, base, live, owner)
    ensures forall a :: a in live ==> a in mem && a in owner
  {
    forall a | a in live
      ensures a in mem && a in owner
    {
      assert IsBlock(order, live, a);
    }
  }

  lemma ListAboveBase(mem: Memory, order: seq<nat>, base: nat, live: set<nat>, owner: map<nat, nat>, i: nat)
    requires Linked(mem, order, base, live, owner) && i < |order|
    ensures base <= order[i]
  {
    LinkOf(mem, order, 0, i);
  }

  lemma LiveFacts(mem: Memory, order: seq<nat>, base: nat, live: set<nat>, owner: map<nat, nat>, bp: nat)
    requires Linked(mem, order, base, live, owner) && bp in live
    ensures Ring(mem, order) && Ascending(order) && |order| > 0 && order[0] < bp && bp !in order
    ensures forall a :: a in live ==> a in mem
  {
    assert IsBlock(order, live, bp);
    BlockAboveBase(mem, order, base, live, owner, bp);
  }

  lemma InitOk(mem: Memory, base: nat)
    requires 0 < base
    ensures Linked(mem[base := Header(base, 0)], [base], base, {}, map[])
    ensures NoTouch(mem[base := Header(base, 0)], [base])
  {
  }

  ghost predicate Covers(mem: Memory, order: seq<nat>, live: set<nat>, a: nat, u: nat) {
    IsBlock(order, live, a) && a in mem && a <= u < a + mem[a].size
  }

  /** The units obtained from sbrk are the disjoint union of the free and the live blocks. */
  lemma UnitsPartitioned(mem: Memory, order: seq<nat>, base: nat, live: set<nat>, owner: map<nat, nat>, u: nat)
    requires Linked(mem, order, base, live, owner)
    ensures u in owner <==> exists a: nat :: Covers(mem, order, live, a, u)
    ensures forall a: nat, b: nat :: Covers(mem, order, live, a, u) && Covers(mem, order, live, b, u) ==> a == b
  {
    hide Ring; hide IsBlock;
    if u in owner {
      assert Covers(mem, order, live, owner[u], u);
    }
  }
}
