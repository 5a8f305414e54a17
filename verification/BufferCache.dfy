/** The buffer cache of kernel/bio.c: NBUF buffers on one circular doubly linked list with
    a head node, most recently used first.  Links are indices into the buffer array; the
    head is index NBUF. */
module BufferCache {
  import opened Basics
  import opened Blocks

  const NBUF := 30
  const HEAD := NBUF

  datatype Buf = Buf(valid: bool, dev: nat, blockno: nat, refcnt: int, prev: nat, next: nat, data: Block)

  datatype Found = Found(b: nat) | NoBuffers

  /** The i-th buffer of the list, with the head before the first and after the last. */
  function At(order: seq<nat>, i: int): nat {
    if 0 <= i < |order| then order[i] else HEAD
  }

  /** The links form one cycle: the head, then order, then the head again. */
  ghost predicate Ring(bufs: seq<Buf>, order: seq<nat>) {
    && |bufs| == NBUF + 1
    && (forall i :: 0 <= i < |order| ==> order[i] < NBUF)
    && bufs[HEAD].next == At(order, 0) && bufs[HEAD].prev == At(order, |order| - 1)
    && (forall i {:trigger bufs[order[i]]} :: 0 <= i < |order| ==>
          bufs[order[i]].next == At(order, i + 1) && bufs[order[i]].prev == At(order, i - 1))
  }

  predicate Holds(b: Buf, dev: nat, blockno: nat) {
    b.dev == dev && b.blockno == blockno
  }

  /** No block of a real device is in two buffers. */
  ghost predicate Unique(bufs: seq<Buf>) {
    forall i, j :: 0 <= i < j < NBUF && NBUF <= |bufs| && bufs[i].dev != 0 ==>
        !Holds(bufs[j], bufs[i].dev, bufs[i].blockno)
  }

  /** Later in the list means used longer ago. */
  ghost predicate ByAge(order: seq<nat>, used: seq<nat>) {
    && (forall i :: 0 <= i < |order| ==> order[i] < |used|)
    && (forall i, j :: 0 <= i < j < |order| ==> used[order[i]] > used[order[j]])
  }

  // ---------- Relinking ----------

  /** Links aside, the buffers are the same. */
  ghost predicate SameBuf(a: Buf, b: Buf) {
    a == b.(prev := a.prev, next := a.next)
  }

  ghost predicate SameBufs(s: seq<Buf>, t: seq<Buf>) {
    |s| == |t| && forall i :: 0 <= i < |s| ==> SameBuf(s[i], t[i])
  }

  /** b->next->prev = b->prev; b->prev->next = b->next */
  function Unlink(bufs: seq<Buf>, b: nat): (r: seq<Buf>)
    requires b < |bufs| && bufs[b].next < |bufs| && bufs[b].prev < |bufs|
  {
    var s := bufs[bufs[b].next := bufs[bufs[b].next].(prev := bufs[b].prev)];
    s[bufs[b].prev := s[bufs[b].prev].(next := bufs[b].next)]
  }

  /** b->next = head.next; b->prev = &head; head.next->prev = b; head.next = b */
  function PushFront(bufs: seq<Buf>, b: nat): (r: seq<Buf>)
    requires b < HEAD < |bufs| && bufs[HEAD].next < |bufs|
  {
    var first := bufs[HEAD].next;
    var s := bufs[b := bufs[b].(next := first, prev := HEAD)];
    var t := s[first := s[first].(prev := b)];
    t[HEAD := t[HEAD].(next := b)]
  }

  function Without(order: seq<nat>, k: nat): (o: seq<nat>)
    requires k < |order|
    ensures |o| == |order| - 1
  {
    order[..k] + order[k + 1..]
  }

  lemma UnlinkAt(bufs: seq<Buf>, b: nat, x: nat)
    requires b < |bufs| && bufs[b].next < |bufs| && bufs[b].prev < |bufs| && x < |bufs|
    ensures var r := Unlink(bufs, b);
            && |r| == |bufs|
            && r[x].next == (if x == bufs[b].prev then bufs[b].next else bufs[x].next)
            && r[x].prev == (if x == bufs[b].next then bufs[b].prev else bufs[x].prev)
            && SameBuf(r[x], bufs[x])
  {
  }

  lemma WithoutAt(order: seq<nat>, k: nat, i: int)
    requires k < |order| && -1 <= i <= |order| - 1
    ensures At(Without(order, k), i) == At(order, if i < k then i else i + 1)
  {
  }

  /** Only the neighbours of the unlinked buffer change their links. */
  lemma UnlinkNeighbours(bufs: seq<Buf>, order: seq<nat>, k: nat, j: nat)
    requires Ring(bufs, order) && Distinct(order) && k < |order| && j < |order| && j != k
    ensures var r := Unlink(bufs, order[k]);
            && |r| == |bufs|
            && r[order[j]].next == At(order, if j + 1 == k then k + 1 else j + 1)
            && r[order[j]].prev == At(order, if j == k + 1 then k - 1 else j - 1)
  {
    hide Unlink;
    UnlinkAt(bufs, order[k], order[j]);
    assert bufs[order[k]].next == At(order, k + 1) && bufs[order[k]].prev == At(order, k - 1);
    assert bufs[order[j]].next == At(order, j + 1) && bufs[order[j]].prev == At(order, j - 1);
  }

  lemma UnlinkRing(bufs: seq<Buf>, order: seq<nat>, k: nat)
    requires Ring(bufs, order) && Distinct(order) && k < |order|
    ensures bufs[order[k]].next <= HEAD && bufs[order[k]].prev <= HEAD
    ensures Ring(Unlink(bufs, order[k]), Without(order, k))
  {
    hide Unlink; hide Without; hide Distinct;
    var b := order[k];
    var o, r := Without(order, k), Unlink(bufs, b);
    assert bufs[b].next == At(order, k + 1) && bufs[b].prev == At(order, k - 1);
    UnlinkAt(bufs, b, HEAD);
    WithoutAt(order, k, 0);
    WithoutAt(order, k, |o| - 1);
    forall i: nat | i < |o|
      ensures o[i] < NBUF && r[o[i]].next == At(o, i + 1) && r[o[i]].prev == At(o, i - 1)
    {
      UnlinkLinks(bufs, order, k, i);
    }
  }

  lemma UnlinkLinks(bufs: seq<Buf>, order: seq<nat>, k: nat, i: nat)
    requires Ring(bufs, order) && Distinct(order) && k < |order| && i < |order| - 1
    ensures bufs[order[k]].next <= HEAD && bufs[order[k]].prev <= HEAD
    ensures var o, r := Without(order, k), Unlink(bufs, order[k]);
            o[i] < NBUF && NBUF <= |r| && r[o[i]].next == At(o, i + 1) && r[o[i]].prev == At(o, i - 1)
  {
    hide Unlink; hide Without;
    assert bufs[order[k]].next == At(order, k + 1) && bufs[order[k]].prev == At(order, k - 1);
    WithoutAt(order, k, i - 1);
    WithoutAt(order, k, i);
    WithoutAt(order, k, i + 1);
    assert Without(order, k)[i] == At(Without(order, k), i);
    UnlinkNeighbours(bufs, order, k, if i < k then i else i + 1);
  }

  lemma PushRing(bufs: seq<Buf>, order: seq<nat>, b: nat)
    requires Ring(bufs, order) && Distinct(order) && b < NBUF && b !in order
    ensures bufs[HEAD].next <= HEAD
    ensures Ring(PushFront(bufs, b), [b] + order)
  {
    var o, r := [b] + order, PushFront(bufs, b);
    forall i | 0 <= i < |o|
      ensures r[o[i]].next == At(o, i + 1) && r[o[i]].prev == At(o, i - 1)
    {
      if i > 0 {
        assert o[i] == order[i - 1] && bufs[order[i - 1]].next == At(order, i) && bufs[order[i - 1]].prev == At(order, i - 2);
      }
    }
  }

  lemma PushSame(bufs: seq<Buf>, b: nat)
    requires b < HEAD < |bufs| && bufs[HEAD].next < |bufs|
    ensures SameBufs(PushFront(bufs, b), bufs)
  {
  }

  /** Unlinking a buffer and pushing it back moves it to the front and keeps the ring. */
  lemma MoveRing(bufs: seq<Buf>, order: seq<nat>, k: nat)
    requires Ring(bufs, order) && Distinct(order) && k < |order|
    ensures bufs[order[k]].next <= HEAD && bufs[order[k]].prev <= HEAD
    ensures var u := Unlink(bufs, order[k]);
            && |u| == NBUF + 1 && u[HEAD].next <= HEAD
            && Ring(PushFront(u, order[k]), [order[k]] + Without(order, k)) && SameBufs(PushFront(u, order[k]), bufs)
  {
    hide Unlink; hide PushFront;
    UnlinkRing(bufs, order, k);
    var u := Unlink(bufs, order[k]);
    PushRing(u, Without(order, k), order[k]);
    forall x: nat | x < |bufs|
      ensures |u| == |bufs| && SameBuf(u[x], bufs[x])
    {
      UnlinkAt(bufs, order[k], x);
    }
    PushSame(u, order[k]);
  }

  // ---------- The cache ----------

  /** The buffers, the list order (most recent first) and the time each was last used. */
  ghost predicate CacheOk(bufs: seq<Buf>, order: seq<nat>, used: seq<nat>, clock: nat) {
    && |bufs| == NBUF + 1 && Ring(bufs, order) && Distinct(order) && |order| == NBUF
    && (forall b: nat :: b < NBUF ==> b in order)
    && Unique(bufs) && |used| == NBUF && ByAge(order, used) && (forall b :: 0 <= b < NBUF ==> used[b] < clock)
  }

  /** The buffer bget must recycle: unreferenced, and unused for longer than any other
      unreferenced one. */
  ghost predicate Oldest(bufs: seq<Buf>, used: seq<nat>, b: nat) {
    && b < NBUF <= |bufs| && NBUF == |used| && bufs[b].refcnt == 0
    && forall c :: 0 <= c < NBUF && bufs[c].refcnt == 0 && c != b ==> used[b] < used[c]
  }

  ghost predicate Cached(bufs: seq<Buf>, dev: nat, blockno: nat) {
    exists b: nat :: b < NBUF <= |bufs| && Holds(bufs[b], dev, blockno)
  }

  // ---------- Walking the list ----------

  /** Following next from the head visits order from the front, following prev from the back. */
  lemma WalkAt(bufs: seq<Buf>, order: seq<nat>, used: seq<nat>, clock: nat, i: int)
    requires CacheOk(bufs, order, used, clock) && -1 <= i <= NBUF
    ensures |bufs| == NBUF + 1 && |order| == NBUF == |used| && At(order, i) <= HEAD
    ensures At(order, i) == HEAD <==> i == -1 || i == NBUF
    ensures i < NBUF ==> bufs[At(order, i)].next == At(order, i + 1)
    ensures 0 <= i ==> bufs[At(order, i)].prev == At(order, i - 1)
  {
    hide Unique; hide ByAge;
    if 0 <= i < NBUF {
      assert bufs[order[i]].next == At(order, i + 1);
    }
  }

  ghost predicate NoneHolds(bufs: seq<Buf>, order: seq<nat>, k: nat, dev: nat, blockno: nat) {
    forall j :: 0 <= j < k && k <= |order| ==> order[j] < |bufs| && !Holds(bufs[order[j]], dev, blockno)
  }

  ghost predicate AllBusy(bufs: seq<Buf>, order: seq<nat>, k: int) {
    forall j :: 0 <= j && k < j < |order| ==> order[j] < |bufs| && bufs[order[j]].refcnt != 0
  }

  lemma ScannedAll(bufs: seq<Buf>, order: seq<nat>, used: seq<nat>, clock: nat, dev: nat, blockno: nat)
    requires CacheOk(bufs, order, used, clock)
    ensures NoneHolds(bufs, order, NBUF, dev, blockno) ==> !Cached(bufs, dev, blockno)
    ensures AllBusy(bufs, order, -1) ==> forall b :: 0 <= b < NBUF ==> bufs[b].refcnt != 0
  {
    hide Ring; hide Unique; hide ByAge;
    if NoneHolds(bufs, order, NBUF, dev, blockno) {
      forall b: nat | b < NBUF
        ensures !Holds(bufs[b], dev, blockno)
      {
        assert b in order;
      }
    }
    if AllBusy(bufs, order, -1) {
      forall b: nat | b < NBUF
        ensures bufs[b].refcnt != 0
      {
        assert b in order;
      }
    }
  }

  /** The last unreferenced buffer of the list is the oldest. */
  lemma LastFreeIsOldest(bufs: seq<Buf>, order: seq<nat>, used: seq<nat>, clock: nat, i: nat)
    requires CacheOk(bufs, order, used, clock) && i < NBUF && bufs[order[i]].refcnt == 0 && AllBusy(bufs, order, i)
    ensures Oldest(bufs, used, order[i])
  {
    hide Ring; hide Unique;
    forall c: nat | c < NBUF && bufs[c].refcnt == 0 && c != order[i]
      ensures used[order[i]] < used[c]
    {
      assert c in order;
      var j :| 0 <= j < |order| && order[j] == c;
      assert j < i;
    }
  }

  /** Giving buffer b new contents that no other buffer holds. */
  lemma RetagOk(bufs: seq<Buf>, order: seq<nat>, used: seq<nat>, clock: nat, b: nat, x: Buf)
    requires CacheOk(bufs, order, used, clock) && b < NBUF && x.prev == bufs[b].prev && x.next == bufs[b].next
    requires Holds(x, bufs[b].dev, bufs[b].blockno) || !Cached(bufs, x.dev, x.blockno)
    ensures CacheOk(bufs[b := x], order, used, clock)
  {
    hide ByAge;
    var r := bufs[b := x];
    assert Ring(r, order) by {
      forall i | 0 <= i < |order|
        ensures r[order[i]].next == At(order, i + 1) && r[order[i]].prev == At(order, i - 1)
      {
        assert bufs[order[i]].next == At(order, i + 1);
      }
    }
    assert Unique(r) by {
      hide Ring;
      forall i, j | 0 <= i < j < NBUF && r[i].dev != 0
        ensures !Holds(r[j], r[i].dev, r[i].blockno)
      {
        assert bufs[i].dev != 0 ==> !Holds(bufs[j], bufs[i].dev, bufs[i].blockno);
        if i == b && !Holds(x, bufs[b].dev, bufs[b].blockno) {
          assert !Holds(bufs[j], x.dev, x.blockno);
        } else if j == b && !Holds(x, bufs[b].dev, bufs[b].blockno) {
          assert !Holds(bufs[i], x.dev, x.blockno);
        }
      }
    }
  }

  /** Where an entry of the order comes from when the k-th has moved to the front. */
  lemma FrontAt(order: seq<nat>, k: nat, i: nat)
    requires k < |order| && i < |order|
    ensures ([order[k]] + Without(order, k))[i] == order[if i == 0 then k else if i <= k then i - 1 else i]
  {
  }

  lemma FrontPair(order: seq<nat>, used: seq<nat>, clock: nat, k: nat, i: nat, j: nat)
    requires Distinct(order) && k < |order| && i < j < |order| && ByAge(order, used) && forall b :: 0 <= b < |used| ==>
              used[b] < clock
    ensures var o, u := [order[k]] + Without(order, k), used[order[k] := clock];
            o[i] != o[j] && o[i] < |used| && o[j] < |used| && u[o[i]] > u[o[j]]
  {
    FrontAt(order, k, i);
    FrontAt(order, k, j);
    var j' := if j <= k then j - 1 else j;
    if i > 0 {
      var i' := if i <= k then i - 1 else i;
      assert used[order[i']] > used[order[j']];
    }
  }

  /** Moving an entry to the front of the order, with the newest time, keeps it an order. */
  lemma FrontOrder(order: seq<nat>, used: seq<nat>, clock: nat, k: nat)
    requires Distinct(order) && |order| == NBUF && (forall b: nat :: b < NBUF ==> b in order) && k < NBUF
    requires |used| == NBUF && ByAge(order, used) && (forall b :: 0 <= b < NBUF ==> used[b] < clock)
    ensures var o := [order[k]] + Without(order, k);
            && Distinct(o) && |o| == NBUF && (forall b: nat :: b < NBUF ==> b in o) && ByAge(o, used[order[k] := clock])
  {
    hide Without;
    var o, u := [order[k]] + Without(order, k), used[order[k] := clock];
    forall i, j | 0 <= i < j < |o|
      ensures o[i] != o[j] && o[i] < NBUF && o[j] < NBUF && u[o[i]] > u[o[j]]
    {
      FrontPair(order, used, clock, k, i, j);
    }
    forall i | 0 <= i < |o|
      ensures o[i] < |u|
    {
      FrontAt(order, k, i);
    }
    forall c: nat | c < NBUF
      ensures c in o
    {
      assert c in order;
      var j :| 0 <= j < |order| && order[j] == c;
      FrontAt(order, k, if j == k then 0 else if j < k then j + 1 else j);
    }
  }

  lemma MoveOk(bufs: seq<Buf>, order: seq<nat>, used: seq<nat>, clock: nat, b: nat) returns (o: seq<nat>)
    requires CacheOk(bufs, order, used, clock) && b < NBUF
    ensures bufs[b].next <= HEAD && bufs[b].prev <= HEAD && Unlink(bufs, b)[HEAD].next <= HEAD < |Unlink(bufs, b)|
    ensures CacheOk(PushFront(Unlink(bufs, b), b), o, used[b := clock], clock + 1)
    ensures SameBufs(PushFront(Unlink(bufs, b), b), bufs)
    ensures |o| == NBUF && o[0] == b
  {
    hide Ring; hide Unlink; hide PushFront; hide ByAge; hide Distinct; hide Without;
    assert b in order;
    var k: nat :| k < |order| && order[k] == b;
    o := [b] + Without(order, k);
    MoveRing(bufs, order, k);
    SameUnique(bufs, PushFront(Unlink(bufs, b), b));
    FrontOrder(order, used, clock, k);
  }

  lemma SameUnique(s: seq<Buf>, t: seq<Buf>)
    requires Unique(s) && SameBufs(t, s) && |s| == NBUF + 1
    ensures Unique(t)
  {
    forall i, j | 0 <= i < j < NBUF && t[i].dev != 0
      ensures !Holds(t[j], t[i].dev, t[i].blockno)
    {
      assert SameBuf(t[i], s[i]) && SameBuf(t[j], s[j]);
    }
  }

  ghost predicate Reversed(order: seq<nat>, n: nat) {
    |order| == n && forall i :: 0 <= i < n ==> order[i] == n - 1 - i
  }

  ghost predicate AllZero(bufs: seq<Buf>) {
    |bufs| == NBUF + 1 && forall b :: 0 <= b < NBUF ==> !bufs[b].valid && bufs[b].dev == 0 && bufs[b].refcnt == 0
  }

  lemma InitialOk(bufs: seq<Buf>, order: seq<nat>)
    requires Ring(bufs, order) && Reversed(order, NBUF) && AllZero(bufs)
    ensures CacheOk(bufs, order, seq(NBUF, i => i), NBUF)
  {
    hide Ring;
    forall b: nat | b < NBUF
      ensures b in order
    {
      assert order[NBUF - 1 - b] == b;
    }
  }

  class Cache {
    var bufs: seq<Buf>
    ghost var order: seq<nat>
    ghost var used: seq<nat>
    ghost var clock: nat

    ghost predicate Valid()
      reads this
    {
      CacheOk(bufs, order, used, clock)
    }

    /** binit on zeroed memory. */
    constructor (zero: Block)
      ensures Valid()
      ensures forall b :: 0 <= b < NBUF ==> !bufs[b].valid && bufs[b].dev == 0 && bufs[b].refcnt == 0
    {
      bufs := seq(NBUF + 1, _ => Buf(false, 0, 0, 0, HEAD, HEAD, zero));
      order, used, clock := [], seq(NBUF, i => i), NBUF;
      new;
      var b := 0;
      while b < NBUF
        invariant 0 <= b <= NBUF && Ring(bufs, order) && Reversed(order, b) && AllZero(bufs)
        invariant used == seq(NBUF, i => i) && clock == NBUF
      {
        PushRing(bufs, order, b);
        PushSame(bufs, b);
        Push(b);
        order := [b] + order;
        b := b + 1;
      }
      InitialOk(bufs, order);
    }

    /** The four assignments that put a buffer right after the head. */
    method Push(b: nat)
      requires b < HEAD < |bufs| && bufs[HEAD].next < |bufs|
      modifies this`bufs
      ensures bufs == PushFront(old(bufs), b)
    {
      var first := bufs[HEAD].next;
      bufs := bufs[b := bufs[b].(next := first, prev := HEAD)];
      bufs := bufs[first := bufs[first].(prev := b)];
      bufs := bufs[HEAD := bufs[HEAD].(next := b)];
    }

    /** bget, under bcache.lock: a cached block gets one more reference; otherwise the
        least recently used unreferenced buffer is recycled, and no other. */
    method Bget(dev: nat, blockno: nat) returns (r: Found)
      requires Valid()
      modifies this`bufs
      ensures Valid()
      ensures r.NoBuffers? <==> !Cached(old(bufs), dev, blockno) && forall b :: 0 <= b < NBUF ==>
                old(bufs)[b].refcnt != 0
      ensures r.NoBuffers? ==> bufs == old(bufs)
      ensures r.Found? && Cached(old(bufs), dev, blockno) ==>
                (r.b < NBUF && Holds(old(bufs)[r.b], dev, blockno)
                 && bufs == old(bufs)[r.b := old(bufs)[r.b].(refcnt := old(bufs)[r.b].refcnt + 1)])
      ensures r.Found? && !Cached(old(bufs), dev, blockno) ==>
                (Oldest(old(bufs), used, r.b)
                 && bufs == old(bufs)[r.b := old(bufs)[r.b].(dev := dev, blockno := blockno, valid := false, refcnt := 1)])
    {
      hide CacheOk; hide Oldest; hide Cached; hide NoneHolds; hide AllBusy; hide At;
      WalkAt(bufs, order, used, clock, -1);
      WalkAt(bufs, order, used, clock, 0);
      var b := bufs[HEAD].next;
      ghost var i := 0;
      StartScan(bufs, order, dev, blockno);
      while b != HEAD
        invariant 0 <= i <= NBUF && b == At(order, i) && bufs == old(bufs) && NoneHolds(bufs, order, i, dev, blockno)
        invariant b <= HEAD && (b == HEAD <==> i == NBUF)
        decreases NBUF - i
      {
        WalkAt(bufs, order, used, clock, i);
        WalkAt(bufs, order, used, clock, i + 1);
        AtIs(order, i);
        if bufs[b].dev == dev && bufs[b].blockno == blockno {
          HitCached(bufs, b);
          RetagOk(bufs, order, used, clock, b, bufs[b].(refcnt := bufs[b].refcnt + 1));
          bufs := bufs[b := bufs[b].(refcnt := bufs[b].refcnt + 1)];
          return Found(b);
        }
        ScanOn(bufs, order, i, dev, blockno);
        b := bufs[b].next;
        i := i + 1;
      }
      ScannedAll(bufs, order, used, clock, dev, blockno);
      WalkAt(bufs, order, used, clock, NBUF);
      WalkAt(bufs, order, used, clock, NBUF - 1);
      b := bufs[HEAD].prev;
      i := NBUF - 1;
      while b != HEAD
        invariant -1 <= i < NBUF && b == At(order, i) && bufs == old(bufs) && AllBusy(bufs, order, i)
        invariant b <= HEAD && (b == HEAD <==> i == -1)
        decreases i
      {
        WalkAt(bufs, order, used, clock, i);
        WalkAt(bufs, order, used, clock, i - 1);
        AtIs(order, i);
        if bufs[b].refcnt == 0 {
          LastFreeIsOldest(bufs, order, used, clock, i);
          RetagOk(bufs, order, used, clock, b, bufs[b].(dev := dev, blockno := blockno, valid := false, refcnt := 1));
          bufs := bufs[b := bufs[b].(dev := dev, blockno := blockno, valid := false, refcnt := 1)];
          return Found(b);
        }
        BusyOn(bufs, order, i);
        b := bufs[b].prev;
        i := i - 1;
      }
      return NoBuffers;
    }

    /** bread: bget, then read the disk if the buffer holds nothing valid. */
    method Bread(dev: nat, blockno: nat, disk: map<(nat, nat), Block>) returns (r: Found)
      requires Valid() && (dev, blockno) in disk
      modifies this`bufs
      ensures Valid()
      ensures r.Found? ==> r.b < NBUF && Holds(bufs[r.b], dev, blockno) && bufs[r.b].valid && bufs[r.b].refcnt > old(bufs)[r.b].refcnt
      ensures r.Found? ==>
                (bufs[r.b].data == if Cached(old(bufs), dev, blockno) && old(bufs)[r.b].valid then old(bufs)[r.b].data
                                   else disk[(dev, blockno)])
      ensures r.Found? ==> forall b :: 0 <= b <= NBUF && b != r.b ==> bufs[b] == old(bufs)[b]
      ensures r.Found? && !Cached(old(bufs), dev, blockno) ==> Oldest(old(bufs), used, r.b)
      ensures r.NoBuffers? ==> bufs == old(bufs)
    {
      r := Bget(dev, blockno);
      if r.Found? && !bufs[r.b].valid {
        RetagOk(bufs, order, used, clock, r.b, bufs[r.b].(data := disk[(dev, blockno)], valid := true));
        bufs := bufs[r.b := bufs[r.b].(data := disk[(dev, blockno)], valid := true)];
      }
    }

    /** brelse: a buffer that loses its last reference moves to the front of the list. */
    method Brelse(b: nat)
      requires Valid() && b < NBUF && bufs[b].refcnt > 0
      modifies this
      ensures Valid()
      ensures var unref := old(bufs)[b := old(bufs)[b].(refcnt := old(bufs)[b].refcnt - 1)];
              && SameBufs(bufs, unref)
              && (if unref[b].refcnt == 0 then used == old(used)[b := old(clock)] && order[0] == b
                  else used == old(used) && order == old(order))
    {
      hide CacheOk; hide PushFront; hide Unlink;
      WalkAt(bufs, order, used, clock, 0);
      RetagOk(bufs, order, used, clock, b, bufs[b].(refcnt := bufs[b].refcnt - 1));
      bufs := bufs[b := bufs[b].(refcnt := bufs[b].refcnt - 1)];
      if bufs[b].refcnt == 0 {
        ghost var o := MoveOk(bufs, order, used, clock, b);
        ghost var before := bufs;
        var next, prev := bufs[b].next, bufs[b].prev;
        bufs := bufs[next := bufs[next].(prev := prev)];
        bufs := bufs[prev := bufs[prev].(next := next)];
        assert bufs == Unlink(before, b) by { UnlinkIs(before, b); }
        Push(b);
        order, used, clock := o, used[b := clock], clock + 1;
      }
    }

    method Bpin(b: nat)
      requires Valid() && b < NBUF
      modifies this`bufs
      ensures Valid() && bufs == old(bufs)[b := old(bufs)[b].(refcnt := old(bufs)[b].refcnt + 1)]
    {
      RetagOk(bufs, order, used, clock, b, bufs[b].(refcnt := bufs[b].refcnt + 1));
      bufs := bufs[b := bufs[b].(refcnt := bufs[b].refcnt + 1)];
    }

    method Bunpin(b: nat)
      requires Valid() && b < NBUF && bufs[b].refcnt > 0
      modifies this`bufs
      ensures Valid() && bufs == old(bufs)[b := old(bufs)[b].(refcnt := old(bufs)[b].refcnt - 1)]
    {
      RetagOk(bufs, order, used, clock, b, bufs[b].(refcnt := bufs[b].refcnt - 1));
      bufs := bufs[b := bufs[b].(refcnt := bufs[b].refcnt - 1)];
    }
  }

  // ---------- Loop steps ----------

  lemma StartScan(bufs: seq<Buf>, order: seq<nat>, dev: nat, blockno: nat)
    ensures NoneHolds(bufs, order, 0, dev, blockno) && AllBusy(bufs, order, |order| - 1)
  {
  }

  lemma AtIs(order: seq<nat>, i: nat)
    requires i < |order|
    ensures At(order, i) == order[i]
  {
  }

  lemma HitCached(bufs: seq<Buf>, b: nat)
    requires b < NBUF <= |bufs|
    ensures Cached(bufs, bufs[b].dev, bufs[b].blockno)
  {
    assert Holds(bufs[b], bufs[b].dev, bufs[b].blockno);
  }

  lemma ScanOn(bufs: seq<Buf>, order: seq<nat>, i: nat, dev: nat, blockno: nat)
    requires NoneHolds(bufs, order, i, dev, blockno) && i < |order| && order[i] < |bufs|
    requires !Holds(bufs[order[i]], dev, blockno)
    ensures NoneHolds(bufs, order, i + 1, dev, blockno)
  {
  }

  lemma BusyOn(bufs: seq<Buf>, order: seq<nat>, i: nat)
    requires AllBusy(bufs, order, i) && i < |order| && order[i] < |bufs| && bufs[order[i]].refcnt != 0
    ensures AllBusy(bufs, order, i - 1)
  {
  }

  lemma UnlinkIs(bufs: seq<Buf>, b: nat)
    requires b < |bufs| && bufs[b].next < |bufs| && bufs[b].prev < |bufs|
    ensures var next, prev := bufs[b].next, bufs[b].prev;
            var s := bufs[next := bufs[next].(prev := prev)];
            Unlink(bufs, b) == s[prev := s[prev].(next := next)]
  {
  }
}
