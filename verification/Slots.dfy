/** The 64 slots, the list of full fast pages, and the bitmap over the slots
    (memory/ummalloc_data.h, memory/ummalloc_decl.h). */
module Slots {
  import opened Blocks
  import opened SlotIndex
  import opened IntrusiveList

  const SLOTS := 64
  const FULL := 64          // fast_full
  const HEADS := 65         // list heads are nodes 0..64, chunks have larger addresses

  /** No chunk is in two lists. */
  ghost predicate Apart(lists: seq<seq<nat>>) {
    forall i, j, x :: 0 <= i < |lists| && 0 <= j < |lists| && i != j && x in lists[i] ==> x !in lists[j]
  }

  ghost predicate ListsOk(links: Links, lists: seq<seq<nat>>) {
    && |lists| == HEADS && Apart(lists)
    && (forall i :: 0 <= i < HEADS ==> IsRing(links, i, lists[i]))
    && (forall i, x :: 0 <= i < HEADS && x in lists[i] ==> HEADS <= x)
  }

  /** Bit i tells whether slot i holds a chunk. */
  ghost predicate BitsOk(bitmap: nat, lists: seq<seq<nat>>) {
    |lists| == HEADS && bitmap < WORD && forall i :: 2 <= i < SLOTS ==> (Bit(bitmap, i) <==> lists[i] != [])
  }

  ghost predicate InSome(lists: seq<seq<nat>>, a: nat) {
    exists i :: 0 <= i < |lists| && a in lists[i]
  }

  ghost function Without(s: seq<nat>, k: nat): (t: seq<nat>)
    requires k < |s|
  {
    s[..k] + s[k + 1..]
  }

  class SlotTable {
    var links: Links
    var bitmap: nat
    ghost var lists: seq<seq<nat>>

    ghost predicate Valid()
      reads this
    {
      ListsOk(links, lists) && BitsOk(bitmap, lists)
    }

    /** mm_list_init */
    constructor ()
      ensures Valid() && forall i :: 0 <= i < HEADS ==> lists[i] == []
    {
      links, bitmap, lists := map[], 0, seq(HEADS, _ => []);
      new;
      var i := 0;
      while i < HEADS
        invariant 0 <= i <= HEADS && bitmap == 0 && lists == seq(HEADS, _ => [])
        invariant forall j :: 0 <= j < i ==> IsRing(links, j, [])
      {
        ghost var before := links;
        links := links[i := Link(i, i)];
        forall j | 0 <= j < i
          ensures IsRing(links, j, [])
        {
          RingKept(before, links, j, []);
        }
        i := i + 1;
      }
      forall j | 2 <= j < SLOTS
        ensures !Bit(0, j)
      {
        ZeroBits(0, j);
      }
    }

    /** list_empty */
    method Empty(i: nat) returns (empty: bool)
      requires Valid() && i < HEADS
      ensures empty <==> lists[i] == []
    {
      assert Joined(links, Node(i, lists[i], 0), Node(i, lists[i], 1));
      assert lists[i] != [] ==> lists[i][0] in lists[i];
      empty := links[i].next == i;
    }

    /** list->next */
    method First(i: nat) returns (a: nat)
      requires Valid() && i < HEADS
      ensures a == if lists[i] == [] then i else lists[i][0]
    {
      assert Joined(links, Node(i, lists[i], 0), Node(i, lists[i], 1));
      a := links[i].next;
    }

    /** head->next, the list head itself at the end. */
    method After(a: nat, ghost i: nat, ghost k: nat) returns (b: nat)
      requires Valid() && i < HEADS && k < |lists[i]| && lists[i][k] == a
      ensures b == if k + 1 < |lists[i]| then lists[i][k + 1] else i
    {
      assert Joined(links, Node(i, lists[i], k + 1), Node(i, lists[i], k + 2));
      b := links[a].next;
    }

    /** free_chunk's list_push and bitmap update. */
    method Insert(i: nat, a: nat)
      requires Valid() && 2 <= i < SLOTS && HEADS <= a && !InSome(lists, a)
      modifies this
      ensures Valid() && lists == old(lists)[i := [a] + old(lists)[i]]
    {
      PushList(i, a);
      BitsInsert(bitmap, old(lists), i, a);
      bitmap := SetBit(bitmap, i);
    }

    /** list_push */
    method PushList(i: nat, a: nat)
      requires ListsOk(links, lists) && i < HEADS && HEADS <= a && !InSome(lists, a)
      modifies this`links, this`lists
      ensures ListsOk(links, lists) && lists == old(lists)[i := [a] + old(lists)[i]]
    {
      hide IsRing; hide Joined;
      if a !in links {
        FreshNode(links, lists, a);
        links := links[a := Link(0, 0)];
      }
      PushedList(links, lists, i, a);
      links := NodeLink(links, a, links[i].next);
      links := NodeLink(links, i, a);
      lists := lists[i := [a] + lists[i]];
    }

    /** safe_remove and try_safe_remove: the k-th node of slot i. */
    method Remove(a: nat, i: nat, ghost k: nat)
      requires Valid() && 2 <= i < SLOTS && k < |lists[i]| && lists[i][k] == a
      modifies this
      ensures Valid() && lists == old(lists)[i := Without(old(lists)[i], k)]
    {
      hide IsRing; hide Joined;
      ErasedList(links, lists, i, k);
      BitsRemove(bitmap, lists, i, k);
      var p, n := links[a].prev, links[a].next;
      links := NodeLink(links, p, n);
      lists := lists[i := Without(lists[i], k)];
      if p == n {
        bitmap := ClearBit(bitmap, i);
      }
    }

    /** list_pop */
    method PopList(i: nat) returns (a: nat)
      requires ListsOk(links, lists) && i < HEADS && lists[i] != []
      modifies this`links, this`lists
      ensures a == old(lists)[i][0] && ListsOk(links, lists) && lists == old(lists)[i := old(lists)[i][1..]]
    {
      assert Joined(links, Node(i, lists[i], 0), Node(i, lists[i], 1));
      hide IsRing; hide Joined;
      ErasedList(links, lists, i, 0);
      assert Without(lists[i], 0) == lists[i][1..];
      a := links[i].next;
      links := NodeLink(links, i, links[a].next);
      lists := lists[i := lists[i][1..]];
    }

    /** list_push and list_pop on the lists of fast pages, which have no bit. */
    method Park(i: nat, a: nat)
      requires Valid() && (i == 1 || i == FULL) && HEADS <= a && !InSome(lists, a)
      modifies this`links, this`lists
      ensures Valid() && lists == old(lists)[i := [a] + old(lists)[i]]
    {
      hide ListsOk;
      PushList(i, a);
    }

    method Unpark(i: nat) returns (a: nat)
      requires Valid() && (i == 1 || i == FULL) && lists[i] != []
      modifies this`links, this`lists
      ensures Valid() && a == old(lists)[i][0] && lists == old(lists)[i := old(lists)[i][1..]]
    {
      hide ListsOk;
      a := PopList(i);
    }

    /** list_extract */
    method Extract(i: nat) returns (a: nat)
      requires Valid() && 2 <= i < SLOTS && lists[i] != []
      modifies this
      ensures Valid() && a == old(lists)[i][0] && lists == old(lists)[i := old(lists)[i][1..]]
    {
      BitsRemove(bitmap, lists, i, 0);
      assert Without(lists[i], 0) == lists[i][1..];
      a := PopList(i);
      assert Joined(links, Node(i, lists[i], 0), Node(i, lists[i], 1));
      assert lists[i] != [] ==> lists[i][0] in lists[i];
      if links[i].next == i {
        bitmap := ClearBit(bitmap, i);
      }
    }
  }

  lemma FreshNode(links: Links, lists: seq<seq<nat>>, a: nat)
    requires ListsOk(links, lists) && a !in links
    ensures ListsOk(links[a := Link(0, 0)], lists)
  {
    forall i | 0 <= i < HEADS
      ensures IsRing(links[a := Link(0, 0)], i, lists[i])
    {
      RingKept(links, links[a := Link(0, 0)], i, lists[i]);
    }
  }

  lemma PushedList(links: Links, lists: seq<seq<nat>>, i: nat, a: nat)
    requires ListsOk(links, lists) && i < HEADS && HEADS <= a && !InSome(lists, a) && a in links
    ensures i in links && links[i].next in links
    ensures ListsOk(NodeLink(NodeLink(links, a, links[i].next), i, a), lists[i := [a] + lists[i]])
  {
    assert a !in lists[i];
    PushRing(links, i, lists[i], a);
    var n := links[i].next;
    assert Joined(links, Node(i, lists[i], 0), Node(i, lists[i], 1));
    assert n == i || n in lists[i];
    var links', lists' := NodeLink(NodeLink(links, a, n), i, a), lists[i := [a] + lists[i]];
    forall j | 0 <= j < HEADS
      ensures IsRing(links', j, lists'[j])
    {
      if j != i {
        assert a !in lists[j];
        RingKept(links, links', j, lists[j]);
      }
    }
    hide IsRing;
    forall j, k, x | 0 <= j < HEADS && 0 <= k < HEADS && j != k && x in lists'[j]
      ensures x !in lists'[k]
    {
      assert x == a ==> x !in lists[k];
    }
  }

  lemma ErasedList(links: Links, lists: seq<seq<nat>>, i: nat, k: nat)
    requires ListsOk(links, lists) && i < HEADS && k < |lists[i]|
    ensures var a := lists[i][k];
            && a in links && var p, n := links[a].prev, links[a].next;
            && p in links && n in links && p == Node(i, lists[i], k) && (p == n <==> Without(lists[i], k) == [])
            && ListsOk(NodeLink(links, p, n), lists[i := Without(lists[i], k)])
  {
    var a := lists[i][k];
    EraseRing(links, i, lists[i], k);
    var p, n := links[a].prev, links[a].next;
    assert (p == i || p in lists[i]) && (n == i || n in lists[i]);
    var links', lists' := NodeLink(links, p, n), lists[i := Without(lists[i], k)];
    forall j | 0 <= j < HEADS
      ensures IsRing(links', j, lists'[j])
    {
      if j != i {
        RingKept(links, links', j, lists[j]);
      }
    }
    hide IsRing;
    assert forall x :: x in lists'[i] ==> x in lists[i];
  }

  lemma BitsInsert(bitmap: nat, lists: seq<seq<nat>>, i: nat, a: nat)
    requires BitsOk(bitmap, lists) && i < SLOTS
    ensures BitsOk(SetBit(bitmap, i), lists[i := [a] + lists[i]])
  {
    WordIs();
    SetBitFits(bitmap, i, 64);
    forall j | 2 <= j < SLOTS
      ensures Bit(SetBit(bitmap, i), j) <==> j == i || Bit(bitmap, j)
    {
      BitOfSet(bitmap, i, j);
    }
  }

  lemma BitsRemove(bitmap: nat, lists: seq<seq<nat>>, i: nat, k: nat)
    requires BitsOk(bitmap, lists) && 2 <= i < SLOTS && k < |lists[i]|
    ensures BitsOk(if Without(lists[i], k) == [] then ClearBit(bitmap, i) else bitmap, lists[i := Without(lists[i], k)])
  {
    forall j | 2 <= j < SLOTS
      ensures Bit(ClearBit(bitmap, i), j) <==> j != i && Bit(bitmap, j)
    {
      BitOfClear(bitmap, i, j);
    }
  }
}
