/** mm_init and mm_malloc (user/ummalloc.c, memory/ummalloc_alloc.h, memory/ummalloc_dealloc.h)
    on the chunks and slots below them. */
module Ummalloc {
  import opened SlotIndex
  import opened Chunks
  import opened Slots
  import opened IntrusiveList
  import opened FastCells

  const PAGE := 4096
  const LARGEST := 61440       // beyond it next_free would shift by 64

  ghost predicate IsFree(packs: Packs, cs: set<nat>, out: set<nat>, a: nat) {
    a in cs && !Used(packs, a) && a !in out
  }

  /** The free chunks, except those in `out`, are each in the one list of their size. */
  ghost predicate Listed(packs: Packs, cs: set<nat>, lists: seq<seq<nat>>, out: set<nat>) {
    && |lists| == HEADS
    && (forall i, a :: 2 <= i < SLOTS ==>
          (a in lists[i] <==> IsFree(packs, cs, out, a) && Size(packs, a) > 32 && Index(Size(packs, a)) == i))
    && lists[0] == [] && (forall a :: a in lists[1] || a in lists[FULL] ==> a in cs && Used(packs, a) && a !in out)
  }

  /** a is a block of at least `need` bytes that was not in use; all that was still is. */
  ghost predicate NewBlock(packs: Packs, cs: set<nat>, packs': Packs, cs': set<nat>, a: nat, need: nat) {
    a in cs' && Used(packs', a) && need <= Size(packs', a) && !(a in cs && Used(packs, a)) && LiveKept(packs, cs, packs', cs', a)
  }

  /** The one case where the chunk is smaller than the size asked for: the first chunk of a
      tiny slot, taken unseen, is 8 bytes short. */
  ghost predicate Misfit(packs: Packs, lists: seq<seq<nat>>, size: nat) {
    size <= 512 && size > 0 && |lists| == HEADS && var l := lists[(size - 1) / 16]; l != [] && Size(packs, l[0]) < size
  }

  /** The first `need` bytes of chunk a were cut off, and the rest is free. */
  ghost predicate CutFrom(packs: Packs, cs: set<nat>, packs': Packs, cs': set<nat>, a: nat, need: nat) {
    cs' == cs + {a + need} && !Used(packs', a + need) && Size(packs', a + need) == Size(packs, a) - need
  }

  /** c is the only free chunk. */
  ghost predicate Sole(packs: Packs, cs: set<nat>, c: nat) {
    c in cs && !Used(packs, c) && forall x :: x in cs && x != c ==> Used(packs, x)
  }

  /** If the heap had one free chunk, it has lost its first `need` bytes. */
  ghost predicate SoleCut(packs: Packs, cs: set<nat>, packs': Packs, cs': set<nat>, need: nat)
    requires need > 32
  {
    forall c: nat :: Sole(packs, cs, c) && Size(packs, c) >= 2 * need && Index(need) < Index(Size(packs, c)) ==>
                  Sole(packs', cs', c + need) && Size(packs', c + need) == Size(packs, c) - need
  }

  // ---------- Which chunk a request gets ----------

  /** The lists after a free chunk has been put in front of those of its size. */
  ghost function Pushed(lists: seq<seq<nat>>, a: nat, size: nat): seq<seq<nat>>
    requires |lists| == HEADS
  {
    if size > 32 && Index(size) < HEADS then lists[Index(size) := [a] + lists[Index(size)]] else lists
  }

  /** Chunk a of `size` bytes serves a request: whole, or cut if the rest is worth it. */
  ghost predicate Trimmed(size: nat, cs: set<nat>, lists: seq<seq<nat>>, packs': Packs, cs': set<nat>,
                          lists': seq<seq<nat>>, a: nat, need: nat)
    requires |lists| == HEADS
  {
    if size >= 2 * need || size >= need + 512 then
      && Size(packs', a) == need && cs' == cs + {a + need} && !Used(packs', a + need)
      && Size(packs', a + need) == size - need && lists' == Pushed(lists, a + need, size - need)
    else Size(packs', a) == size && cs' == cs && lists' == lists
  }

  /** a, the k-th of the list, is its first chunk that is large enough, among the first n. */
  ghost predicate FirstAt(packs: Packs, list: seq<nat>, need: nat, n: nat, k: nat, a: nat) {
    && k < |list| && k < n && list[k] == a && need <= Size(packs, a)
    && forall j :: 0 <= j < k ==> Size(packs, list[j]) < need
  }

  ghost predicate NoneFits(packs: Packs, list: seq<nat>, need: nat, n: nat) {
    forall j :: 0 <= j < n && j < |list| ==> Size(packs, list[j]) < need
  }

  ghost predicate NoneAbove(lists: seq<seq<nat>>, i: nat)
    requires |lists| == HEADS
  {
    forall j :: i < j < SLOTS ==> lists[j] == []
  }

  /** j is the lowest slot above i that has a chunk. */
  ghost predicate LowestAbove(lists: seq<seq<nat>>, i: nat, j: nat)
    requires |lists| == HEADS
  {
    i < j < SLOTS && lists[j] != [] && forall x :: i < x < j ==> lists[x] == []
  }

  /** The heap grows by whole pages; the new memory, with a free last chunk, serves the request. */
  ghost predicate FromGrowth(packs: Packs, cs: set<nat>, lists: seq<seq<nat>>, top: nat, packs': Packs, cs': set<nat>,
                             lists': seq<seq<nat>>, need: nat, a: nat)
    requires |lists| == HEADS
  {
    if AfterUsed(packs, top) then a == top && Trimmed(Pages(need), cs + {top}, lists, packs', cs', lists', a, need)
    else
      && a in cs && Next(packs, a) == top && !Used(packs, a)
      && exists i: nat, k: nat ::
           && i < SLOTS && k < |lists[i]| && lists[i][k] == a
           && Trimmed(Size(packs, a) + Pages(need), cs, lists[i := Without(lists[i], k)], packs', cs', lists', a, need)
  }

  /** What next_allocate does: the first chunk of the lowest higher slot, and new memory only if
      there is none. */
  ghost predicate FromAbove(packs: Packs, cs: set<nat>, lists: seq<seq<nat>>, base: nat, packs': Packs, cs': set<nat>,
                            lists': seq<seq<nat>>, base': nat, need: nat, a: nat)
    requires |lists| == HEADS && 8 <= base && need > 32
  {
    if NoneAbove(lists, Index(need)) then
      base' == base + Pages(need) && FromGrowth(packs, cs, lists, base - 8, packs', cs', lists', need, a)
    else
      base' == base && exists j: nat ::
        && LowestAbove(lists, Index(need), j) && a == lists[j][0]
        && Trimmed(Size(packs, a), cs, lists[j := lists[j][1..]], packs', cs', lists', a, need)
  }

  /** A request of more than 512 bytes: the first of the first n chunks of its slot that fits,
      whole; otherwise a higher slot. */
  ghost predicate FromSlot(packs: Packs, cs: set<nat>, lists: seq<seq<nat>>, base: nat, packs': Packs, cs': set<nat>,
                           lists': seq<seq<nat>>, base': nat, need: nat, n: nat, a: nat)
    requires |lists| == HEADS && 8 <= base && need > 32 && Index(need) < SLOTS
  {
    var i := Index(need);
    if NoneFits(packs, lists[i], need, n) then FromAbove(packs, cs, lists, base, packs', cs', lists', base', need, a)
    else
      && base' == base && cs' == cs && Size(packs', a) == Size(packs, a)
      && exists k: nat :: FirstAt(packs, lists[i], need, n, k, a) && lists' == lists[i := Without(lists[i], k)]
  }

  /** A request of 33 to 512 bytes: the first chunk of its slot, unseen; otherwise a higher slot. */
  ghost predicate FromTiny(packs: Packs, cs: set<nat>, lists: seq<seq<nat>>, base: nat, packs': Packs, cs': set<nat>,
                           lists': seq<seq<nat>>, base': nat, size: nat, a: nat)
    requires |lists| == HEADS && 8 <= base && 32 < size <= 512
  {
    var i := (size - 1) / 16;
    if lists[i] == [] then FromAbove(packs, cs, lists, base, packs', cs', lists', base', (i + 1) * 16, a)
    else
      && base' == base && cs' == cs && Size(packs', a) == Size(packs, a)
      && a == lists[i][0] && lists' == lists[i := lists[i][1..]]
  }

  /** The chunk that a request of `size` bytes gets. */
  ghost predicate Policy(packs: Packs, cs: set<nat>, lists: seq<seq<nat>>, base: nat, packs': Packs, cs': set<nat>,
                         lists': seq<seq<nat>>, base': nat, size: nat, a: nat) {
    && |lists| == HEADS && 8 <= base && 32 < size <= LARGEST && Index(size) < SLOTS
    && if size <= 512 then FromTiny(packs, cs, lists, base, packs', cs', lists', base', size, a)
       else FromSlot(packs, cs, lists, base, packs', cs', lists', base', size, if size <= 4096 then 4 else 8, a)
  }

  /** The heap grows if and only if no chunk that is looked at in the slot fits and all higher
      slots are empty. */
  lemma GrowsWhenNeeded(packs: Packs, cs: set<nat>, lists: seq<seq<nat>>, base: nat, packs': Packs, cs': set<nat>,
                        lists': seq<seq<nat>>, base': nat, size: nat, a: nat)
    requires Policy(packs, cs, lists, base, packs', cs', lists', base', size, a)
    ensures base' != base <==>
              && (if size <= 512 then lists[(size - 1) / 16] == []
                  else NoneFits(packs, lists[Index(size)], size, if size <= 4096 then 4 else 8))
              && NoneAbove(lists, Index(size))
  {
    hide Trimmed; hide FromGrowth; hide NoneFits; hide FirstAt;
    if size <= 512 {
      assert Index(size) == Index(((size - 1) / 16 + 1) * 16);
    }
  }

  /** A request of at most 32 bytes: the highest cell of the first fast page; a new page comes
      from the slots of large chunks, and only if there is none. */
  ghost predicate FastPolicy(packs: Packs, cs: set<nat>, lists: seq<seq<nat>>, base: nat, fast: map<nat, Page>,
                             packs': Packs, cs': set<nat>, base': nat, b: Block) {
    && |lists| == HEADS && 8 <= base && b.Cell?
    && if lists[1] == [] then b.a !in fast && b.i == 63 && NewPageFrom(packs, cs, lists, base, packs', cs', base', b.a)
       else
         && packs' == packs && cs' == cs && base' == base
         && b.a == lists[1][0] && b.a in fast && HighestCell(fast[b.a], b.i)
  }

  ghost predicate NewPageFrom(packs: Packs, cs: set<nat>, lists: seq<seq<nat>>, base: nat, packs': Packs, cs': set<nat>,
                              base': nat, a: nat)
    requires |lists| == HEADS && 8 <= base
  {
    exists lists': seq<seq<nat>> :: FromSlot(packs, cs, lists, base, packs', cs', lists', base', FASTPAGE, 8, a)
  }

  /** The lists of fast pages. */
  ghost predicate FastSame(lists: seq<seq<nat>>, lists': seq<seq<nat>>) {
    |lists| == HEADS == |lists'| && lists'[1] == lists[1] && lists'[FULL] == lists[FULL]
  }

  const FASTPAGE := 4096 + 48

  /** Fast pages are chunks in use, listed by whether they have a cell left. */
  ghost predicate FastOk(packs: Packs, cs: set<nat>, lists: seq<seq<nat>>, fast: map<nat, Page>) {
    && |lists| == HEADS
    && (forall a :: a in lists[1] <==> a in fast && fast[a].count > 0)
    && (forall a :: a in lists[FULL] <==> a in fast && fast[a].count == 0)
    && (forall a :: a in fast ==> a in cs && Used(packs, a) && FASTPAGE <= Size(packs, a) && PageOk(fast[a]))
  }

  /** At most one page of unused cells is new, and nothing else. */
  ghost predicate Reserved(packs: Packs, cs: set<nat>, fast: map<nat, Page>, packs': Packs, cs': set<nat>,
      fast': map<nat, Page>) {
    exists a ::
      && LiveKept(packs, cs, packs', cs', a) && (fast' == fast || (fast' == fast[a := FullPage()] && a !in fast))
      && (fast' == fast ==> packs' == packs && cs' == cs)
      && (fast' != fast ==> !InUse(packs, cs, a) && InUse(packs', cs', a))
  }

  /** What mm_malloc hands out: a chunk, or cell i of the fast page at a. */
  datatype Block = Chunk(a: nat) | Cell(a: nat, i: nat)

  ghost predicate Live(packs: Packs, cs: set<nat>, fast: map<nat, Page>, b: Block) {
    match b
    case Chunk(a) => InUse(packs, cs, a) && a !in fast
    case Cell(a, i) => a in fast && i < CELLS && !Available(fast[a], i)
  }

  /** Where its bytes begin and end. */
  function Start(b: Block): nat { match b case Chunk(a) => a + 8 case Cell(a, i) => CellAt(a, i) + 8 }
  function End(packs: Packs, b: Block): nat { match b case Chunk(a) => Next(packs, a) case Cell(a, i) => CellAt(a, i) + 32 }

  /** ALIGN(n) + sizeof(struct pack) */
  function Request(n: nat): nat { (n + 7) / 8 * 8 + 8 }

  /** need rounded up to whole pages. */
  function Pages(need: nat): nat { (need + PAGE - 1) / PAGE * PAGE }

  /** When no higher slot has a chunk, the rest after growth still has a slot. */
  lemma RestBound(need: nat, last: nat)
    requires 32 < need <= LARGEST && (last == 0 || (32 < last && Index(last) <= Index(need)))
    ensures need <= Pages(need) && last + Pages(need) - need <= MAXCHUNK && Pages(need) % 8 == 0
  {
  }

  class Heap {
    var packs: Packs
    var base: nat
    const slots: SlotTable
    var fast: map<nat, Page>      // the words at the start of each fast page
    ghost var cs: set<nat>
    ghost const low: nat

    /** Well formed, apart from the chunks in `out` that have been taken from their lists. */
    ghost predicate Open(out: set<nat>)
      reads this, slots
    {
      && slots.Valid() && 8 <= base && HEADS <= low <= base - 8
      && HeapOk(packs, cs, low, base - 8, out) && Listed(packs, cs, slots.lists, out)
    }

    ghost predicate Valid()
      reads this, slots
    {
      Open({})
    }

    ghost predicate Good()
      reads this, slots
    {
      Valid() && FastOk(packs, cs, slots.lists, fast)
    }

    /** mm_init, with the heap starting at the address sbrk returned. */
    constructor (heap: nat)
      requires HEADS <= heap
      ensures Good() && fast == map[] && fresh(slots) && base % PAGE == 0 && heap <= low < heap + 8
      ensures cs == {low} && !Used(packs, low) && Next(packs, low) == base - 8
      ensures heap % PAGE == 0 ==> Size(packs, low) == PAGE - 8
    {
      var top := heap + (if heap % PAGE == 0 then PAGE else 2 * PAGE - heap % PAGE);
      var a := (heap + 7) / 8 * 8;
      var size := top - 8 - a;
      base := top;
      slots := new SlotTable();
      packs := map[a := Pack(114514, size + PREV), a + size := Pack(size, 0 + THIS)];
      low := a;
      cs := {a};
      fast := map[];
      new;
      StartPage(heap);
      InitOk(packs, a, size);
      assert Listed(packs, cs, slots.lists, {a});
      hide HeapOk; hide Listed;
      var ok := FreeChunk(a);
    }

    /** free_chunk; false if one of its checks fails. */
    method FreeChunk(a: nat) returns (ok: bool)
      requires Open({a}) && a in packs && !Used(packs, a) && TagOk(packs, a)
      modifies slots
      ensures ok <==> packs[a].word % 8 == PREV && packs[Next(packs, a)].word % 8 == THIS
      ensures ok ==> Valid() && |old(slots.lists)| == HEADS && slots.lists == Pushed(old(slots.lists), a, Size(packs, a))
      ensures !ok ==> slots.lists == old(slots.lists)
      ensures FastSame(old(slots.lists), slots.lists)
    {
      hide HeapOk; hide Listed; hide Size; hide Used; hide Index; hide ListsOk; hide BitsOk; hide InSome;
      hide AfterUsed;
      Headed(slots.links, slots.lists);
      if packs[a].word % 8 != PREV || packs[Next(packs, a)].word % 8 != THIS {
        return false;
      }
      PutBack(packs, cs, low, base - 8, a);
      ListIn(packs, cs, slots.lists, a);
      hide TagOk;
      slots.Insert(Index(Size(packs, a)), a);
      return true;
    }

    /** pack_allocate */
    method PackAllocate(a: nat) returns (data: nat)
      requires Open({a})
      modifies this`packs
      ensures Valid() && data == a + 8 && a in cs && Used(packs, a) && Size(packs, a) == Size(old(packs), a)
      ensures LiveKept(old(packs), cs, packs, cs, a)
    {
      hide HeapOk; hide Listed; hide Size; hide Used; hide ListsOk; hide BitsOk; hide Allocate; hide LiveKept;
      AllocateOk(packs, cs, low, base - 8, a);
      AllocateLists(packs, cs, low, base - 8, slots.lists, a);
      packs := Allocate(packs, a);
      return a + 8;
    }

    /** split_allocate */
    method SplitAllocate(a: nat, need: nat) returns (data: nat)
      requires Open({a}) && 0 < need < Size(packs, a) && need % 8 == 0 && 32 < Size(packs, a) - need <= MAXCHUNK
      modifies this`packs, this`cs, slots
      ensures Valid() && data == a + 8 && a in cs && Used(packs, a) && Size(packs, a) == need
      ensures LiveKept(old(packs), old(cs), packs, cs, a) && CutFrom(old(packs), old(cs), packs, cs, a, need)
      ensures |old(slots.lists)| == HEADS && slots.lists == Pushed(old(slots.lists), a + need, Size(old(packs), a) - need)
      ensures FastSame(old(slots.lists), slots.lists)
    {
      hide HeapOk; hide Listed; hide Used; hide ListsOk; hide BitsOk; hide LiveKept; hide AfterUsed;
      SplitInHeap(packs, cs, low, base - 8, a);
      SplitOk(packs, cs, low, base - 8, a, need);
      SplitLists(packs, cs, Split(packs, a, need), slots.lists, a, need);
      SplitWords(packs, a, need);
      hide Split; hide Size;
      ghost var t := a + need;
      packs := Split(packs, a, need);
      cs := cs + {t};
      AtChunk(packs, cs, low, base - 8, {}, t);
      TakeOut(packs, cs, low, base - 8, t);
      var ok := FreeChunk(a + need);
      return a + 8;
    }

    /** try_split_allocate: splits unless the rest would be smaller than both the need and
        512 bytes. */
    method TrySplitAllocate(a: nat, need: nat) returns (data: nat)
      requires Open({a}) && 32 < need <= Size(packs, a) && need % 8 == 0 && Size(packs, a) - need <= MAXCHUNK
      modifies this`packs, this`cs, slots
      ensures Valid() && data == a + 8 && a in cs && Used(packs, a) && LiveKept(old(packs), old(cs), packs, cs, a)
      ensures Size(old(packs), a) >= 2 * need ==> CutFrom(old(packs), old(cs), packs, cs, a, need)
      ensures need <= Size(packs, a) && |old(slots.lists)| == HEADS
      ensures Trimmed(Size(old(packs), a), old(cs), old(slots.lists), packs, cs, slots.lists, a, need)
      ensures FastSame(old(slots.lists), slots.lists)
    {
      hide HeapOk; hide Listed; hide Used; hide ListsOk; hide BitsOk; hide LiveKept; hide Size; hide Pushed;
      Headed(slots.links, slots.lists);
      var rest := Size(packs, a) - need;
      if rest >= need || rest >= 512 {
        data := SplitAllocate(a, need);
      } else {
        data := PackAllocate(a);
      }
    }

    /** list_extract or safe_remove of the k-th chunk of slot i. */
    method TakeFrom(i: nat, ghost k: nat, a: nat)
      requires Valid() && 2 <= i < SLOTS && k < |slots.lists[i]| && slots.lists[i][k] == a
      modifies slots
      ensures Open({a}) && a in cs && !Used(packs, a) && 32 < Size(packs, a) <= MAXCHUNK && Index(Size(packs, a)) == i
      ensures slots.lists == old(slots.lists)[i := Without(old(slots.lists)[i], k)]
      ensures FastSame(old(slots.lists), slots.lists)
    {
      hide HeapOk; hide Used; hide Size; hide Index;
      ListOut(packs, cs, slots.links, slots.lists, i, k);
      hide Listed; hide ListsOk; hide BitsOk;
      TakeOut(packs, cs, low, base - 8, a);
      assert 32 < Size(packs, a) <= MAXCHUNK by { AtChunk(packs, cs, low, base - 8, {}, a); }
      slots.Remove(a, i, k);
    }

    /** list_extract. */
    method TakeFirst(i: nat) returns (a: nat)
      requires Valid() && 2 <= i < SLOTS && slots.lists[i] != []
      modifies slots
      ensures a == old(slots.lists)[i][0] && Open({a}) && a in cs && !Used(packs, a)
      ensures 32 < Size(packs, a) <= MAXCHUNK && Index(Size(packs, a)) == i
      ensures slots.lists == old(slots.lists)[i := old(slots.lists)[i][1..]]
      ensures FastSame(old(slots.lists), slots.lists)
    {
      hide HeapOk; hide Used; hide Size; hide Index;
      ListOut(packs, cs, slots.links, slots.lists, i, 0);
      assert Without(slots.lists[i], 0) == slots.lists[i][1..];
      hide Listed; hide ListsOk; hide BitsOk;
      a := slots.Extract(i);
      TakeOut(packs, cs, low, base - 8, a);
      assert 32 < Size(packs, a) <= MAXCHUNK by { AtChunk(packs, cs, low, base - 8, {}, a); }
    }

    /** malloc_brk, when sbrk succeeds and extends the heap. */
    method MallocBrk(need: nat) returns (data: nat)
      requires Valid() && 32 < need <= LARGEST && need % 8 == 0 && forall i :: Index(need) < i < SLOTS ==>
                slots.lists[i] == []
      modifies this, slots
      ensures Valid() && 8 <= data && NewBlock(old(packs), old(cs), packs, cs, data - 8, need)
      ensures base == old(base) + Pages(need) && |old(slots.lists)| == HEADS
      ensures FromGrowth(old(packs), old(cs), old(slots.lists), old(base) - 8, packs, cs, slots.lists, need, data - 8)
      ensures FastSame(old(slots.lists), slots.lists) && fast == old(fast)
    {
      hide HeapOk; hide Used; hide Size; hide Index; hide Listed; hide ListsOk; hide BitsOk; hide LiveKept;
      hide Grow; hide Merge; hide Trimmed; hide Pages;
      var top, size := base - 8, Pages(need);
      SentinelIs(packs, cs, low, top);
      RestBound(need, 0);
      if PrevInUse(packs[top].word) {
        GrowOk(packs, cs, low, top, size);
        GrowLists(packs, cs, Grow(packs, top, size), top, slots.lists);
        packs := Grow(packs, top, size);
        base := base + size;
        cs := cs + {top};
        data := TrySplitAllocate(top, need);
        LiveThrough(old(packs), old(cs), Grow(old(packs), top, size), old(cs) + {top}, packs, cs, top);
      } else {
        LastFree(packs, cs, low, top);
        var p := top - packs[top].prev;
        ghost var i := Index(Size(packs, p));
        ghost var k := ListPlace(packs, cs, slots.lists, p);
        RestBound(need, Size(packs, p));
        ListOut(packs, cs, slots.links, slots.lists, i, k);
        GrowMergeOk(packs, cs, low, top, p, size);
        GrowSame(packs, cs, low, top, p, size);
        MergeLists(packs, cs, Merge(Grow(packs, top, size), p, top, size), p,
            slots.lists[i := Without(slots.lists[i], k)]);
        packs := Grow(packs, top, size);
        base := base + size;
        slots.Remove(p, Index(Size(packs, p)), k);
        packs := Merge(packs, p, top, size);
        ghost var mid := packs;
        data := TrySplitAllocate(p, need);
        LiveThrough(old(packs), old(cs), mid, old(cs), packs, cs, p);
      }
    }

    /** next_allocate: the first chunk of the lowest nonempty higher slot, or new memory. */
    method NextAllocate(index: nat, need: nat) returns (data: nat)
      requires Valid() && 32 < need <= LARGEST && need % 8 == 0 && index == Index(need)
      modifies this, slots
      ensures Valid() && 8 <= data && NewBlock(old(packs), old(cs), packs, cs, data - 8, need)
      ensures SoleCut(old(packs), old(cs), packs, cs, need) && |old(slots.lists)| == HEADS
      ensures FromAbove(old(packs), old(cs), old(slots.lists), old(base), packs, cs, slots.lists, base, need, data - 8)
      ensures FastSame(old(slots.lists), slots.lists) && fast == old(fast)
    {
      hide HeapOk; hide Used; hide Size; hide Listed; hide LiveKept; hide ListsOk; hide IsRing; hide SoleCut;
      hide CutFrom; hide Trimmed; hide FromGrowth;
      SlotBound(need);
      hide Index;
      var lowbit := NextFree(slots.bitmap, index);
      HigherSlots(slots.bitmap, slots.lists, index);
      if lowbit == 0 {
        data := MallocBrk(need);
        NothingCut(old(packs), old(cs), old(slots.lists), low, old(base) - 8, packs, cs, need);
        return;
      }
      var position := Log2Ceil(lowbit);
      hide BitsOk;
      assert LowestAbove(slots.lists, index, position);
      var a := TakeFirst(position);
      HigherFits(need, Size(packs, a));
      data := TrySplitAllocate(a, need);
      FirstCut(old(packs), old(cs), packs, cs, a, need);
    }

    /** iterative_allocate: the first of at most `iteration` chunks that is large enough. */
    method IterativeAllocate(index: nat, need: nat, iteration: nat) returns (data: nat)
      requires Valid() && 2 <= index < SLOTS
      modifies this`packs, slots
      ensures Valid() && (data == 0 ==> packs == old(packs) && slots.lists == old(slots.lists))
      ensures data == 0 <==> NoneFits(old(packs), old(slots.lists)[index], need, iteration)
      ensures data != 0 ==> 8 <= data && NewBlock(old(packs), cs, packs, cs, data - 8, need)
      ensures data != 0 ==> Size(packs, data - 8) == Size(old(packs), data - 8) && exists k: nat ::
                && FirstAt(old(packs), old(slots.lists)[index], need, iteration, k, data - 8)
                && slots.lists == old(slots.lists)[index := Without(old(slots.lists)[index], k)]
      ensures FastSame(old(slots.lists), slots.lists)
    {
      hide HeapOk; hide Used; hide Size; hide Listed; hide LiveKept; hide ListsOk; hide BitsOk; hide IsRing;
      var head := slots.First(index);
      ghost var k := 0;
      var n := iteration;
      ListedAddresses(slots.links, slots.lists, index);
      while n != 0 && head != index
        invariant Valid() && packs == old(packs) && slots.lists == old(slots.lists) && |slots.lists| == HEADS
        invariant 0 <= n && k + n == iteration && k <= |slots.lists[index]| && forall j :: 0 <= j < k ==>
                  Size(packs, slots.lists[index][j]) < need
        invariant head == if k < |slots.lists[index]| then slots.lists[index][k] else index
        invariant forall x :: x in slots.lists[index] ==> x != index
        decreases n
      {
        if Size(packs, head) >= need {
          assert FirstAt(packs, slots.lists[index], need, iteration, k, head);
          TakeFrom(index, k, head);
          data := PackAllocate(head);
          return;
        }
        head := slots.After(head, index, k);
        k := k + 1;
        n := n - 1;
      }
      assert k < |slots.lists[index]| ==> slots.lists[index][k] in slots.lists[index];
      return 0;
    }

    /** tiny_allocate: the first chunk of the slot, whatever its size. */
    method TinyAllocate(index: nat) returns (data: nat)
      requires Valid() && 2 <= index < 32
      modifies this`packs, slots
      ensures Valid() && (data == 0 <==> old(slots.lists)[index] == [])
      ensures data == 0 ==> packs == old(packs) && slots.lists == old(slots.lists)
      ensures data != 0 ==> 8 <= data && Size(packs, data - 8) == Size(old(packs), data - 8)
      ensures data != 0 ==> slots.lists == old(slots.lists)[index := old(slots.lists)[index][1..]]
      ensures data != 0 ==> data - 8 == old(slots.lists)[index][0] && NewBlock(old(packs), cs, packs, cs, data - 8, Size(old(packs), data - 8))
      ensures FastSame(old(slots.lists), slots.lists)
    {
      hide HeapOk; hide Used; hide Size; hide Listed; hide LiveKept; hide BitsOk; hide IsRing; hide Index;
      var empty := slots.Empty(index);
      if empty {
        return 0;
      }
      hide ListsOk;
      var a := TakeFirst(index);
      data := PackAllocate(a);
    }

    /** malloc_tiny, for sizes above 32. */
    method MallocTiny(size: nat) returns (data: nat)
      requires Valid() && 32 < size <= 512 && size % 8 == 0
      modifies this, slots
      ensures Valid() && 8 <= data
      ensures NewBlock(old(packs), old(cs), packs, cs, data - 8, if Misfit(old(packs), old(slots.lists), size) then size - 8 else size)
      ensures Misfit(old(packs), old(slots.lists), size) ==> Size(packs, data - 8) == size - 8
      ensures SoleCut(old(packs), old(cs), packs, cs, (size + 15) / 16 * 16) && |old(slots.lists)| == HEADS
      ensures FromTiny(old(packs), old(cs), old(slots.lists), old(base), packs, cs, slots.lists, base, size, data - 8)
      ensures FastSame(old(slots.lists), slots.lists) && fast == old(fast)
    {
      hide HeapOk; hide Used; hide Size; hide Listed; hide BitsOk; hide ListsOk; hide Index; hide LiveKept;
      hide SoleCut; hide FromAbove;
      var index := (size - 1) / 16;
      var need := (index + 1) * 16;
      TinyIndex(size);
      TinyChunk(packs, cs, slots.lists, index);
      ghost var first := if slots.lists[index] == [] then 0 else slots.lists[index][0];
      SizeEights(packs, first);
      assert need == (size + 15) / 16 * 16;
      data := TinyAllocate(index);
      if data == 0 {
        data := NextAllocate(index, need);
      } else {
        SlotTaken(old(packs), old(cs), old(slots.lists), packs, cs, index, need);
      }
    }

    /** malloc_middle */
    method MallocMiddle(size: nat) returns (data: nat)
      requires Valid() && 512 < size <= 4096 && size % 8 == 0
      modifies this, slots
      ensures Valid() && 8 <= data && NewBlock(old(packs), old(cs), packs, cs, data - 8, size)
      ensures |old(slots.lists)| == HEADS && Index(size) < SLOTS
      ensures FromSlot(old(packs), old(cs), old(slots.lists), old(base), packs, cs, slots.lists, base, size, 4, data - 8)
      ensures FastSame(old(slots.lists), slots.lists) && fast == old(fast)
    {
      hide HeapOk; hide Used; hide Size; hide Listed; hide BitsOk; hide ListsOk; hide Index; hide LiveKept;
      hide FromAbove; hide FirstAt; hide NoneFits;
      var index := if size <= 640 then (size + 1535) / 64 else 34 + (size - 513) / 256;
      InlineIndex(size);
      data := IterativeAllocate(index, size, 4);
      if data == 0 {
        data := NextAllocate(index, size);
      }
    }

    /** malloc_huge */
    method MallocHuge(size: nat) returns (data: nat)
      requires Valid() && 4096 < size <= LARGEST && size % 8 == 0
      modifies this, slots
      ensures Valid() && 8 <= data && NewBlock(old(packs), old(cs), packs, cs, data - 8, size)
      ensures |old(slots.lists)| == HEADS && Index(size) < SLOTS
      ensures FromSlot(old(packs), old(cs), old(slots.lists), old(base), packs, cs, slots.lists, base, size, 8, data - 8)
      ensures FastSame(old(slots.lists), slots.lists) && fast == old(fast)
    {
      hide HeapOk; hide Used; hide Size; hide Listed; hide BitsOk; hide ListsOk; hide Index; hide LiveKept;
      hide FromAbove; hide FirstAt; hide NoneFits;
      var index := if size < 6144 then 48 else (size - 1) / 4096 + 48;
      InlineIndex(size);
      data := IterativeAllocate(index, size, 8);
      if data == 0 {
        data := NextAllocate(index, size);
      }
    }

    /** fast_bin_reserve: afterwards some page has a cell left. */
    method FastBinReserve()
      requires Good()
      modifies this, slots
      ensures Good() && slots.lists[1] != [] && |old(slots.lists)| == HEADS
      ensures Reserved(old(packs), old(cs), old(fast), packs, cs, fast)
      ensures old(slots.lists)[1] != [] ==>
                packs == old(packs) && cs == old(cs) && base == old(base) && fast == old(fast) && slots.lists == old(slots.lists)
      ensures old(slots.lists)[1] == [] ==>
                && var a := slots.lists[1][0];
                && a !in old(fast) && fast == old(fast)[a := FullPage()]
                && NewPageFrom(old(packs), old(cs), old(slots.lists), old(base), packs, cs, base, a)
    {
      hide HeapOk; hide Used; hide Size; hide Listed; hide BitsOk; hide LiveKept; hide IsRing; hide FastOk;
      hide Reserved; hide FullPage; hide FromSlot; hide Index;
      var empty := slots.Empty(1);
      if !empty {
        ReservedSame(packs, cs, fast);
        return;
      }
      hide ListsOk;
      var data := MallocHuge(FASTPAGE);
      var a := data - 8;
      NewPage(old(packs), old(cs), packs, cs, slots.lists, old(slots.lists), old(fast), a, low, base - 8);
      slots.Park(1, a);
      fast := fast[a := FullPage()];
    }

    /** fast_allocate: an available cell of the first page.  TakeCell never gives up here. */
    method FastAllocate() returns (b: Block)
      requires Good() && slots.lists[1] != []
      modifies this`fast, slots
      ensures Good() && b.Cell?
      ensures b.a == old(slots.lists)[1][0]
      ensures && b.a in old(fast) && b.i < CELLS && HighestCell(old(fast)[b.a], b.i)
              && fast.Keys == old(fast).Keys && (forall x :: x in fast && x != b.a ==> fast[x] == old(fast)[x])
              && (forall j :: 0 <= j < CELLS ==>
                    (Available(fast[b.a], j) <==> Available(old(fast)[b.a], j) && j != b.i))
    {
      hide HeapOk; hide Used; hide Size; hide Listed; hide BitsOk; hide IsRing; hide Available; hide PageOk;
      hide TakeCell; hide HighestCell;
      var a := slots.First(1);
      FirstPage(packs, cs, slots.lists, fast);
      hide ListsOk; hide FastOk;
      TakeCellOk(fast[a]);
      var t := TakeCell(fast[a]);
      HighestIs(fast[a], t.cell);
      PageMoves(packs, cs, slots.links, slots.lists, fast, t.page);
      if t.page.count == 0 {
        var first := slots.Unpark(1);
        slots.Park(FULL, a);
      }
      fast := fast[a := t.page];
      return Cell(a, t.cell);
    }

    /** mm_malloc: exactly one block becomes live, and it is large enough unless the tiny slot's
        first chunk is 8 bytes short. */
    method Malloc(n: nat) returns (data: nat, ghost b: Block)
      requires Good() && Request(n) <= LARGEST
      modifies this, slots
      ensures Good() && data == Start(b) && !Live(old(packs), old(cs), old(fast), b)
      ensures forall x :: Live(packs, cs, fast, x) <==> Live(old(packs), old(cs), old(fast), x) || x == b
      ensures forall x :: Live(old(packs), old(cs), old(fast), x) ==> End(packs, x) == End(old(packs), x)
      ensures data + n <= End(packs, b) <==> !(32 < Request(n) && Misfit(old(packs), old(slots.lists), Request(n)))
      ensures 32 < Request(n) ==>
                Policy(old(packs), old(cs), old(slots.lists), old(base), packs, cs, slots.lists, base, Request(n), b.a)
      ensures Request(n) <= 32 ==>
                FastPolicy(old(packs), old(cs), old(slots.lists), old(base), old(fast), packs, cs, base, b)
      ensures 32 < Request(n) <= 512 ==> SoleCut(old(packs), old(cs), packs, cs, (Request(n) + 15) / 16 * 16)
    {
      hide SoleCut; hide HeapOk; hide Used; hide Size; hide Listed; hide BitsOk; hide ListsOk; hide LiveKept;
      hide FastOk; hide Available; hide Misfit; hide FromSlot; hide FromTiny; hide NewPageFrom; hide HighestCell; hide FullPage;
      var size := Request(n);
      assert 32 < size ==> Index(size) < SLOTS by { if 32 < size { SlotBound(size); } }
      hide Index;
      if size <= 32 {
        FastBinReserve();
        ghost var packs1, cs1, fast1 := packs, cs, fast;
        var cell := FastAllocate();
        HighestIs(fast1[cell.a], cell.i);
        if old(slots.lists)[1] == [] {
          FullHighest(cell.i);
        }
        PagesInUse(old(packs), old(cs), old(slots.lists), old(fast));
        CellGiven(old(packs), old(cs), old(fast), packs1, cs1, fast1, fast, cell);
        return Start(cell), cell;
      }
      if size <= 512 {
        data := MallocTiny(size);
      } else if size > 4096 {
        data := MallocHuge(size);
      } else {
        data := MallocMiddle(size);
      }
      b := Chunk(data - 8);
      ChunkGiven(old(packs), old(cs), packs, cs, old(slots.lists), slots.lists, fast, data - 8);
      MisfitSize(old(packs), old(slots.lists), size);
    }
  }

  /** The lists stay right when the free chunks and their sizes do. */
  lemma SameLists(packs: Packs, cs: set<nat>, out: set<nat>, packs': Packs, cs': set<nat>, out': set<nat>,
      lists: seq<seq<nat>>)
    requires Listed(packs, cs, lists, out)
    requires forall x :: IsFree(packs', cs', out', x) <==> IsFree(packs, cs, out, x)
    requires forall x :: IsFree(packs, cs, out, x) ==> Size(packs', x) == Size(packs, x)
    requires forall x :: x in cs && Used(packs, x) && x !in out ==> x in cs' && Used(packs', x) && x !in out'
    ensures Listed(packs', cs', lists, out')
  {
    hide IsFree; hide Index; hide Size; hide Used;
  }

  lemma StartPage(heap: nat)
    ensures var top, a := heap + (if heap % PAGE == 0 then PAGE else 2 * PAGE - heap % PAGE), (heap + 7) / 8 * 8;
            && top % PAGE == 0 && heap <= a < heap + 8 && (top - 8 - a) % 8 == 0 && 32 < top - 8 - a <= MAXCHUNK
            && (heap % PAGE == 0 ==> a == heap)
  {
  }

  lemma InitOk(packs: Packs, a: nat, size: nat)
    requires packs == map[a := Pack(114514, size + PREV), a + size := Pack(size, 0 + THIS)] && size % 8 == 0
    requires 32 < size <= MAXCHUNK
    ensures HeapOk(packs, {a}, a, a + size, {a}) && !Used(packs, a) && Size(packs, a) == size && TagOk(packs, a)
    ensures packs[a].word % 8 == PREV && packs[a + size].word % 8 == THIS
  {
    HeaderRoundTrip(size, PREV);
    HeaderRoundTrip(0, THIS);
    assert TileOk(packs, {a}, a, a + size, a);
    assert HasPred(packs, {a}, a + size) by { assert a in {a} && Next(packs, a) == a + size; }
  }

  lemma PutBack(packs: Packs, cs: set<nat>, low: nat, top: nat, a: nat)
    requires HeapOk(packs, cs, low, top, {a}) && TagOk(packs, a)
    ensures HeapOk(packs, cs, low, top, {}) && a in cs && low <= a
  {
    assert a in {a} && a in cs;
    hide Size; hide Used; hide AfterUsed;
    assert low <= a by { AtChunk(packs, cs, low, top, {a}, a); }
    hide TagOk; hide Tiles;
  }

  /** A chunk taken out is in no list, and can be put into that of its size. */
  lemma ListIn(packs: Packs, cs: set<nat>, lists: seq<seq<nat>>, a: nat)
    requires Listed(packs, cs, lists, {a}) && a in cs && !Used(packs, a) && 32 < Size(packs, a) <= MAXCHUNK
    ensures !InSome(lists, a)
    ensures var i := Index(Size(packs, a)); 2 <= i < SLOTS && Listed(packs, cs, lists[i := [a] + lists[i]], {})
  {
    IndexMonotone(Size(packs, a), Size(packs, a));
    hide Index; hide Size; hide Used;
    assert a in {a};
    forall i | 0 <= i < |lists|
      ensures a !in lists[i]
    {
      assert !IsFree(packs, cs, {a}, a);
      assert a in lists[1] || a in lists[FULL] ==> a !in {a};
    }
    var i0 := Index(Size(packs, a));
    var lists' := lists[i0 := [a] + lists[i0]];
    forall i, x | 2 <= i < SLOTS
      ensures x in lists'[i] <==> IsFree(packs, cs, {}, x) && Size(packs, x) > 32 && Index(Size(packs, x)) == i
    {
      assert x in lists[i] <==> IsFree(packs, cs, {a}, x) && Size(packs, x) > 32 && Index(Size(packs, x)) == i;
    }
  }

  lemma AllocateLists(packs: Packs, cs: set<nat>, low: nat, top: nat, lists: seq<seq<nat>>, a: nat)
    requires HeapOk(packs, cs, low, top, {a}) && Listed(packs, cs, lists, {a}) && a in packs && Next(packs, a) in packs
    ensures a in cs && Listed(Allocate(packs, a), cs, lists, {})
  {
    assert a in {a} && a in cs;
    AtChunk(packs, cs, low, top, {a}, a);
    AllocateMarks(packs, a);
    hide HeapOk; hide Listed; hide Size; hide Used; hide AfterUsed; hide Allocate;
    SameLists(packs, cs, {a}, Allocate(packs, a), cs, {}, lists);
  }

  lemma SplitLists(packs: Packs, cs: set<nat>, r: Packs, lists: seq<seq<nat>>, a: nat, need: nat)
    requires Listed(packs, cs, lists, {a}) && SplitDone(packs, cs, r, a, need) && a in cs
    ensures Listed(r, cs + {a + need}, lists, {a + need})
  {
    hide Listed; hide Size; hide Used; hide AfterUsed; hide LiveKept;
    SameLists(packs, cs, {a}, r, cs + {a + need}, {a + need}, lists);
  }

  /** The headers that free_chunk checks. */
  lemma SplitWords(packs: Packs, a: nat, need: nat)
    requires a in packs && Next(packs, a) in packs && 0 < need < Size(packs, a) && need % 8 == 0
    ensures var r, t := Split(packs, a, need), a + need;
            && t in r && Next(r, t) == Next(packs, a) && Next(r, t) in r && r[t].word % 8 == PREV
            && r[Next(r, t)].word % 8 == THIS
  {
    SizeEights(packs, a);
    SplitHalves(packs, a, need);
  }

  lemma ListOut(packs: Packs, cs: set<nat>, links: Links, lists: seq<seq<nat>>, i: nat, k: nat)
    requires Listed(packs, cs, lists, {}) && ListsOk(links, lists) && 2 <= i < SLOTS && k < |lists[i]|
    ensures var a := lists[i][k];
            && a in cs && !Used(packs, a) && Size(packs, a) > 32 && Index(Size(packs, a)) == i
            && Listed(packs, cs, lists[i := Without(lists[i], k)], {a})
  {
    var a := lists[i][k];
    hide Index; hide Size; hide Used;
    assert a in lists[i] && IsFree(packs, cs, {}, a);
    assert IsRing(links, i, lists[i]);
    var lists' := lists[i := Without(lists[i], k)];
    assert forall x :: x in lists'[i] <==> x in lists[i] && x != a;
    hide IsRing;
    forall j, x | 2 <= j < SLOTS
      ensures x in lists'[j] <==> IsFree(packs, cs, {a}, x) && Size(packs, x) > 32 && Index(Size(packs, x)) == j
    {
      assert x in lists[j] <==> IsFree(packs, cs, {}, x) && Size(packs, x) > 32 && Index(Size(packs, x)) == j;
    }
  }

  lemma SentinelIs(packs: Packs, cs: set<nat>, low: nat, top: nat)
    requires HeapOk(packs, cs, low, top, {})
    ensures top in packs && top !in cs
  {
    hide HasPred; hide TagOk; hide TileOk;
  }

  lemma GrowLists(packs: Packs, cs: set<nat>, r: Packs, top: nat, lists: seq<seq<nat>>)
    requires Listed(packs, cs, lists, {}) && top !in cs && forall x :: x in cs ==>
              (Used(r, x) <==> Used(packs, x)) && Size(r, x) == Size(packs, x)
    ensures Listed(r, cs + {top}, lists, {top})
  {
    hide Listed; hide Size; hide Used;
    SameLists(packs, cs, {}, r, cs + {top}, {top}, lists);
  }

  /** What was in use before the heap grew is in use after the allocation. */
  lemma LiveThrough(packs: Packs, cs: set<nat>, mid: Packs, cs1: set<nat>, packs': Packs, cs': set<nat>, a: nat)
    requires LiveKept(mid, cs1, packs', cs', a)
    requires forall x :: x != a ==> (x in cs1 <==> x in cs) && (x in cs ==> (Used(mid, x) <==> Used(packs, x)) && Size(mid, x) == Size(packs, x))
    ensures LiveKept(packs, cs, packs', cs', a)
  {
    hide Size; hide Used;
  }

  lemma ListPlace(packs: Packs, cs: set<nat>, lists: seq<seq<nat>>, a: nat) returns (k: nat)
    requires Listed(packs, cs, lists, {}) && a in cs && !Used(packs, a) && 32 < Size(packs, a) <= MAXCHUNK
    ensures |lists| == HEADS
    ensures var i := Index(Size(packs, a)); 2 <= i < SLOTS && k < |lists[i]| && lists[i][k] == a
  {
    IndexMonotone(Size(packs, a), Size(packs, a));
    hide Index; hide Size; hide Used;
    var i := Index(Size(packs, a));
    assert IsFree(packs, cs, {}, a);
    assert a in lists[i];
    k :| 0 <= k < |lists[i]| && lists[i][k] == a;
  }

  lemma GrowSame(packs: Packs, cs: set<nat>, low: nat, top: nat, p: nat, size: nat)
    requires HeapOk(packs, cs, low, top, {}) && p in cs && top in packs && size > 0 && size % 8 == 0
    ensures Size(Grow(packs, top, size), p) == Size(packs, p)
  {
    AtChunk(packs, cs, low, top, {}, p);
    GrowEffect(packs, top, size);
  }

  lemma MergeLists(packs: Packs, cs: set<nat>, r: Packs, p: nat, lists: seq<seq<nat>>)
    requires Listed(packs, cs, lists, {p}) && forall x :: x in cs && x != p ==>
              (Used(r, x) <==> Used(packs, x)) && Size(r, x) == Size(packs, x)
    ensures Listed(r, cs, lists, {p})
  {
    hide Listed; hide Size; hide Used;
    SameLists(packs, cs, {p}, r, cs, {p}, lists);
  }

  lemma Headed(links: Links, lists: seq<seq<nat>>)
    requires ListsOk(links, lists)
    ensures |lists| == HEADS
  {
  }

  /** The indices computed in malloc_middle and malloc_huge are get_index. */
  lemma InlineIndex(size: nat)
    requires 512 < size <= LARGEST
    ensures 2 <= Index(size) < SLOTS
    ensures Index(size) == if size <= 640 then (size + 1535) / 64 else if size <= 4096 then 34 + (size - 513) / 256
                           else if size < 6144 then 48 else (size - 1) / 4096 + 48
  {
  }

  lemma SlotBound(need: nat)
    requires 32 < need <= LARGEST
    ensures 2 <= Index(need) < 63
  {
  }

  /** The bitmap answers which higher slots have chunks. */
  lemma HigherSlots(bitmap: nat, lists: seq<seq<nat>>, index: nat)
    requires BitsOk(bitmap, lists) && 2 <= index < 63
    ensures |lists| == HEADS && NextFree(bitmap, index) < WORD
    ensures NextFree(bitmap, index) == 0 ==> forall i :: index < i < SLOTS ==> lists[i] == []
    ensures NextFree(bitmap, index) != 0 ==> LowestAbove(lists, index, Log2Ceil(NextFree(bitmap, index)))
  {
    hide NextFree; hide Log2Ceil;
    NextFreeIs(bitmap, index, 0);
    forall i | index < i < SLOTS && NextFree(bitmap, index) == 0
      ensures lists[i] == []
    {
      NextFreeIs(bitmap, index, i);
    }
    forall i | index < i < Log2Ceil(NextFree(bitmap, index)) && NextFree(bitmap, index) != 0
      ensures lists[i] == []
    {
      NextFreeIs(bitmap, index, i);
    }
  }

  lemma ListedAddresses(links: Links, lists: seq<seq<nat>>, index: nat)
    requires ListsOk(links, lists) && index < SLOTS
    ensures |lists| == HEADS && forall x :: x in lists[index] ==> x != index
  {
  }

  lemma TinyIndex(size: nat)
    requires 32 < size <= 512 && size % 8 == 0
    ensures var i := (size - 1) / 16; 2 <= i < 32 && size <= (i + 1) * 16 && Index((i + 1) * 16) == i && (i + 1) * 16 % 8 == 0 && i * 16 < size
  {
  }

  /** A chunk in tiny slot i is at most 8 bytes below the largest size of the slot. */
  lemma TinyChunk(packs: Packs, cs: set<nat>, lists: seq<seq<nat>>, i: nat)
    requires Listed(packs, cs, lists, {}) && 2 <= i < 32
    ensures |lists| == HEADS && (lists[i] != [] ==> i * 16 + 8 <= Size(packs, lists[i][0]) <= i * 16 + 16)
  {
    if lists[i] != [] {
      var a := lists[i][0];
      assert a in lists[i];
      assert IsFree(packs, cs, {}, a) && Index(Size(packs, a)) == i;
      SizeEights(packs, a);
      hide Size; hide Listed;
      TinySize(Size(packs, a));
    }
  }

  lemma TinySize(size: nat)
    requires size > 32 && Index(size) < 32 && size % 8 == 0
    ensures Index(size) * 16 + 8 <= size <= Index(size) * 16 + 16
  {
  }

  lemma ReservedSame(packs: Packs, cs: set<nat>, fast: map<nat, Page>)
    ensures Reserved(packs, cs, fast, packs, cs, fast)
  {
    assert LiveKept(packs, cs, packs, cs, 0);
  }

  /** A new page can join the list of pages with cells. */
  lemma NewPage(packs: Packs, cs: set<nat>, packs': Packs, cs': set<nat>, lists: seq<seq<nat>>,
      lists0: seq<seq<nat>>, fast: map<nat, Page>, a: nat, low: nat, top: nat)
    requires NewBlock(packs, cs, packs', cs', a, FASTPAGE) && FastOk(packs, cs, lists0, fast) && FastSame(lists0, lists)
    requires HeapOk(packs', cs', low, top, {}) && Listed(packs', cs', lists, {}) && HEADS <= low
    ensures HEADS <= a && a !in fast && !InSome(lists, a) && Reserved(packs, cs, fast, packs', cs', fast[a := FullPage()])
    ensures var l := lists[1 := [a] + lists[1]]; Listed(packs', cs', l, {}) && FastOk(packs', cs', l, fast[a := FullPage()])
  {
    hide Size; hide Used; hide PageOk; hide Index; hide HeapOk; hide TagOk;
    AtChunk(packs', cs', low, top, {}, a);
    hide TileOk;
    assert a !in fast by { assert a in fast ==> a in cs && Used(packs, a); }
    ParkedPage(packs', cs', lists, a);
    PageJoins(packs, cs, packs', cs', lists, lists0, fast, a);
    hide Listed; hide FastOk;
    assert InUse(packs', cs', a) && !InUse(packs, cs, a);
  }

  lemma ParkedPage(packs: Packs, cs: set<nat>, lists: seq<seq<nat>>, a: nat)
    requires Listed(packs, cs, lists, {}) && a in cs && Used(packs, a)
    requires a !in lists[1] && a !in lists[FULL]
    ensures !InSome(lists, a) && Listed(packs, cs, lists[1 := [a] + lists[1]], {})
  {
    hide Size; hide Used; hide Index;
    forall i | 0 <= i < |lists|
      ensures a !in lists[i]
    {
      assert 2 <= i < SLOTS && a in lists[i] ==> IsFree(packs, cs, {}, a);
    }
    var l := lists[1 := [a] + lists[1]];
    forall i, x | 2 <= i < SLOTS
      ensures x in l[i] <==> IsFree(packs, cs, {}, x) && Size(packs, x) > 32 && Index(Size(packs, x)) == i
    {
      assert x in lists[i] <==> IsFree(packs, cs, {}, x) && Size(packs, x) > 32 && Index(Size(packs, x)) == i;
    }
  }

  lemma PageJoins(packs: Packs, cs: set<nat>, packs': Packs, cs': set<nat>, lists: seq<seq<nat>>,
      lists0: seq<seq<nat>>, fast: map<nat, Page>, a: nat)
    requires NewBlock(packs, cs, packs', cs', a, FASTPAGE) && FastOk(packs, cs, lists0, fast)
    requires FastSame(lists0, lists) && a !in fast
    ensures FastOk(packs', cs', lists[1 := [a] + lists[1]], fast[a := FullPage()])
  {
    FullPageOk();
    hide Size; hide Used; hide PageOk;
    forall x | x in fast
      ensures x in cs' && Used(packs', x) && FASTPAGE <= Size(packs', x)
    {
      assert InUse(packs, cs, x) && x != a;
      assert InUse(packs', cs', x);
    }
    hide LiveKept;
  }

  lemma FullHighest(i: nat)
    requires HighestCell(FullPage(), i)
    ensures i == 63
  {
    hide FullPage; hide Available; hide PageOk;
    FullPageOk();
    assert Available(FullPage(), 63) && Available(FullPage(), 0);
  }

  lemma HighestIs(p: Page, i: nat)
    requires HighestCell(p, i)
    ensures i < CELLS && Available(p, i)
  {
  }

  lemma FirstPage(packs: Packs, cs: set<nat>, lists: seq<seq<nat>>, fast: map<nat, Page>)
    requires FastOk(packs, cs, lists, fast) && lists[1] != []
    ensures lists[1][0] in fast && fast[lists[1][0]].count > 0 && PageOk(fast[lists[1][0]])
  {
    assert lists[1][0] in lists[1];
  }

  /** The lists after the first page has given a cell: it moves when that was its last. */
  ghost function AfterCell(lists: seq<seq<nat>>, count: nat): seq<seq<nat>>
    requires |lists| == HEADS && lists[1] != []
  {
    if count > 0 then lists else lists[1 := lists[1][1..]][FULL := [lists[1][0]] + lists[FULL]]
  }

  lemma PageMoves(packs: Packs, cs: set<nat>, links: Links, lists: seq<seq<nat>>, fast: map<nat, Page>, page: Page)
    requires ListsOk(links, lists) && FastOk(packs, cs, lists, fast) && Listed(packs, cs, lists, {})
    requires lists[1] != [] && PageOk(page)
    ensures var a, l := lists[1][0], AfterCell(lists, page.count);
            && FastOk(packs, cs, l, fast[a := page]) && Listed(packs, cs, l, {}) && HEADS <= a
            && !InSome(lists[1 := lists[1][1..]], a)
  {
    var a, l := lists[1][0], AfterCell(lists, page.count);
    assert a in lists[1] && IsRing(links, 1, lists[1]);
    assert lists[1] == [a] + lists[1][1..];
    assert a !in lists[1][1..];
    hide IsRing; hide Size; hide Used; hide Index; hide PageOk;
    PageTags(packs, cs, lists, fast, page);
    hide FastOk;
    forall i, x | 2 <= i < SLOTS
      ensures x in l[i] <==> IsFree(packs, cs, {}, x) && Size(packs, x) > 32 && Index(Size(packs, x)) == i
    {
      assert x in lists[i] <==> IsFree(packs, cs, {}, x) && Size(packs, x) > 32 && Index(Size(packs, x)) == i;
    }
    assert a !in lists[FULL];
  }

  lemma PageTags(packs: Packs, cs: set<nat>, lists: seq<seq<nat>>, fast: map<nat, Page>, page: Page)
    requires FastOk(packs, cs, lists, fast) && lists[1] != [] && PageOk(page) && lists[1][0] !in lists[1][1..]
    ensures FastOk(packs, cs, AfterCell(lists, page.count), fast[lists[1][0] := page])
  {
    var a := lists[1][0];
    assert lists[1] == [a] + lists[1][1..];
    assert a in lists[1];
    hide Size; hide Used; hide PageOk;
  }

  lemma PagesInUse(packs: Packs, cs: set<nat>, lists: seq<seq<nat>>, fast: map<nat, Page>)
    requires FastOk(packs, cs, lists, fast)
    ensures forall a :: a in fast ==> InUse(packs, cs, a)
  {
  }

  lemma MisfitSize(packs: Packs, lists: seq<seq<nat>>, size: nat)
    ensures Misfit(packs, lists, size) ==> size <= 512
  {
  }

  lemma ChunkGiven(packs: Packs, cs: set<nat>, packs': Packs, cs': set<nat>, lists: seq<seq<nat>>,
      lists': seq<seq<nat>>, fast: map<nat, Page>, a: nat)
    requires NewBlock(packs, cs, packs', cs', a, 0) && FastOk(packs, cs, lists, fast) && FastSame(lists, lists')
    ensures FastOk(packs', cs', lists', fast) && !Live(packs, cs, fast, Chunk(a))
    ensures forall x :: Live(packs', cs', fast, x) <==> Live(packs, cs, fast, x) || x == Chunk(a)
    ensures forall x :: Live(packs, cs, fast, x) ==> End(packs', x) == End(packs, x)
  {
    hide Size; hide Used; hide PageOk; hide Available;
    forall x | x in fast
      ensures x != a && InUse(packs', cs', x) && Size(packs', x) == Size(packs, x)
    {
      assert InUse(packs, cs, x);
    }
    forall x
      ensures Live(packs', cs', fast, x) <==> Live(packs, cs, fast, x) || x == Chunk(a)
      ensures Live(packs, cs, fast, x) ==> End(packs', x) == End(packs, x)
    {
      if x.Chunk? && x.a != a {
        assert InUse(packs', cs', x.a) <==> InUse(packs, cs, x.a);
      }
    }
  }

  lemma CellGiven(packs: Packs, cs: set<nat>, fast: map<nat, Page>, packs': Packs, cs': set<nat>,
      fast1: map<nat, Page>, fast': map<nat, Page>, b: Block)
    requires Reserved(packs, cs, fast, packs', cs', fast1) && (forall a :: a in fast ==> InUse(packs, cs, a))
    requires b.Cell? && b.a in fast1 && b.i < CELLS && Available(fast1[b.a], b.i) && fast'.Keys == fast1.Keys
    requires forall x :: x in fast' && x != b.a ==> fast'[x] == fast1[x]
    requires forall j :: 0 <= j < CELLS ==> (Available(fast'[b.a], j) <==> Available(fast1[b.a], j) && j != b.i)
    ensures !Live(packs, cs, fast, b)
    ensures forall x :: Live(packs', cs', fast', x) <==> Live(packs, cs, fast, x) || x == b
    ensures forall x :: Live(packs, cs, fast, x) ==> End(packs', x) == End(packs, x)
  {
    FullPageOk();
    hide Size; hide Used; hide Available; hide PageOk; hide FullPage;
    var a :| && LiveKept(packs, cs, packs', cs', a) && (fast1 == fast || (fast1 == fast[a := FullPage()] && a !in fast))
             && (fast1 == fast ==> packs' == packs && cs' == cs) && (fast1 != fast ==> !InUse(packs, cs, a) && InUse(packs', cs', a));
    hide Reserved;
    forall x
      ensures Live(packs', cs', fast', x) <==> Live(packs, cs, fast, x) || x == b
      ensures Live(packs, cs, fast, x) ==> End(packs', x) == End(packs, x)
    {
      if x.Chunk? && x.a != a {
        assert InUse(packs', cs', x.a) <==> InUse(packs, cs, x.a);
      }
    }
  }

  /** The bytes of different live blocks never overlap. */
  lemma BlocksApart(packs: Packs, cs: set<nat>, low: nat, top: nat, lists: seq<seq<nat>>, fast: map<nat, Page>,
      b: Block, c: Block)
    requires HeapOk(packs, cs, low, top, {}) && FastOk(packs, cs, lists, fast) && Live(packs, cs, fast, b)
    requires Live(packs, cs, fast, c) && b != c
    ensures End(packs, b) <= Start(c) || End(packs, c) <= Start(b)
  {
    hide Size; hide Used; hide Available; hide PageOk; hide HasPred; hide TagOk; hide TileOk;
    if b.Cell? && c.Cell? && b.a == c.a {
      CellsApart(b.a, b.i, c.i);
    } else {
      InChunk(packs, cs, lists, fast, b);
      InChunk(packs, cs, lists, fast, c);
      assert b.a < c.a ==> Next(packs, b.a) <= c.a;
      assert c.a < b.a ==> Next(packs, c.a) <= b.a;
    }
  }

  lemma InChunk(packs: Packs, cs: set<nat>, lists: seq<seq<nat>>, fast: map<nat, Page>, b: Block)
    requires FastOk(packs, cs, lists, fast) && Live(packs, cs, fast, b)
    ensures b.a in cs && b.a < Start(b) && End(packs, b) <= Next(packs, b.a) && (b.Chunk? ==> b.a !in fast)
    ensures b.Cell? ==> b.a in fast
  {
    hide Used; hide Available; hide PageOk; hide Size;
    if b.Cell? {
      CellsApart(b.a, b.i, if b.i == 0 then 1 else 0);
    }
  }

  /** From mm_init on a page boundary, 84 calls of mm_malloc(40) leave one free chunk of 56
      bytes, which mm_malloc(56) then hands out although it has only 48 bytes to use. */
  method ShortBlock() returns (h: Heap, data: nat, ghost b: Block)
    ensures fresh(h) && h.Good() && Live(h.packs, h.cs, h.fast, b) && data == Start(b)
    ensures End(h.packs, b) < data + 56
  {
    hide HeapOk; hide Used; hide Listed; hide Misfit; hide Index; hide FastOk; hide ListsOk; hide BitsOk;
    hide Size; hide Live;
    h := new Heap(PAGE);
    ghost var c := h.low;
    var i := 0;
    while i < 84
      invariant fresh(h) && fresh(h.slots) && h.Good() && i <= 84
      invariant Sole(h.packs, h.cs, c) && Size(h.packs, c) == PAGE - 8 - 48 * i
    {
      ghost var packs, cs := h.packs, h.cs;
      data, b := h.Malloc(40);
      SoleCutAt(packs, cs, h.packs, h.cs, c);
      c := c + 48;
      i := i + 1;
    }
    SoleMisfit(h.packs, h.cs, h.slots.lists, c);
    data, b := h.Malloc(56);
  }

  lemma SoleCutAt(packs: Packs, cs: set<nat>, packs': Packs, cs': set<nat>, c: nat)
    requires SoleCut(packs, cs, packs', cs', 48) && Sole(packs, cs, c) && Size(packs, c) >= 104
    ensures Sole(packs', cs', c + 48) && Size(packs', c + 48) == Size(packs, c) - 48
  {
    hide Sole; hide Size;
  }

  /** A free chunk of 56 bytes is first in the slot of requests for 64. */
  lemma SoleMisfit(packs: Packs, cs: set<nat>, lists: seq<seq<nat>>, c: nat)
    requires Listed(packs, cs, lists, {}) && Sole(packs, cs, c) && Size(packs, c) == 56
    ensures Misfit(packs, lists, Request(56))
  {
    hide Used; hide Size;
    assert Index(56) == 3 && IsFree(packs, cs, {}, c);
    assert c in lists[3];
    assert lists[3][0] in lists[3];
  }

  lemma SoleListed(packs: Packs, cs: set<nat>, lists: seq<seq<nat>>, low: nat, top: nat, c: nat)
    requires HeapOk(packs, cs, low, top, {}) && Listed(packs, cs, lists, {}) && Sole(packs, cs, c)
    ensures |lists| == HEADS
    ensures var i := Index(Size(packs, c)); 2 <= i < SLOTS && lists[i] != []
  {
    hide HeapOk; hide Listed; hide Index; hide Used;
    AtChunk(packs, cs, low, top, {}, c);
    hide Size;
    var k := ListPlace(packs, cs, lists, c);
  }

  /** With all higher slots empty there is nothing to cut. */
  lemma NothingCut(packs: Packs, cs: set<nat>, lists: seq<seq<nat>>, low: nat, top: nat, packs': Packs,
      cs': set<nat>, need: nat)
    requires need > 32 && HeapOk(packs, cs, low, top, {}) && Listed(packs, cs, lists, {}) && forall i :: Index(need) < i < SLOTS ==> lists[i] == []
    ensures SoleCut(packs, cs, packs', cs', need)
  {
    hide HeapOk; hide Listed; hide Index; hide Sole; hide Size;
    forall c: nat | Sole(packs, cs, c) && Size(packs, c) >= 2 * need
      ensures Index(Size(packs, c)) <= Index(need)
    {
      SoleListed(packs, cs, lists, low, top, c);
    }
  }

  lemma FirstCut(packs: Packs, cs: set<nat>, packs': Packs, cs': set<nat>, a: nat, need: nat)
    requires need > 32 && a in cs && !Used(packs, a) && LiveKept(packs, cs, packs', cs', a) && a in cs'
    requires Used(packs', a)
    requires Size(packs, a) >= 2 * need ==> CutFrom(packs, cs, packs', cs', a, need)
    ensures SoleCut(packs, cs, packs', cs', need)
  {
    hide Index; hide Size; hide Used;
    forall c: nat | Sole(packs, cs, c) && Size(packs, c) >= 2 * need
      ensures Sole(packs', cs', c + need) && Size(packs', c + need) == Size(packs, c) - need
    {
      assert c == a;
      forall x | x in cs' && x != c + need
        ensures Used(packs', x)
      {
        assert x != a ==> InUse(packs, cs, x) && InUse(packs', cs', x);
      }
    }
  }

  /** A chunk found in the request's own slot is not a larger one. */
  lemma SlotTaken(packs: Packs, cs: set<nat>, lists: seq<seq<nat>>, packs': Packs, cs': set<nat>, index: nat, need: nat)
    requires need > 32 && Listed(packs, cs, lists, {}) && 2 <= index < 32 && lists[index] != [] && Index(need) == index
    ensures SoleCut(packs, cs, packs', cs', need)
  {
    hide Index; hide Size; hide Used;
    var a := lists[index][0];
    assert a in lists[index];
    assert IsFree(packs, cs, {}, a) && Index(Size(packs, a)) == index;
  }
}
