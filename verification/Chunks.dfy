/** Chunks of the segregated-fit heap (memory/ummalloc_decl.h, memory/ummalloc_alloc.h,
    memory/ummalloc_dealloc.h): boundary tags, splitting, and growth at the top. */
module Chunks {
  import opened SlotIndex

  /** A chunk header; `word` is the size with flag bits in its low three bits. */
  datatype Pack = Pack(prev: nat, word: nat)

  type Packs = map<nat, Pack>

  /** PREV_INUSE, THIS_INUSE, BOTH_INUSE */
  const PREV := 1
  const THIS := 2
  const BOTH := 3

  /** pack_size, and the flags of pack_meta. */
  function SizeOf(word: nat): nat { word / 8 * 8 }
  predicate PrevInUse(word: nat) { word % 2 == 1 }
  predicate ThisInUse(word: nat) { word / 2 % 2 == 1 }

  lemma HeaderRoundTrip(size: nat, meta: nat)
    requires size % 8 == 0 && meta < 4
    ensures SizeOf(size + meta) == size && (PrevInUse(size + meta) <==> meta % 2 == 1)
    ensures ThisInUse(size + meta) <==> meta / 2 == 1
  {
  }

  function Size(packs: Packs, a: nat): nat { if a in packs then SizeOf(packs[a].word) else 0 }
  function Next(packs: Packs, a: nat): nat { a + Size(packs, a) }
  predicate Used(packs: Packs, a: nat) { a in packs && ThisInUse(packs[a].word) }
  predicate AfterUsed(packs: Packs, a: nat) { a in packs && PrevInUse(packs[a].word) }

  const MAXCHUNK := 65536

  /** The chunks in `cs` cover the heap from low to the sentinel at top, each once. */
  ghost predicate Tiles(packs: Packs, cs: set<nat>, low: nat, top: nat) {
    && (low in cs || low == top) && top !in cs
    && (forall a :: a in cs ==> TileOk(packs, cs, low, top, a))
    && (forall a, b :: a in cs && b in cs && a < b ==> Next(packs, a) <= b)
    && (top != low ==> HasPred(packs, cs, top)) && (forall b :: b in cs && b != low ==> HasPred(packs, cs, b))
  }

  ghost predicate TileOk(packs: Packs, cs: set<nat>, low: nat, top: nat, a: nat) {
    low <= a && 0 < Size(packs, a) && Next(packs, a) <= top && (Next(packs, a) in cs || Next(packs, a) == top)
  }

  ghost predicate HasPred(packs: Packs, cs: set<nat>, b: nat) {
    exists p :: p in cs && Next(packs, p) == b
  }

  /** The boundary tags between a and the chunk after it; of two neighbours one is in use. */
  ghost predicate TagOk(packs: Packs, a: nat) {
    var n := Next(packs, a);
    && n in packs && packs[n].prev == Size(packs, a) && (AfterUsed(packs, n) <==> Used(packs, a))
    && (!Used(packs, a) ==> Used(packs, n) && 32 < Size(packs, a) <= MAXCHUNK)
  }

  /** Tags are right at every chunk but those in `out`, which are being changed: their
      neighbours are in use. */
  ghost predicate Tagged(packs: Packs, cs: set<nat>, low: nat, top: nat, out: set<nat>) {
    && top in packs && Size(packs, top) == 0 && Used(packs, top) && AfterUsed(packs, low)
    && (forall a :: a in cs && a !in out ==> TagOk(packs, a))
    && (forall a :: a in out ==> a in cs && AfterUsed(packs, a) && Used(packs, Next(packs, a)))
  }

  ghost predicate HeapOk(packs: Packs, cs: set<nat>, low: nat, top: nat, out: set<nat>) {
    Tiles(packs, cs, low, top) && Tagged(packs, cs, low, top, out)
  }

  ghost predicate InUse(packs: Packs, cs: set<nat>, x: nat) {
    x in cs && Used(packs, x)
  }

  /** The chunks in use, a aside, are those that were, with the same sizes. */
  ghost predicate LiveKept(packs: Packs, cs: set<nat>, packs': Packs, cs': set<nat>, a: nat) {
    forall x :: x != a ==>
        (InUse(packs', cs', x) <==> InUse(packs, cs, x)) && (InUse(packs, cs, x) ==> Size(packs', x) == Size(packs, x))
  }

  lemma AtChunk(packs: Packs, cs: set<nat>, low: nat, top: nat, out: set<nat>, x: nat)
    requires HeapOk(packs, cs, low, top, out) && x in cs
    ensures TileOk(packs, cs, low, top, x) && (x !in out ==> TagOk(packs, x))
    ensures x in out ==> AfterUsed(packs, x) && Used(packs, Next(packs, x))
  {
    hide HasPred;
  }

  /** A free chunk has neighbours in use. */
  lemma TakeOut(packs: Packs, cs: set<nat>, low: nat, top: nat, a: nat)
    requires HeapOk(packs, cs, low, top, {}) && a in cs && !Used(packs, a)
    ensures HeapOk(packs, cs, low, top, {a})
  {
    hide TileOk; hide Size; hide Used; hide AfterUsed;
    assert TagOk(packs, a);
    if a != low {
      assert HasPred(packs, cs, a);
      var p :| p in cs && Next(packs, p) == a;
      assert TagOk(packs, p);
    }
    hide TagOk; hide HasPred;
  }

  /** pack_allocate */
  function Allocate(packs: Packs, a: nat): (r: Packs)
    requires a in packs && Next(packs, a) in packs
  {
    var size := Size(packs, a);
    var p := packs[a := packs[a].(word := size + BOTH)];
    var n := a + size;
    p[n := Pack(size, if PrevInUse(p[n].word) then p[n].word else p[n].word + PREV)]
  }

  /** a and the boundary after it are marked in use; sizes stay. */
  ghost predicate Marked(packs: Packs, r: Packs, a: nat) {
    && r.Keys == packs.Keys && (forall x :: Size(r, x) == Size(packs, x))
    && (forall x :: Used(r, x) <==> x == a || Used(packs, x))
    && (forall x :: AfterUsed(r, x) <==> x == a || x == Next(packs, a) || AfterUsed(packs, x))
    && Next(packs, a) in r && r[Next(packs, a)].prev == Size(packs, a)
    && (forall x :: x in packs && x != Next(packs, a) ==> r[x].prev == packs[x].prev)
  }

  lemma AllocateMarks(packs: Packs, a: nat)
    requires a in packs && Next(packs, a) in packs && Next(packs, a) != a
    ensures Marked(packs, Allocate(packs, a), a)
  {
    hide SizeOf; hide PrevInUse; hide ThisInUse;
    SizeEights(packs, a);
    HeaderRoundTrip(Size(packs, a), BOTH);
    AddPrev(packs[Next(packs, a)].word);
  }

  lemma SizeEights(packs: Packs, a: nat)
    ensures Size(packs, a) % 8 == 0
  {
  }

  lemma AddPrev(word: nat)
    ensures !PrevInUse(word) ==> SizeOf(word + PREV) == SizeOf(word) && PrevInUse(word + PREV) && (ThisInUse(word + PREV) <==> ThisInUse(word))
  {
    Header(word / 8, word % 8);
    if word % 2 == 0 {
      Header(word / 8, word % 8 + 1);
    }
  }

  lemma MarkedTag(packs: Packs, r: Packs, a: nat, x: nat)
    requires Marked(packs, r, a) && AfterUsed(packs, a)
    requires x == a || (TagOk(packs, x) && Next(packs, x) != Next(packs, a))
    requires x != a && Next(packs, x) == a ==> Used(packs, x)
    ensures TagOk(r, x)
  {
    hide Size; hide Used; hide AfterUsed;
  }

  lemma SameTile(packs: Packs, packs': Packs, cs: set<nat>, low: nat, top: nat, a: nat)
    requires TileOk(packs, cs, low, top, a) && Size(packs', a) == Size(packs, a)
    ensures TileOk(packs', cs, low, top, a) && Next(packs', a) == Next(packs, a)
  {
    hide Size;
  }

  lemma SamePred(packs: Packs, packs': Packs, cs: set<nat>, b: nat)
    requires HasPred(packs, cs, b) && forall x :: x in cs ==> Size(packs', x) == Size(packs, x)
    ensures HasPred(packs', cs, b)
  {
    hide Size;
    var p :| p in cs && Next(packs, p) == b;
    assert Next(packs', p) == b;
  }

  lemma SameTiles(packs: Packs, packs': Packs, cs: set<nat>, low: nat, top: nat)
    requires Tiles(packs, cs, low, top) && forall x :: x in cs ==> Size(packs', x) == Size(packs, x)
    ensures Tiles(packs', cs, low, top)
  {
    hide Size; hide TileOk; hide HasPred; hide Next;
    forall a | a in cs
      ensures TileOk(packs', cs, low, top, a) && Next(packs', a) == Next(packs, a)
      ensures a != low ==> HasPred(packs', cs, a)
    {
      SameTile(packs, packs', cs, low, top, a);
      if a != low {
        SamePred(packs, packs', cs, a);
      }
    }
    if top != low {
      SamePred(packs, packs', cs, top);
    }
  }

  lemma NextApart(packs: Packs, cs: set<nat>, low: nat, top: nat, a: nat, b: nat)
    requires Tiles(packs, cs, low, top) && a in cs && b in cs && a != b
    ensures Next(packs, a) != Next(packs, b)
  {
    hide Size; hide HasPred;
    assert TileOk(packs, cs, low, top, a) && TileOk(packs, cs, low, top, b);
    hide TileOk;
  }

  lemma AllocateOk(packs: Packs, cs: set<nat>, low: nat, top: nat, a: nat)
    requires HeapOk(packs, cs, low, top, {a})
    ensures a in packs && Next(packs, a) in packs
    ensures HeapOk(Allocate(packs, a), cs, low, top, {}) && Used(Allocate(packs, a), a)
    ensures Size(Allocate(packs, a), a) == Size(packs, a)
    ensures LiveKept(packs, cs, Allocate(packs, a), cs, a)
  {
    hide HasPred; hide TagOk; hide SizeOf; hide PrevInUse; hide ThisInUse;
    assert a in {a} && a in cs && TileOk(packs, cs, low, top, a);
    hide TileOk;
    AllocateMarks(packs, a);
    var r := Allocate(packs, a);
    hide Allocate; hide Size; hide Used; hide AfterUsed;
    SameTiles(packs, r, cs, low, top);
    forall x | x in cs
      ensures TagOk(r, x)
    {
      MarkOne(packs, r, cs, low, top, a, x);
    }
    hide Tiles;
  }

  lemma MarkOne(packs: Packs, r: Packs, cs: set<nat>, low: nat, top: nat, a: nat, x: nat)
    requires HeapOk(packs, cs, low, top, {a}) && Marked(packs, r, a) && x in cs
    ensures TagOk(r, x)
  {
    hide Size; hide Used; hide AfterUsed; hide Marked;
    assert a in {a} && AfterUsed(packs, a);
    if x != a {
      NextApart(packs, cs, low, top, a, x);
      assert TagOk(packs, x);
    }
    hide Tiles; hide Tagged;
    MarkedTag(packs, r, a, x);
  }

  // ---------- Splitting ----------

  /** split_allocate, up to free_chunk. */
  function Split(packs: Packs, a: nat, need: nat): (r: Packs)
    requires a in packs && Next(packs, a) in packs && need <= Size(packs, a)
  {
    var rest := Size(packs, a) - need;
    var n := Next(packs, a);
    var p := packs[n := Pack(rest, SizeOf(packs[n].word) + THIS)];
    var q := p[a := p[a].(word := need + BOTH)];
    q[a + need := Pack(need, rest + PREV)]
  }

  ghost predicate Halved(packs: Packs, r: Packs, a: nat, need: nat) {
    var t, n := a + need, Next(packs, a);
    && (forall x :: Size(r, x) == if x == a then need else if x == t then Size(packs, a) - need else Size(packs, x))
    && (forall x :: Used(r, x) <==> x == a || x == n || (x != t && Used(packs, x)))
    && (forall x :: AfterUsed(r, x) <==> x == a || x == t || (x != n && AfterUsed(packs, x)))
    && (forall x :: x in packs ==> x in r) && t in r && n in r && r[t].prev == need
    && r[n].prev == Size(packs, a) - need
    && (forall x :: x in packs && x != n && x != t ==> r[x].prev == packs[x].prev)
  }

  lemma SplitHalves(packs: Packs, a: nat, need: nat)
    requires a in packs && Next(packs, a) in packs && 0 < need < Size(packs, a) && need % 8 == 0
    ensures Halved(packs, Split(packs, a, need), a, need)
  {
    hide SizeOf; hide PrevInUse; hide ThisInUse;
    var rest, n := Size(packs, a) - need, Next(packs, a);
    SizeEights(packs, a);
    SizeEights(packs, n);
    HeaderRoundTrip(need, BOTH);
    HeaderRoundTrip(rest, PREV);
    HeaderRoundTrip(SizeOf(packs[n].word), THIS);
  }

  /** t cuts chunk a in two. */
  ghost predicate Cut(packs: Packs, r: Packs, cs: set<nat>, a: nat, t: nat) {
    && a in cs && a < t < Next(packs, a) && Next(r, a) == t && Next(r, t) == Next(packs, a)
    && (forall x :: x in cs && x != a ==> Next(r, x) == Next(packs, x))
  }

  lemma CutApart(packs: Packs, r: Packs, cs: set<nat>, low: nat, top: nat, a: nat, t: nat, x: nat, y: nat)
    requires Tiles(packs, cs, low, top) && Cut(packs, r, cs, a, t) && (x in cs || x == t)
    requires (y in cs || y == t) && x < y
    ensures Next(r, x) <= y && t !in cs
  {
    hide Next; hide HasPred; hide TileOk;
    assert t in cs ==> Next(packs, a) <= t;
    assert x in cs && x < a ==> Next(packs, x) <= a;
    assert y in cs && a < y ==> Next(packs, a) <= y;
  }

  lemma CutTile(packs: Packs, r: Packs, cs: set<nat>, low: nat, top: nat, a: nat, t: nat, x: nat)
    requires Tiles(packs, cs, low, top) && Cut(packs, r, cs, a, t) && (x in cs || x == t)
    ensures TileOk(r, cs + {t}, low, top, x)
  {
    hide Size; hide HasPred;
    assert TileOk(packs, cs, low, top, a);
    if x != t {
      assert TileOk(packs, cs, low, top, x);
    }
  }

  lemma CutInside(packs: Packs, r: Packs, cs: set<nat>, low: nat, top: nat, a: nat, t: nat)
    requires Tiles(packs, cs, low, top) && Cut(packs, r, cs, a, t)
    ensures t !in cs && low < t < top
  {
    hide HasPred;
    assert TileOk(packs, cs, low, top, a);
    hide TileOk;
    assert t in cs ==> Next(packs, a) <= t;
  }

  lemma CutPreds(packs: Packs, r: Packs, cs: set<nat>, a: nat, t: nat, b: nat)
    requires Cut(packs, r, cs, a, t) && (b == t || HasPred(packs, cs, b))
    ensures HasPred(r, cs + {t}, b)
  {
    hide Next;
    if b == t {
      assert a in cs + {t};
    } else {
      var p :| p in cs && Next(packs, p) == b;
      if p == a {
        assert t in cs + {t};
      } else {
        assert p in cs + {t};
      }
    }
  }

  lemma SplitTiles(packs: Packs, r: Packs, cs: set<nat>, low: nat, top: nat, a: nat, t: nat)
    requires Tiles(packs, cs, low, top) && Cut(packs, r, cs, a, t)
    ensures Tiles(r, cs + {t}, low, top) && t !in cs
  {
    hide TileOk; hide HasPred; hide Next; hide Cut;
    CutInside(packs, r, cs, low, top, a, t);
    forall x | x in cs + {t}
      ensures TileOk(r, cs + {t}, low, top, x) && (x != low ==> HasPred(r, cs + {t}, x))
    {
      CutTile(packs, r, cs, low, top, a, t, x);
      if x != low {
        CutPreds(packs, r, cs, a, t, x);
      }
    }
    if top != low {
      CutPreds(packs, r, cs, a, t, top);
    }
    forall x, y | x in cs + {t} && y in cs + {t} && x < y
      ensures Next(r, x) <= y
    {
      CutApart(packs, r, cs, low, top, a, t, x, y);
    }
  }

  lemma HalvedTag(packs: Packs, r: Packs, a: nat, need: nat, x: nat)
    requires Halved(packs, r, a, need) && AfterUsed(packs, a) && 0 < need < Size(packs, a)
    requires x != a && x != a + need && TagOk(packs, x) && Next(packs, x) != Next(packs, a)
    requires Next(packs, x) != a + need && Next(packs, a) != x
    ensures TagOk(r, x)
  {
    hide Size; hide Used; hide AfterUsed;
  }

  lemma HalvedEnds(packs: Packs, r: Packs, a: nat, need: nat)
    requires Halved(packs, r, a, need) && 0 < need < Size(packs, a) && 32 < Size(packs, a) - need <= MAXCHUNK
    ensures TagOk(r, a) && TagOk(r, a + need)
  {
    hide Size; hide Used; hide AfterUsed;
  }

  lemma HalvedNext(packs: Packs, r: Packs, a: nat, need: nat)
    requires Halved(packs, r, a, need) && 0 < need < Size(packs, a) && TagOk(packs, Next(packs, a))
    requires Used(packs, Next(packs, a))
    requires var m := Next(packs, Next(packs, a)); m != a && m != a + need && m != Next(packs, a)
    ensures TagOk(r, Next(packs, a))
  {
    hide Size; hide Used; hide AfterUsed;
  }

  lemma SplitOne(packs: Packs, r: Packs, cs: set<nat>, low: nat, top: nat, a: nat, need: nat, x: nat)
    requires HeapOk(packs, cs, low, top, {a}) && Halved(packs, r, a, need) && x in cs && 0 < need < Size(packs, a)
    requires x != a && a + need !in cs
    ensures TagOk(r, x)
  {
    hide Size; hide Used; hide AfterUsed; hide Halved; hide HasPred;
    assert a in {a} && AfterUsed(packs, a) && Used(packs, Next(packs, a)) && a in cs;
    assert TileOk(packs, cs, low, top, a) && TileOk(packs, cs, low, top, x);
    NextApart(packs, cs, low, top, a, x);
    assert TagOk(packs, x) && a + need != top;
    hide Tiles; hide Tagged;
    if x == Next(packs, a) {
      HalvedNext(packs, r, a, need);
    } else {
      HalvedTag(packs, r, a, need, x);
    }
  }

  /** What split_allocate leaves: a chunk of the needed size in use and the rest free. */
  ghost predicate SplitDone(packs: Packs, cs: set<nat>, r: Packs, a: nat, need: nat) {
    var t := a + need;
    && t !in cs && Used(r, a) && Size(r, a) == need && !Used(r, t) && Size(r, t) == Size(packs, a) - need
    && AfterUsed(r, t) && Used(r, Next(r, t)) && !AfterUsed(r, Next(r, t)) && LiveKept(packs, cs, r, cs + {t}, a)
    && (forall x :: x in cs && x != a ==> (Used(r, x) <==> Used(packs, x)) && Size(r, x) == Size(packs, x))
  }

  lemma SplitInHeap(packs: Packs, cs: set<nat>, low: nat, top: nat, a: nat)
    requires HeapOk(packs, cs, low, top, {a})
    ensures a in cs && a in packs && Next(packs, a) in packs
  {
    assert a in {a};
    AtChunk(packs, cs, low, top, {a}, a);
  }

  ghost predicate SplitsWell(packs: Packs, cs: set<nat>, low: nat, top: nat, a: nat, need: nat) {
    && a in packs && Next(packs, a) in packs && need <= Size(packs, a)
    && HeapOk(Split(packs, a, need), cs + {a + need}, low, top, {})
    && SplitDone(packs, cs, Split(packs, a, need), a, need)
  }

  lemma SplitOk(packs: Packs, cs: set<nat>, low: nat, top: nat, a: nat, need: nat)
    requires HeapOk(packs, cs, low, top, {a}) && 0 < need && need % 8 == 0 && a in packs && Next(packs, a) in packs
    requires need < Size(packs, a) && 32 < Size(packs, a) - need <= MAXCHUNK
    ensures SplitsWell(packs, cs, low, top, a, need)
  {
    hide Size; hide Used; hide AfterUsed; hide HeapOk; hide Split; hide SplitDone; hide Halved;
    hide LiveKept; hide Next;
    SplitHalves(packs, a, need);
    var r := Split(packs, a, need);
    SplitInHeap(packs, cs, low, top, a);
    SplitCuts(packs, r, cs, low, top, a, need);
    SplitHeap(packs, r, cs, low, top, a, need);
    SplitFrame(packs, r, cs, low, top, a, need);
  }

  lemma SplitCuts(packs: Packs, r: Packs, cs: set<nat>, low: nat, top: nat, a: nat, need: nat)
    requires HeapOk(packs, cs, low, top, {a}) && Halved(packs, r, a, need) && 0 < need < Size(packs, a) && a in cs
    ensures Tiles(r, cs + {a + need}, low, top) && a + need !in cs
  {
    hide Size; hide Used; hide AfterUsed; hide Tiles; hide Tagged;
    NoneInside(packs, cs, low, top, a, a + need);
    assert Cut(packs, r, cs, a, a + need);
    SplitTiles(packs, r, cs, low, top, a, a + need);
  }

  lemma NoneInside(packs: Packs, cs: set<nat>, low: nat, top: nat, a: nat, t: nat)
    requires Tiles(packs, cs, low, top) && a in cs && a < t < Next(packs, a)
    ensures t !in cs
  {
    hide HasPred; hide TileOk; hide Size;
  }

  lemma SplitHeap(packs: Packs, r: Packs, cs: set<nat>, low: nat, top: nat, a: nat, need: nat)
    requires HeapOk(packs, cs, low, top, {a}) && Halved(packs, r, a, need) && 0 < need < Size(packs, a)
    requires 32 < Size(packs, a) - need <= MAXCHUNK
    requires a in cs && a + need !in cs && Tiles(r, cs + {a + need}, low, top)
    ensures HeapOk(r, cs + {a + need}, low, top, {})
  {
    hide Size; hide Used; hide AfterUsed; hide Tiles; hide TagOk;
    SplitEdges(packs, r, cs, low, top, a, need);
    hide Tagged;
    HalvedEnds(packs, r, a, need);
    forall x | x in cs + {a + need}
      ensures TagOk(r, x)
    {
      if x != a && x != a + need {
        SplitOne(packs, r, cs, low, top, a, need, x);
      }
    }
    SplitTagged(r, cs + {a + need}, low, top);
  }

  lemma SplitTagged(r: Packs, cs: set<nat>, low: nat, top: nat)
    requires (forall x :: x in cs ==> TagOk(r, x)) && top in r && Size(r, top) == 0 && Used(r, top) && AfterUsed(r, low)
    ensures Tagged(r, cs, low, top, {})
  {
    hide TagOk; hide Size; hide Used; hide AfterUsed;
  }

  lemma SplitEdges(packs: Packs, r: Packs, cs: set<nat>, low: nat, top: nat, a: nat, need: nat)
    requires HeapOk(packs, cs, low, top, {a}) && Halved(packs, r, a, need) && 0 < need < Size(packs, a)
    requires a in cs && a + need !in cs
    ensures top in r && Size(r, top) == 0 && Used(r, top) && AfterUsed(r, low)
  {
    hide Size; hide Used; hide AfterUsed; hide HasPred; hide TagOk;
    assert TileOk(packs, cs, low, top, a);
    hide TileOk;
  }

  lemma SplitFrame(packs: Packs, r: Packs, cs: set<nat>, low: nat, top: nat, a: nat, need: nat)
    requires HeapOk(packs, cs, low, top, {a}) && Halved(packs, r, a, need) && 0 < need < Size(packs, a)
    requires a in cs && a + need !in cs
    ensures SplitDone(packs, cs, r, a, need)
  {
    hide Size; hide Used; hide AfterUsed; hide Tiles; hide Tagged;
    AtChunk(packs, cs, low, top, {a}, a);
    assert a in {a} && Used(packs, Next(packs, a));
    NextNotLast(packs, cs, low, top, a);
  }

  lemma NextNotLast(packs: Packs, cs: set<nat>, low: nat, top: nat, a: nat)
    requires HeapOk(packs, cs, low, top, {a}) && a in cs
    ensures low <= a < Next(packs, a)
  {
    AtChunk(packs, cs, low, top, {a}, a);
  }

  // ---------- Growing at the top ----------

  /** malloc_brk: the sentinel becomes a chunk, with a new sentinel after it. */
  function Grow(packs: Packs, top: nat, size: nat): (r: Packs)
    requires top in packs
  {
    packs[top := packs[top].(word := size + packs[top].word % 8)][top + size := Pack(0, THIS)]
  }

  /** try_merge_prev: the new chunk joins the free chunk p below it. */
  function Merge(packs: Packs, p: nat, top: nat, size: nat): (r: Packs)
    requires p in packs
  {
    var q := packs[p := packs[p].(word := packs[p].word + size)];
    q[top + size := Pack(SizeOf(q[p].word), THIS)]
  }

  lemma FlagsKept(word: nat, size: nat)
    requires size % 8 == 0
    ensures SizeOf(size + word % 8) == size && SizeOf(word + size) == SizeOf(word) + size
    ensures (PrevInUse(size + word % 8) <==> PrevInUse(word)) && (ThisInUse(size + word % 8) <==> ThisInUse(word))
    ensures (PrevInUse(word + size) <==> PrevInUse(word)) && (ThisInUse(word + size) <==> ThisInUse(word))
  {
    var q, k, f := word / 8, size / 8, word % 8;
    Header(q, f);
    Header(k, f);
    Header(q + k, f);
    assert word == 8 * q + f && size == 8 * k && word + size == 8 * (q + k) + f;
    hide SizeOf; hide PrevInUse; hide ThisInUse;
  }

  lemma Header(q: nat, f: nat)
    requires f < 8
    ensures SizeOf(8 * q + f) == 8 * q && (PrevInUse(8 * q + f) <==> f % 2 == 1)
    ensures ThisInUse(8 * q + f) <==> f / 2 % 2 == 1
  {
    assert (8 * q + f) / 8 == q;
    Halve(4 * q, f);
    Halve(2 * q, f / 2);
  }

  lemma Halve(x: nat, f: nat)
    ensures (2 * x + f) / 2 == x + f / 2 && (2 * x + f) % 2 == f % 2
  {
  }

  /** What Grow leaves as it was, and the headers it writes. */
  ghost predicate Grown(packs: Packs, r: Packs, top: nat, size: nat) {
    && (forall x: nat :: x < top ==>
          Size(r, x) == Size(packs, x) && (Used(r, x) <==> Used(packs, x)) && (AfterUsed(r, x) <==> AfterUsed(packs, x)))
    && (forall x: nat :: x <= top ==> (x in r <==> x in packs) && (x in packs ==> r[x].prev == packs[x].prev))
    && Size(r, top) == size && (Used(r, top) <==> Used(packs, top)) && (AfterUsed(r, top) <==> AfterUsed(packs, top))
    && top + size in r && Size(r, top + size) == 0 && Used(r, top + size) && !AfterUsed(r, top + size)
  }

  lemma GrowEffect(packs: Packs, top: nat, size: nat)
    requires top in packs && size % 8 == 0 && size > 0
    ensures Grown(packs, Grow(packs, top, size), top, size)
  {
    FlagsKept(packs[top].word, size);
    HeaderRoundTrip(0, THIS);
    hide SizeOf; hide PrevInUse; hide ThisInUse;
  }

  lemma MergeEffect(packs: Packs, p: nat, top: nat, size: nat)
    requires p in packs && p < top && size % 8 == 0 && size > 0
    ensures var r := Merge(packs, p, top, size);
            && (forall x: nat :: x < top ==> Size(r, x) == if x == p then Size(packs, p) + size else Size(packs, x))
            && (forall x: nat :: x < top ==>
                  (Used(r, x) <==> Used(packs, x)) && (AfterUsed(r, x) <==> AfterUsed(packs, x)))
            && (forall x: nat :: x < top ==> (x in r <==> x in packs) && (x in packs ==> r[x].prev == packs[x].prev))
            && top + size in r && Size(r, top + size) == 0 && Used(r, top + size)
  {
    FlagsKept(packs[p].word, size);
    HeaderRoundTrip(0, THIS);
    hide SizeOf; hide PrevInUse; hide ThisInUse;
  }

  /** The old sentinel is now a chunk up to the new one. */
  ghost predicate Raised(packs: Packs, r: Packs, cs: set<nat>, low: nat, top: nat, size: nat) {
    && Tiles(packs, cs, low, top) && low <= top && size > 0 && Next(r, top) == top + size
    && (forall x :: x in cs ==> Next(r, x) == Next(packs, x) && Size(r, x) == Size(packs, x))
  }

  lemma RaisedTile(packs: Packs, r: Packs, cs: set<nat>, low: nat, top: nat, size: nat, x: nat)
    requires Raised(packs, r, cs, low, top, size) && (x in cs || x == top)
    ensures TileOk(r, cs + {top}, low, top + size, x) && x <= top && (x != top ==> Next(r, x) <= top)
  {
    hide HasPred;
    if x in cs {
      assert TileOk(packs, cs, low, top, x);
    }
  }

  lemma RaisedPred(packs: Packs, r: Packs, cs: set<nat>, low: nat, top: nat, size: nat, b: nat)
    requires Raised(packs, r, cs, low, top, size) && (b == top + size || HasPred(packs, cs, b))
    ensures HasPred(r, cs + {top}, b)
  {
    hide TileOk; hide Next; hide Size;
    if b == top + size {
      assert top in cs + {top};
    } else {
      var p :| p in cs && Next(packs, p) == b;
      assert p in cs + {top};
    }
  }

  lemma GrowTiles(packs: Packs, r: Packs, cs: set<nat>, low: nat, top: nat, size: nat)
    requires Raised(packs, r, cs, low, top, size)
    ensures Tiles(r, cs + {top}, low, top + size)
  {
    hide TileOk; hide HasPred; hide Next; hide Size;
    forall x | x in cs + {top}
      ensures TileOk(r, cs + {top}, low, top + size, x) && x <= top && (x != top ==> Next(r, x) <= top)
      ensures x != low ==> HasPred(r, cs + {top}, x)
    {
      RaisedTile(packs, r, cs, low, top, size, x);
      if x != low {
        RaisedPred(packs, r, cs, low, top, size, x);
      }
    }
    RaisedPred(packs, r, cs, low, top, size, top + size);
  }

  /** Growth when the last chunk is in use. */
  lemma GrowOk(packs: Packs, cs: set<nat>, low: nat, top: nat, size: nat)
    requires HeapOk(packs, cs, low, top, {}) && AfterUsed(packs, top) && size % 8 == 0 && size > 0 && low <= top
    ensures top in packs
    ensures var r := Grow(packs, top, size);
            HeapOk(r, cs + {top}, low, top + size, {top}) && top !in cs && Size(r, top) == size
            && forall x :: x in cs ==> (Used(r, x) <==> Used(packs, x)) && Size(r, x) == Size(packs, x)
  {
    hide Grow; hide Size; hide Used; hide AfterUsed; hide HasPred; hide TagOk; hide TileOk; hide Next; hide Tiles;
    assert top in packs && top !in cs by { TopIs(packs, cs, low, top); }
    GrowEffect(packs, top, size);
    var r := Grow(packs, top, size);
    forall x | x in cs
      ensures TagOk(r, x) && x < top
      ensures Size(r, x) == Size(packs, x) && (Used(r, x) <==> Used(packs, x)) && Next(r, x) == Next(packs, x)
    {
      GrowTag(packs, r, cs, low, top, size, x);
    }
    NewTop(packs, r, low, top, size);
    hide Grown;
    GrowTiles(packs, r, cs, low, top, size);
  }

  lemma TopIs(packs: Packs, cs: set<nat>, low: nat, top: nat)
    requires HeapOk(packs, cs, low, top, {})
    ensures top in packs && top !in cs
  {
  }

  lemma NewTop(packs: Packs, r: Packs, low: nat, top: nat, size: nat)
    requires Grown(packs, r, top, size) && AfterUsed(packs, top) && AfterUsed(packs, low) && low <= top
    ensures Next(r, top) == top + size && Size(r, top) == size && AfterUsed(r, top) && Used(r, Next(r, top))
    ensures AfterUsed(r, low)
    ensures top + size in r && Size(r, top + size) == 0 && Used(r, top + size)
  {
    hide Size; hide Used; hide AfterUsed;
  }

  lemma GrowTag(packs: Packs, r: Packs, cs: set<nat>, low: nat, top: nat, size: nat, x: nat)
    requires HeapOk(packs, cs, low, top, {}) && x in cs && Grown(packs, r, top, size)
    ensures TagOk(r, x) && x < top
    ensures Size(r, x) == Size(packs, x) && (Used(r, x) <==> Used(packs, x)) && Next(r, x) == Next(packs, x)
  {
    hide Size; hide Used; hide AfterUsed; hide Tiles; hide Tagged;
    AtChunk(packs, cs, low, top, {}, x);
  }

  /** p now reaches from its place to the new sentinel. */
  ghost predicate Extended(packs: Packs, r: Packs, cs: set<nat>, low: nat, top: nat, p: nat, size: nat) {
    && Tiles(packs, cs, low, top) && p in cs && Next(packs, p) == top && size > 0
    && Next(r, p) == top + size && Size(r, p) > 0
    && (forall x :: x in cs && x != p ==> Next(r, x) == Next(packs, x) && Size(r, x) == Size(packs, x))
  }

  lemma ExtendedTile(packs: Packs, r: Packs, cs: set<nat>, low: nat, top: nat, p: nat, size: nat, x: nat)
    requires Extended(packs, r, cs, low, top, p, size) && x in cs
    ensures TileOk(r, cs, low, top + size, x) && low <= x < top && (x != p ==> x < p && Next(r, x) <= p)
  {
    hide HasPred;
    assert TileOk(packs, cs, low, top, x) && TileOk(packs, cs, low, top, p);
    if x != p {
      NextApart(packs, cs, low, top, p, x);
      assert x < p ==> Next(packs, x) <= p;
      assert p < x ==> Next(packs, p) <= x;
    }
  }

  lemma ExtendedPred(packs: Packs, r: Packs, cs: set<nat>, low: nat, top: nat, p: nat, size: nat, b: nat)
    requires Extended(packs, r, cs, low, top, p, size) && (b == top + size || (HasPred(packs, cs, b) && b != top))
    ensures HasPred(r, cs, b)
  {
    hide TileOk; hide Next; hide Size;
    if b != top + size {
      var q :| q in cs && Next(packs, q) == b;
      assert Next(r, q) == b;
    }
  }

  lemma ExtendTiles(packs: Packs, r: Packs, cs: set<nat>, low: nat, top: nat, p: nat, size: nat)
    requires Extended(packs, r, cs, low, top, p, size)
    ensures Tiles(r, cs, low, top + size)
  {
    hide TileOk; hide HasPred; hide Next; hide Size;
    forall x | x in cs
      ensures TileOk(r, cs, low, top + size, x) && low <= x < top && (x != p ==> x < p && Next(r, x) <= p)
      ensures x != low ==> HasPred(r, cs, x)
    {
      ExtendedTile(packs, r, cs, low, top, p, size, x);
      if x != low {
        ExtendedPred(packs, r, cs, low, top, p, size, x);
      }
    }
    ExtendedPred(packs, r, cs, low, top, p, size, top + size);
  }

  /** Growth when the last chunk is free: it is extended. */
  lemma MergeOk(packs: Packs, r: Packs, cs: set<nat>, low: nat, top: nat, p: nat, size: nat)
    requires HeapOk(packs, cs, low, top, {}) && p in cs && Next(packs, p) == top && !Used(packs, p)
    requires size > 0 && low <= top
    requires forall x: nat :: x < top ==> Size(r, x) == if x == p then Size(packs, p) + size else Size(packs, x)
    requires forall x: nat :: x < top ==> (Used(r, x) <==> Used(packs, x)) && (AfterUsed(r, x) <==> AfterUsed(packs, x))
    requires forall x: nat :: x < top ==> (x in r <==> x in packs) && (x in packs ==> r[x].prev == packs[x].prev)
    requires top + size in r && Size(r, top + size) == 0 && Used(r, top + size)
    ensures HeapOk(r, cs, low, top + size, {p}) && Size(r, p) == Size(packs, p) + size
    ensures forall x :: x in cs && x != p ==> (Used(r, x) <==> Used(packs, x)) && Size(r, x) == Size(packs, x)
  {
    hide Used; hide AfterUsed; hide TagOk; hide Size; hide Tiles; hide Tagged;
    TakeOut(packs, cs, low, top, p);
    AtChunk(packs, cs, low, top, {p}, p);
    assert p in {p} && AfterUsed(packs, p);
    BelowTop(packs, cs, low, top);
    assert Next(r, p) == top + size;
    assert Extended(packs, r, cs, low, top, p, size);
    ExtendTiles(packs, r, cs, low, top, p, size);
    forall x | x in cs && x != p
      ensures TagOk(r, x)
    {
      ExtendTag(packs, r, cs, low, top, p, size, x);
    }
    ExtendTagged(packs, r, cs, low, top, p, size);
  }

  lemma BelowTop(packs: Packs, cs: set<nat>, low: nat, top: nat)
    requires Tiles(packs, cs, low, top)
    ensures (forall x :: x in cs ==> x < top) && (low in cs || low == top)
  {
    hide HasPred;
    forall x | x in cs
      ensures x < top
    {
      assert TileOk(packs, cs, low, top, x);
    }
    hide TileOk;
  }

  lemma ExtendTagged(packs: Packs, r: Packs, cs: set<nat>, low: nat, top: nat, p: nat, size: nat)
    requires Tagged(packs, cs, low, top, {}) && p in cs && AfterUsed(packs, p) && Next(r, p) == top + size
    requires (forall x :: x in cs ==> x < top) && low < top
    requires (forall x :: x in cs && x != p ==> TagOk(r, x))
    requires top + size in r && Size(r, top + size) == 0 && Used(r, top + size)
    requires forall x: nat :: x < top ==> (AfterUsed(r, x) <==> AfterUsed(packs, x))
    ensures Tagged(r, cs, low, top + size, {p})
  {
    hide TagOk; hide Size; hide Used; hide AfterUsed;
  }

  lemma ExtendTag(packs: Packs, r: Packs, cs: set<nat>, low: nat, top: nat, p: nat, size: nat, x: nat)
    requires HeapOk(packs, cs, low, top, {}) && Extended(packs, r, cs, low, top, p, size) && x in cs && x != p
    requires forall y: nat :: y < top ==> (Used(r, y) <==> Used(packs, y)) && (AfterUsed(r, y) <==> AfterUsed(packs, y))
    requires forall y: nat :: y < top ==> (y in r <==> y in packs) && (y in packs ==> r[y].prev == packs[y].prev)
    ensures TagOk(r, x)
  {
    hide Used; hide AfterUsed; hide Tiles; hide Tagged;
    AtChunk(packs, cs, low, top, {}, x);
    ExtendedTile(packs, r, cs, low, top, p, size, x);
    ExtendedTile(packs, r, cs, low, top, p, size, p);
  }

  /** The chunk that a clear PREV_INUSE of the sentinel points to. */
  lemma LastFree(packs: Packs, cs: set<nat>, low: nat, top: nat)
    requires HeapOk(packs, cs, low, top, {}) && !AfterUsed(packs, top)
    ensures top in packs && packs[top].prev <= top
    ensures var p := top - packs[top].prev;
            p in cs && Next(packs, p) == top && !Used(packs, p) && 32 < Size(packs, p) <= MAXCHUNK
  {
    assert HasPred(packs, cs, top);
    var p :| p in cs && Next(packs, p) == top;
    AtChunk(packs, cs, low, top, {}, p);
    hide Size; hide Used; hide AfterUsed; hide HasPred; hide Tiles; hide Tagged;
  }

  /** malloc_brk's growth with try_merge_prev. */
  lemma GrowMergeOk(packs: Packs, cs: set<nat>, low: nat, top: nat, p: nat, size: nat)
    requires HeapOk(packs, cs, low, top, {}) && p in cs && Next(packs, p) == top && !Used(packs, p)
    requires size > 0 && size % 8 == 0 && low <= top
    ensures top in packs && p in Grow(packs, top, size)
    ensures var r := Merge(Grow(packs, top, size), p, top, size);
            && HeapOk(r, cs, low, top + size, {p}) && Size(r, p) == Size(packs, p) + size
            && forall x :: x in cs && x != p ==> (Used(r, x) <==> Used(packs, x)) && Size(r, x) == Size(packs, x)
  {
    assert p < top && p in packs by { AtChunk(packs, cs, low, top, {}, p); }
    assert top in packs by { hide HasPred; hide TagOk; hide TileOk; }
    GrowEffect(packs, top, size);
    var g := Grow(packs, top, size);
    MergeEffect(g, p, top, size);
    var r := Merge(g, p, top, size);
    hide Grow; hide Merge; hide Size; hide Used; hide AfterUsed; hide HeapOk;
    MergeOk(packs, r, cs, low, top, p, size);
  }
}
