/** The buffer cache under the group-commit machine: bget, brelse, bpin and bunpin change the
    reference counts and the cached blocks as the machine's steps do, so the machine recycles
    a buffer exactly when bget's test of the count lets it go. */
module CacheSteps {
  import opened Blocks
  import opened RedoLog
  import opened LogCode
  import GC = GroupCommit
  import BC = BufferCache

  const ROOTDEV := 1

  /** Buffer b has the count and the contents that the machine has for its block. */
  ghost predicate BufShows(b: BC.Buf, refcnt: Refs, cache: Disk) {
    b.dev == ROOTDEV ==>
      && Refcnt(refcnt, b.blockno) == b.refcnt && (b.valid <==> b.blockno in cache)
      && (b.valid ==> cache[b.blockno] == b.data)
  }

  /** The buffers hold what the machine caches; a block without a buffer is neither counted
      nor cached. */
  ghost predicate Shows(bufs: seq<BC.Buf>, refcnt: Refs, cache: Disk) {
    && |bufs| == BC.NBUF + 1 && BC.Unique(bufs)
    && (forall b :: 0 <= b < BC.NBUF ==> BufShows(bufs[b], refcnt, cache))
    && (forall bn: nat :: Refcnt(refcnt, bn) != 0 || bn in cache ==> BC.Cached(bufs, ROOTDEV, bn))
  }

  /** One buffer of block bn changes to x, still of that block, and the machine's count and
      contents of bn with it. */
  lemma ChangeShows(bufs: seq<BC.Buf>, refcnt: Refs, cache: Disk, b: nat, x: BC.Buf, refcnt': Refs, cache': Disk)
    requires Shows(bufs, refcnt, cache) && b < BC.NBUF && bufs[b].dev == ROOTDEV
    requires BC.Holds(x, ROOTDEV, bufs[b].blockno)
    requires BufShows(x, refcnt', cache') && BC.Unique(bufs[b := x])
    requires forall bn: nat :: bn != x.blockno ==>
               && Refcnt(refcnt', bn) == Refcnt(refcnt, bn) && (bn in cache' <==> bn in cache)
               && (bn in cache ==> cache'[bn] == cache[bn])
    ensures Shows(bufs[b := x], refcnt', cache')
  {
    var bufs' := bufs[b := x];
    forall c | 0 <= c < BC.NBUF
      ensures BufShows(bufs'[c], refcnt', cache')
    {
      if c != b {
        OtherBlock(bufs', b, c);
        assert BufShows(bufs[c], refcnt, cache);
      }
    }
    forall bn: nat | Refcnt(refcnt', bn) != 0 || bn in cache'
      ensures BC.Cached(bufs', ROOTDEV, bn)
    {
      if bn == x.blockno {
        assert BC.Holds(bufs'[b], ROOTDEV, bn);
      } else {
        StillCached(bufs, b, x, bn);
      }
    }
  }

  lemma OtherBlock(bufs: seq<BC.Buf>, b: nat, c: nat)
    requires |bufs| == BC.NBUF + 1 && BC.Unique(bufs) && b < BC.NBUF && c < BC.NBUF && b != c && bufs[b].dev == ROOTDEV
    ensures bufs[c].dev == ROOTDEV ==> bufs[c].blockno != bufs[b].blockno
  {
    if bufs[c].dev == ROOTDEV {
      assert if b < c then !BC.Holds(bufs[c], bufs[b].dev, bufs[b].blockno) else !BC.Holds(bufs[b], bufs[c].dev, bufs[c].blockno);
    }
  }

  lemma StillCached(bufs: seq<BC.Buf>, b: nat, x: BC.Buf, bn: nat)
    requires |bufs| == BC.NBUF + 1 && b < BC.NBUF && BC.Cached(bufs, ROOTDEV, bn) && !BC.Holds(bufs[b], ROOTDEV, bn)
    ensures BC.Cached(bufs[b := x], ROOTDEV, bn)
  {
    var c :| 0 <= c < BC.NBUF && BC.Holds(bufs[c], ROOTDEV, bn);
    assert BC.Holds(bufs[b := x][c], ROOTDEV, bn);
  }

  /** bget on a cached block is the machine's Ref. */
  lemma HitIsRef(l: Layout, s: GC.State, t: nat, bn: nat, bufs: seq<BC.Buf>, b: nat)
    requires Shows(bufs, s.refcnt, s.cache) && GC.Enabled(l, s, GC.Ref(t, bn)) && b < BC.NBUF
    requires BC.Holds(bufs[b], ROOTDEV, bn)
    requires BC.Unique(bufs[b := bufs[b].(refcnt := bufs[b].refcnt + 1)])
    ensures var s' := GC.Do(l, s, GC.Ref(t, bn));
            Shows(bufs[b := bufs[b].(refcnt := bufs[b].refcnt + 1)], s'.refcnt, s'.cache)
  {
    var s' := GC.Do(l, s, GC.Ref(t, bn));
    assert BufShows(bufs[b], s.refcnt, s.cache);
    ChangeShows(bufs, s.refcnt, s.cache, b, bufs[b].(refcnt := bufs[b].refcnt + 1), s'.refcnt, s'.cache);
  }

  /** The machine after the block in a recycled buffer has left the cache. */
  ghost function Dropped(l: Layout, s: GC.State, was: BC.Buf): GC.State {
    if was.dev == ROOTDEV && GC.Enabled(l, s, GC.Recycle(was.blockno)) then GC.Do(l, s, GC.Recycle(was.blockno)) else s
  }

  /** bget on any other block is Recycle of what the buffer held, if that was valid, and Ref:
      the count of 0 that bget tests is what Recycle asks for. */
  lemma MissIsRecycleThenRef(l: Layout, s: GC.State, t: nat, bn: nat, bufs: seq<BC.Buf>, b: nat)
    requires Shows(bufs, s.refcnt, s.cache) && GC.Enabled(l, s, GC.Ref(t, bn)) && b < BC.NBUF
    requires bufs[b].refcnt == 0 && !BC.Cached(bufs, ROOTDEV, bn)
    requires BC.Unique(bufs[b := bufs[b].(dev := ROOTDEV, blockno := bn, valid := false, refcnt := 1)])
    ensures bufs[b].dev == ROOTDEV && bufs[b].valid ==> GC.Enabled(l, s, GC.Recycle(bufs[b].blockno))
    ensures var s1 := Dropped(l, s, bufs[b]);
            && GC.Enabled(l, s1, GC.Ref(t, bn))
            && var s' := GC.Do(l, s1, GC.Ref(t, bn));
               Shows(bufs[b := bufs[b].(dev := ROOTDEV, blockno := bn, valid := false, refcnt := 1)],
                   s'.refcnt, s'.cache)
  {
    var s1 := Dropped(l, s, bufs[b]);
    var s' := GC.Do(l, s1, GC.Ref(t, bn));
    assert BufShows(bufs[b], s.refcnt, s.cache);
    assert s'.refcnt == Bump(s.refcnt, bn, 1);
    assert s'.cache == if bufs[b].dev == ROOTDEV then s.cache - {bufs[b].blockno} else s.cache;
    hide GC.Do; hide GC.Enabled; hide Dropped; hide BufShows; hide BC.Unique; hide BC.Cached; hide Refcnt; hide Bump;
    RetagShows(bufs, s.refcnt, s.cache, b, bn, s'.refcnt, s'.cache);
  }

  lemma RetagShows(bufs: seq<BC.Buf>, refcnt: Refs, cache: Disk, b: nat, bn: nat, refcnt': Refs, cache': Disk)
    requires Shows(bufs, refcnt, cache) && b < BC.NBUF && bufs[b].refcnt == 0 && !BC.Cached(bufs, ROOTDEV, bn)
    requires BC.Unique(bufs[b := bufs[b].(dev := ROOTDEV, blockno := bn, valid := false, refcnt := 1)])
    requires refcnt' == Bump(refcnt, bn, 1) && cache' == if bufs[b].dev == ROOTDEV then cache - {bufs[b].blockno} else cache
    ensures Shows(bufs[b := bufs[b].(dev := ROOTDEV, blockno := bn, valid := false, refcnt := 1)], refcnt', cache')
  {
    hide BC.Unique; hide BC.Cached;
    var x := bufs[b].(dev := ROOTDEV, blockno := bn, valid := false, refcnt := 1);
    var bufs' := bufs[b := x];
    assert BufShows(bufs[b], refcnt, cache);
    assert Refcnt(refcnt, bn) == 0 && bn !in cache;
    forall c | 0 <= c < BC.NBUF
      ensures BufShows(bufs'[c], refcnt', cache')
    {
      if c != b {
        OtherBlock(bufs', b, c);
        assert BufShows(bufs[c], refcnt, cache);
        if bufs[b].dev == ROOTDEV {
          OtherBlock(bufs, b, c);
        }
      }
    }
    forall m: nat | Refcnt(refcnt', m) != 0 || m in cache'
      ensures BC.Cached(bufs', ROOTDEV, m)
    {
      if m == bn {
        NowCached(bufs', b, bn);
      } else {
        StillCached(bufs, b, x, m);
      }
    }
  }

  lemma NowCached(bufs: seq<BC.Buf>, b: nat, bn: nat)
    requires b < BC.NBUF <= |bufs| && BC.Holds(bufs[b], ROOTDEV, bn)
    ensures BC.Cached(bufs, ROOTDEV, bn)
  {
  }

  /** brelse is the machine's Unref; the list order does not matter to it. */
  lemma ReleaseIsUnref(l: Layout, s: GC.State, t: nat, bn: nat, bufs: seq<BC.Buf>, b: nat, bufs': seq<BC.Buf>)
    requires Shows(bufs, s.refcnt, s.cache) && GC.Enabled(l, s, GC.Unref(t, bn)) && b < BC.NBUF
    requires BC.Holds(bufs[b], ROOTDEV, bn)
    requires BC.SameBufs(bufs', bufs[b := bufs[b].(refcnt := bufs[b].refcnt - 1)]) && BC.Unique(bufs')
    ensures var s' := GC.Do(l, s, GC.Unref(t, bn));
            Shows(bufs', s'.refcnt, s'.cache)
  {
    var s' := GC.Do(l, s, GC.Unref(t, bn));
    var m := bufs[b := bufs[b].(refcnt := bufs[b].refcnt - 1)];
    assert BufShows(bufs[b], s.refcnt, s.cache);
    BC.SameUnique(bufs', m);
    ChangeShows(bufs, s.refcnt, s.cache, b, bufs[b].(refcnt := bufs[b].refcnt - 1), s'.refcnt, s'.cache);
    RelinkShows(m, bufs', s'.refcnt, s'.cache);
  }

  lemma RelinkShows(m: seq<BC.Buf>, bufs: seq<BC.Buf>, refcnt: Refs, cache: Disk)
    requires Shows(m, refcnt, cache) && BC.SameBufs(bufs, m) && BC.Unique(bufs)
    ensures Shows(bufs, refcnt, cache)
  {
    forall c | 0 <= c < BC.NBUF
      ensures BufShows(bufs[c], refcnt, cache)
    {
      assert BufShows(m[c], refcnt, cache) && BC.SameBuf(bufs[c], m[c]);
    }
    forall bn: nat | BC.Cached(m, ROOTDEV, bn)
      ensures BC.Cached(bufs, ROOTDEV, bn)
    {
      var c :| 0 <= c < BC.NBUF && BC.Holds(m[c], ROOTDEV, bn);
      assert BC.SameBuf(bufs[c], m[c]) && BC.Holds(bufs[c], ROOTDEV, bn);
    }
  }

  /** bpin in log_write and bunpin in install_trans are the machine's changes of the count. */
  lemma PinIsBump(bufs: seq<BC.Buf>, refcnt: Refs, cache: Disk, b: nat, n: int)
    requires Shows(bufs, refcnt, cache) && b < BC.NBUF && bufs[b].dev == ROOTDEV
    requires BC.Unique(bufs[b := bufs[b].(refcnt := bufs[b].refcnt + n)])
    ensures Shows(bufs[b := bufs[b].(refcnt := bufs[b].refcnt + n)], Bump(refcnt, bufs[b].blockno, n), cache)
  {
    assert BufShows(bufs[b], refcnt, cache);
    ChangeShows(bufs, refcnt, cache, b, bufs[b].(refcnt := bufs[b].refcnt + n), Bump(refcnt, bufs[b].blockno, n), cache);
  }

  /** A thread of the machine calls bget. */
  method Bget(c: BC.Cache, ghost l: Layout, ghost s: GC.State, ghost t: nat, bn: nat)
    returns (r: BC.Found, ghost s': GC.State)
    requires c.Valid() && Shows(c.bufs, s.refcnt, s.cache) && GC.Enabled(l, s, GC.Ref(t, bn))
    modifies c`bufs
    ensures c.Valid() && (r.NoBuffers? ==> s' == s) && Shows(c.bufs, s'.refcnt, s'.cache)
    ensures r.Found? ==> r.b < |old(c.bufs)|
    ensures r.Found? ==>
              var s1 := if BC.Cached(old(c.bufs), ROOTDEV, bn) then s else Dropped(l, s, old(c.bufs)[r.b]);
              GC.Enabled(l, s1, GC.Ref(t, bn)) && s' == GC.Do(l, s1, GC.Ref(t, bn))
  {
    ghost var bufs := c.bufs;
    r := c.Bget(ROOTDEV, bn);
    s' := s;
    if r.Found? {
      if BC.Cached(bufs, ROOTDEV, bn) {
        HitIsRef(l, s, t, bn, bufs, r.b);
        s' := GC.Do(l, s, GC.Ref(t, bn));
      } else {
        MissIsRecycleThenRef(l, s, t, bn, bufs, r.b);
        s' := GC.Do(l, Dropped(l, s, bufs[r.b]), GC.Ref(t, bn));
      }
    }
  }

  /** A thread of the machine calls brelse, which finds the count positive. */
  method Brelse(c: BC.Cache, b: nat, ghost l: Layout, ghost s: GC.State, ghost t: nat, ghost bn: nat)
    requires c.Valid() && Shows(c.bufs, s.refcnt, s.cache) && GC.Inv(l, s) && GC.Enabled(l, s, GC.Unref(t, bn))
    requires b < BC.NBUF && BC.Holds(c.bufs[b], ROOTDEV, bn)
    modifies c
    ensures c.Valid()
    ensures var s' := GC.Do(l, s, GC.Unref(t, bn)); Shows(c.bufs, s'.refcnt, s'.cache)
  {
    hide GC.Inv; hide BC.Unique; hide BC.Cached;
    CountedPositive(l, s, t, bn);
    assert BufShows(c.bufs[b], s.refcnt, s.cache);
    ghost var bufs := c.bufs;
    c.Brelse(b);
    hide Shows; hide GC.Do; hide GC.Enabled;
    ValidUnique(c);
    ReleaseIsUnref(l, s, t, bn, bufs, b, c.bufs);
  }

  lemma ValidUnique(c: BC.Cache)
    requires c.Valid()
    ensures BC.Unique(c.bufs)
  {
  }

  lemma CountedPositive(l: Layout, s: GC.State, t: nat, bn: nat)
    requires GC.Inv(l, s) && t < |s.threads| && bn in s.threads[t].bufs
    ensures Refcnt(s.refcnt, bn) > 0
  {
    hide GC.Inv; hide GC.On;
    GC.InvParts(l, s);
    GC.OnNone(s.threads, bn);
  }
}
