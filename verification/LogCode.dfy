/** kernel/log.c itself: the in-memory log and the loops that write it out.  Each method
    is tied to the write lists and guards that the crash and group-commit results use. */
module LogCode {
  import opened Blocks
  import opened RedoLog
  import opened Basics

  /** begin_op's admission test. */
  predicate Admits(committing: bool, n: nat, outstanding: int) {
    !committing && n + (outstanding + 1) * MAXOPBLOCKS <= LOGSIZE
  }

  /** log_write's size test, made before the block is looked up. */
  predicate TooBig(l: Layout, n: nat) {
    n >= LOGSIZE || n >= l.nlog - 1
  }

  /** The logged list after log_write: absorbed if present, else appended. */
  function Absorb(lh: seq<nat>, bn: nat): (r: seq<nat>)
  {
    if bn in lh then lh else lh + [bn]
  }

  /** b->refcnt of the buffer of each block; 0 for a block without one. */
  type Refs = map<nat, int>

  function Refcnt(r: Refs, bn: nat): int {
    if bn in r then r[bn] else 0
  }

  function Bump(r: Refs, bn: nat, n: int): Refs {
    r[bn := Refcnt(r, bn) + n]
  }

  /** bunpin of every listed block. */
  function Unpinned(r: Refs, lh: seq<nat>): Refs {
    if lh == [] then r else Bump(Unpinned(r, lh[..|lh| - 1]), lh[|lh| - 1], -1)
  }

  ghost predicate Clean(l: Layout, d: Disk, c: Disk) {
    l.Ok() && l.Spans(d) && forall bn: nat :: bn in c && l.start <= bn < l.start + l.nlog ==> c[bn] == d[bn]
  }

  /** Between two iterations of write_log, from disk d0 and cache c0. */
  ghost predicate Copying(l: Layout, lh: seq<nat>, d0: Disk, c0: Disk, d: Disk, c: Disk, k: nat)
    requires l.Ok() && l.Spans(d0) && HomeList(l, lh) && Holds(c0, lh) && k <= |lh|
  {
    && Clean(l, d, c) && Holds(c, lh) && d[l.start] == d0[l.start]
    && (forall i: nat :: i < |lh| ==> c[lh[i]] == c0[lh[i]])
    && (forall i: nat :: i < k ==> d[l.Slot(i)] == c0[lh[i]])
  }

  lemma CopyingNext(l: Layout, lh: seq<nat>, d0: Disk, c0: Disk, d: Disk, c: Disk, k: nat)
    requires l.Ok() && l.Spans(d0) && HomeList(l, lh) && Holds(c0, lh) && k < |lh|
    requires Copying(l, lh, d0, c0, d, c, k)
    ensures var v := c0[lh[k]];
            c[lh[k]] == v && Copying(l, lh, d0, c0, d[l.Slot(k) := v], c[lh[k] := v][l.Slot(k) := v], k + 1)
  {
  }

  lemma InstallKeepsLog(l: Layout, d: Disk, c: Disk, slot: nat, home: nat)
    requires Clean(l, d, c) && l.Home(home) && l.start <= slot < l.start + l.nlog
    ensures var v := if slot in c then c[slot] else d[slot];
            v == d[slot] && Clean(l, d[home := v], c[slot := v][home := v]) && SameLogArea(l, d, d[home := v])
  {
  }

  lemma SameLog(l: Layout, d: Disk, c: Disk)
    requires Clean(l, d, c)
    ensures SameLogArea(l, d, d) && l.Ok() && l.Spans(d)
  {
  }

  /** A round of install_trans copies from the log as it was. */
  lemma InstallRound(l: Layout, d0: Disk, d: Disk, c: Disk, lh: seq<nat>, k: nat)
    requires l.Ok() && l.Spans(d0) && HomeList(l, lh) && k < |lh| && Clean(l, d, c) && SameLogArea(l, d0, d)
    ensures var v := if l.Slot(k) in c then c[l.Slot(k)] else d[l.Slot(k)];
            && l.Slot(k) in d && lh[k] in d && Installs(l, d0, lh)[k] == Write(lh[k], v)
            && Clean(l, d[lh[k] := v], c[l.Slot(k) := v][lh[k] := v]) && SameLogArea(l, d0, d[lh[k] := v])
  {
    hide Distinct;
    InstallKeepsLog(l, d, c, l.Slot(k), lh[k]);
  }

  lemma InstallsAfterCopy(l: Layout, lh: seq<nat>, view: Disk, d: Disk)
    requires l.Ok() && l.Spans(d) && HomeList(l, lh) && Holds(view, lh)
    requires forall i: nat :: i < |lh| ==> d[l.Slot(i)] == view[lh[i]]
    ensures Installs(l, d, lh) == HomeCopies(view, lh)
  {
  }

  lemma UnpinNext(r: Refs, lh: seq<nat>, k: nat)
    requires k < |lh|
    ensures Unpinned(r, lh[..k + 1]) == Bump(Unpinned(r, lh[..k]), lh[k], -1)
  {
    assert lh[..k + 1][..k] == lh[..k];
  }

  /** What commit() sends to the disk: nothing for an empty list. */
  function CommitList(l: Layout, d: Disk, view: Disk, lh: seq<nat>): seq<Write>
    requires l.start in d && Holds(view, lh) && Listable(lh)
  {
    if lh == [] then [] else CommitWrites(l, d[l.start], view, lh)
  }

  /** After a whole commit the home blocks themselves hold the new contents. */
  lemma CommitDone(l: Layout, d: Disk, view: Disk, lh: seq<nat>)
    requires Settled(l, d) && HomeList(l, lh) && Holds(view, lh)
    ensures l.start in d && Settled(l, Apply(d, CommitList(l, d, view, lh)))
    ensures forall bn: nat :: l.Home(bn) ==>
              bn in d && bn in Apply(d, CommitList(l, d, view, lh))
              && Apply(d, CommitList(l, d, view, lh))[bn] == if bn in lh then view[bn] else d[bn]
  {
    hide Durable; hide Apply; hide Distinct; hide CommitWrites;
    if lh == [] {
      NoWrites(d);
    } else {
      var ws := CommitWrites(l, d[l.start], view, lh);
      CommitInstalling(l, d, view, lh, |lh|);
      CommitCleared(l, d, view, lh, |ws|);
      assert ws[..|ws|] == ws;
    }
  }

  lemma NoWrites(d: Disk)
    ensures Apply(d, []) == d
  {
  }

  ghost predicate SlotsIn(l: Layout, c: Disk, n: nat) {
    forall i: nat :: i < n ==> l.Slot(i) in c
  }

  lemma ApplyNext(d: Disk, ws: seq<Write>, k: nat)
    requires k < |ws|
    ensures Apply(d, ws[..k + 1]) == Apply(d, ws[..k])[ws[k].bn := ws[k].data]
  {
    assert ws[..k + 1][..k] == ws[..k];
  }

  /** The slots that write_log has filled are cached. */
  lemma {:induction false} CopiesCached(l: Layout, c: Disk, view: Disk, lh: seq<nat>, k: nat)
    requires Holds(view, lh) && k <= |lh|
    ensures SlotsIn(l, Apply(c, LogCopies(l, view, lh)[..k]), k)
  {
    if k > 0 {
      CopiesCached(l, c, view, lh, k - 1);
      ApplyNext(c, LogCopies(l, view, lh), k - 1);
    }
  }

  class Log {
    const l: Layout
    var disk: Disk                // the disk itself
    var cache: Disk               // contents of the valid cached buffers
    var refcnt: Refs              // changed here by bpin and bunpin
    var lh: seq<nat>              // log.lh.block[0..log.lh.n]
    var outstanding: int
    var committing: bool
    ghost const image: Disk       // the disk at the start
    ghost var writes: seq<Write>  // every disk write since

    constructor (layout: Layout, image0: Disk)
      ensures l == layout && disk == image0 == image && cache == map[] && refcnt == map[] && lh == []
      ensures outstanding == 0 && !committing && writes == [] && Traced()
    {
      image := image0;
      l, disk, cache, refcnt, lh, outstanding, committing, writes := layout, image0, map[], map[], [], 0, false, [];
    }

    /** The disk is the result of the recorded writes. */
    ghost predicate Traced()
      reads this
    {
      disk == Apply(image, writes)
    }

    /** The log area is never dirty in the cache. */
    ghost predicate LogAreaClean()
      reads this
    {
      Traced() && Clean(l, disk, cache)
    }

    ghost predicate CanCommit()
      reads this
    {
      LogAreaClean() && HomeList(l, lh) && Holds(cache, lh)
    }

    method Bread(bn: nat) returns (b: Block)
      requires bn in disk
      modifies this`cache
      ensures cache == old(cache)[bn := b]
      ensures b == if bn in old(cache) then old(cache)[bn] else disk[bn]
    {
      if bn !in cache {
        cache := cache[bn := disk[bn]];
      }
      b := cache[bn];
    }

    method Bwrite(bn: nat, b: Block)
      requires Traced()
      modifies this`cache, this`disk, this`writes
      ensures cache == old(cache)[bn := b] && disk == old(disk)[bn := b]
      ensures writes == old(writes) + [Write(bn, b)] && Traced()
    {
      cache := cache[bn := b];
      disk := disk[bn := b];
      writes := writes + [Write(bn, b)];
    }

    /** The shared loop body of write_log and install_trans: read both blocks, copy, write. */
    method CopyBlock(from: nat, to: nat)
      requires Traced() && from in disk && to in disk
      modifies this`cache, this`disk, this`writes
      ensures var v := if from in old(cache) then old(cache)[from] else old(disk)[from];
              && disk == old(disk)[to := v] && cache == old(cache)[from := v][to := v]
              && writes == old(writes) + [Write(to, v)]
      ensures Traced()
    {
      var dst := Bread(to);
      var src := Bread(from);
      assert cache == old(cache)[to := dst][from := src];
      Bwrite(to, src);
      assert cache == old(cache)[from := src][to := src];
    }

    method WriteLog()
      requires CanCommit()
      modifies this`cache, this`disk, this`writes
      ensures writes == old(writes) + LogCopies(l, old(cache), lh) && Traced()
      ensures Copying(l, lh, old(disk), old(cache), disk, cache, |lh|)
      ensures cache == Apply(old(cache), LogCopies(l, old(cache), lh))
    {
      hide Apply; hide Distinct;
      ghost var ws := LogCopies(l, cache, lh);
      NoWrites(cache);
      var tail := 0;
      while tail < |lh|
        invariant 0 <= tail <= |lh| && Traced() && writes == old(writes) + ws[..tail]
        invariant Copying(l, lh, old(disk), old(cache), disk, cache, tail) && cache == Apply(old(cache), ws[..tail])
      {
        CopyingNext(l, lh, old(disk), old(cache), disk, cache, tail);
        ghost var c := cache;
        CopyBlock(lh[tail], l.Slot(tail));
        assert c[lh[tail] := c[lh[tail]]] == c;
        ApplyNext(old(cache), ws, tail);
        TakeNext(ws, tail);
        tail := tail + 1;
      }
      TakeAll(ws);
    }

    method WriteHead()
      requires LogAreaClean() && Listable(lh)
      modifies this`cache, this`disk, this`writes
      ensures var b := PutHead(old(disk)[l.start], lh);
              && disk == old(disk)[l.start := b] && cache == old(cache)[l.start := b]
              && writes == old(writes) + [Write(l.start, b)]
      ensures LogAreaClean()
    {
      var hb := Bread(l.start);
      hb := PutWord(hb, 0, |lh|);
      for i := 0 to |lh|
        invariant hb == PutEntries(old(disk)[l.start], lh, i)
      {
        hb := PutWord(hb, i + 1, lh[i]);
      }
      Bwrite(l.start, hb);
    }

    method InstallTrans(recovering: bool)
      requires LogAreaClean() && HomeList(l, lh)
      modifies this`cache, this`disk, this`writes, this`refcnt
      ensures writes == old(writes) + Installs(l, old(disk), lh)
      ensures LogAreaClean() && SameLogArea(l, old(disk), disk)
      ensures refcnt == if recovering then old(refcnt) else Unpinned(old(refcnt), lh)
      ensures SlotsIn(l, old(cache), |lh|) ==> cache == Apply(old(cache), Installs(l, old(disk), lh))
    {
      hide Apply; hide Distinct; hide Installs; hide SameLogArea; hide Clean;
      SameLog(l, disk, cache);
      NoWrites(cache);
      ghost var ws := Installs(l, disk, lh);
      var tail := 0;
      while tail < |lh|
        invariant 0 <= tail <= |lh| && Traced() && writes == old(writes) + ws[..tail]
        invariant l.Spans(disk) && Clean(l, disk, cache) && SameLogArea(l, old(disk), disk)
        invariant refcnt == if recovering then old(refcnt) else Unpinned(old(refcnt), lh[..tail])
        invariant SlotsIn(l, old(cache), |lh|) ==> SlotsIn(l, cache, |lh|) && cache == Apply(old(cache), ws[..tail])
      {
        InstallRound(l, old(disk), disk, cache, lh, tail);
        ghost var c := cache;
        CopyBlock(l.Slot(tail), lh[tail]);
        assert l.Slot(tail) in c ==> c[l.Slot(tail) := c[l.Slot(tail)]] == c;
        ApplyNext(old(cache), ws, tail);
        if !recovering {
          refcnt := Bump(refcnt, lh[tail], -1);
          UnpinNext(old(refcnt), lh, tail);
        }
        TakeNext(ws, tail);
        tail := tail + 1;
      }
      TakeAll(ws);
      TakeAll(lh);
    }

    /** Commit sends exactly CommitWrites to the disk. */
    method Commit()
      requires CanCommit()
      modifies this`cache, this`disk, this`writes, this`refcnt, this`lh
      ensures lh == [] && refcnt == Unpinned(old(refcnt), old(lh)) && LogAreaClean()
      ensures var ws := CommitList(l, old(disk), old(cache), old(lh));
              disk == Apply(old(disk), ws) && cache == Apply(old(cache), ws) && writes == old(writes) + ws
    {
      hide Apply; hide Distinct; hide PutEntries; hide Installs; hide LogCopies; hide HomeCopies;
      if |lh| > 0 {
        ghost var view, head, n := cache, disk[l.start], |lh|;
        WriteLog();
        CopiesCached(l, view, view, lh, |lh|);
        TakeAll(LogCopies(l, view, lh));
        WriteHead();
        ghost var mid := disk;
        InstallTrans(false);
        InstallsAfterCopy(l, lh, view, mid);
        lh := [];
        WriteHead();
        FourParts(old(writes), LogCopies(l, view, old(lh)), [Write(l.start, PutHead(head, old(lh)))],
                  HomeCopies(view, old(lh)), [Write(l.start, PutHead(PutHead(head, old(lh)), []))]);
        ApplyConcat(image, old(writes), CommitWrites(l, head, view, old(lh)));
        ApplyFour(view, LogCopies(l, view, old(lh)), Write(l.start, PutHead(head, old(lh))),
                  HomeCopies(view, old(lh)), Write(l.start, PutHead(PutHead(head, old(lh)), [])));
      } else {
        NoWrites(cache);
        ApplyConcat(image, writes, []);
        assert writes + [] == writes;
      }
    }

    method ReadHead()
      requires LogAreaClean() && HeadOk(disk[l.start])
      modifies this`cache, this`lh
      ensures lh == HeadList(disk[l.start]) && cache == old(cache)[l.start := disk[l.start]]
    {
      var b := Bread(l.start);
      lh := [];
      for i := 0 to HeadCount(b)
        invariant lh == HeadList(b)[..i] && cache == old(cache)[l.start := disk[l.start]]
      {
        lh := lh + [Word(b, i + 1)];
      }
    }

    /** Recovery sends exactly RecoveryWrites to the disk. */
    method RecoverFromLog()
      requires LogOk(l, disk) && LogAreaClean()
      modifies this`cache, this`disk, this`writes, this`refcnt, this`lh
      ensures var ws := RecoveryWrites(l, old(disk));
              disk == Apply(old(disk), ws) && writes == old(writes) + ws
      ensures lh == [] && refcnt == old(refcnt) && Settled(l, disk) && SameDurable(l, old(disk), disk)
    {
      hide Apply; hide Distinct; hide Installs; hide PutEntries; hide SameDurable; hide Settled;
      ghost var d, ws := disk, RecoveryWrites(l, disk);
      ReadHead();
      InstallTrans(true);
      lh := [];
      WriteHead();
      assert writes == old(writes) + ws;
      ApplyConcat(image, old(writes), ws);
      TakeAll(ws);
      RecoveryCut(l, d, |ws|);
    }

    /** One pass of begin_op's loop under log.lock; a refused caller sleeps. */
    method TryBegin() returns (admitted: bool)
      modifies this`outstanding
      ensures admitted == Admits(committing, |lh|, old(outstanding))
      ensures outstanding == old(outstanding) + if admitted then 1 else 0
    {
      if committing {
        return false;
      } else if |lh| + (outstanding + 1) * MAXOPBLOCKS > LOGSIZE {
        return false;
      }
      outstanding := outstanding + 1;
      return true;
    }

    /** end_op; false is the "log.committing" panic.  The last operation out commits: when it
        returns, every home block holds what was logged for it, or else what it held. */
    method EndOp() returns (ok: bool)
      requires !committing && outstanding == 1 ==> CanCommit()
      modifies this`outstanding, this`committing, this`cache, this`disk, this`writes, this`refcnt, this`lh
      ensures outstanding == old(outstanding) - 1 && ok == !old(committing) && committing == old(committing)
      ensures !ok || outstanding != 0 ==>
                cache == old(cache) && disk == old(disk) && writes == old(writes) && refcnt == old(refcnt) && lh == old(lh)
      ensures ok && outstanding == 0 ==>
                && lh == [] && refcnt == Unpinned(old(refcnt), old(lh)) && LogAreaClean()
                && disk == Apply(old(disk), CommitList(l, old(disk), old(cache), old(lh)))
                && cache == Apply(old(cache), CommitList(l, old(disk), old(cache), old(lh)))
      ensures ok && outstanding == 0 && old(Settled(l, disk)) ==>
                && Settled(l, disk)
                && forall bn: nat :: l.Home(bn) ==>
                    bn in old(disk) && disk[bn] == if bn in old(lh) then old(cache)[bn] else old(disk)[bn]
    {
      outstanding := outstanding - 1;
      if committing {
        return false;
      }
      if outstanding == 0 {
        committing := true;
        Commit();
        committing := false;
        if old(Settled(l, disk)) {
          CommitDone(l, old(disk), old(cache), old(lh));
        }
      }
      return true;
    }

    /** log_write: false means one of its panics. */
    method LogWrite(bn: nat) returns (ok: bool)
      modifies this`lh, this`refcnt
      ensures ok == (!TooBig(l, |old(lh)|) && outstanding >= 1)
      ensures ok ==> lh == Absorb(old(lh), bn)
      ensures ok ==> refcnt == if bn in old(lh) then old(refcnt) else Bump(old(refcnt), bn, 1)
      ensures !ok ==> lh == old(lh) && refcnt == old(refcnt)
    {
      if |lh| >= LOGSIZE || |lh| >= l.nlog - 1 {
        return false;
      }
      if outstanding < 1 {
        return false;
      }
      var i := 0;
      while i < |lh|
        invariant 0 <= i <= |lh| && bn !in lh[..i]
      {
        if lh[i] == bn {
          break;
        }
        i := i + 1;
      }
      if i == |lh| {
        refcnt := Bump(refcnt, bn, 1);
        lh := lh + [bn];
      } else {
        lh := lh[i := bn];
      }
      return true;
    }
  }

  lemma ApplyFour(d: Disk, a: seq<Write>, v: Write, b: seq<Write>, w: Write)
    ensures Apply(d, a + [v] + b + [w]) == Apply(Apply(d, a)[v.bn := v.data], b)[w.bn := w.data]
  {
    ApplyConcat(d, a, [v]);
    ApplyConcat(d, a + [v], b);
    ApplyConcat(d, a + [v] + b, [w]);
    ApplyOne(Apply(d, a), v);
    ApplyOne(Apply(d, a + [v] + b), w);
  }

  lemma ApplyOne(d: Disk, w: Write)
    ensures Apply(d, [w]) == d[w.bn := w.data]
  {
    assert [w][..0] == [];
  }

  lemma {:induction false} ApplyConcat(d: Disk, a: seq<Write>, b: seq<Write>)
    ensures Apply(d, a + b) == Apply(Apply(d, a), b)
  {
    if b == [] {
      assert a + b == a;
    } else {
      ApplyConcat(d, a, b[..|b| - 1]);
      assert (a + b)[..|a + b| - 1] == a + b[..|b| - 1];
    }
  }
}
