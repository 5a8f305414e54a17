/** The block allocator and file contents code of kernel/fs.c and the write loop of
    kernel/file.c.  `blocks` is what bread returns; `logged` records the log_write calls of
    the current operation. */
module FileSystem {
  import opened Blocks
  import opened FileBlocks
  import RedoLog

  // ---------- On-disk inodes ----------

  /** dinode number n of an inode block: sixteen words. */
  function InoAt(b: Block, n: nat): (ino: Ino)
    requires n < IPB
    ensures |ino.addrs| == NDIRECT + 1
  {
    Ino(Word(b, 16 * n), Word(b, 16 * n + 1), Word(b, 16 * n + 2),
        seq<uint>(NDIRECT + 1, m requires 0 <= m < NDIRECT + 1 => Word(b, 16 * n + 3 + m)))
  }

  function PutAddrs(b: Block, n: nat, addrs: seq<uint>, k: nat): (r: Block)
    requires n < IPB && k <= |addrs| == NDIRECT + 1
  {
    if k == 0 then b else PutWord(PutAddrs(b, n, addrs, k - 1), 16 * n + 2 + k, addrs[k - 1])
  }

  function PutIno(b: Block, n: nat, ino: Ino): (r: Block)
    requires n < IPB && |ino.addrs| == NDIRECT + 1
  {
    PutAddrs(PutWord(PutWord(PutWord(b, 16 * n, ino.kind), 16 * n + 1, ino.links), 16 * n + 2, ino.size),
             n, ino.addrs, NDIRECT + 1)
  }

  lemma {:induction false} PutAddrsWord(b: Block, n: nat, addrs: seq<uint>, k: nat, j: nat)
    requires n < IPB && k <= |addrs| == NDIRECT + 1 && j < WORDS
    ensures Word(PutAddrs(b, n, addrs, k), j) ==
            if 16 * n + 3 <= j < 16 * n + 3 + k then addrs[j - 16 * n - 3] else Word(b, j)
  {
    if k > 0 {
      PutAddrsWord(b, n, addrs, k - 1, j);
      WordOfPut(PutAddrs(b, n, addrs, k - 1), 16 * n + 2 + k, addrs[k - 1], j);
    }
  }

  /** Writing an inode back and reading it gives the inode; its neighbours are untouched. */
  lemma InoRoundTrip(b: Block, n: nat, ino: Ino, m: nat)
    requires n < IPB && m < IPB && |ino.addrs| == NDIRECT + 1
    ensures InoAt(PutIno(b, n, ino), m) == if m == n then ino else InoAt(b, m)
  {
    hide Word; hide PutWord; hide PutAddrs;
    var b1 := PutWord(b, 16 * n, ino.kind);
    var b2 := PutWord(b1, 16 * n + 1, ino.links);
    var b3 := PutWord(b2, 16 * n + 2, ino.size);
    forall j: nat | 16 * m <= j < 16 * m + 16
      ensures Word(PutIno(b, n, ino), j) ==
              if m != n then Word(b, j)
              else if j == 16 * n then ino.kind else if j == 16 * n + 1 then ino.links
              else if j == 16 * n + 2 then ino.size else ino.addrs[j - 16 * n - 3]
    {
      WordOfPut(b, 16 * n, ino.kind, j);
      WordOfPut(b1, 16 * n + 1, ino.links, j);
      WordOfPut(b2, 16 * n + 2, ino.size, j);
      PutAddrsWord(b3, n, ino.addrs, NDIRECT + 1, j);
    }
    var r := InoAt(PutIno(b, n, ino), m);
    assert r.addrs == if m == n then ino.addrs else InoAt(b, m).addrs;
  }

  /** The disk copy of every inode in `which` is current. */
  ghost predicate Synced(sb: Super, bs: Store, inodes: map<nat, Ino>, which: set<nat>) {
    forall i :: i in which && i in inodes ==> sb.IBlock(i) in bs && InoAt(bs[sb.IBlock(i)], i % IPB) == inodes[i]
  }

  ghost predicate NumbersOk(sb: Super, inodes: map<nat, Ino>) {
    forall i :: i in inodes ==> i < sb.ninodes
  }

  // ---------- Contents ----------

  /** A file after `data` is written at `off`. */
  function Splice(c: seq<byte>, off: nat, data: seq<byte>): (r: seq<byte>)
    requires off <= |c|
  {
    c[..off] + data + if off + |data| < |c| then c[off + |data|..] else []
  }

  /** The blocks are those at the start with the logged writes applied, in order. */
  ghost predicate Trace(image: Store, blocks: Store, writes: seq<RedoLog.Write>, logged: seq<nat>) {
    && blocks == RedoLog.Apply(image, writes) && |logged| == |writes|
    && forall i :: 0 <= i < |logged| ==> logged[i] == writes[i].bn
  }

  lemma TraceNext(image: Store, blocks: Store, writes: seq<RedoLog.Write>, logged: seq<nat>, b: nat, blk: Block)
    requires Trace(image, blocks, writes, logged)
    ensures Trace(image, blocks[b := blk], writes + [RedoLog.Write(b, blk)], logged + [b])
  {
    var ws := writes + [RedoLog.Write(b, blk)];
    assert ws[..|ws| - 1] == writes;
  }

  lemma TraceStart(blocks: Store)
    ensures Trace(blocks, blocks, [], [])
  {
  }

  class FileSystem {
    const sb: Super
    var blocks: Store
    var inodes: map<nat, Ino>
    ghost var owner: Owner
    ghost var logged: seq<nat>
    ghost var image: Store               // the blocks when the operation began
    ghost var writes: seq<RedoLog.Write> // what it has passed to log_write since

    /** All changes of blocks so far are logged. */
    ghost predicate Traced()
      reads this
    {
      Trace(image, blocks, writes, logged)
    }

    ghost predicate Valid()
      reads this
    {
      && BlocksOk(sb, blocks, inodes, owner) && NumbersOk(sb, inodes)
      && AllMapped(blocks, inodes) && Synced(sb, blocks, inodes, inodes.Keys)
    }

    /** A formatted image: every inode free, the metadata blocks marked. */
    constructor (s: Super)
      requires s.Ok()
      ensures Valid() && sb == s && logged == [] && writes == [] && Traced()
      ensures forall i: nat :: i in inodes <==> i < s.ninodes
      ensures forall i :: i in inodes ==> Content(blocks, inodes[i]) == []
    {
      sb := s;
      inodes := map i | i in Below(s.ninodes) :: NOINO;
      owner, logged, writes := map[], [], [];
      var bs: Store := map b | b in Below(s.size) :: ZeroBlock();
      FormatStart(s, bs);
      var b := 0;
      while b < s.datastart
        invariant b <= s.datastart && Formatted(s, bs, b)
      {
        hide Formatted;
        FormatNext(s, bs, b);
        bs := Mark(s, bs, b);
        b := b + 1;
      }
      blocks := bs;
      image := bs;
      TraceStart(bs);
      new;
      FormatDone(sb, blocks, inodes);
    }

    /** Change the buffer of a block and pass it to log_write. */
    method Change(b: nat, blk: Block)
      requires Traced()
      modifies this`blocks, this`logged, this`writes
      ensures blocks == old(blocks)[b := blk] && logged == old(logged) + [b]
      ensures writes == old(writes) + [RedoLog.Write(b, blk)] && Traced()
    {
      hide Trace;
      TraceNext(image, blocks, writes, logged, b, blk);
      blocks := blocks[b := blk];
      logged := logged + [b];
      writes := writes + [RedoLog.Write(b, blk)];
    }

    /** balloc: the first free block, marked and zeroed; 0 when there is none. */
    method Balloc() returns (r: uint)
      requires Traced()
      requires BlocksOk(sb, blocks, inodes, owner)
      modifies this`blocks, this`logged, this`writes
      ensures r == 0 ==> blocks == old(blocks) && logged == old(logged) && forall c: nat :: c < sb.size ==>
                Marked(sb, blocks, c)
      ensures r != 0 ==>
                (r < sb.size && !Marked(sb, old(blocks), r) && (forall c: nat :: c < r ==> Marked(sb, old(blocks), c))
                 && sb.BBlock(r) in old(blocks) && blocks == Mark(sb, old(blocks), r)[r := ZeroBlock()]
                 && logged == old(logged) + [sb.BBlock(r), r])
      ensures Traced()
    {
      hide Trace; hide BlocksOk; hide BlockBit; hide Marked;
      Basics(sb, blocks, inodes, owner);
      assert Marked(sb, blocks, 0);
      var b := 0;
      while b < sb.size
        invariant Traced()
        invariant b % BPB == 0 && blocks == old(blocks) && logged == old(logged) && MarkedBelow(sb, blocks, b)
        decreases sb.size - b
      {
        BitmapIn(sb, b);
        var bp := blocks[sb.BBlock(b)];
        var bi := 0;
        while bi < BPB && b + bi < sb.size
          invariant Traced()
          invariant 0 <= bi <= BPB && blocks == old(blocks) && logged == old(logged) && MarkedBelow(sb, blocks, b + bi)
        {
          SameBitmapBlock(sb, blocks, b, bi);
          if !BlockBit(bp, bi) {
            Change(sb.BBlock(b), SetBlockBit(bp, bi));
            Bzero(b + bi);
            return b + bi;
          }
          bi := bi + 1;
        }
        b := b + BPB;
      }
      return 0;
    }

    method Bzero(b: nat)
      requires Traced()
      modifies this`blocks, this`logged, this`writes
      ensures blocks == old(blocks)[b := ZeroBlock()] && logged == old(logged) + [b]
      ensures Traced()
    {
      hide Trace;
      Change(b, ZeroBlock());
    }

    /** bfree: false is the "freeing free block" panic. */
    method Bfree(b: nat) returns (ok: bool)
      requires Traced()
      requires sb.BBlock(b) in blocks
      modifies this`blocks, this`logged, this`writes
      ensures ok == Marked(sb, old(blocks), b)
      ensures ok ==> blocks == Unmark(sb, old(blocks), b) && logged == old(logged) + [sb.BBlock(b)]
      ensures !ok ==> blocks == old(blocks) && logged == old(logged)
      ensures Traced()
    {
      hide Trace;
      var bp := blocks[sb.BBlock(b)];
      var bi := b % BPB;
      if !BlockBit(bp, bi) {
        return false;
      }
      Change(sb.BBlock(b), ClearBlockBit(bp, bi));
      return true;
    }

    /** A fresh block entered into the inode's own table: the allocating branches of bmap. */
    method AllocEntry(i: nat, k: nat) returns (addr: uint)
      requires Traced()
      requires BlocksOk(sb, blocks, inodes, owner) && i in inodes && k <= NDIRECT && inodes[i].addrs[k] == 0
      modifies this`blocks, this`inodes, this`owner, this`logged, this`writes
      ensures Grew(sb, old(blocks), old(inodes), old(owner), blocks, inodes, owner, i)
      ensures i in inodes && inodes[i] == old(inodes)[i].(addrs := old(inodes)[i].addrs[k := addr])
      ensures forall m: nat :: m < SLOTS && m != k ==>
                Addr(blocks, inodes[i], m) == Addr(old(blocks), old(inodes)[i], m)
      ensures addr == 0 ==> Full(sb, blocks) && logged == old(logged)
      ensures addr != 0 ==> logged == old(logged) + [sb.BBlock(addr), addr]
      ensures Traced()
    {
      hide Trace; hide BlocksOk; hide KeepsData; hide Addr; hide Marked; hide BlockBit;
      InoIsOk(sb, blocks, inodes, owner, i);
      addr := Balloc();
      if addr == 0 {
        assert inodes[i].addrs == inodes[i].addrs[k := 0];
        KeepsAll(sb, blocks, inodes, owner);
        return;
      }
      AllocOk(sb, old(blocks), inodes, owner, addr);
      assert Addr(blocks, inodes[i], k) == 0 by { DirectAddr(blocks, inodes[i], k); }
      LinkDirect(sb, blocks, inodes, owner, i, k, addr);
      assert SameInodeArea(sb, old(blocks), blocks) by { MarkArea(sb, old(blocks), addr); }
      inodes := inodes[i := inodes[i].(addrs := inodes[i].addrs[k := addr])];
      KeepsDataTransitive(old(blocks), old(inodes), blocks, old(inodes), blocks, inodes);
      owner := owner[addr := (i, k)];
    }

    /** bmap: the address of block bn of the file, allocating it and the indirect block as
        needed; 0 when the disk is full.  A block that is already mapped costs nothing. */
    method Bmap(i: nat, bn: nat) returns (addr: uint, ghost maps: set<nat>)
      requires Traced()
      requires BlocksOk(sb, blocks, inodes, owner) && i in inodes && bn < MAXFILE
      modifies this`blocks, this`inodes, this`owner, this`logged, this`writes
      ensures Grew(sb, old(blocks), old(inodes), old(owner), blocks, inodes, owner, i) && i in inodes
      ensures addr == Addr(blocks, inodes[i], Slot(bn))
      ensures addr == 0 ==> Full(sb, blocks)
      ensures Addr(old(blocks), old(inodes)[i], Slot(bn)) != 0 ==>
                blocks == old(blocks) && inodes == old(inodes) && owner == old(owner) && logged == old(logged) && maps == {}
      ensures LogsOnly(old(logged), logged, maps + Nonzero(addr) + Indirect(inodes[i]))
      ensures |maps| + Missing(blocks, inodes[i], NDIRECT) <=
              Missing(old(blocks), old(inodes)[i], Slot(bn)) + Missing(old(blocks), old(inodes)[i], NDIRECT)
      ensures Traced()
    {
      hide Trace; hide BlocksOk; hide Marked; hide BlockBit; hide Word; hide PutWord; hide Grew; hide LogsOnly;
      InoIsOk(sb, blocks, inodes, owner, i);
      GrewNone(sb, blocks, inodes, owner, i);
      LogsNone(logged);
      maps := {};
      if bn < NDIRECT {
        addr := inodes[i].addrs[bn];
        if addr == 0 {
          addr := AllocEntry(i, bn);
          if addr != 0 {
            maps := {sb.BBlock(addr)};
            LogsTwo(old(logged), sb.BBlock(addr), addr);
          }
        }
        LogsMore(old(logged), logged, maps + Nonzero(addr), maps + Nonzero(addr) + Indirect(inodes[i]));
        return;
      }
      addr, maps := BmapIndirect(i, bn - NDIRECT);
    }

    /** bmap's second case: entry e of the indirect block. */
    method BmapIndirect(i: nat, e: nat) returns (addr: uint, ghost maps: set<nat>)
      requires Traced()
      requires BlocksOk(sb, blocks, inodes, owner) && i in inodes && e < NINDIRECT
      modifies this`blocks, this`inodes, this`owner, this`logged, this`writes
      ensures Grew(sb, old(blocks), old(inodes), old(owner), blocks, inodes, owner, i) && i in inodes
      ensures addr == Addr(blocks, inodes[i], NDIRECT + 1 + e)
      ensures addr == 0 ==> Full(sb, blocks)
      ensures Addr(old(blocks), old(inodes)[i], NDIRECT + 1 + e) != 0 ==>
                blocks == old(blocks) && inodes == old(inodes) && owner == old(owner) && logged == old(logged) && maps == {}
      ensures LogsOnly(old(logged), logged, maps + Nonzero(addr) + Indirect(inodes[i]))
      ensures |maps| + Missing(blocks, inodes[i], NDIRECT) <=
              Missing(old(blocks), old(inodes)[i], NDIRECT + 1 + e) + Missing(old(blocks), old(inodes)[i], NDIRECT)
      ensures Traced()
    {
      hide Trace; hide BlocksOk; hide Marked; hide BlockBit; hide Word; hide PutWord; hide Grew; hide LogsOnly;
      InoIsOk(sb, blocks, inodes, owner, i);
      GrewNone(sb, blocks, inodes, owner, i);
      LogsNone(logged);
      maps := {};
      addr := inodes[i].addrs[NDIRECT];
      if addr == 0 {
        addr := AllocEntry(i, NDIRECT);
        if addr == 0 {
          LogsMore(old(logged), logged, {}, maps + Nonzero(addr) + Indirect(inodes[i]));
          return;
        }
        maps := {sb.BBlock(addr)};
        LogsTwo(old(logged), sb.BBlock(addr), addr);
      }
      label mid:
      ghost var m := maps;
      assert LogsOnly(old(logged), logged, m + Indirect(inodes[i])) by {
        LogsMore(old(logged), logged, maps + if maps == {} then {} else {addr}, m + Indirect(inodes[i]));
      }
      assert BlocksOk(sb, blocks, inodes, owner) by { GrewOk(sb, old(blocks), old(inodes), old(owner), blocks, inodes, owner, i); }
      addr, maps := FillEntry(i, e);
      LogsJoin(old(logged), old@mid(logged), logged, m + Indirect(inodes[i]), maps + Nonzero(addr) + Indirect(inodes[i]),
               m + maps + Nonzero(addr) + Indirect(inodes[i]));
      maps := m + maps;
      GrewTransitive(sb, old(blocks), old(inodes), old(owner), old@mid(blocks), inodes, old@mid(owner), blocks,
          inodes, owner, i);
    }

    /** The second half of bmap's indirect case: read the indirect block, fill the entry. */
    method FillEntry(i: nat, e: nat) returns (addr: uint, ghost maps: set<nat>)
      requires Traced()
      requires BlocksOk(sb, blocks, inodes, owner) && i in inodes && e < NINDIRECT && inodes[i].addrs[NDIRECT] != 0
      modifies this`blocks, this`owner, this`logged, this`writes
      ensures Grew(sb, old(blocks), inodes, old(owner), blocks, inodes, owner, i)
      ensures addr == Addr(blocks, inodes[i], NDIRECT + 1 + e)
      ensures addr == 0 ==> Full(sb, blocks)
      ensures Addr(old(blocks), inodes[i], NDIRECT + 1 + e) != 0 ==>
                blocks == old(blocks) && owner == old(owner) && logged == old(logged) && maps == {}
      ensures LogsOnly(old(logged), logged, maps + Nonzero(addr) + Indirect(inodes[i]))
      ensures |maps| <= Missing(old(blocks), inodes[i], NDIRECT + 1 + e)
      ensures Traced()
    {
      hide Trace; hide BlocksOk; hide KeepsData; hide Marked; hide BlockBit; hide Word; hide PutWord; hide SameLeaks;
      InoIsOk(sb, blocks, inodes, owner, i);
      KeepsAll(sb, blocks, inodes, owner);
      IndirectIn(sb, blocks, inodes, owner, i);
      var ind := inodes[i].addrs[NDIRECT];
      maps := {};
      addr := Word(blocks[ind], e);
      if addr == 0 {
        addr := Balloc();
        if addr != 0 {
          AllocOk(sb, old(blocks), inodes, owner, addr);
          LinkEntry(sb, blocks, inodes, owner, i, e, addr);
          assert SameInodeArea(sb, old(blocks), blocks) by { MarkArea(sb, old(blocks), addr); }
          ghost var mid := blocks;
          Change(ind, PutWord(blocks[ind], e, addr));
          KeepsDataTransitive(old(blocks), inodes, mid, inodes, blocks, inodes);
          owner := owner[addr := (i, NDIRECT + 1 + e)];
          EntryLeaks(sb, old(blocks), old(owner), mid, blocks, owner, addr);
          maps := {sb.BBlock(addr)};
        }
      }
    }

    /** iupdate: copy the in-memory inode to its place on disk. */
    method Iupdate(i: nat)
      requires Traced()
      requires BlocksOk(sb, blocks, inodes, owner) && NumbersOk(sb, inodes) && i in inodes
      requires Synced(sb, blocks, inodes, inodes.Keys - {i})
      modifies this`blocks, this`logged, this`writes
      ensures BlocksOk(sb, blocks, inodes, owner) && Synced(sb, blocks, inodes, inodes.Keys)
      ensures KeepsData(old(blocks), inodes, blocks, inodes) && SameAddrs(old(blocks), blocks, inodes)
      ensures SameMarks(sb, old(blocks), blocks) && logged == old(logged) + [sb.IBlock(i)]
      ensures Traced()
    {
      hide Trace; hide BlocksOk; hide KeepsData; hide SameMarks; hide InoAt; hide PutIno;
      assert sb.IBlock(i) in blocks by { StoreInode(sb, blocks, inodes, owner, i, ZeroBlock()); }
      assert InoOk(inodes[i]) by { InoIsOk(sb, blocks, inodes, owner, i); }
      var bp := blocks[sb.IBlock(i)];
      StoreInode(sb, blocks, inodes, owner, i, PutIno(bp, i % IPB, inodes[i]));
      forall j | j in inodes
        ensures sb.IBlock(j) in blocks
        ensures InoAt(blocks[sb.IBlock(i) := PutIno(bp, i % IPB, inodes[i])][sb.IBlock(j)], j % IPB) == inodes[j]
      {
        InoRoundTrip(bp, i % IPB, inodes[i], j % IPB);
      }
      Change(sb.IBlock(i), PutIno(bp, i % IPB, inodes[i]));
    }

    /** iupdate as the last step of an operation that has only inode i left to write. */
    method UpdateLast(i: nat, ghost bs0: Store, ghost owner0: Owner)
      requires Traced()
      requires BlocksOk(sb, blocks, inodes, owner) && NumbersOk(sb, inodes) && AllMapped(blocks, inodes) && i in inodes
      requires Synced(sb, blocks, inodes, inodes.Keys - {i}) && SameLeaks(sb, bs0, owner0, blocks, owner)
      modifies this`blocks, this`logged, this`writes
      ensures Valid() && SameLeaks(sb, bs0, owner0, blocks, owner) && SameMarks(sb, old(blocks), blocks)
      ensures logged == old(logged) + [sb.IBlock(i)] && forall j :: j in inodes ==>
                Content(blocks, inodes[j]) == Content(old(blocks), inodes[j])
      ensures Traced()
    {
      hide Trace; hide BlocksOk; hide SameLeaks; hide Content; hide Synced; hide KeepsData; hide SameMarks;
      Iupdate(i);
      FilesKept(sb, old(blocks), inodes, owner, blocks, inodes);
      MarksLeaks(sb, old(blocks), blocks, owner);
      SameLeaksTransitive(sb, bs0, owner0, old(blocks), owner, blocks, owner);
    }

    /** itrunc: exactly the blocks of this file are freed, every other file is untouched, and
        bfree never meets a free block. */
    method Itrunc(i: nat) returns (ok: bool)
      requires Traced()
      requires Valid() && i in inodes
      modifies this`blocks, this`inodes, this`owner, this`logged, this`writes
      ensures ok && Valid()
      ensures inodes == old(inodes)[i := Emptied(old(inodes)[i])] && owner == OthersOnly(old(owner), i)
      ensures inodes[i].size == 0 && SameKind(old(inodes)[i], inodes[i])
      ensures FreedOnly(sb, old(blocks), blocks, old(owner), i)
      ensures SameLeaks(sb, old(blocks), old(owner), blocks, owner)
      ensures forall j :: j in inodes && j != i ==> Content(blocks, inodes[j]) == Content(old(blocks), old(inodes)[j])
      ensures Traced()
    {
      hide Trace; hide BlocksOk; hide Content; hide Synced; hide SameLeaks; hide FreedOnly; hide SameMarks;
      hide Mapped; hide OthersOnly;
      ok := TruncBlocks(i);
      ghost var bs := blocks;
      UpdateLast(i, old(blocks), old(owner));
      FreedThen(sb, old(blocks), bs, blocks, old(owner), i);
    }

    /** itrunc up to iupdate. */
    method TruncBlocks(i: nat) returns (ok: bool)
      requires Traced()
      requires Valid() && i in inodes
      modifies this`blocks, this`inodes, this`owner, this`logged, this`writes
      ensures ok && BlocksOk(sb, blocks, inodes, owner) && NumbersOk(sb, inodes) && AllMapped(blocks, inodes)
      ensures Synced(sb, blocks, inodes, inodes.Keys - {i})
      ensures inodes == old(inodes)[i := Emptied(old(inodes)[i])] && owner == OthersOnly(old(owner), i)
      ensures FreedOnly(sb, old(blocks), blocks, old(owner), i) && SameLeaks(sb, old(blocks), old(owner), blocks, owner)
      ensures forall j :: j in inodes && j != i ==> Content(blocks, inodes[j]) == Content(old(blocks), old(inodes)[j])
      ensures Traced()
    {
      hide Trace; hide BlocksOk; hide Marked; hide BlockBit; hide Word; hide Content; hide Mapped; hide Addr;
      hide Freeing; hide InoAt;
      hide KeepsData; hide SameLeaks; hide Synced; hide OthersOnly; hide FreedOnly; hide OnlyBitmap;
      Basics(sb, blocks, inodes, owner);
      FreeingNone(sb, blocks, owner, i);
      ok := TruncDirect(i, old(blocks), inodes);
      if inodes[i].addrs[NDIRECT] != 0 {
        ok := TruncIndirect(i, old(blocks), old(inodes));
      } else {
        FreeingNoEntries(sb, old(blocks), blocks, old(inodes), owner, i);
      }
      inodes := inodes[i := inodes[i].(size := 0)];
      assert inodes[i].addrs == Emptied(old(inodes)[i]).addrs;
      assert inodes == old(inodes)[i := Emptied(old(inodes)[i])];
      FreedAll(sb, old(blocks), blocks, old(inodes), owner, i);
      TruncateOk(sb, old(blocks), blocks, old(inodes), owner, i);
      owner := OthersOnly(owner, i);
      FreeingSynced(sb, old(blocks), blocks, old(inodes), old(owner), i);
      assert AllMapped(blocks, inodes);
    }

    /** The loop over the direct entries. */
    method TruncDirect(i: nat, ghost bs0: Store, ghost inodes0: map<nat, Ino>) returns (ok: bool)
      requires Traced()
      requires BlocksOk(sb, bs0, inodes0, owner) && inodes == inodes0 && i in inodes
      requires Freeing(sb, bs0, blocks, owner, i, 0, 0)
      modifies this`blocks, this`inodes, this`logged, this`writes
      ensures ok && Freeing(sb, bs0, blocks, owner, i, NDIRECT, 0)
      ensures OnlyAddrs(inodes0, inodes, i) && ZeroedTo(inodes0[i].addrs, inodes[i].addrs, NDIRECT)
      ensures Traced()
    {
      hide Trace; hide BlocksOk; hide Marked; hide BlockBit; hide Addr; hide Freeing;
      Basics(sb, bs0, inodes0, owner);
      ok := true;
      var k := 0;
      while k < NDIRECT
        invariant Traced()
        invariant 0 <= k <= NDIRECT && ok && Freeing(sb, bs0, blocks, owner, i, k, 0)
        invariant OnlyAddrs(inodes0, inodes, i) && ZeroedTo(inodes0[i].addrs, inodes[i].addrs, k)
      {
        DirectAddr(bs0, inodes0[i], k);
        FreeingOn(sb, bs0, blocks, inodes0, owner, i, k, k, 0, k + 1, 0);
        if inodes[i].addrs[k] != 0 {
          ok := Bfree(inodes[i].addrs[k]);
          inodes := inodes[i := inodes[i].(addrs := inodes[i].addrs[k := 0])];
        }
        k := k + 1;
      }
    }

    /** The loop over the indirect block's entries, then the indirect block itself. */
    method TruncIndirect(i: nat, ghost bs0: Store, ghost inodes0: map<nat, Ino>) returns (ok: bool)
      requires Traced()
      requires BlocksOk(sb, bs0, inodes0, owner) && i in inodes0 && Freeing(sb, bs0, blocks, owner, i, NDIRECT, 0)
      requires OnlyAddrs(inodes0, inodes, i) && ZeroedTo(inodes0[i].addrs, inodes[i].addrs, NDIRECT)
      requires inodes[i].addrs[NDIRECT] != 0
      modifies this`blocks, this`inodes, this`logged, this`writes
      ensures ok && Freeing(sb, bs0, blocks, owner, i, NDIRECT + 1, NINDIRECT)
      ensures OnlyAddrs(inodes0, inodes, i) && |inodes[i].addrs| == NDIRECT + 1
      ensures forall m :: 0 <= m <= NDIRECT ==> inodes[i].addrs[m] == 0
      ensures Traced()
    {
      hide Trace; hide BlocksOk; hide Marked; hide BlockBit; hide Addr; hide Freeing; hide Word;
      Basics(sb, bs0, inodes0, owner);
      DirectAddr(bs0, inodes0[i], NDIRECT);
      IndirectKept(sb, bs0, blocks, inodes0, owner, i, NDIRECT, 0);
      ok := true;
      var ind := inodes[i].addrs[NDIRECT];
      var bp := blocks[ind];
      var j := 0;
      while j < NINDIRECT
        invariant Traced()
        invariant 0 <= j <= NINDIRECT && ok && Freeing(sb, bs0, blocks, owner, i, NDIRECT, j)
        invariant inodes == old(inodes)
      {
        EntryAddr(bs0, inodes0[i], bp, j);
        FreeingOn(sb, bs0, blocks, inodes0, owner, i, NDIRECT + 1 + j, NDIRECT, j, NDIRECT, j + 1);
        if Word(bp, j) != 0 {
          ok := Bfree(Word(bp, j));
        }
        j := j + 1;
      }
      FreeingOn(sb, bs0, blocks, inodes0, owner, i, NDIRECT, NDIRECT, NINDIRECT, NDIRECT + 1, NINDIRECT);
      ok := Bfree(ind);
      inodes := inodes[i := inodes[i].(addrs := inodes[i].addrs[NDIRECT := 0])];
    }

    /** readi: the bytes of the file from off, clipped to its size.  Nothing is allocated. */
    method Readi(i: nat, off: uint, n: uint) returns (tot: nat, dst: seq<byte>)
      requires Traced()
      requires Valid() && i in inodes
      modifies this`blocks, this`inodes, this`owner, this`logged, this`writes
      ensures blocks == old(blocks) && inodes == old(inodes) && owner == old(owner) && logged == old(logged)
      ensures tot == |dst|
      ensures var c := Content(blocks, inodes[i]);
              dst == if off > |c| || off + n > UINT_MAX then [] else c[off..if off + n > |c| then |c| else off + n]
      ensures Traced()
    {
      hide Trace; hide BlocksOk; hide Synced; hide Addr; hide Grew; hide LogsOnly; hide Content; hide Missing;
      Basics(sb, blocks, inodes, owner);
      var ino := inodes[i];
      if off > ino.size || off + n > UINT_MAX {
        return 0, [];
      }
      var want := if off + n > ino.size then ino.size - off else n;
      tot, dst := 0, [];
      while tot < want
        invariant Traced()
        invariant 0 <= tot <= want && |dst| == tot
        invariant blocks == old(blocks) && inodes == old(inodes) && owner == old(owner) && logged == old(logged)
        invariant dst == Content(blocks, ino)[off..off + tot]
      {
        var at := off + tot;
        var m := if want - tot < BSIZE - at % BSIZE then want - tot else BSIZE - at % BSIZE;
        var chunk := ReadBlock(i, at, m);
        AppendSlice(Content(blocks, ino), off, off + tot, off + tot + m);
        dst := dst + chunk;
        tot := tot + m;
      }
    }

    /** One pass of readi's loop: m bytes of one block. */
    method ReadBlock(i: nat, at: nat, m: nat) returns (chunk: seq<byte>)
      requires Traced() && Valid() && i in inodes && 0 < m && at % BSIZE + m <= BSIZE && at + m <= inodes[i].size
      modifies this`blocks, this`inodes, this`owner, this`logged, this`writes
      ensures blocks == old(blocks) && inodes == old(inodes) && owner == old(owner) && logged == old(logged)
      ensures chunk == Content(blocks, inodes[i])[at..at + m]
      ensures Traced()
    {
      hide Trace; hide BlocksOk; hide Synced; hide Addr; hide Grew; hide LogsOnly; hide Content; hide Missing;
      Basics(sb, blocks, inodes, owner);
      BelowSize(blocks, inodes[i], at);
      var addr, maps := Bmap(i, at / BSIZE);
      DataIn(sb, blocks, inodes, owner, i, at / BSIZE);
      ReadChunk(blocks, inodes[i], at, m);
      chunk := blocks[addr].at[at % BSIZE..at % BSIZE + m];
    }

    /** One pass of writei's loop: map the block, copy the chunk in, log it. */
    method WriteBlock(i: nat, off: nat, chunk: seq<byte>, ghost t: seq<byte>)
      returns (ok: bool, ghost addr: nat, ghost maps: set<nat>)
      requires Traced()
      requires BlocksOk(sb, blocks, inodes, owner) && i in inodes
      requires off % BSIZE + |chunk| <= BSIZE && off + |chunk| <= MAXFILE * BSIZE && chunk != []
      requires Holding(blocks, inodes[i], t) && off <= |t|
      modifies this`blocks, this`inodes, this`owner, this`logged, this`writes
      ensures Wrote(sb, old(blocks), old(inodes), old(owner), blocks, inodes, owner, i) && i in inodes
      ensures Holding(blocks, inodes[i], if ok then Splice(t, off, chunk) else t)
      ensures !ok ==> Full(sb, blocks)
      ensures LogsOnly(old(logged), logged, maps + Nonzero(addr) + Indirect(inodes[i]))
      ensures |maps| + Missing(blocks, inodes[i], NDIRECT) <=
              Missing(old(blocks), old(inodes)[i], Slot(off / BSIZE)) + Missing(old(blocks), old(inodes)[i], NDIRECT)
      ensures Traced()
    {
      hide Trace; hide BlocksOk; hide Grew; hide LogsOnly; hide Wrote; hide Holding; hide Addr; hide Splice;
      var a;
      a, maps := Bmap(i, off / BSIZE);
      addr := a;
      GrewOk(sb, old(blocks), old(inodes), old(owner), blocks, inodes, owner, i);
      GrewWrote(sb, old(blocks), old(inodes), old(owner), blocks, inodes, owner, i);
      HoldingGrew(sb, old(blocks), old(inodes), old(owner), blocks, inodes, owner, i, t);
      if a == 0 {
        return false, addr, maps;
      }
      DataIn(sb, blocks, inodes, owner, i, off / BSIZE);
      label mid:
      var blk := Overlay(blocks[a], off % BSIZE, chunk);
      HoldingStore(sb, blocks, inodes, owner, i, off, chunk, t);
      StoreWrote(sb, blocks, inodes, owner, i, off / BSIZE, blk);
      Change(a, blk);
      WroteTransitive(sb, old(blocks), old(inodes), old(owner), old@mid(blocks), inodes, owner, blocks, inodes,
          owner, i);
      LogsAppend(old(logged), old@mid(logged), maps + Nonzero(addr) + Indirect(inodes[i]), a);
      return true, addr, maps;
    }

    /** writei: splice src into the file at off, as far as the disk has room.  `before` holds
        every block logged ahead of the final iupdate. */
    method Writei(i: nat, off: uint, src: seq<byte>) returns (r: int, ghost before: set<nat>)
      requires Traced()
      requires Valid() && i in inodes && |src| <= UINT_MAX
      modifies this`blocks, this`inodes, this`owner, this`logged, this`writes
      ensures Valid() && inodes.Keys == old(inodes).Keys && SameLeaks(sb, old(blocks), old(owner), blocks, owner)
      ensures Refuses(old(inodes)[i].size, off, |src|) ==>
                r == -1 && blocks == old(blocks) && inodes == old(inodes) && owner == old(owner) && logged == old(logged)
      ensures !Refuses(old(inodes)[i].size, off, |src|) ==>
                0 <= r <= |src| && (r < |src| ==> Full(sb, blocks))
                && Content(blocks, inodes[i]) == Splice(Content(old(blocks), old(inodes)[i]), off, src[..r])
                && inodes[i].size == Larger(old(inodes)[i].size, off + r)
      ensures SameKind(old(inodes)[i], inodes[i])
      ensures forall j :: j in inodes && j != i ==>
                inodes[j] == old(inodes)[j] && Content(blocks, inodes[j]) == Content(old(blocks), old(inodes)[j])
      ensures !Refuses(old(inodes)[i].size, off, |src|) ==>
                |logged| > 0 && logged[|logged| - 1] == sb.IBlock(i) && LogsOnly(old(logged), logged[..|logged| - 1], before)
      ensures |src| <= 3 * BSIZE ==> |before| <= 9
      ensures Traced()
    {
      hide Trace; hide BlocksOk; hide SameLeaks; hide LogsOnly; hide Wrote; hide Holding; hide Splice;
      hide Content; hide Addr; hide Synced;
      hide Mapped; hide Full;
      Basics(sb, blocks, inodes, owner);
      KeepsAll(sb, blocks, inodes, owner);
      if off > inodes[i].size || off + |src| > UINT_MAX || off + |src| > MAXFILE * BSIZE {
        return -1, {};
      }
      ghost var t;
      r, t, before := WriteLoop(i, off, src);
      ghost var log, bs := logged, blocks;
      SpliceAt(Content(old(blocks), old(inodes)[i]), off, src[..r]);
      WroteOk(sb, old(blocks), old(inodes), old(owner), blocks, inodes, owner, i);
      FinishWrite(i, off + r, old(blocks), old(inodes), old(owner), t);
      StillFull(sb, bs, blocks);
      assert logged[..|logged| - 1] == log;
    }

    /** writei's loop. */
    method WriteLoop(i: nat, off: uint, src: seq<byte>) returns (tot: nat, ghost t: seq<byte>, ghost before: set<nat>)
      requires Traced()
      requires BlocksOk(sb, blocks, inodes, owner) && i in inodes && Mapped(blocks, inodes[i])
      requires !Refuses(inodes[i].size, off, |src|)
      modifies this`blocks, this`inodes, this`owner, this`logged, this`writes
      ensures tot <= |src| && (tot < |src| ==> Full(sb, blocks))
      ensures Wrote(sb, old(blocks), old(inodes), old(owner), blocks, inodes, owner, i) && i in inodes
      ensures Holding(blocks, inodes[i], t) && t == Splice(Content(old(blocks), old(inodes)[i]), off, src[..tot])
      ensures LogsOnly(old(logged), logged, before) && (|src| <= 3 * BSIZE ==> |before| <= 9)
      ensures Traced()
    {
      hide Trace; hide BlocksOk; hide LogsOnly; hide Wrote; hide Holding; hide Splice; hide Content;
      hide Addr; hide Mapped; hide Full;
      hide Pacing; hide Tally; hide Missing; hide Indirect; hide Nonzero;
      var n := |src|;
      ghost var c := Content(blocks, inodes[i]);
      ghost var data: set<nat>, maps: set<nat>, iter: nat, news: nat := {}, {}, 0, 0;
      WriteStart(sb, blocks, inodes, owner, i, off, n, logged);
      t := c;
      assert src[..0] == [];
      tot := 0;
      var full := false;
      while tot < n && !full
        invariant Traced()
        invariant 0 <= tot <= n && i in inodes && t == Splice(c, off, src[..tot]) && off + tot <= |t|
        invariant Wrote(sb, old(blocks), old(inodes), old(owner), blocks, inodes, owner, i)
        invariant Holding(blocks, inodes[i], t)
        invariant full ==> Full(sb, blocks)
        invariant Tally(old(logged), logged, data, maps, Indirect(inodes[i]), iter, news,
                        Missing(blocks, inodes[i], NDIRECT), Missing(old(blocks), old(inodes)[i], NDIRECT))
        invariant Pacing(off, n, tot, iter, news, full) && (iter == 0 ==> tot == 0)
        decreases n - tot, !full
      {
        var at := off + tot;
        var m := if n - tot < BSIZE - at % BSIZE then n - tot else BSIZE - at % BSIZE;
        ghost var bs, inos, own, log, missing := blocks, inodes, owner, logged, Missing(blocks, inodes[i], Slot(at / BSIZE));
        WroteOk(sb, old(blocks), old(inodes), old(owner), blocks, inodes, owner, i);
        FirstMapped(blocks, inodes[i], t, at);
        AtMostOne(blocks, inodes[i], Slot(at / BSIZE), 0);
        PacingOn(off, n, tot, iter, news, m, missing);
        var ok;
        ghost var addr, mp;
        ok, addr, mp := WriteBlock(i, at, src[tot..tot + m], t);
        WroteTransitive(sb, old(blocks), old(inodes), old(owner), bs, inos, own, blocks, inodes, owner, i);
        WroteIndirect(sb, bs, inos, own, blocks, inodes, owner, i);
        AtMostOne(blocks, inodes[i], NDIRECT, addr);
        TallyOn(old(logged), log, logged, data, maps, Indirect(inos[i]), Indirect(inodes[i]), iter, news, Nonzero(addr), mp, missing,
                Missing(bs, inos[i], NDIRECT), Missing(blocks, inodes[i], NDIRECT),
                Missing(old(blocks), old(inodes)[i], NDIRECT));
        news, iter, data, maps := news + missing, iter + 1, data + Nonzero(addr), maps + mp;
        if ok {
          SpliceOn(c, off, src, tot, m);
          t := Splice(t, at, src[tot..tot + m]);
          tot := tot + m;
        } else {
          full := true;
        }
      }
      before := data + maps + Indirect(inodes[i]);
      TallyEnd(old(logged), logged, data, maps, Indirect(inodes[i]), iter, news, Missing(blocks, inodes[i], NDIRECT), Missing(old(blocks), old(inodes)[i], NDIRECT));
      CountBefore(data, maps, Indirect(inodes[i]), off, n, tot, iter, news, full);
    }

    /** The end of writei: extend the size if the write passed it, then iupdate. */
    method FinishWrite(i: nat, end: nat, ghost bs0: Store, ghost inodes0: map<nat, Ino>, ghost owner0: Owner,
        ghost t: seq<byte>)
      requires Traced()
      requires BlocksOk(sb, bs0, inodes0, owner0) && NumbersOk(sb, inodes0) && AllMapped(bs0, inodes0)
      requires Synced(sb, bs0, inodes0, inodes0.Keys)
      requires Wrote(sb, bs0, inodes0, owner0, blocks, inodes, owner, i) && i in inodes && Holding(blocks, inodes[i], t)
      requires |t| == if end > inodes[i].size then end else inodes[i].size
      modifies this`blocks, this`inodes, this`logged, this`writes
      ensures Valid() && inodes.Keys == inodes0.Keys && SameLeaks(sb, bs0, owner0, blocks, owner)
      ensures Content(blocks, inodes[i]) == t && logged == old(logged) + [sb.IBlock(i)]
      ensures inodes[i].size == Larger(inodes0[i].size, end) && SameKind(inodes0[i], inodes[i])
      ensures SameMarks(sb, old(blocks), blocks)
      ensures forall j :: j in inodes && j != i ==>
                inodes[j] == inodes0[j] && Content(blocks, inodes[j]) == Content(bs0, inodes0[j])
      ensures Traced()
    {
      hide Trace; hide BlocksOk; hide SameLeaks; hide Wrote; hide Holding; hide Content; hide Addr;
      hide Synced; hide Mapped; hide KeepsData; hide InoAt;
      WroteOk(sb, bs0, inodes0, owner0, blocks, inodes, owner, i);
      WroteOthers(sb, bs0, inodes0, owner0, blocks, inodes, owner, i);
      HoldingBound(blocks, inodes[i], t);
      ghost var was := inodes;
      if end > inodes[i].size {
        inodes := inodes[i := inodes[i].(size := end)];
      }
      assert inodes == was[i := was[i].(size := |t|)] && inodes.Keys == was.Keys == inodes0.Keys;
      Resized(sb, blocks, was, owner, i, t);
      UpdateLast(i, bs0, owner0);
    }

    /** One operation of filewrite: begin_op, writei, end_op. */
    method WriteOp(i: nat, off: uint, src: seq<byte>) returns (r: int)
      requires Valid() && i in inodes && |src| <= 3 * BSIZE
      modifies this`blocks, this`inodes, this`owner, this`logged, this`writes, this`image
      ensures Valid() && inodes.Keys == old(inodes).Keys && SameLeaks(sb, old(blocks), old(owner), blocks, owner)
      ensures Refuses(old(inodes)[i].size, off, |src|) ==> r == -1 && blocks == old(blocks) && inodes == old(inodes)
      ensures !Refuses(old(inodes)[i].size, off, |src|) ==>
                0 <= r <= |src| && (r < |src| ==> Full(sb, blocks))
                && Content(blocks, inodes[i]) == Splice(Content(old(blocks), old(inodes)[i]), off, src[..r])
                && inodes[i].size == Larger(old(inodes)[i].size, off + r)
      ensures SameKind(old(inodes)[i], inodes[i])
      ensures forall j :: j in inodes && j != i ==>
                inodes[j] == old(inodes)[j] && Content(blocks, inodes[j]) == Content(old(blocks), old(inodes)[j])
      ensures image == old(blocks) && Traced() && RedoLog.Fits(logged)
    {
      hide Trace; hide BlocksOk; hide SameLeaks; hide LogsOnly; hide Splice; hide Content; hide Synced;
      hide Mapped; hide Full;
      logged, image, writes := [], blocks, [];
      TraceStart(blocks);
      ghost var before;
      r, before := Writei(i, off, src);
      FitsAfter(logged, before);
    }

    /** The FD_INODE case of filewrite: one operation per chunk of at most three blocks.  On
        return `done` bytes have been spliced in and the file offset has moved past them.
        `ops` lists the log_writes of each operation. */
    method FileWrite(i: nat, off: uint, src: seq<byte>) returns (ret: int, done: nat, ghost ops: seq<seq<nat>>)
      requires Valid() && i in inodes && |src| <= 0x7FFF_FFFF
      modifies this`blocks, this`inodes, this`owner, this`logged, this`writes, this`image
      ensures Valid() && inodes.Keys == old(inodes).Keys && SameLeaks(sb, old(blocks), old(owner), blocks, owner)
      ensures done <= |src| && ret == if done == |src| then |src| else -1
      ensures done > 0 ==> off <= |Content(old(blocks), old(inodes)[i])|
      ensures Content(blocks, inodes[i]) ==
              if done == 0 then Content(old(blocks), old(inodes)[i])
              else Splice(Content(old(blocks), old(inodes)[i]), off, src[..done])
      ensures SameKind(old(inodes)[i], inodes[i])
      ensures inodes[i].size == if done == 0 then old(inodes)[i].size else Larger(old(inodes)[i].size, off + done)
      ensures forall j :: j in inodes && j != i ==>
                inodes[j] == old(inodes)[j] && Content(blocks, inodes[j]) == Content(old(blocks), old(inodes)[j])
      ensures done < |src| ==> Full(sb, blocks) || Refuses(inodes[i].size, off + done, ChunkSize(|src| - done))
      ensures forall k :: 0 <= k < |ops| ==> RedoLog.Fits(ops[k])
    {
      hide BlocksOk; hide SameLeaks; hide LogsOnly; hide Splice; hide Content; hide Synced; hide Mapped; hide Full;
      assert (RedoLog.MAXOPBLOCKS - 1 - 1 - 2) / 2 * BSIZE == 3 * BSIZE;
      var max := (RedoLog.MAXOPBLOCKS - 1 - 1 - 2) / 2 * BSIZE;
      ghost var c := Content(blocks, inodes[i]);
      KeepsAll(sb, blocks, inodes, owner);
      done, ops := 0, [];
      var failed := false;
      while done < |src| && !failed
        invariant 0 <= done <= |src| && Valid() && inodes.Keys == old(inodes).Keys
        invariant SameLeaks(sb, old(blocks), old(owner), blocks, owner)
        invariant done > 0 ==> off <= |c|
        invariant Content(blocks, inodes[i]) == if done == 0 then c else Splice(c, off, src[..done])
        invariant SameKind(old(inodes)[i], inodes[i])
        invariant inodes[i].size == if done == 0 then old(inodes)[i].size else Larger(old(inodes)[i].size, off + done)
        invariant forall j :: j in inodes && j != i ==>
                  inodes[j] == old(inodes)[j] && Content(blocks, inodes[j]) == Content(old(blocks), old(inodes)[j])
        invariant forall k :: 0 <= k < |ops| ==> RedoLog.Fits(ops[k])
        invariant failed ==>
                    done < |src| && (Full(sb, blocks) || Refuses(inodes[i].size, off + done, ChunkSize(|src| - done)))
        decreases |src| - done, !failed
      {
        var n1 := if |src| - done > max then max else |src| - done;
        ghost var bs, own, d := blocks, owner, Content(blocks, inodes[i]);
        OffsetFits(sb, blocks, inodes, owner, i, c, off, src, done);
        var r := WriteOp(i, off + done, src[done..done + n1]);
        SameLeaksTransitive(sb, old(blocks), old(owner), bs, own, blocks, owner);
        ops := ops + [logged];
        if r > 0 {
          assert src[done..done + n1][..r] == src[done..done + r];
          SpliceFrom(c, off, src, done, r, d);
          done := done + r;
        } else {
          assert r == 0 ==> src[done..done + n1][..r] == [];
          SpliceEmpty(d, off + done);
        }
        if r != n1 {
          failed := true;
        }
      }
      ret := if done == |src| then |src| else -1;
    }
  }

  /** A free inode. */
  const NOINO := Ino(0, 0, 0, [0, 0, 0, 0, 0, 0, 0, 0, 0, 0, 0, 0, 0])

  function Below(n: nat): (r: set<nat>)
    ensures forall i: nat :: i in r <==> i < n
  {
    if n == 0 then {} else Below(n - 1) + {n - 1}
  }

  /** A zeroed disk with the blocks below b marked. */
  ghost predicate Formatted(sb: Super, bs: Store, b: nat) {
    && sb.Spans(bs) && (forall c: nat :: c < b ==> Marked(sb, bs, c))
    && (forall c: nat :: c < sb.bmapstart ==> c in bs && bs[c] == ZeroBlock())
  }

  lemma FormatStart(sb: Super, bs: Store)
    requires sb.Spans(bs) && forall b :: b in bs ==> bs[b] == ZeroBlock()
    ensures Formatted(sb, bs, 0)
  {
  }

  lemma FormatNext(sb: Super, bs: Store, b: nat)
    requires Formatted(sb, bs, b) && b < sb.datastart
    ensures sb.BBlock(b) in bs && Formatted(sb, Mark(sb, bs, b), b + 1)
  {
    BitmapIn(sb, b);
    forall c: nat | c < b + 1
      ensures Marked(sb, Mark(sb, bs, b), c)
    {
      MarkedAfter(sb, bs, b, c);
    }
  }

  lemma FormatDone(sb: Super, bs: Store, inodes: map<nat, Ino>)
    requires Formatted(sb, bs, sb.datastart) && forall i :: i in inodes ==> i < sb.ninodes && inodes[i] == NOINO
    ensures BlocksOk(sb, bs, inodes, map[]) && NumbersOk(sb, inodes) && AllMapped(bs, inodes)
    ensures Synced(sb, bs, inodes, inodes.Keys)
  {
    hide Marked;
    forall k: nat
      ensures Addr(bs, NOINO, k) == 0
    {
    }
    hide Addr;
    forall i | i in inodes
      ensures sb.IBlock(i) in bs && InoAt(bs[sb.IBlock(i)], i % IPB) == NOINO
    {
      EmptyInode(i % IPB);
    }
  }

  lemma EmptyInode(n: nat)
    requires n < IPB
    ensures InoAt(ZeroBlock(), n) == NOINO
  {
    forall j: nat | j < WORDS
      ensures Word(ZeroBlock(), j) == 0
    {
      ZeroWord(j);
    }
    assert InoAt(ZeroBlock(), n).addrs == NOINO.addrs;
  }

  /** Log entries added to `before` are all in `allowed`. */
  ghost predicate LogsOnly(before: seq<nat>, after: seq<nat>, allowed: set<nat>) {
    before <= after && forall k :: |before| <= k < |after| ==> after[k] in allowed
  }

  ghost function Indirect(ino: Ino): set<nat> {
    if |ino.addrs| > NDIRECT then Nonzero(ino.addrs[NDIRECT]) else {}
  }

  /** 1 if an address entry is still empty. */
  ghost function Missing(bs: Store, ino: Ino, k: nat): nat {
    if Addr(bs, ino, k) == 0 then 1 else 0
  }

  /** How bmap on inode i may change the file system: new blocks are marked and owned, and
      nothing that was mapped moves or changes. */
  ghost predicate Grew(sb: Super, bs: Store, inodes: map<nat, Ino>, owner: Owner,
                       bs': Store, inodes': map<nat, Ino>, owner': Owner, i: nat) {
    && BlocksOk(sb, bs', inodes', owner') && KeepsData(bs, inodes, bs', inodes')
    && SameLeaks(sb, bs, owner, bs', owner') && SameInodeArea(sb, bs, bs')
    && OnlyAddrs(inodes, inodes', i) && Indirect(inodes[i]) <= Indirect(inodes'[i])
  }

  lemma GrewNone(sb: Super, bs: Store, inodes: map<nat, Ino>, owner: Owner, i: nat)
    requires BlocksOk(sb, bs, inodes, owner) && i in inodes
    ensures Grew(sb, bs, inodes, owner, bs, inodes, owner, i)
  {
    hide KeepsData; hide SameLeaks; hide BlocksOk;
    KeepsAll(sb, bs, inodes, owner);
  }

  lemma GrewOk(sb: Super, bs: Store, inodes: map<nat, Ino>, owner: Owner,
               bs': Store, inodes': map<nat, Ino>, owner': Owner, i: nat)
    requires Grew(sb, bs, inodes, owner, bs', inodes', owner', i)
    ensures BlocksOk(sb, bs', inodes', owner') && i in inodes && i in inodes'
  {
  }

  lemma GrewTransitive(sb: Super, a: Store, ia: map<nat, Ino>, oa: Owner, b: Store, ib: map<nat, Ino>, ob: Owner,
                       c: Store, ic: map<nat, Ino>, oc: Owner, i: nat)
    requires Grew(sb, a, ia, oa, b, ib, ob, i) && Grew(sb, b, ib, ob, c, ic, oc, i)
    ensures Grew(sb, a, ia, oa, c, ic, oc, i)
  {
    hide KeepsData; hide SameLeaks; hide BlocksOk;
    KeepsDataTransitive(a, ia, b, ib, c, ic);
    SameLeaksTransitive(sb, a, oa, b, ob, c, oc);
  }

  lemma EntryLeaks(sb: Super, a: Store, oa: Owner, b: Store, c: Store, oc: Owner, addr: nat)
    requires addr !in oa && (forall x: nat :: x in oc <==> x in oa || x == addr)
    requires forall x: nat :: x < sb.size ==> (Marked(sb, b, x) <==> x == addr || Marked(sb, a, x))
    requires addr < sb.size && !Marked(sb, a, addr) && SameMarks(sb, b, c)
    ensures SameLeaks(sb, a, oa, c, oc)
  {
    hide Marked;
  }

  lemma LogsMore(a: seq<nat>, b: seq<nat>, x: set<nat>, y: set<nat>)
    requires LogsOnly(a, b, x) && x <= y
    ensures LogsOnly(a, b, y)
  {
  }

  lemma LogsNone(log: seq<nat>)
    ensures LogsOnly(log, log, {})
  {
  }

  lemma LogsTwo(log: seq<nat>, a: nat, b: nat)
    ensures LogsOnly(log, log + [a, b], {a, b})
  {
  }

  lemma LogsJoin(a: seq<nat>, b: seq<nat>, c: seq<nat>, x: set<nat>, y: set<nat>, z: set<nat>)
    requires LogsOnly(a, b, x) && LogsOnly(b, c, y) && x <= z && y <= z
    ensures LogsOnly(a, c, z)
  {
    forall k | |a| <= k < |c|
      ensures c[k] in z
    {
      assert k < |b| ==> c[k] == b[k];
    }
  }

  ghost function Nonzero(a: nat): set<nat> {
    if a == 0 then {} else {a}
  }

  ghost predicate Full(sb: Super, bs: Store) {
    forall c: nat :: c < sb.size ==> Marked(sb, bs, c)
  }

  ghost predicate SameInodeArea(sb: Super, bs: Store, bs': Store) {
    forall b: nat :: b < sb.bmapstart && b in bs ==> b in bs' && bs'[b] == bs[b]
  }

  /** Only the address table of inode i may differ. */
  ghost predicate OnlyAddrs(inodes: map<nat, Ino>, inodes': map<nat, Ino>, i: nat)
  {
    inodes'.Keys == inodes.Keys && i in inodes
    && (forall j :: j in inodes && j != i ==> inodes'[j] == inodes[j])
    && inodes'[i] == inodes[i].(addrs := inodes'[i].addrs)
  }

  ghost predicate MarkedBelow(sb: Super, bs: Store, b: nat) {
    forall c: nat :: c < b && c < sb.size ==> Marked(sb, bs, c)
  }

  lemma BitmapIn(sb: Super, b: nat)
    requires sb.Ok() && b < sb.size
    ensures sb.BBlock(b) < sb.size
  {
  }

  lemma SameBitmapBlock(sb: Super, bs: Store, b: nat, bi: nat)
    requires b % BPB == 0 && bi < BPB && sb.BBlock(b) in bs
    ensures sb.BBlock(b + bi) == sb.BBlock(b) && (b + bi) % BPB == bi
    ensures Marked(sb, bs, b + bi) == BlockBit(bs[sb.BBlock(b)], bi)
  {
  }

  lemma Basics(sb: Super, bs: Store, inodes: map<nat, Ino>, owner: Owner)
    requires BlocksOk(sb, bs, inodes, owner)
    ensures InodesOk(inodes) && sb.Spans(bs) && MetaMarked(sb, bs)
  {
  }

  lemma InoIsOk(sb: Super, bs: Store, inodes: map<nat, Ino>, owner: Owner, i: nat)
    requires BlocksOk(sb, bs, inodes, owner) && i in inodes
    ensures InoOk(inodes[i]) && InodesOk(inodes) && sb.Spans(bs) && MetaMarked(sb, bs)
  {
  }

  lemma KeepsAll(sb: Super, bs: Store, inodes: map<nat, Ino>, owner: Owner)
    requires BlocksOk(sb, bs, inodes, owner)
    ensures KeepsData(bs, inodes, bs, inodes) && SameLeaks(sb, bs, owner, bs, owner)
  {
    hide Addr;
    OwnedInStore(sb, bs, inodes, owner);
  }

  /** A change that keeps the marks frees nothing more. */
  lemma FreedThen(sb: Super, a: Store, b: Store, c: Store, owner: Owner, i: nat)
    requires FreedOnly(sb, a, b, owner, i) && SameMarks(sb, b, c)
    ensures FreedOnly(sb, a, c, owner, i)
  {
    hide Marked;
  }

  lemma FilesKept(sb: Super, bs: Store, inodes: map<nat, Ino>, owner: Owner, bs': Store, inodes': map<nat, Ino>)
    requires BlocksOk(sb, bs, inodes, owner) && AllMapped(bs, inodes) && KeepsData(bs, inodes, bs', inodes')
    ensures AllMapped(bs', inodes') && forall j :: j in inodes ==> Content(bs', inodes'[j]) == Content(bs, inodes[j])
  {
    forall j | j in inodes
      ensures Mapped(bs', inodes'[j]) && Content(bs', inodes'[j]) == Content(bs, inodes[j])
    {
      KeepsContent(bs, inodes, bs', inodes', j);
    }
  }

  lemma MarksLeaks(sb: Super, bs: Store, bs': Store, owner: Owner)
    requires SameMarks(sb, bs, bs')
    ensures SameLeaks(sb, bs, owner, bs', owner)
  {
    hide Marked;
  }

  lemma SameLeaksTransitive(sb: Super, a: Store, oa: Owner, b: Store, ob: Owner, c: Store, oc: Owner)
    requires SameLeaks(sb, a, oa, b, ob) && SameLeaks(sb, b, ob, c, oc)
    ensures SameLeaks(sb, a, oa, c, oc)
  {
    hide Marked;
  }

  lemma DirectAddr(bs: Store, ino: Ino, k: nat)
    requires k < |ino.addrs|
    ensures Addr(bs, ino, k) == ino.addrs[k]
  {
  }

  lemma IndirectIn(sb: Super, bs: Store, inodes: map<nat, Ino>, owner: Owner, i: nat)
    requires BlocksOk(sb, bs, inodes, owner) && i in inodes && inodes[i].addrs[NDIRECT] != 0
    ensures inodes[i].addrs[NDIRECT] in bs && sb.datastart <= inodes[i].addrs[NDIRECT] && sb.bmapstart < sb.datastart
  {
    assert Addr(bs, inodes[i], NDIRECT) != 0;
  }

  lemma MarkArea(sb: Super, bs: Store, b: nat)
    requires sb.Spans(bs) && sb.datastart <= b < sb.size && sb.BBlock(b) in bs
    ensures SameInodeArea(sb, bs, Mark(sb, bs, b)[b := ZeroBlock()])
  {
  }

  // ---------- Truncation ----------

  /** The address entries done when d own entries and e indirect ones have been freed. */
  ghost predicate Gone(k: nat, d: nat, e: nat) {
    k < d || NDIRECT < k < NDIRECT + 1 + e
  }

  /** Part way through itrunc: exactly the blocks at the entries already done are unmarked. */
  ghost predicate Freeing(sb: Super, bs0: Store, bs: Store, owner: Owner, i: nat, d: nat, e: nat) {
    && sb.Spans(bs) && sb.Spans(bs0)
    && (forall b: nat :: b < sb.size && !(sb.bmapstart <= b <= sb.BBlock(sb.size)) ==> bs[b] == bs0[b])
    && (forall c: nat :: c < sb.size ==>
          (Marked(sb, bs, c) <==> Marked(sb, bs0, c) && !(c in owner && owner[c].0 == i && Gone(owner[c].1, d, e))))
  }

  ghost predicate ZeroedTo(addrs: seq<uint>, addrs': seq<uint>, k: nat) {
    |addrs| == |addrs'| == NDIRECT + 1 && k <= NDIRECT
    && (forall m :: 0 <= m < k ==> addrs'[m] == 0) && (forall m :: k <= m <= NDIRECT ==> addrs'[m] == addrs[m])
  }

  lemma FreeingNone(sb: Super, bs: Store, owner: Owner, i: nat)
    requires sb.Spans(bs)
    ensures Freeing(sb, bs, bs, owner, i, 0, 0)
  {
    hide Marked;
  }

  /** Freeing the block at entry k, if it names one: the block is still marked. */
  lemma FreeingOn(sb: Super, bs0: Store, bs: Store, inodes: map<nat, Ino>, owner: Owner, i: nat, k: nat,
                  d: nat, e: nat, d': nat, e': nat)
    requires BlocksOk(sb, bs0, inodes, owner) && i in inodes && k < SLOTS && !Gone(k, d, e)
    requires forall m: nat :: m < SLOTS ==> (Gone(m, d', e') <==> Gone(m, d, e) || m == k)
    requires Freeing(sb, bs0, bs, owner, i, d, e)
    ensures var a := Addr(bs0, inodes[i], k);
            && (a == 0 ==> Freeing(sb, bs0, bs, owner, i, d', e'))
            && (a != 0 ==> sb.BBlock(a) in bs && Marked(sb, bs, a) && Freeing(sb, bs0, Unmark(sb, bs, a), owner, i, d', e'))
  {
    hide BlockBit; hide Addr; hide Gone;
    var a := Addr(bs0, inodes[i], k);
    if a == 0 {
      assert forall c :: c in owner && owner[c].0 == i ==> owner[c].1 != k;
      hide Marked;
    } else {
      assert owner[a] == (i, k);
      BitmapIn(sb, a);
      forall c: nat | c < sb.size
        ensures Marked(sb, Unmark(sb, bs, a), c) <==> c != a && Marked(sb, bs, c)
      {
        MarkedAfter(sb, bs, a, c);
      }
      hide Marked;
      assert forall c :: c in owner && owner[c] == (i, k) ==> c == a;
      assert sb.bmapstart <= sb.BBlock(a) <= sb.BBlock(sb.size);
    }
  }

  lemma EntryAddr(bs: Store, ino: Ino, bp: Block, j: nat)
    requires j < NINDIRECT && |ino.addrs| == NDIRECT + 1 && ino.addrs[NDIRECT] != 0
    requires ino.addrs[NDIRECT] in bs && bs[ino.addrs[NDIRECT]] == bp
    ensures Addr(bs, ino, NDIRECT + 1 + j) == Word(bp, j)
  {
  }

  lemma IndirectKept(sb: Super, bs0: Store, bs: Store, inodes: map<nat, Ino>, owner: Owner, i: nat, d: nat, e: nat)
    requires BlocksOk(sb, bs0, inodes, owner) && i in inodes && inodes[i].addrs[NDIRECT] != 0
    requires Freeing(sb, bs0, bs, owner, i, d, e)
    ensures var ind := inodes[i].addrs[NDIRECT]; ind in bs && ind in bs0 && bs[ind] == bs0[ind]
  {
    hide Marked;
    assert Addr(bs0, inodes[i], NDIRECT) in owner;
  }

  /** Without an indirect block there is nothing more to free. */
  lemma FreeingNoEntries(sb: Super, bs0: Store, bs: Store, inodes: map<nat, Ino>, owner: Owner, i: nat)
    requires BlocksOk(sb, bs0, inodes, owner) && i in inodes && inodes[i].addrs[NDIRECT] == 0
    requires Freeing(sb, bs0, bs, owner, i, NDIRECT, 0)
    ensures Freeing(sb, bs0, bs, owner, i, NDIRECT + 1, NINDIRECT)
  {
    hide Marked;
    assert forall k: nat :: NDIRECT <= k < SLOTS ==> Addr(bs0, inodes[i], k) == 0;
    hide Addr;
    assert forall c :: c in owner && owner[c].0 == i ==> owner[c].1 < NDIRECT;
  }

  lemma FreedAll(sb: Super, bs0: Store, bs: Store, inodes: map<nat, Ino>, owner: Owner, i: nat)
    requires BlocksOk(sb, bs0, inodes, owner) && Freeing(sb, bs0, bs, owner, i, NDIRECT + 1, NINDIRECT)
    ensures sb.Spans(bs)
    ensures OnlyBitmap(sb, bs0, bs) && FreedOnly(sb, bs0, bs, owner, i)
  {
    hide Marked; hide Addr;
  }

  lemma FreeingSynced(sb: Super, bs0: Store, bs: Store, inodes: map<nat, Ino>, owner: Owner, i: nat)
    requires Freeing(sb, bs0, bs, owner, i, NDIRECT + 1, NINDIRECT) && NumbersOk(sb, inodes) && i in inodes
    requires Synced(sb, bs0, inodes, inodes.Keys)
    ensures var inodes' := inodes[i := Emptied(inodes[i])];
            NumbersOk(sb, inodes') && Synced(sb, bs, inodes', inodes'.Keys - {i})
  {
    hide Marked; hide InoAt;
    forall j | j in inodes && j != i
      ensures sb.IBlock(j) in bs && bs[sb.IBlock(j)] == bs0[sb.IBlock(j)]
    {
      assert sb.IBlock(j) <= sb.IBlock(sb.ninodes) < sb.bmapstart <= sb.BBlock(sb.size);
    }
  }

  // ---------- Reading and writing ----------

  lemma BelowSize(bs: Store, ino: Ino, p: nat)
    requires InoOk(ino) && Mapped(bs, ino) && p < ino.size
    ensures p / BSIZE < MAXFILE && Addr(bs, ino, Slot(p / BSIZE)) != 0
  {
    hide Addr;
  }

  lemma DataIn(sb: Super, bs: Store, inodes: map<nat, Ino>, owner: Owner, i: nat, bn: nat)
    requires BlocksOk(sb, bs, inodes, owner) && i in inodes && bn < MAXFILE && Addr(bs, inodes[i], Slot(bn)) != 0
    ensures Addr(bs, inodes[i], Slot(bn)) in bs
  {
    hide Addr; hide Marked;
  }

  /** A stretch inside one block. */
  lemma ReadChunk(bs: Store, ino: Ino, off: nat, m: nat)
    requires off % BSIZE + m <= BSIZE && off + m <= ino.size && Addr(bs, ino, Slot(off / BSIZE)) in bs
    ensures Content(bs, ino)[off..off + m] == bs[Addr(bs, ino, Slot(off / BSIZE))].at[off % BSIZE..off % BSIZE + m]
  {
    hide Addr;
    forall p: nat | off <= p < off + m
      ensures ByteAt(bs, ino, p) == bs[Addr(bs, ino, Slot(off / BSIZE))].at[off % BSIZE + p - off]
    {
      assert p / BSIZE == off / BSIZE && p % BSIZE == off % BSIZE + p - off;
    }
  }

  lemma AppendSlice<T>(s: seq<T>, a: nat, b: nat, c: nat)
    requires a <= b <= c <= |s|
    ensures s[a..b] + s[b..c] == s[a..c]
  {
  }

  /** The file's blocks hold the bytes t, whatever its recorded size. */
  ghost predicate Holding(bs: Store, ino: Ino, t: seq<byte>) {
    |t| <= MAXFILE * BSIZE
    && forall p: nat :: p < |t| ==>
         Addr(bs, ino, Slot(p / BSIZE)) != 0 && Addr(bs, ino, Slot(p / BSIZE)) in bs && ByteAt(bs, ino, p) == t[p]
  }

  ghost predicate KeepsOthers(bs: Store, inodes: map<nat, Ino>, bs': Store, inodes': map<nat, Ino>, i: nat) {
    && inodes'.Keys == inodes.Keys
    && forall j: nat, bn: nat :: j in inodes && j != i && bn < MAXFILE && Addr(bs, inodes[j], Slot(bn)) != 0 ==>
         SameBlock(bs, Addr(bs, inodes[j], Slot(bn)), bs', Addr(bs', inodes'[j], Slot(bn)))
  }

  /** What ialloc and the directory code keep in an inode: its type, device and link count. */
  predicate SameKind(ino: Ino, ino': Ino) {
    ino'.kind == ino.kind && ino'.links == ino.links
  }

  /** How writing to inode i may change the file system. */
  ghost predicate Wrote(sb: Super, bs: Store, inodes: map<nat, Ino>, owner: Owner,
                        bs': Store, inodes': map<nat, Ino>, owner': Owner, i: nat) {
    && BlocksOk(sb, bs', inodes', owner') && KeepsOthers(bs, inodes, bs', inodes', i)
    && SameLeaks(sb, bs, owner, bs', owner') && SameInodeArea(sb, bs, bs')
    && OnlyAddrs(inodes, inodes', i) && Indirect(inodes[i]) <= Indirect(inodes'[i])
  }

  lemma GrewWrote(sb: Super, bs: Store, inodes: map<nat, Ino>, owner: Owner,
                  bs': Store, inodes': map<nat, Ino>, owner': Owner, i: nat)
    requires Grew(sb, bs, inodes, owner, bs', inodes', owner', i)
    ensures Wrote(sb, bs, inodes, owner, bs', inodes', owner', i)
  {
    hide BlocksOk; hide SameLeaks; hide Addr;
  }

  lemma WroteTransitive(sb: Super, a: Store, ia: map<nat, Ino>, oa: Owner, b: Store, ib: map<nat, Ino>, ob: Owner,
                        c: Store, ic: map<nat, Ino>, oc: Owner, i: nat)
    requires Wrote(sb, a, ia, oa, b, ib, ob, i) && Wrote(sb, b, ib, ob, c, ic, oc, i)
    ensures Wrote(sb, a, ia, oa, c, ic, oc, i)
  {
    hide SameLeaks; hide BlocksOk; hide Addr;
    SameLeaksTransitive(sb, a, oa, b, ob, c, oc);
    forall j: nat, bn: nat | j in ia && j != i && bn < MAXFILE && Addr(a, ia[j], Slot(bn)) != 0
      ensures SameBlock(a, Addr(a, ia[j], Slot(bn)), c, Addr(c, ic[j], Slot(bn)))
    {
      assert SameBlock(a, Addr(a, ia[j], Slot(bn)), b, Addr(b, ib[j], Slot(bn)));
      assert SameBlock(b, Addr(b, ib[j], Slot(bn)), c, Addr(c, ic[j], Slot(bn)));
    }
  }

  lemma HoldingGrew(sb: Super, bs: Store, inodes: map<nat, Ino>, owner: Owner,
                    bs': Store, inodes': map<nat, Ino>, owner': Owner, i: nat, t: seq<byte>)
    requires Grew(sb, bs, inodes, owner, bs', inodes', owner', i) && i in inodes && i in inodes'
    requires Holding(bs, inodes[i], t)
    ensures Holding(bs', inodes'[i], t)
  {
    hide BlocksOk; hide SameLeaks; hide Addr; hide KeepsData; hide Holding;
    KeepsHolding(bs, inodes, bs', inodes', i, t);
  }

  /** Keeping the data keeps what the blocks hold. */
  lemma KeepsHolding(bs: Store, inodes: map<nat, Ino>, bs': Store, inodes': map<nat, Ino>, i: nat, t: seq<byte>)
    requires KeepsData(bs, inodes, bs', inodes') && i in inodes && Holding(bs, inodes[i], t)
    ensures Holding(bs', inodes'[i], t)
  {
    hide Addr;
    forall p: nat | p < |t|
      ensures Addr(bs', inodes'[i], Slot(p / BSIZE)) != 0 && Addr(bs', inodes'[i], Slot(p / BSIZE)) in bs'
              && ByteAt(bs', inodes'[i], p) == t[p]
    {
      assert SameBlock(bs, Addr(bs, inodes[i], Slot(p / BSIZE)), bs', Addr(bs', inodes'[i], Slot(p / BSIZE)));
    }
  }

  /** A block with `chunk` copied in at `at`. */
  function Overlay(b: Block, at: nat, chunk: seq<byte>): (r: Block)
    requires at + |chunk| <= BSIZE
    ensures forall k :: 0 <= k < BSIZE ==> r.at[k] == if at <= k < at + |chunk| then chunk[k - at] else b.at[k]
  {
    Bytes(b.at[..at] + chunk + b.at[at + |chunk|..])
  }

  lemma SpliceAt(c: seq<byte>, off: nat, data: seq<byte>)
    requires off <= |c|
    ensures var r := Splice(c, off, data);
            && |r| == (if off + |data| < |c| then |c| else off + |data|)
            && forall p :: 0 <= p < |r| ==> r[p] == if off <= p < off + |data| then data[p - off] else c[p]
  {
  }

  /** Copying a chunk into a mapped block splices it into the file. */
  lemma HoldingStore(sb: Super, bs: Store, inodes: map<nat, Ino>, owner: Owner, i: nat, off: nat, chunk: seq<byte>,
      t: seq<byte>)
    requires BlocksOk(sb, bs, inodes, owner) && i in inodes && Holding(bs, inodes[i], t) && off <= |t|
    requires off % BSIZE + |chunk| <= BSIZE && off + |chunk| <= MAXFILE * BSIZE && chunk != []
    requires Addr(bs, inodes[i], Slot(off / BSIZE)) != 0 && Addr(bs, inodes[i], Slot(off / BSIZE)) in bs
    ensures var a := Addr(bs, inodes[i], Slot(off / BSIZE));
            Holding(bs[a := Overlay(bs[a], off % BSIZE, chunk)], inodes[i], Splice(t, off, chunk))
  {
    hide BlocksOk; hide Splice; hide Addr; hide Overlay; hide SameMarks;
    var a := Addr(bs, inodes[i], Slot(off / BSIZE));
    var blk := Overlay(bs[a], off % BSIZE, chunk);
    var bs' := bs[a := blk];
    var r := Splice(t, off, chunk);
    SpliceAt(t, off, chunk);
    StoreData(sb, bs, inodes, owner, i, off / BSIZE, blk);
    forall p: nat | p < |r|
      ensures Addr(bs', inodes[i], Slot(p / BSIZE)) != 0 && Addr(bs', inodes[i], Slot(p / BSIZE)) in bs'
              && ByteAt(bs', inodes[i], p) == r[p]
    {
      InChunk(off, |chunk|, p);
      assert Addr(bs', inodes[i], Slot(p / BSIZE)) == Addr(bs, inodes[i], Slot(p / BSIZE));
      if p / BSIZE != off / BSIZE {
        assert SameBlock(bs, Addr(bs, inodes[i], Slot(p / BSIZE)), bs', Addr(bs', inodes[i], Slot(p / BSIZE)));
      }
    }
  }

  lemma InChunk(off: nat, m: nat, p: nat)
    requires off % BSIZE + m <= BSIZE
    ensures p / BSIZE == off / BSIZE ==> (off <= p < off + m <==> off % BSIZE <= p % BSIZE < off % BSIZE + m)
    ensures off <= p < off + m ==> p / BSIZE == off / BSIZE && p % BSIZE - off % BSIZE == p - off
  {
  }

  lemma StoreWrote(sb: Super, bs: Store, inodes: map<nat, Ino>, owner: Owner, i: nat, bn: nat, blk: Block)
    requires BlocksOk(sb, bs, inodes, owner) && i in inodes && bn < MAXFILE && Addr(bs, inodes[i], Slot(bn)) != 0
    ensures Wrote(sb, bs, inodes, owner, bs[Addr(bs, inodes[i], Slot(bn)) := blk], inodes, owner, i)
    ensures Missing(bs[Addr(bs, inodes[i], Slot(bn)) := blk], inodes[i], NDIRECT) == Missing(bs, inodes[i], NDIRECT)
  {
    hide Addr; hide SameMarks; hide SameLeaks; hide BlocksOk;
    Basics(sb, bs, inodes, owner);
    StoreData(sb, bs, inodes, owner, i, bn, blk);
    MarksLeaks(sb, bs, bs[Addr(bs, inodes[i], Slot(bn)) := blk], owner);
  }

  lemma LogsAppend(a: seq<nat>, b: seq<nat>, x: set<nat>, v: nat)
    requires LogsOnly(a, b, x) && v in x
    ensures LogsOnly(a, b + [v], x)
  {
  }

  // ---------- writei ----------

  function Larger(a: nat, b: nat): nat {
    if a < b then b else a
  }

  /** The requests writei turns down. */
  predicate Refuses(size: nat, off: nat, n: nat) {
    off > size || off + n > UINT_MAX || off + n > MAXFILE * BSIZE
  }

  /** writei's loop after iter passes, news of which found their block unmapped: every pass
      but the first starts on a block boundary. */
  ghost predicate Pacing(off: nat, n: nat, tot: nat, iter: nat, news: nat, stopped: bool) {
    && news <= iter
    && (iter > 0 ==> (iter - 1) * BSIZE < off % BSIZE + n)
    && (iter > 0 && off % BSIZE != 0 ==> news < iter)
    && (iter > 0 && tot < n && !stopped ==> off + tot == (off / BSIZE + iter) * BSIZE)
  }

  lemma PacingOn(off: nat, n: nat, tot: nat, iter: nat, news: nat, m: nat, missing: nat)
    requires Pacing(off, n, tot, iter, news, false) && tot < n && missing <= 1 && (iter == 0 ==> tot == 0)
    requires iter == 0 && off % BSIZE != 0 ==> missing == 0
    requires m == if n - tot < BSIZE - (off + tot) % BSIZE then n - tot else BSIZE - (off + tot) % BSIZE
    ensures Pacing(off, n, tot + m, iter + 1, news + missing, false)
    ensures Pacing(off, n, tot, iter + 1, news + missing, true)
    ensures 0 < m && (off + tot) % BSIZE + m <= BSIZE && tot + m <= n
  {
  }

  /** At most nine distinct blocks are logged before the inode: four data blocks, four
      free-map blocks and the indirect block. */
  lemma CountBefore(data: set<nat>, maps: set<nat>, ind: set<nat>, off: nat, n: nat, tot: nat, iter: nat, news: nat,
      stopped: bool)
    requires Pacing(off, n, tot, iter, news, stopped) && |data| <= iter && |maps| <= news + 1 && |ind| <= 1
    ensures n <= 3 * BSIZE ==> |data + maps + ind| <= 9
  {
    Union(data, maps);
    Union(data + maps, ind);
  }

  /** What a write has logged so far: at most iter data blocks and news + m0 - m free-map blocks. */
  ghost predicate Tally(log0: seq<nat>, log: seq<nat>, data: set<nat>, maps: set<nat>, ind: set<nat>, iter: nat,
      news: nat, m: nat, m0: nat) {
    LogsOnly(log0, log, data + maps + ind) && |data| <= iter && |maps| + m <= news + m0 && |ind| <= 1 && m0 <= 1
  }

  lemma TallyOn(log0: seq<nat>, log: seq<nat>, log': seq<nat>, data: set<nat>, maps: set<nat>, ind: set<nat>,
                ind': set<nat>, iter: nat, news: nat, addr: set<nat>, mp: set<nat>, missing: nat,
                m: nat, m': nat, m0: nat)
    requires Tally(log0, log, data, maps, ind, iter, news, m, m0) && ind <= ind' && |ind'| <= 1 && |addr| <= 1
    requires LogsOnly(log, log', mp + addr + ind') && |mp| + m' <= missing + m
    ensures Tally(log0, log', data + addr, maps + mp, ind', iter + 1, news + missing, m', m0)
  {
    hide LogsOnly;
    LogsJoin(log0, log, log', data + maps + ind, mp + addr + ind', (data + addr) + (maps + mp) + ind');
    Union(data, addr);
    Union(maps, mp);
  }

  lemma AtMostOne(bs: Store, ino: Ino, k: nat, a: nat)
    ensures |Indirect(ino)| <= 1 && |Nonzero(a)| <= 1 && Missing(bs, ino, k) <= 1
  {
    hide Addr;
  }

  lemma TallyEnd(log0: seq<nat>, log: seq<nat>, data: set<nat>, maps: set<nat>, ind: set<nat>, iter: nat, news: nat,
      m: nat, m0: nat)
    requires Tally(log0, log, data, maps, ind, iter, news, m, m0)
    ensures LogsOnly(log0, log, data + maps + ind) && |data| <= iter && |maps| <= news + 1 && |ind| <= 1
  {
    hide LogsOnly;
  }

  lemma Union(a: set<nat>, b: set<nat>)
    ensures |a + b| <= |a| + |b|
  {
    assert a + b == a + (b - a);
    assert b == (b - a) + (b * a);
  }

  /** Inside a block that the file already reaches, nothing is missing. */
  lemma FirstMapped(bs: Store, ino: Ino, t: seq<byte>, at: nat)
    requires Holding(bs, ino, t) && at <= |t|
    ensures at % BSIZE != 0 ==> Missing(bs, ino, Slot(at / BSIZE)) == 0
  {
    hide Addr;
    if at % BSIZE != 0 {
      var p := at / BSIZE * BSIZE;
      assert p < |t| && p / BSIZE == at / BSIZE;
    }
  }

  lemma HoldingContent(sb: Super, bs: Store, inodes: map<nat, Ino>, owner: Owner, i: nat)
    requires BlocksOk(sb, bs, inodes, owner) && i in inodes && Mapped(bs, inodes[i])
    ensures Holding(bs, inodes[i], Content(bs, inodes[i]))
  {
    hide Addr;
    forall p: nat | p < inodes[i].size
      ensures Addr(bs, inodes[i], Slot(p / BSIZE)) != 0 && Addr(bs, inodes[i], Slot(p / BSIZE)) in bs
    {
      BelowSize(bs, inodes[i], p);
      DataIn(sb, bs, inodes, owner, i, p / BSIZE);
    }
  }

  lemma HoldingBound(bs: Store, ino: Ino, t: seq<byte>)
    requires Holding(bs, ino, t)
    ensures |t| <= MAXFILE * BSIZE
  {
  }

  lemma WroteNone(sb: Super, bs: Store, inodes: map<nat, Ino>, owner: Owner, i: nat)
    requires BlocksOk(sb, bs, inodes, owner) && i in inodes
    ensures Wrote(sb, bs, inodes, owner, bs, inodes, owner, i)
  {
    hide Grew; hide Wrote;
    GrewNone(sb, bs, inodes, owner, i);
    GrewWrote(sb, bs, inodes, owner, bs, inodes, owner, i);
  }

  lemma WroteOk(sb: Super, bs: Store, inodes: map<nat, Ino>, owner: Owner,
                bs': Store, inodes': map<nat, Ino>, owner': Owner, i: nat)
    requires Wrote(sb, bs, inodes, owner, bs', inodes', owner', i)
    ensures BlocksOk(sb, bs', inodes', owner') && i in inodes && inodes'.Keys == inodes.Keys && InoOk(inodes'[i])
    ensures inodes'[i].size == inodes[i].size && SameKind(inodes[i], inodes'[i])
  {
  }

  lemma WroteIndirect(sb: Super, bs: Store, inodes: map<nat, Ino>, owner: Owner,
                      bs': Store, inodes': map<nat, Ino>, owner': Owner, i: nat)
    requires Wrote(sb, bs, inodes, owner, bs', inodes', owner', i)
    ensures i in inodes && i in inodes' && Indirect(inodes[i]) <= Indirect(inodes'[i])
  {
  }

  /** Every other file is as it was, and its disk inode too. */
  lemma WroteOthers(sb: Super, bs: Store, inodes: map<nat, Ino>, owner: Owner,
                    bs': Store, inodes': map<nat, Ino>, owner': Owner, i: nat)
    requires BlocksOk(sb, bs, inodes, owner) && NumbersOk(sb, inodes) && AllMapped(bs, inodes)
    requires Synced(sb, bs, inodes, inodes.Keys)
    requires Wrote(sb, bs, inodes, owner, bs', inodes', owner', i)
    ensures inodes'.Keys == inodes.Keys && NumbersOk(sb, inodes') && SameLeaks(sb, bs, owner, bs', owner')
    ensures Synced(sb, bs', inodes', inodes.Keys - {i})
    ensures forall j :: j in inodes && j != i ==>
              inodes'[j] == inodes[j] && Mapped(bs', inodes[j]) && Content(bs', inodes[j]) == Content(bs, inodes[j])
  {
    hide SameLeaks; hide Addr; hide InoAt; hide Marked;
    forall j | j in inodes && j != i
      ensures Mapped(bs', inodes[j]) && Content(bs', inodes[j]) == Content(bs, inodes[j])
      ensures sb.IBlock(j) in bs' && bs'[sb.IBlock(j)] == bs[sb.IBlock(j)]
    {
      assert sb.IBlock(j) <= sb.IBlock(sb.ninodes) < sb.bmapstart;
      KeepsContent(bs, map[j := inodes[j]], bs', map[j := inodes[j]], j);
    }
  }

  /** Recording the new size makes the bytes held the contents of the file. */
  lemma Resized(sb: Super, bs: Store, inodes: map<nat, Ino>, owner: Owner, i: nat, t: seq<byte>)
    requires BlocksOk(sb, bs, inodes, owner) && i in inodes && Holding(bs, inodes[i], t)
    ensures |t| <= UINT_MAX
    ensures var inodes' := inodes[i := inodes[i].(size := |t|)];
            && BlocksOk(sb, bs, inodes', owner)
            && Mapped(bs, inodes'[i]) && Content(bs, inodes'[i]) == t
            && (Synced(sb, bs, inodes, inodes.Keys - {i}) ==> Synced(sb, bs, inodes', inodes.Keys - {i}))
  {
    hide Marked; hide InoAt;
    var ino := inodes[i].(size := |t|);
    assert forall k: nat :: Addr(bs, ino, k) == Addr(bs, inodes[i], k);
    hide Addr;
    forall bn: nat | bn < MAXFILE && bn * BSIZE < |t|
      ensures Addr(bs, ino, Slot(bn)) != 0
    {
      assert bn * BSIZE / BSIZE == bn;
    }
    forall p: nat | p < |t|
      ensures ByteAt(bs, ino, p) == t[p]
    {
      assert ByteAt(bs, inodes[i], p) == t[p];
    }
  }

  lemma StillFull(sb: Super, bs: Store, bs': Store)
    requires SameMarks(sb, bs, bs')
    ensures Full(sb, bs) ==> Full(sb, bs')
  {
  }

  lemma WriteStart(sb: Super, bs: Store, inodes: map<nat, Ino>, owner: Owner, i: nat, off: nat, n: nat, log: seq<nat>)
    requires BlocksOk(sb, bs, inodes, owner) && i in inodes && Mapped(bs, inodes[i]) && off <= inodes[i].size
    ensures InoOk(inodes[i]) && Holding(bs, inodes[i], Content(bs, inodes[i]))
    ensures Wrote(sb, bs, inodes, owner, bs, inodes, owner, i)
    ensures Tally(log, log, {}, {}, Indirect(inodes[i]), 0, 0, Missing(bs, inodes[i], NDIRECT), Missing(bs, inodes[i], NDIRECT))
    ensures Splice(Content(bs, inodes[i]), off, []) == Content(bs, inodes[i])
    ensures Pacing(off, n, 0, 0, 0, false)
  {
    hide Wrote; hide Addr; hide Holding; hide Content;
    HoldingContent(sb, bs, inodes, owner, i);
    WroteNone(sb, bs, inodes, owner, i);
  }

  lemma SpliceOn(c: seq<byte>, off: nat, src: seq<byte>, tot: nat, m: nat)
    requires off <= |c| && tot + m <= |src|
    ensures off + tot <= |Splice(c, off, src[..tot])|
    ensures Splice(Splice(c, off, src[..tot]), off + tot, src[tot..tot + m]) == Splice(c, off, src[..tot + m])
    ensures off + tot + m <= |Splice(c, off, src[..tot + m])|
  {
    hide Splice;
    SpliceAt(c, off, src[..tot]);
    SpliceAt(c, off, src[..tot + m]);
    SpliceAt(Splice(c, off, src[..tot]), off + tot, src[tot..tot + m]);
  }

  // ---------- filewrite ----------

  function ChunkSize(left: nat): nat {
    if left > 3 * BSIZE then 3 * BSIZE else left
  }

  /** Nine blocks at most before the last log_write. */
  lemma FitsAfter(log: seq<nat>, before: set<nat>)
    requires log == [] || (LogsOnly([], log[..|log| - 1], before) && |before| <= 9)
    ensures RedoLog.Fits(log)
  {
    forall k | 0 <= k < |log|
      ensures |RedoLog.Members(log[..k])| < RedoLog.MAXOPBLOCKS
    {
      assert RedoLog.Members(log[..k]) <= before by {
        forall x | x in log[..k]
          ensures x in before
        {
          var m :| 0 <= m < k && log[..k][m] == x;
          assert log[..|log| - 1][m] == x;
        }
      }
      Smaller(RedoLog.Members(log[..k]), before);
    }
  }

  lemma Smaller(a: set<nat>, b: set<nat>)
    requires a <= b
    ensures |a| <= |b|
  {
    assert b == a + (b - a);
  }

  lemma OffsetFits(sb: Super, bs: Store, inodes: map<nat, Ino>, owner: Owner, i: nat, c: seq<byte>, off: uint,
      src: seq<byte>, done: nat)
    requires BlocksOk(sb, bs, inodes, owner) && i in inodes && done <= |src| && (done > 0 ==> off <= |c|)
    requires Content(bs, inodes[i]) == if done == 0 then c else Splice(c, off, src[..done])
    ensures off + done <= UINT_MAX
  {
    hide Content;
    if done > 0 {
      SpliceAt(c, off, src[..done]);
      assert InoOk(inodes[i]);
    }
  }

  lemma SpliceFrom(c: seq<byte>, off: nat, src: seq<byte>, done: nat, r: nat, d: seq<byte>)
    requires done + r <= |src| && r > 0 && off + done <= |d| && (done > 0 ==> off <= |c|)
    requires d == if done == 0 then c else Splice(c, off, src[..done])
    ensures off <= |c| && Splice(d, off + done, src[done..done + r]) == Splice(c, off, src[..done + r])
  {
    if done == 0 {
      assert src[done..done + r] == src[..done + r];
    } else {
      SpliceOn(c, off, src, done, r);
    }
  }

  lemma SpliceEmpty(d: seq<byte>, off: nat)
    ensures off <= |d| ==> Splice(d, off, []) == d
  {
  }
}
