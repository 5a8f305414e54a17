/** Inodes, the free map and the blocks of files (kernel/fs.c), as values: what a
    well-formed file system is, which inode owns which block, what a file contains, and how
    each small change the code makes affects all three. */
module FileBlocks {
  import opened Blocks

  const NDIRECT := 12
  const NINDIRECT := 256
  const MAXFILE := 268          // NDIRECT + NINDIRECT
  const SLOTS := 269            // direct entries, the indirect entry, then its entries
  const BPB := 8192             // bitmap bits per block
  const IPB := 16               // inodes per block

  type Store = map<nat, Block>

  /** The superblock, and the first block that is not metadata. */
  datatype Super = Super(size: nat, ninodes: nat, inodestart: nat, bmapstart: nat, datastart: nat)
  {
    function BBlock(b: nat): nat { b / BPB + bmapstart }
    function IBlock(i: nat): nat { i / IPB + inodestart }

    predicate Ok() {
      && 0 < datastart <= size <= UINT_MAX
      && IBlock(ninodes) < bmapstart && BBlock(size) < datastart
    }

    ghost predicate Spans(bs: Store) {
      Ok() && forall b: nat :: b in bs <==> b < size
    }
  }

  /** An inode: type/major and minor/nlink words, size in bytes, block addresses. */
  datatype Ino = Ino(kind: uint, links: uint, size: uint, addrs: seq<uint>)

  predicate InoOk(ino: Ino) {
    |ino.addrs| == NDIRECT + 1 && ino.size <= MAXFILE * BSIZE
  }

  // ---------- The free map ----------

  predicate Marked(sb: Super, bs: Store, b: nat) {
    sb.BBlock(b) in bs && BlockBit(bs[sb.BBlock(b)], b % BPB)
  }

  function Mark(sb: Super, bs: Store, b: nat): Store
    requires sb.BBlock(b) in bs
  {
    bs[sb.BBlock(b) := SetBlockBit(bs[sb.BBlock(b)], b % BPB)]
  }

  function Unmark(sb: Super, bs: Store, b: nat): Store
    requires sb.BBlock(b) in bs
  {
    bs[sb.BBlock(b) := ClearBlockBit(bs[sb.BBlock(b)], b % BPB)]
  }

  lemma MarkedAfter(sb: Super, bs: Store, b: nat, c: nat)
    requires sb.BBlock(b) in bs
    ensures Marked(sb, Mark(sb, bs, b), c) <==> c == b || Marked(sb, bs, c)
    ensures Marked(sb, Unmark(sb, bs, b), c) <==> c != b && Marked(sb, bs, c)
  {
    BlockBitOfSet(bs[sb.BBlock(b)], b % BPB, c % BPB);
  }

  // ---------- Addresses ----------

  /** The entry of an inode that maps block bn of its file. */
  function Slot(bn: nat): nat {
    if bn < NDIRECT then bn else bn + 1
  }

  /** Address entry k of an inode: its own thirteen, then those of its indirect block. */
  function Addr(bs: Store, ino: Ino, k: nat): (a: uint)
  {
    if k < |ino.addrs| then ino.addrs[k]
    else if |ino.addrs| != NDIRECT + 1 || k >= SLOTS || ino.addrs[NDIRECT] == 0 || ino.addrs[NDIRECT] !in bs then 0
    else Word(bs[ino.addrs[NDIRECT]], k - NDIRECT - 1)
  }

  type Owner = map<nat, (nat, nat)>   // block -> (inode number, address entry)

  ghost predicate InodesOk(inodes: map<nat, Ino>) {
    forall i :: i in inodes ==> InoOk(inodes[i])
  }

  /** Every nonzero address entry of every inode is the block's only owner, and every owned
      block is a marked data block. */
  ghost predicate Owned(sb: Super, bs: Store, inodes: map<nat, Ino>, owner: Owner)
  {
    && (forall i: nat, k: nat :: i in inodes && k < SLOTS && Addr(bs, inodes[i], k) != 0 ==>
          Addr(bs, inodes[i], k) in owner && owner[Addr(bs, inodes[i], k)] == (i, k))
    && (forall a :: a in owner ==>
          && sb.datastart <= a < sb.size && Marked(sb, bs, a)
          && owner[a].0 in inodes && owner[a].1 < SLOTS && Addr(bs, inodes[owner[a].0], owner[a].1) == a)
  }

  ghost predicate MetaMarked(sb: Super, bs: Store) {
    forall b: nat :: b < sb.datastart ==> Marked(sb, bs, b)
  }

  /** Every block below the end of the file is mapped. */
  ghost predicate Mapped(bs: Store, ino: Ino)
  {
    forall bn: nat :: bn < MAXFILE && bn * BSIZE < ino.size ==> Addr(bs, ino, Slot(bn)) != 0
  }

  ghost predicate AllMapped(bs: Store, inodes: map<nat, Ino>)
  {
    forall i :: i in inodes ==> Mapped(bs, inodes[i])
  }

  /** Well-formedness of everything but file sizes. */
  ghost predicate BlocksOk(sb: Super, bs: Store, inodes: map<nat, Ino>, owner: Owner) {
    sb.Spans(bs) && InodesOk(inodes) && MetaMarked(sb, bs) && Owned(sb, bs, inodes, owner)
  }

  /** No two address entries, of one inode or of two, name the same block. */
  lemma NoSharing(sb: Super, bs: Store, inodes: map<nat, Ino>, owner: Owner, i: nat, k: nat, j: nat, m: nat)
    requires BlocksOk(sb, bs, inodes, owner) && i in inodes && j in inodes && k < SLOTS && m < SLOTS
    requires (i, k) != (j, m) && Addr(bs, inodes[i], k) != 0
    ensures Addr(bs, inodes[i], k) != Addr(bs, inodes[j], m) && Marked(sb, bs, Addr(bs, inodes[i], k))
  {
  }

  // ---------- Contents ----------

  function ByteAt(bs: Store, ino: Ino, p: nat): (v: byte)
  {
    var a := Addr(bs, ino, Slot(p / BSIZE));
    if a in bs then bs[a].at[p % BSIZE] else 0
  }

  /** The bytes of a file. */
  function Content(bs: Store, ino: Ino): (c: seq<byte>)
    ensures |c| == ino.size
  {
    seq(ino.size, p requires 0 <= p < ino.size => ByteAt(bs, ino, p))
  }

  /** Every mapped file block keeps its address and its data, and every file its size. */
  ghost predicate KeepsData(bs: Store, inodes: map<nat, Ino>, bs': Store, inodes': map<nat, Ino>)
  {
    && inodes'.Keys == inodes.Keys
    && (forall j :: j in inodes ==> inodes'[j].size == inodes[j].size)
    && (forall j: nat, bn: nat :: j in inodes && bn < MAXFILE && Addr(bs, inodes[j], Slot(bn)) != 0 ==>
          SameBlock(bs, Addr(bs, inodes[j], Slot(bn)), bs', Addr(bs', inodes'[j], Slot(bn))))
  }

  ghost predicate SameBlock(bs: Store, a: nat, bs': Store, a': nat) {
    a' == a && a in bs && a in bs' && bs'[a] == bs[a]
  }

  lemma KeepsDataTransitive(a: Store, i: map<nat, Ino>, b: Store, j: map<nat, Ino>, c: Store, k: map<nat, Ino>)
    requires KeepsData(a, i, b, j) && KeepsData(b, j, c, k)
    ensures KeepsData(a, i, c, k)
  {
    hide Addr;
    forall x: nat, bn: nat | x in i && bn < MAXFILE && Addr(a, i[x], Slot(bn)) != 0
      ensures SameBlock(a, Addr(a, i[x], Slot(bn)), c, Addr(c, k[x], Slot(bn)))
    {
      assert SameBlock(a, Addr(a, i[x], Slot(bn)), b, Addr(b, j[x], Slot(bn)));
      assert SameBlock(b, Addr(b, j[x], Slot(bn)), c, Addr(c, k[x], Slot(bn)));
    }
  }

  /** Keeping the data keeps every file that is mapped up to its size. */
  lemma KeepsContent(bs: Store, inodes: map<nat, Ino>, bs': Store, inodes': map<nat, Ino>, j: nat)
    requires KeepsData(bs, inodes, bs', inodes') && j in inodes && InoOk(inodes[j]) && Mapped(bs, inodes[j])
    ensures Mapped(bs', inodes'[j]) && Content(bs', inodes'[j]) == Content(bs, inodes[j])
  {
    hide Addr;
    forall bn: nat | bn < MAXFILE && bn * BSIZE < inodes[j].size
      ensures SameBlock(bs, Addr(bs, inodes[j], Slot(bn)), bs', Addr(bs', inodes'[j], Slot(bn)))
      ensures Addr(bs, inodes[j], Slot(bn)) != 0
    {
    }
    forall p: nat | p < inodes[j].size
      ensures ByteAt(bs', inodes'[j], p) == ByteAt(bs, inodes[j], p)
    {
      assert SameBlock(bs, Addr(bs, inodes[j], Slot(p / BSIZE)), bs', Addr(bs', inodes'[j], Slot(p / BSIZE)));
    }
  }

  /** The marked blocks that no inode owns; no operation below adds or removes one. */
  ghost predicate SameLeaks(sb: Super, bs: Store, owner: Owner, bs': Store, owner': Owner) {
    forall c: nat :: c < sb.size ==> (Marked(sb, bs', c) && c !in owner' <==> Marked(sb, bs, c) && c !in owner)
  }

  // ---------- Small changes ----------

  ghost predicate SameMarks(sb: Super, bs: Store, bs': Store) {
    forall c: nat :: c < sb.size ==> (Marked(sb, bs', c) <==> Marked(sb, bs, c))
  }

  /** No free-map block is among the blocks where bs and bs' differ. */
  lemma MarksKept(sb: Super, bs: Store, b: nat, blk: Block)
    requires sb.Ok() && !(sb.bmapstart <= b <= sb.BBlock(sb.size))
    ensures SameMarks(sb, bs, bs[b := blk])
  {
    hide BlockBit;
    forall c: nat | c < sb.size
      ensures Marked(sb, bs[b := blk], c) <==> Marked(sb, bs, c)
    {
      assert sb.bmapstart <= sb.BBlock(c) <= sb.BBlock(sb.size);
    }
  }

  /** A change that touches no owned block changes no address and no data. */
  lemma UnownedChange(sb: Super, bs: Store, bs': Store, inodes: map<nat, Ino>, owner: Owner)
    requires BlocksOk(sb, bs, inodes, owner) && sb.Spans(bs')
    requires forall a :: a in owner ==> bs'[a] == bs[a]
    ensures SameAddrs(bs, bs', inodes) && KeepsData(bs, inodes, bs', inodes)
  {
    hide Marked; hide Word;
    forall j: nat, k: nat | j in inodes && k < SLOTS
      ensures Addr(bs', inodes[j], k) == Addr(bs, inodes[j], k)
    {
      assert Addr(bs, inodes[j], NDIRECT) != 0 ==> Addr(bs, inodes[j], NDIRECT) in owner;
    }
  }

  ghost predicate SameAddrs(bs: Store, bs': Store, inodes: map<nat, Ino>)
  {
    forall j: nat, k: nat :: j in inodes && k < SLOTS ==> Addr(bs', inodes[j], k) == Addr(bs, inodes[j], k)
  }

  /** A block that balloc has just handed out. */
  ghost predicate Fresh(sb: Super, bs: Store, owner: Owner, a: nat) {
    sb.datastart <= a < sb.size && a !in owner && Marked(sb, bs, a) && a in bs && bs[a] == ZeroBlock()
  }

  /** balloc: marking and zeroing a free block disturbs no file. */
  lemma AllocOk(sb: Super, bs: Store, inodes: map<nat, Ino>, owner: Owner, b: nat)
    requires BlocksOk(sb, bs, inodes, owner) && b < sb.size && !Marked(sb, bs, b)
    ensures sb.BBlock(b) in bs
    ensures var bs' := Mark(sb, bs, b)[b := ZeroBlock()];
            && BlocksOk(sb, bs', inodes, owner) && Fresh(sb, bs', owner, b)
            && KeepsData(bs, inodes, bs', inodes) && SameAddrs(bs, bs', inodes)
            && forall c: nat :: c < sb.size ==> (Marked(sb, bs', c) <==> c == b || Marked(sb, bs, c))
  {
    hide BlockBit; hide KeepsData;
    var bs' := Mark(sb, bs, b)[b := ZeroBlock()];
    forall c: nat | c < sb.size
      ensures Marked(sb, bs', c) <==> c == b || Marked(sb, bs, c)
    {
      MarkedAfter(sb, bs, b, c);
      assert sb.BBlock(c) <= sb.BBlock(sb.size);
    }
    UnownedChange(sb, bs, bs', inodes, owner);
  }

  ghost predicate OnlyNew(bs: Store, bs': Store, inodes: map<nat, Ino>, inodes': map<nat, Ino>, i: nat, k: nat, a: nat)
    requires inodes'.Keys == inodes.Keys
  {
    forall j: nat, m: nat :: j in inodes && m < SLOTS ==>
      Addr(bs', inodes'[j], m) == if j == i && m == k then a else Addr(bs, inodes[j], m)
  }

  /** One more address entry, naming a block nobody owned, has one more owner. */
  lemma OwnedAfterLink(sb: Super, bs: Store, bs': Store, inodes: map<nat, Ino>, inodes': map<nat, Ino>, owner: Owner,
                       i: nat, k: nat, a: nat)
    requires inodes'.Keys == inodes.Keys && i in inodes && k < SLOTS
    requires Owned(sb, bs, inodes, owner) && Addr(bs, inodes[i], k) == 0 && OnlyNew(bs, bs', inodes, inodes', i, k, a)
    requires 0 < sb.datastart <= a < sb.size && a !in owner && Marked(sb, bs, a) && SameMarks(sb, bs, bs')
    ensures Owned(sb, bs', inodes', owner[a := (i, k)])
  {
    hide Marked; hide Addr;
  }

  /** Entering a fresh block into an inode's own address table. */
  lemma LinkDirect(sb: Super, bs: Store, inodes: map<nat, Ino>, owner: Owner, i: nat, k: nat, a: nat)
    requires BlocksOk(sb, bs, inodes, owner) && i in inodes && k <= NDIRECT && Addr(bs, inodes[i], k) == 0
    requires Fresh(sb, bs, owner, a)
    ensures var ino := inodes[i].(addrs := inodes[i].addrs[k := a]);
            && InoOk(ino) && BlocksOk(sb, bs, inodes[i := ino], owner[a := (i, k)])
            && OnlyNew(bs, bs, inodes, inodes[i := ino], i, k, a)
            && KeepsData(bs, inodes, bs, inodes[i := ino])
  {
    hide Marked;
    var was := inodes[i];
    var ino := was.(addrs := was.addrs[k := a]);
    forall m: nat | m < SLOTS
      ensures Addr(bs, ino, m) == if m == k then a else Addr(bs, was, m)
    {
      if m > NDIRECT {
        ZeroWord(m - NDIRECT - 1);
      }
    }
    hide Addr;
    OwnedAfterLink(sb, bs, bs, inodes, inodes[i := ino], owner, i, k, a);
    OwnedInStore(sb, bs, inodes, owner);
  }

  lemma OwnedInStore(sb: Super, bs: Store, inodes: map<nat, Ino>, owner: Owner)
    requires BlocksOk(sb, bs, inodes, owner)
    ensures forall j: nat, bn: nat :: j in inodes && bn < MAXFILE && Addr(bs, inodes[j], Slot(bn)) != 0 ==>
              Addr(bs, inodes[j], Slot(bn)) in bs && Addr(bs, inodes[j], Slot(bn)) in owner
              && owner[Addr(bs, inodes[j], Slot(bn))] == (j, Slot(bn))
  {
    hide Marked; hide Addr;
  }

  /** Entering a fresh block into an inode's indirect block. */
  lemma LinkEntry(sb: Super, bs: Store, inodes: map<nat, Ino>, owner: Owner, i: nat, e: nat, a: nat)
    requires BlocksOk(sb, bs, inodes, owner) && i in inodes && e < NINDIRECT
    requires Addr(bs, inodes[i], NDIRECT) != 0 && Addr(bs, inodes[i], NDIRECT + 1 + e) == 0
    requires Fresh(sb, bs, owner, a)
    ensures var ind := inodes[i].addrs[NDIRECT];
            && ind in bs && sb.datastart <= ind
            && var bs' := bs[ind := PutWord(bs[ind], e, a)];
            && BlocksOk(sb, bs', inodes, owner[a := (i, NDIRECT + 1 + e)])
            && OnlyNew(bs, bs', inodes, inodes, i, NDIRECT + 1 + e, a)
            && KeepsData(bs, inodes, bs', inodes) && SameMarks(sb, bs, bs')
  {
    hide Word; hide PutWord; hide BlockBit; hide Marked;
    var ind := inodes[i].addrs[NDIRECT];
    assert owner[ind] == (i, NDIRECT);
    var bs' := bs[ind := PutWord(bs[ind], e, a)];
    EntryAddrs(sb, bs, inodes, owner, i, e, a);
    hide Addr;
    MarksKept(sb, bs, ind, PutWord(bs[ind], e, a));
    OwnedAfterLink(sb, bs, bs', inodes, inodes, owner, i, NDIRECT + 1 + e, a);
    OwnedInStore(sb, bs, inodes, owner);
    forall j: nat, bn: nat | j in inodes && bn < MAXFILE && Addr(bs, inodes[j], Slot(bn)) != 0
      ensures SameBlock(bs, Addr(bs, inodes[j], Slot(bn)), bs', Addr(bs', inodes[j], Slot(bn)))
    {
    }
  }

  lemma EntryAddrs(sb: Super, bs: Store, inodes: map<nat, Ino>, owner: Owner, i: nat, e: nat, a: uint)
    requires BlocksOk(sb, bs, inodes, owner) && i in inodes && e < NINDIRECT && Addr(bs, inodes[i], NDIRECT) != 0
    ensures var ind := inodes[i].addrs[NDIRECT];
            && ind in bs
            && OnlyNew(bs, bs[ind := PutWord(bs[ind], e, a)], inodes, inodes, i, NDIRECT + 1 + e, a)
  {
    hide Word; hide PutWord; hide Marked;
    var ind := inodes[i].addrs[NDIRECT];
    assert owner[ind] == (i, NDIRECT);
    var bs' := bs[ind := PutWord(bs[ind], e, a)];
    forall j: nat, m: nat | j in inodes && m < SLOTS
      ensures Addr(bs', inodes[j], m) == if j == i && m == NDIRECT + 1 + e then a else Addr(bs, inodes[j], m)
    {
      assert j != i && Addr(bs, inodes[j], NDIRECT) != 0 ==> Addr(bs, inodes[j], NDIRECT) != ind;
      if m > NDIRECT {
        WordOfPut(bs[ind], e, a, m - NDIRECT - 1);
      }
    }
  }

  lemma SameOwned(sb: Super, bs: Store, bs': Store, inodes: map<nat, Ino>, owner: Owner)
    requires BlocksOk(sb, bs, inodes, owner) && sb.Spans(bs') && SameAddrs(bs, bs', inodes) && SameMarks(sb, bs, bs')
    ensures BlocksOk(sb, bs', inodes, owner)
  {
    hide Addr; hide Marked;
  }

  lemma DataOwned(sb: Super, bs: Store, inodes: map<nat, Ino>, owner: Owner, i: nat, bn: nat)
    requires BlocksOk(sb, bs, inodes, owner) && i in inodes && bn < MAXFILE && Addr(bs, inodes[i], Slot(bn)) != 0
    ensures var a := Addr(bs, inodes[i], Slot(bn)); a in bs && sb.datastart <= a < sb.size && a in owner && owner[a] == (i, Slot(bn))
  {
    hide Addr; hide Marked; hide MetaMarked;
  }

  /** No address is in a data block. */
  lemma DataAddrs(sb: Super, bs: Store, inodes: map<nat, Ino>, owner: Owner, i: nat, bn: nat, blk: Block)
    requires BlocksOk(sb, bs, inodes, owner) && i in inodes && bn < MAXFILE && Addr(bs, inodes[i], Slot(bn)) != 0
    ensures SameAddrs(bs, bs[Addr(bs, inodes[i], Slot(bn)) := blk], inodes)
  {
    hide Word; hide Marked;
    var a := Addr(bs, inodes[i], Slot(bn));
    var bs' := bs[a := blk];
    assert owner[a] == (i, Slot(bn));
    forall j: nat, k: nat | j in inodes && k < SLOTS
      ensures Addr(bs', inodes[j], k) == Addr(bs, inodes[j], k)
    {
      assert Addr(bs, inodes[j], NDIRECT) != 0 ==> owner[Addr(bs, inodes[j], NDIRECT)] == (j, NDIRECT);
    }
  }

  /** Overwriting the block at one mapped place of one file changes no address, and no
      other block of any file. */
  lemma StoreData(sb: Super, bs: Store, inodes: map<nat, Ino>, owner: Owner, i: nat, bn: nat, blk: Block)
    requires BlocksOk(sb, bs, inodes, owner) && i in inodes && bn < MAXFILE && Addr(bs, inodes[i], Slot(bn)) != 0
    ensures var a := Addr(bs, inodes[i], Slot(bn));
            var bs' := bs[a := blk];
            && a in bs && sb.datastart <= a && BlocksOk(sb, bs', inodes, owner) && SameAddrs(bs, bs', inodes)
            && SameMarks(sb, bs, bs')
            && (forall j: nat, m: nat :: j in inodes && m < MAXFILE && (j, m) != (i, bn) && Addr(bs, inodes[j], Slot(m)) != 0 ==>
                  SameBlock(bs, Addr(bs, inodes[j], Slot(m)), bs', Addr(bs', inodes[j], Slot(m))))
  {
    hide Addr; hide Owned; hide MetaMarked; hide SameMarks; hide InodesOk;
    var a := Addr(bs, inodes[i], Slot(bn));
    var bs' := bs[a := blk];
    DataOwned(sb, bs, inodes, owner, i, bn);
    DataAddrs(sb, bs, inodes, owner, i, bn, blk);
    MarksKept(sb, bs, a, blk);
    SameOwned(sb, bs, bs', inodes, owner);
    forall j: nat, m: nat | j in inodes && m < MAXFILE && (j, m) != (i, bn) && Addr(bs, inodes[j], Slot(m)) != 0
      ensures SameBlock(bs, Addr(bs, inodes[j], Slot(m)), bs', Addr(bs', inodes[j], Slot(m)))
    {
      DataOwned(sb, bs, inodes, owner, j, m);
    }
  }

  /** Writing an inode block disturbs no file and no mark. */
  lemma StoreInode(sb: Super, bs: Store, inodes: map<nat, Ino>, owner: Owner, i: nat, blk: Block)
    requires BlocksOk(sb, bs, inodes, owner) && i < sb.ninodes
    ensures var bs' := bs[sb.IBlock(i) := blk];
            && sb.IBlock(i) in bs && BlocksOk(sb, bs', inodes, owner)
            && KeepsData(bs, inodes, bs', inodes) && SameAddrs(bs, bs', inodes) && SameMarks(sb, bs, bs')
  {
    hide BlockBit; hide Marked; hide KeepsData;
    var bs' := bs[sb.IBlock(i) := blk];
    assert sb.IBlock(i) <= sb.IBlock(sb.ninodes) < sb.bmapstart <= sb.BBlock(sb.size) < sb.datastart;
    MarksKept(sb, bs, sb.IBlock(i), blk);
    UnownedChange(sb, bs, bs', inodes, owner);
  }

  // ---------- Truncation ----------

  function Emptied(ino: Ino): Ino {
    ino.(size := 0, addrs := seq(NDIRECT + 1, _ => 0))
  }

  function OthersOnly(owner: Owner, i: nat): Owner {
    map a | a in owner && owner[a].0 != i :: owner[a]
  }

  /** The bitmap after exactly the blocks of inode i have been freed. */
  ghost predicate FreedOnly(sb: Super, bs: Store, bs': Store, owner: Owner, i: nat) {
    forall c: nat :: c < sb.size ==> (Marked(sb, bs', c) <==> Marked(sb, bs, c) && !(c in owner && owner[c].0 == i))
  }

  /** Only bitmap blocks differ. */
  ghost predicate OnlyBitmap(sb: Super, bs: Store, bs': Store) {
    forall b: nat :: b < sb.size && !(sb.bmapstart <= b <= sb.BBlock(sb.size)) ==>
        b in bs && b in bs' && bs'[b] == bs[b]
  }

  lemma TruncatedOwned(sb: Super, bs: Store, bs': Store, inodes: map<nat, Ino>, owner: Owner, i: nat)
    requires BlocksOk(sb, bs, inodes, owner) && i in inodes && FreedOnly(sb, bs, bs', owner, i)
    requires SameAddrs(bs, bs', inodes)
    ensures var o := OthersOnly(owner, i);
            && Owned(sb, bs', inodes[i := Emptied(inodes[i])], o) && SameLeaks(sb, bs, owner, bs', o)
            && MetaMarked(sb, bs')
  {
    hide Marked;
    var inodes' := inodes[i := Emptied(inodes[i])];
    assert forall k: nat :: k < SLOTS ==> Addr(bs', inodes'[i], k) == 0;
    hide Addr;
  }

  /** Unmarking exactly the blocks of one inode, in any order, and clearing the inode leaves
      every other file as it was. */
  lemma TruncateOk(sb: Super, bs: Store, bs': Store, inodes: map<nat, Ino>, owner: Owner, i: nat)
    requires BlocksOk(sb, bs, inodes, owner) && i in inodes && sb.Spans(bs') && OnlyBitmap(sb, bs, bs')
    requires FreedOnly(sb, bs, bs', owner, i)
    ensures var inodes' := inodes[i := Emptied(inodes[i])];
            && BlocksOk(sb, bs', inodes', OthersOnly(owner, i)) && SameLeaks(sb, bs, owner, bs', OthersOnly(owner, i))
            && Mapped(bs', inodes'[i]) && Content(bs', inodes'[i]) == []
            && (forall j :: j in inodes && j != i && Mapped(bs, inodes[j]) ==>
                  Mapped(bs', inodes[j]) && Content(bs', inodes[j]) == Content(bs, inodes[j]))
  {
    hide BlockBit; hide Word; hide Content; hide Marked;
    var inodes' := inodes[i := Emptied(inodes[i])];
    UnownedChange(sb, bs, bs', inodes, owner);
    TruncatedOwned(sb, bs, bs', inodes, owner, i);
    hide Addr; hide Owned; hide SameAddrs;
    forall j | j in inodes && j != i && Mapped(bs, inodes[j])
      ensures Mapped(bs', inodes[j]) && Content(bs', inodes[j]) == Content(bs, inodes[j])
    {
      KeepsContent(bs, inodes, bs', inodes, j);
    }
    assert Content(bs', inodes'[i]) == [];
  }
}
