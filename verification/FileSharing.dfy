/** File operations of several threads at once (kernel/fs.c): writei and itrunc on different
    inodes, each holding its inode's lock, interleaved between any two log_write calls.  The
    blocks a thread has from balloc and has not entered into its inode yet, or has taken out of
    its inode and not freed yet, are its own. */
module FileSharing {
  import opened Blocks
  import opened FileBlocks
  import FS = FileSystem
  import LogCode
  import opened RedoLog

  // ---------- What operations do ----------

  /** Blocks, inodes and block owners of a file system. */
  datatype Files = Files(blocks: Store, inodes: map<nat, Ino>, owner: Owner)

  ghost predicate FilesOk(sb: Super, f: Files) {
    && BlocksOk(sb, f.blocks, f.inodes, f.owner) && FS.NumbersOk(sb, f.inodes)
    && AllMapped(f.blocks, f.inodes) && FS.Synced(sb, f.blocks, f.inodes, f.inodes.Keys)
  }

  /** What a file is to its users: the type and link words of its inode, and its bytes. */
  datatype File = File(kind: uint, links: uint, data: seq<byte>)

  type FileData = map<nat, File>

  function FileOf(bs: Store, ino: Ino): File {
    File(ino.kind, ino.links, Content(bs, ino))
  }

  ghost function Contents(f: Files): FileData {
    map i | i in f.inodes :: FileOf(f.blocks, f.inodes[i])
  }

  datatype Op = WriteAt(i: nat, off: nat, data: seq<byte>) | Empty(i: nat)

  /** An operation changes the bytes of one file. */
  ghost function Perform(c: FileData, op: Op): FileData {
    if op.i !in c then c
    else
      match op
      case WriteAt(i, off, data) =>
        if off <= |c[i].data| then c[i := c[i].(data := FS.Splice(c[i].data, off, data))] else c
      case Empty(i) => c[i := c[i].(data := [])]
  }

  ghost function PerformAll(c: FileData, ops: seq<Op>): FileData {
    if ops == [] then c else Perform(PerformAll(c, ops[..|ops| - 1]), ops[|ops| - 1])
  }

  /** No operation changes the type or the links of an inode, or removes a file. */
  lemma {:induction false} PerformKinds(c: FileData, ops: seq<Op>)
    ensures PerformAll(c, ops).Keys == c.Keys
    ensures forall i :: i in c ==> PerformAll(c, ops)[i].kind == c[i].kind && PerformAll(c, ops)[i].links == c[i].links
  {
    hide FS.Splice;
    if ops != [] {
      PerformKinds(c, ops[..|ops| - 1]);
    }
  }

  // ---------- The machine ----------

  /** What a thread is in the middle of: writei, with `tot` bytes stored and perhaps a block from
      balloc; or itrunc, with blocks still to free. */
  datatype Task =
    | Idle
    | Writing(i: nat, off: nat, src: seq<byte>, tot: nat, got: Got)
    | Emptying(i: nat, ino: Ino, left: set<nat>)

  /** A block that balloc has marked, before and after bzero. */
  datatype Got = Nothing | Marking(b: nat) | Zeroed(b: nat)

  /** `lock` says which thread holds an inode's lock.  An inode that is being emptied is not among
      `inodes`.  History: `bytes` are the files after the operations that are over, which are
      `done`; `logged` is what has been passed to log_write. */
  datatype Shared = Shared(
    blocks: Store, inodes: map<nat, Ino>, owner: Owner, lock: map<nat, nat>, tasks: seq<Task>,
    bytes: FileData, done: seq<Op>, logged: seq<Write>)

  datatype Step =
    | StartWrite(t: nat, i: nat, off: nat, src: seq<byte>)
    | Alloc(t: nat, b: nat) | Zero(t: nat) | Link(t: nat) | Store(t: nat) | EndWrite(t: nat)
    | StartEmpty(t: nat, i: nat) | Free(t: nat, b: nat) | EndEmpty(t: nat)

  function Read(bs: Store, b: nat): Block {
    if b in bs then bs[b] else ZeroBlock()
  }

  function InoOf(s: Shared, i: nat): Ino {
    if i in s.inodes then s.inodes[i] else FS.NOINO
  }

  function IndirectOf(ino: Ino): nat {
    if |ino.addrs| == NDIRECT + 1 then ino.addrs[NDIRECT] else 0
  }

  /** The address entry that bmap fills next for block bn. */
  function Entry(ino: Ino, bn: nat): nat {
    if bn < NDIRECT then bn else if IndirectOf(ino) == 0 then NDIRECT else bn + 1
  }

  function WithAddr(ino: Ino, k: nat, b: nat): Ino {
    if k < |ino.addrs| && b <= UINT_MAX then ino.(addrs := ino.addrs[k := b]) else ino
  }

  function WithEntry(blk: Block, e: nat, b: nat): Block {
    if e < NINDIRECT && b <= UINT_MAX then PutWord(blk, e, b) else blk
  }

  function WithSize(ino: Ino, end: nat): Ino {
    if ino.size < end <= UINT_MAX then ino.(size := end) else ino
  }

  function WithInode(blk: Block, i: nat, ino: Ino): Block {
    if |ino.addrs| == NDIRECT + 1 then FS.PutIno(blk, i % IPB, ino) else blk
  }

  /** Where the next byte of a write goes. */
  function Pos(task: Task): nat
    requires task.Writing?
  {
    task.off + task.tot
  }

  /** The stretch that the next pass of writei's loop stores. */
  function Chunk(task: Task): (c: seq<byte>)
    requires task.Writing?
    ensures Pos(task) % BSIZE + |c| <= BSIZE
  {
    var room := BSIZE - Pos(task) % BSIZE;
    if task.tot >= |task.src| then []
    else if |task.src| - task.tot < room then task.src[task.tot..]
    else task.src[task.tot..task.tot + room]
  }

  /** The block that the next pass stores to; 0 if it is not mapped yet. */
  function Place(s: Shared, task: Task): nat
    requires task.Writing?
  {
    Addr(s.blocks, InoOf(s, task.i), Slot(Pos(task) / BSIZE))
  }

  /** The entry for a new block. */
  function Where(s: Shared, task: Task): nat
    requires task.Writing?
  {
    Entry(InoOf(s, task.i), Pos(task) / BSIZE)
  }

  /** A write may end early: balloc, which does not look at the whole bitmap at once, may find
      nothing. */
  ghost predicate Enabled(sb: Super, s: Shared, a: Step) {
    a.t < |s.tasks| &&
    var task := s.tasks[a.t];
    match a
    case StartWrite(_, i, off, src) =>
      task.Idle? && i in s.inodes && i !in s.lock && !FS.Refuses(s.inodes[i].size, off, |src|)
    case Alloc(_, b) =>
      && task.Writing? && task.got.Nothing? && task.tot < |task.src|
      && Addr(s.blocks, InoOf(s, task.i), Where(s, task)) == 0 && b < sb.size && !Marked(sb, s.blocks, b)
    case Zero(_) => task.Writing? && task.got.Marking?
    case Link(_) => task.Writing? && task.got.Zeroed?
    case Store(_) => task.Writing? && task.got.Nothing? && task.tot < |task.src| && Place(s, task) != 0
    case EndWrite(_) => task.Writing? && task.got.Nothing?
    case StartEmpty(_, i) => task.Idle? && i in s.inodes && i !in s.lock
    case Free(_, b) => task.Emptying? && b in task.left
    case EndEmpty(_) => task.Emptying? && task.left == {}
  }

  /** What the step passes to log_write. */
  ghost function Logs(sb: Super, s: Shared, a: Step): seq<Write>
    requires Enabled(sb, s, a)
  {
    var task := s.tasks[a.t];
    match a
    case Alloc(_, b) => [Write(sb.BBlock(b), SetBlockBit(Read(s.blocks, sb.BBlock(b)), b % BPB))]
    case Zero(_) => [Write(task.got.b, ZeroBlock())]
    case Link(_) =>
      var ind, k := IndirectOf(InoOf(s, task.i)), Where(s, task);
      if k <= NDIRECT then [] else [Write(ind, WithEntry(Read(s.blocks, ind), k - NDIRECT - 1, task.got.b))]
    case Store(_) =>
      [Write(Place(s, task), FS.Overlay(Read(s.blocks, Place(s, task)), Pos(task) % BSIZE, Chunk(task)))]
    case EndWrite(_) => [InodeWrite(sb, s, task.i, WithSize(InoOf(s, task.i), Pos(task)))]
    case Free(_, b) => [Write(sb.BBlock(b), ClearBlockBit(Read(s.blocks, sb.BBlock(b)), b % BPB))]
    case EndEmpty(_) => [InodeWrite(sb, s, task.i, Emptied(task.ino))]
    case _ => []
  }

  /** iupdate. */
  function InodeWrite(sb: Super, s: Shared, i: nat, ino: Ino): Write {
    Write(sb.IBlock(i), WithInode(Read(s.blocks, sb.IBlock(i)), i, ino))
  }

  /** The operation that the step completes. */
  ghost function Completes(sb: Super, s: Shared, a: Step): seq<Op>
    requires Enabled(sb, s, a)
  {
    var task := s.tasks[a.t];
    match a
    case EndWrite(_) => [WriteAt(task.i, task.off, if task.tot <= |task.src| then task.src[..task.tot] else task.src)]
    case EndEmpty(_) => [Empty(task.i)]
    case _ => []
  }

  ghost function NextTask(s: Shared, a: Step, task: Task): Task
    requires a.t < |s.tasks| && (a.Alloc? || a.Zero? || a.Link? || a.Store? ==> task.Writing?)
    requires (a.Zero? ==> task.got.Marking?) && (a.Free? ==> task.Emptying?) && (a.StartEmpty? ==> a.i in s.inodes)
  {
    match a
    case StartWrite(_, i, off, src) => Writing(i, off, src, 0, Nothing)
    case Alloc(_, b) => task.(got := Marking(b))
    case Zero(_) => task.(got := Zeroed(task.got.b))
    case Link(_) => task.(got := Nothing)
    case Store(_) => task.(tot := task.tot + |Chunk(task)|)
    case EndWrite(_) => Idle
    case StartEmpty(_, i) => Emptying(i, s.inodes[i], set b | b in s.owner && s.owner[b].0 == i)
    case Free(_, b) => task.(left := task.left - {b})
    case EndEmpty(_) => Idle
  }

  ghost function Do(sb: Super, s: Shared, a: Step): Shared
    requires Enabled(sb, s, a)
  {
    var task := s.tasks[a.t];
    var r := s.(blocks := Apply(s.blocks, Logs(sb, s, a)), tasks := s.tasks[a.t := NextTask(s, a, task)],
                bytes := PerformAll(s.bytes, Completes(sb, s, a)), done := s.done + Completes(sb, s, a),
                logged := s.logged + Logs(sb, s, a));
    match a
    case StartWrite(_, i, _, _) => r.(lock := s.lock[i := a.t])
    case Link(_) =>
      var k := Where(s, task);
      r.(owner := s.owner[task.got.b := (task.i, k)],
         inodes := if k <= NDIRECT then s.inodes[task.i := WithAddr(InoOf(s, task.i), k, task.got.b)] else s.inodes)
    case EndWrite(_) =>
      r.(lock := s.lock - {task.i}, inodes := s.inodes[task.i := WithSize(InoOf(s, task.i), Pos(task))])
    case StartEmpty(_, i) =>
      r.(lock := s.lock[i := a.t], inodes := s.inodes - {i}, owner := OthersOnly(s.owner, i))
    case EndEmpty(_) => r.(lock := s.lock - {task.i}, inodes := s.inodes[task.i := Emptied(task.ino)])
    case _ => r
  }

  // ---------- Invariant ----------

  function Loose(task: Task): set<nat> {
    match task
    case Writing(_, _, _, _, got) => (if got.Nothing? then {} else {got.b})
    case Emptying(_, _, left) => left
    case Idle => {}
  }

  /** A block that is out of the free map and in no inode. */
  ghost predicate LooseOk(sb: Super, bs: Store, owner: Owner, b: nat) {
    sb.datastart <= b < sb.size && b !in owner && Marked(sb, bs, b)
  }

  ghost predicate TaskOk(sb: Super, bs: Store, inodes: map<nat, Ino>, bytes: FileData, task: Task) {
    match task
    case Idle => true
    case Writing(i, off, src, tot, got) =>
      && i in inodes && i in bytes && |bytes[i].data| == inodes[i].size && tot <= |src|
      && bytes[i].kind == inodes[i].kind && bytes[i].links == inodes[i].links
      && !FS.Refuses(inodes[i].size, off, |src|)
      && FS.Holding(bs, inodes[i], FS.Splice(bytes[i].data, off, src[..tot]))
      && (!got.Nothing? ==> tot < |src| && Addr(bs, inodes[i], Entry(inodes[i], (off + tot) / BSIZE)) == 0)
      && (got.Zeroed? ==> got.b in bs && bs[got.b] == ZeroBlock())
    case Emptying(i, ino, _) =>
      && i !in inodes && i in bytes && i < sb.ninodes && InoOk(ino)
      && bytes[i].kind == ino.kind && bytes[i].links == ino.links
  }

  /** A file that nobody has locked: its blocks hold its bytes, and the disk has its inode. */
  ghost predicate FileOk(sb: Super, bs: Store, i: nat, ino: Ino, bytes: FileData) {
    && i in bytes && FileOf(bs, ino) == bytes[i]
    && sb.IBlock(i) in bs && FS.InoAt(bs[sb.IBlock(i)], i % IPB) == ino
  }

  ghost predicate LocksOk(s: Shared) {
    && (forall t: nat :: t < |s.tasks| && !s.tasks[t].Idle? ==> s.tasks[t].i in s.lock && s.lock[s.tasks[t].i] == t)
    && (forall i :: i in s.lock ==> s.lock[i] < |s.tasks| && !s.tasks[s.lock[i]].Idle? && s.tasks[s.lock[i]].i == i)
    && (forall i: nat :: i in s.bytes <==> i in s.inodes || (i in s.lock && s.tasks[s.lock[i]].Emptying?))
  }

  ghost predicate LooseBlocks(sb: Super, s: Shared) {
    && (forall t: nat, b: nat :: t < |s.tasks| && b in Loose(s.tasks[t]) ==> LooseOk(sb, s.blocks, s.owner, b))
    && (forall t: nat, u: nat, b: nat :: t < u < |s.tasks| && b in Loose(s.tasks[t]) ==> b !in Loose(s.tasks[u]))
  }

  ghost predicate Inv(sb: Super, s: Shared) {
    && BlocksOk(sb, s.blocks, s.inodes, s.owner) && FS.NumbersOk(sb, s.inodes) && AllMapped(s.blocks, s.inodes)
    && LocksOk(s) && LooseBlocks(sb, s)
    && (forall t: nat :: t < |s.tasks| ==> TaskOk(sb, s.blocks, s.inodes, s.bytes, s.tasks[t]))
    && (forall i :: i in s.inodes && i !in s.lock ==> FileOk(sb, s.blocks, i, s.inodes[i], s.bytes))
  }

  // ---------- What a step leaves alone ----------

  /** A file whose addresses, data and disk inode are as they were. */
  ghost predicate FileKept(sb: Super, bs: Store, bs': Store, i: nat, ino: Ino) {
    && (forall k: nat :: k < SLOTS ==> Addr(bs', ino, k) == Addr(bs, ino, k))
    && (forall bn: nat :: bn < MAXFILE && Addr(bs, ino, Slot(bn)) != 0 ==>
          SameBlock(bs, Addr(bs, ino, Slot(bn)), bs', Addr(bs', ino, Slot(bn))))
    && (sb.IBlock(i) in bs ==>
          sb.IBlock(i) in bs' && FS.InoAt(bs'[sb.IBlock(i)], i % IPB) == FS.InoAt(bs[sb.IBlock(i)], i % IPB))
  }

  lemma KeptContent(sb: Super, bs: Store, bs': Store, i: nat, ino: Ino)
    requires FileKept(sb, bs, bs', i, ino) && InoOk(ino) && Mapped(bs, ino)
    ensures Mapped(bs', ino) && Content(bs', ino) == Content(bs, ino)
  {
    hide Addr; hide FS.InoAt; hide Content; hide Mapped;
    KeepsContent(bs, map[i := ino], bs', map[i := ino], i);
  }

  lemma KeptHolding(sb: Super, bs: Store, bs': Store, i: nat, ino: Ino, t: seq<byte>)
    requires FileKept(sb, bs, bs', i, ino) && FS.Holding(bs, ino, t)
    ensures FS.Holding(bs', ino, t)
  {
    hide Addr; hide FS.InoAt;
    forall p: nat | p < |t|
      ensures Addr(bs', ino, Slot(p / BSIZE)) != 0 && Addr(bs', ino, Slot(p / BSIZE)) in bs'
              && ByteAt(bs', ino, p) == t[p]
    {
      assert SameBlock(bs, Addr(bs, ino, Slot(p / BSIZE)), bs', Addr(bs', ino, Slot(p / BSIZE)));
    }
  }

  lemma EntryBound(ino: Ino, off: nat, tot: nat, n: nat)
    requires tot < n && off + n <= MAXFILE * BSIZE
    ensures (off + tot) / BSIZE < MAXFILE && Entry(ino, (off + tot) / BSIZE) < SLOTS
  {
  }

  /** The task of a thread whose file and blocks the step leaves alone. */
  lemma KeptTask(sb: Super, bs: Store, bs': Store, inodes: map<nat, Ino>, inodes': map<nat, Ino>, bytes: FileData,
      bytes': FileData, task: Task)
    requires TaskOk(sb, bs, inodes, bytes, task)
    requires !task.Idle? ==> (task.i in inodes' <==> task.i in inodes) && task.i in bytes' && bytes'[task.i] == bytes[task.i]
    requires task.Writing? ==> inodes'[task.i] == inodes[task.i] && FileKept(sb, bs, bs', task.i, inodes[task.i])
    requires task.Writing? && task.got.Zeroed? ==> task.got.b in bs' && bs'[task.got.b] == bs[task.got.b]
    ensures TaskOk(sb, bs', inodes', bytes', task)
  {
    hide Addr; hide FS.Holding; hide FS.Splice; hide FS.InoAt;
    if task.Writing? {
      KeptHolding(sb, bs, bs', task.i, inodes[task.i], FS.Splice(bytes[task.i].data, task.off, task.src[..task.tot]));
      if !task.got.Nothing? {
        EntryBound(inodes[task.i], task.off, task.tot, |task.src|);
      }
    }
  }

  ghost predicate SameFile(s: Shared, s': Shared, j: nat) {
    && (j in s'.inodes <==> j in s.inodes) && (j in s.inodes ==> s'.inodes[j] == s.inodes[j])
    && (j in s'.lock <==> j in s.lock) && (j in s.lock ==> s'.lock[j] == s.lock[j])
    && (j in s'.bytes <==> j in s.bytes) && (j in s.bytes ==> s'.bytes[j] == s.bytes[j])
  }

  ghost predicate LooseKept(sb: Super, s: Shared, s': Shared, b: nat) {
    && LooseOk(sb, s'.blocks, s'.owner, b) && b in s.blocks && b in s'.blocks && s'.blocks[b] == s.blocks[b]
  }

  /** What a step of thread t, which works on file i, leaves to the others. */
  ghost predicate Frame(sb: Super, s: Shared, s': Shared, t: nat, i: nat) {
    && t < |s.tasks| == |s'.tasks| && (forall u: nat :: u < |s.tasks| && u != t ==> s'.tasks[u] == s.tasks[u])
    && (forall j: nat :: j != i ==> SameFile(s, s', j))
    && (forall j: nat :: j != i && j in s.inodes ==> FileKept(sb, s.blocks, s'.blocks, j, s.inodes[j]))
    && (forall b: nat :: LooseOk(sb, s.blocks, s.owner, b) && b !in Loose(s.tasks[t]) ==> LooseKept(sb, s, s', b))
  }

  /** What it does to its own file and blocks. */
  ghost predicate Own(sb: Super, s: Shared, s': Shared, t: nat, i: nat) {
    && t < |s.tasks| == |s'.tasks| && (if s.tasks[t].Idle? then i !in s.lock else s.tasks[t].i == i)
    && (if s'.tasks[t].Idle? then i !in s'.lock else s'.tasks[t].i == i && i in s'.lock && s'.lock[i] == t)
    && TaskOk(sb, s'.blocks, s'.inodes, s'.bytes, s'.tasks[t])
    && (forall b: nat :: b in Loose(s'.tasks[t]) ==>
          LooseOk(sb, s'.blocks, s'.owner, b) && (b in Loose(s.tasks[t]) || !LooseOk(sb, s.blocks, s.owner, b)))
    && i in s'.bytes && (i in s'.inodes <==> !s'.tasks[t].Emptying?)
    && (i in s'.inodes ==> i < sb.ninodes && Mapped(s'.blocks, s'.inodes[i]))
    && (s'.tasks[t].Idle? ==> i in s'.inodes && FileOk(sb, s'.blocks, i, s'.inodes[i], s'.bytes))
  }

  lemma OtherFiles(sb: Super, s: Shared, s': Shared, t: nat, i: nat, j: nat)
    requires Inv(sb, s) && Frame(sb, s, s', t, i) && j != i && j in s'.inodes
    ensures j < sb.ninodes && Mapped(s'.blocks, s'.inodes[j])
    ensures j !in s'.lock ==> FileOk(sb, s'.blocks, j, s'.inodes[j], s'.bytes)
  {
    hide FS.InoAt; hide Content; hide Mapped; hide LocksOk; hide LooseBlocks; hide TaskOk; hide Owned; hide Marked; hide Addr;
    assert SameFile(s, s', j);
    assert InoOk(s.inodes[j]) && FileKept(sb, s.blocks, s'.blocks, j, s.inodes[j]);
    KeptContent(sb, s.blocks, s'.blocks, j, s.inodes[j]);
  }

  lemma OtherTasks(sb: Super, s: Shared, s': Shared, t: nat, i: nat, u: nat)
    requires Inv(sb, s) && Frame(sb, s, s', t, i) && (s.tasks[t].Idle? ==> i !in s.lock)
    requires !s.tasks[t].Idle? ==> s.tasks[t].i == i
    requires u < |s.tasks| && u != t
    ensures s'.tasks[u] == s.tasks[u] && TaskOk(sb, s'.blocks, s'.inodes, s'.bytes, s'.tasks[u])
    ensures !s.tasks[u].Idle? ==> s.tasks[u].i != i
    ensures forall b :: b in Loose(s.tasks[u]) ==> LooseOk(sb, s'.blocks, s'.owner, b) && b !in Loose(s.tasks[t])
  {
    hide FS.InoAt; hide Content; hide Mapped; hide Owned; hide Marked; hide Addr; hide BlocksOk; hide FileOk;
    hide FS.Holding; hide FS.Splice; hide FileKept;
    var task := s.tasks[u];
    assert TaskOk(sb, s.blocks, s.inodes, s.bytes, task);
    if !task.Idle? {
      assert task.i in s.lock && s.lock[task.i] == u;
      assert task.i != i;
      assert SameFile(s, s', task.i);
      forall b | b in Loose(task)
        ensures LooseOk(sb, s.blocks, s.owner, b) && b !in Loose(s.tasks[t])
      {
      }
      assert forall b :: b in Loose(task) ==> LooseKept(sb, s, s', b);
      if task.Writing? && task.got.Zeroed? {
        assert task.got.b in Loose(task);
      }
    }
    KeptTask(sb, s.blocks, s'.blocks, s.inodes, s'.inodes, s.bytes, s'.bytes, task);
  }

  lemma Assemble(sb: Super, s: Shared, s': Shared, t: nat, i: nat)
    requires Inv(sb, s) && Frame(sb, s, s', t, i) && Own(sb, s, s', t, i) && BlocksOk(sb, s'.blocks, s'.inodes, s'.owner)
    ensures Inv(sb, s')
  {
    hide BlocksOk; hide TaskOk; hide FileOk; hide Mapped; hide LooseOk; hide FileKept;
    forall u: nat | u < |s.tasks| && u != t
      ensures s'.tasks[u] == s.tasks[u] && TaskOk(sb, s'.blocks, s'.inodes, s'.bytes, s'.tasks[u])
      ensures !s.tasks[u].Idle? ==> s.tasks[u].i != i
      ensures forall b :: b in Loose(s.tasks[u]) ==> LooseOk(sb, s'.blocks, s'.owner, b) && b !in Loose(s.tasks[t])
    {
      OtherTasks(sb, s, s', t, i, u);
    }
    forall j | j in s'.inodes
      ensures j < sb.ninodes && Mapped(s'.blocks, s'.inodes[j])
      ensures j !in s'.lock ==> FileOk(sb, s'.blocks, j, s'.inodes[j], s'.bytes)
    {
      if j != i {
        OtherFiles(sb, s, s', t, i, j);
      }
    }
    AssembleLocks(sb, s, s', t, i);
    AssembleLoose(sb, s, s', t, i);
  }

  lemma AssembleLocks(sb: Super, s: Shared, s': Shared, t: nat, i: nat)
    requires LocksOk(s) && Frame(sb, s, s', t, i) && Own(sb, s, s', t, i)
    requires forall u: nat :: u < |s.tasks| && u != t && !s.tasks[u].Idle? ==> s.tasks[u].i != i
    ensures LocksOk(s')
  {
    hide TaskOk; hide FileOk; hide LooseOk; hide FileKept; hide Mapped; hide LooseKept;
    forall j | j in s'.lock
      ensures s'.lock[j] < |s'.tasks| && !s'.tasks[s'.lock[j]].Idle? && s'.tasks[s'.lock[j]].i == j
    {
      if j != i {
        assert SameFile(s, s', j);
      }
    }
    forall u: nat | u < |s'.tasks| && !s'.tasks[u].Idle?
      ensures s'.tasks[u].i in s'.lock && s'.lock[s'.tasks[u].i] == u
    {
      if u != t {
        assert SameFile(s, s', s.tasks[u].i);
      }
    }
    forall j: nat
      ensures j in s'.bytes <==> j in s'.inodes || (j in s'.lock && s'.tasks[s'.lock[j]].Emptying?)
    {
      if j != i {
        assert SameFile(s, s', j);
      }
    }
  }

  lemma AssembleLoose(sb: Super, s: Shared, s': Shared, t: nat, i: nat)
    requires LooseBlocks(sb, s) && Frame(sb, s, s', t, i) && Own(sb, s, s', t, i)
    requires forall u: nat, b :: u < |s.tasks| && u != t && b in Loose(s.tasks[u]) ==>
               LooseOk(sb, s'.blocks, s'.owner, b) && b !in Loose(s.tasks[t])
    ensures LooseBlocks(sb, s')
  {
    hide TaskOk; hide FileOk; hide LooseOk; hide FileKept; hide Mapped; hide LooseKept; hide Loose; hide SameFile;
    forall u: nat, v: nat, b: nat | u < v < |s'.tasks| && b in Loose(s'.tasks[u])
      ensures b !in Loose(s'.tasks[v])
    {
      assert u != t ==> LooseOk(sb, s.blocks, s.owner, b);
      assert v != t && b in Loose(s'.tasks[v]) ==> LooseOk(sb, s.blocks, s.owner, b);
    }
  }

  // ---------- Changes aside from all files ----------

  lemma OneWrite(bs: Store, w: Write)
    ensures Apply(bs, [w]) == bs[w.bn := w.data]
  {
    assert [w][..0] == [];
  }

  lemma OneOp(c: FileData, op: Op)
    ensures PerformAll(c, [op]) == Perform(c, op)
  {
    assert [op][..0] == [];
  }

  lemma NoOps(c: FileData)
    ensures PerformAll(c, []) == c
  {
  }

  /** A change of bitmap blocks and blocks that no inode owns keeps every file. */
  lemma AsideChange(sb: Super, bs: Store, bs': Store, inodes: map<nat, Ino>, owner: Owner)
    requires BlocksOk(sb, bs, inodes, owner) && FS.NumbersOk(sb, inodes) && sb.Spans(bs')
    requires forall a :: a in owner ==> bs'[a] == bs[a]
    requires forall x: nat :: x < sb.bmapstart ==> bs'[x] == bs[x]
    requires forall c: nat :: c < sb.size && (c in owner || c < sb.datastart) ==> Marked(sb, bs', c)
    ensures BlocksOk(sb, bs', inodes, owner) && forall j :: j in inodes ==> FileKept(sb, bs, bs', j, inodes[j])
  {
    hide Marked; hide Addr; hide FS.InoAt;
    UnownedChange(sb, bs, bs', inodes, owner);
    forall j | j in inodes
      ensures sb.IBlock(j) < sb.bmapstart
    {
      assert sb.IBlock(j) <= sb.IBlock(sb.ninodes);
    }
  }

  lemma BitmapArea(sb: Super, b: nat)
    requires sb.Ok() && b < sb.size
    ensures sb.bmapstart <= sb.BBlock(b) < sb.datastart
  {
  }

  lemma MarkOk(sb: Super, bs: Store, inodes: map<nat, Ino>, owner: Owner, b: nat)
    requires BlocksOk(sb, bs, inodes, owner) && FS.NumbersOk(sb, inodes) && b < sb.size && !Marked(sb, bs, b)
    ensures var bs' := bs[sb.BBlock(b) := SetBlockBit(Read(bs, sb.BBlock(b)), b % BPB)];
            && BlocksOk(sb, bs', inodes, owner) && (forall j :: j in inodes ==> FileKept(sb, bs, bs', j, inodes[j]))
            && LooseOk(sb, bs', owner, b)
            && (forall c: nat :: LooseOk(sb, bs, owner, c) ==> LooseOk(sb, bs', owner, c) && c in bs && bs'[c] == bs[c])
  {
    hide FileKept; hide BlockBit; hide SetBlockBit;
    BitmapArea(sb, b);
    var bs' := Mark(sb, bs, b);
    forall c: nat
      ensures Marked(sb, bs', c) <==> c == b || Marked(sb, bs, c)
    {
      MarkedAfter(sb, bs, b, c);
    }
    hide Marked;
    AsideChange(sb, bs, bs', inodes, owner);
  }

  lemma UnmarkOk(sb: Super, bs: Store, inodes: map<nat, Ino>, owner: Owner, b: nat)
    requires BlocksOk(sb, bs, inodes, owner) && FS.NumbersOk(sb, inodes) && LooseOk(sb, bs, owner, b)
    ensures var bs' := bs[sb.BBlock(b) := ClearBlockBit(Read(bs, sb.BBlock(b)), b % BPB)];
            && BlocksOk(sb, bs', inodes, owner) && (forall j :: j in inodes ==> FileKept(sb, bs, bs', j, inodes[j]))
            && (forall c: nat :: LooseOk(sb, bs, owner, c) && c != b ==>
                  LooseOk(sb, bs', owner, c) && c in bs && bs'[c] == bs[c])
  {
    hide FileKept; hide BlockBit; hide ClearBlockBit;
    BitmapArea(sb, b);
    var bs' := Unmark(sb, bs, b);
    forall c: nat
      ensures Marked(sb, bs', c) <==> c != b && Marked(sb, bs, c)
    {
      MarkedAfter(sb, bs, b, c);
    }
    hide Marked;
    AsideChange(sb, bs, bs', inodes, owner);
  }

  lemma ZeroOk(sb: Super, bs: Store, inodes: map<nat, Ino>, owner: Owner, b: nat)
    requires BlocksOk(sb, bs, inodes, owner) && FS.NumbersOk(sb, inodes) && LooseOk(sb, bs, owner, b)
    ensures var bs' := bs[b := ZeroBlock()];
            && BlocksOk(sb, bs', inodes, owner) && (forall j :: j in inodes ==> FileKept(sb, bs, bs', j, inodes[j]))
            && (forall c: nat :: LooseOk(sb, bs, owner, c) ==>
                  LooseOk(sb, bs', owner, c) && c in bs && (c != b ==> bs'[c] == bs[c]))
  {
    hide FileKept; hide Marked;
    MarksKept(sb, bs, b, ZeroBlock());
    AsideChange(sb, bs, bs[b := ZeroBlock()], inodes, owner);
  }

  // ---------- Changes of one file ----------

  lemma KeptSame(sb: Super, bs: Store, inodes: map<nat, Ino>, owner: Owner, j: nat)
    requires BlocksOk(sb, bs, inodes, owner) && j in inodes
    ensures FileKept(sb, bs, bs, j, inodes[j])
  {
    hide Addr; hide FS.InoAt; hide BlocksOk;
    OwnedInStore(sb, bs, inodes, owner);
  }

  /** A zeroed block enters the inode's own table. */
  lemma LinkOwn(sb: Super, bs: Store, inodes: map<nat, Ino>, owner: Owner, i: nat, k: nat, b: nat, t: seq<byte>)
    requires BlocksOk(sb, bs, inodes, owner) && i in inodes && k <= NDIRECT && Addr(bs, inodes[i], k) == 0
    requires Fresh(sb, bs, owner, b) && Mapped(bs, inodes[i]) && FS.Holding(bs, inodes[i], t)
    ensures var ino := WithAddr(inodes[i], k, b);
            && BlocksOk(sb, bs, inodes[i := ino], owner[b := (i, k)]) && ino.size == inodes[i].size
            && FS.SameKind(inodes[i], ino)
            && Mapped(bs, ino) && FS.Holding(bs, ino, t)
  {
    hide Addr; hide FS.Holding; hide Mapped; hide Marked; hide Content; hide KeepsData; hide Owned; hide OnlyNew;
    FS.InoIsOk(sb, bs, inodes, owner, i);
    LinkDirect(sb, bs, inodes, owner, i, k, b);
    var inodes' := inodes[i := WithAddr(inodes[i], k, b)];
    FS.KeepsHolding(bs, inodes, bs, inodes', i, t);
    KeepsContent(bs, inodes, bs, inodes', i);
  }

  /** A zeroed block enters the indirect block. */
  lemma LinkIndirect(sb: Super, bs: Store, inodes: map<nat, Ino>, owner: Owner, i: nat, e: nat, b: nat, t: seq<byte>)
    requires BlocksOk(sb, bs, inodes, owner) && FS.NumbersOk(sb, inodes) && i in inodes && e < NINDIRECT
    requires IndirectOf(inodes[i]) != 0 && Addr(bs, inodes[i], NDIRECT + 1 + e) == 0
    requires Fresh(sb, bs, owner, b) && Mapped(bs, inodes[i]) && FS.Holding(bs, inodes[i], t)
    ensures var ind := IndirectOf(inodes[i]);
            var bs' := bs[ind := WithEntry(Read(bs, ind), e, b)];
            && BlocksOk(sb, bs', inodes, owner[b := (i, NDIRECT + 1 + e)])
            && Mapped(bs', inodes[i]) && FS.Holding(bs', inodes[i], t)
            && (forall j :: j in inodes && j != i ==> FileKept(sb, bs, bs', j, inodes[j]))
            && ind in owner && SameMarks(sb, bs, bs')
  {
    hide FS.Holding; hide Mapped; hide Marked; hide Content; hide PutWord; hide Word; hide FS.InoAt;
    FS.InoIsOk(sb, bs, inodes, owner, i);
    FS.DirectAddr(bs, inodes[i], NDIRECT);
    hide Addr;
    var ind := IndirectOf(inodes[i]);
    LinkEntry(sb, bs, inodes, owner, i, e, b);
    assert ind in owner;
    hide Owned;
    var bs' := bs[ind := WithEntry(Read(bs, ind), e, b)];
    FS.KeepsHolding(bs, inodes, bs', inodes, i, t);
    KeepsContent(bs, inodes, bs', inodes, i);
    forall j | j in inodes && j != i
      ensures FileKept(sb, bs, bs', j, inodes[j])
    {
      assert sb.IBlock(j) <= sb.IBlock(sb.ninodes) < sb.bmapstart <= sb.BBlock(sb.size) < sb.datastart;
    }
  }

  /** The next stretch of a write goes into its block. */
  lemma StoreOk(sb: Super, bs: Store, inodes: map<nat, Ino>, owner: Owner, i: nat, at: nat, chunk: seq<byte>, t: seq<byte>)
    requires BlocksOk(sb, bs, inodes, owner) && FS.NumbersOk(sb, inodes) && i in inodes && Mapped(bs, inodes[i])
    requires FS.Holding(bs, inodes[i], t) && at <= |t| && chunk != [] && at % BSIZE + |chunk| <= BSIZE
    requires at + |chunk| <= MAXFILE * BSIZE && Addr(bs, inodes[i], Slot(at / BSIZE)) != 0
    ensures var a := Addr(bs, inodes[i], Slot(at / BSIZE));
            var bs' := bs[a := FS.Overlay(Read(bs, a), at % BSIZE, chunk)];
            && BlocksOk(sb, bs', inodes, owner) && Mapped(bs', inodes[i])
            && FS.Holding(bs', inodes[i], FS.Splice(t, at, chunk))
            && (forall j :: j in inodes && j != i ==> FileKept(sb, bs, bs', j, inodes[j]))
            && a in owner && SameMarks(sb, bs, bs')
  {
    hide FS.Holding; hide FS.Splice; hide Marked; hide FS.InoAt; hide FS.Overlay; hide Addr; hide Owned; hide SameMarks;
    var a := Addr(bs, inodes[i], Slot(at / BSIZE));
    var blk := FS.Overlay(Read(bs, a), at % BSIZE, chunk);
    DataOwned(sb, bs, inodes, owner, i, at / BSIZE);
    FS.HoldingStore(sb, bs, inodes, owner, i, at, chunk, t);
    StoreData(sb, bs, inodes, owner, i, at / BSIZE, blk);
    forall j | j in inodes && j != i
      ensures FileKept(sb, bs, bs[a := blk], j, inodes[j])
    {
      assert sb.IBlock(j) <= sb.IBlock(sb.ninodes) < sb.bmapstart <= sb.BBlock(sb.size) < sb.datastart;
    }
  }

  /** iupdate. */
  lemma UpdateOk(sb: Super, bs: Store, inodes: map<nat, Ino>, owner: Owner, i: nat)
    requires BlocksOk(sb, bs, inodes, owner) && FS.NumbersOk(sb, inodes) && i in inodes && Mapped(bs, inodes[i])
    ensures var bs' := bs[sb.IBlock(i) := WithInode(Read(bs, sb.IBlock(i)), i, inodes[i])];
            && BlocksOk(sb, bs', inodes, owner) && Mapped(bs', inodes[i])
            && Content(bs', inodes[i]) == Content(bs, inodes[i])
            && FS.InoAt(bs'[sb.IBlock(i)], i % IPB) == inodes[i]
            && (forall j :: j in inodes && j != i ==> FileKept(sb, bs, bs', j, inodes[j]))
            && sb.IBlock(i) < sb.datastart && SameMarks(sb, bs, bs')
  {
    hide FS.InoAt; hide FS.PutIno; hide Mapped; hide Content; hide Marked; hide Addr; hide Owned; hide SameMarks;
    var x := sb.IBlock(i);
    var blk := WithInode(Read(bs, x), i, inodes[i]);
    assert x <= sb.IBlock(sb.ninodes) < sb.bmapstart <= sb.BBlock(sb.size) < sb.datastart;
    StoreInode(sb, bs, inodes, owner, i, blk);
    FS.InoRoundTrip(bs[x], i % IPB, inodes[i], i % IPB);
    KeepsContent(bs, inodes, bs[x := blk], inodes, i);
    forall j | j in inodes && j != i
      ensures FileKept(sb, bs, bs[x := blk], j, inodes[j])
    {
      FS.InoRoundTrip(bs[x], i % IPB, inodes[i], j % IPB);
    }
  }

  /** itrunc takes the inode's blocks out. */
  lemma DetachOk(sb: Super, bs: Store, inodes: map<nat, Ino>, owner: Owner, i: nat)
    requires BlocksOk(sb, bs, inodes, owner) && i in inodes
    ensures BlocksOk(sb, bs, inodes - {i}, OthersOnly(owner, i))
    ensures forall b: nat :: b in owner && owner[b].0 == i ==> LooseOk(sb, bs, OthersOnly(owner, i), b)
    ensures forall b: nat :: LooseOk(sb, bs, owner, b) ==> LooseOk(sb, bs, OthersOnly(owner, i), b)
  {
    hide Addr; hide Marked;
  }

  lemma AttachOk(sb: Super, bs: Store, inodes: map<nat, Ino>, owner: Owner, i: nat, ino: Ino)
    requires BlocksOk(sb, bs, inodes, owner) && i !in inodes && InoOk(ino)
    ensures BlocksOk(sb, bs, inodes[i := Emptied(ino)], owner)
    ensures Mapped(bs, Emptied(ino)) && Content(bs, Emptied(ino)) == []
  {
    hide Marked;
    assert forall k: nat :: Addr(bs, Emptied(ino), k) == 0;
    hide Addr;
  }

  // ---------- Every step keeps the invariant ----------

  /** What the thread that moves knows. */
  lemma Mover(sb: Super, s: Shared, t: nat)
    requires Inv(sb, s) && t < |s.tasks|
    ensures BlocksOk(sb, s.blocks, s.inodes, s.owner) && FS.NumbersOk(sb, s.inodes)
    ensures TaskOk(sb, s.blocks, s.inodes, s.bytes, s.tasks[t])
    ensures forall b: nat :: b in Loose(s.tasks[t]) ==> LooseOk(sb, s.blocks, s.owner, b)
    ensures var task := s.tasks[t];
            !task.Idle? ==> task.i in s.lock && s.lock[task.i] == t && task.i in s.bytes
                            && (task.i in s.inodes ==> task.i < sb.ninodes && Mapped(s.blocks, s.inodes[task.i]))
                            && (task.i in s.inodes <==> !task.Emptying?)
  {
    hide BlocksOk; hide Mapped; hide FileOk; hide LooseOk;
    assert TaskOk(sb, s.blocks, s.inodes, s.bytes, s.tasks[t]);
  }

  lemma AllocKeeps(sb: Super, s: Shared, a: Step)
    requires Inv(sb, s) && Enabled(sb, s, a) && a.Alloc?
    ensures Inv(sb, Do(sb, s, a))
  {
    hide Inv; hide Addr; hide Marked; hide FS.Holding; hide FS.Splice; hide Mapped; hide BlocksOk; hide FileKept;
    hide Content; hide FileOk; hide LooseOk; hide Apply; hide PerformAll; hide SetBlockBit;
    Mover(sb, s, a.t);
    var task, s' := s.tasks[a.t], Do(sb, s, a);
    OneWrite(s.blocks, Logs(sb, s, a)[0]);
    NoOps(s.bytes);
    MarkOk(sb, s.blocks, s.inodes, s.owner, a.b);
    KeptTask(sb, s.blocks, s'.blocks, s.inodes, s.inodes, s.bytes, s.bytes, task);
    MappedKept(sb, s, s', task.i);
    NotLoose(sb, s, a.b);
    KeptEntry(sb, s.blocks, s'.blocks, task.i, s.inodes[task.i], task);
    Assemble(sb, s, s', a.t, task.i);
  }

  lemma NotLoose(sb: Super, s: Shared, b: nat)
    requires !Marked(sb, s.blocks, b)
    ensures !LooseOk(sb, s.blocks, s.owner, b)
  {
  }

  lemma MappedKept(sb: Super, s: Shared, s': Shared, i: nat)
    requires BlocksOk(sb, s.blocks, s.inodes, s.owner) && i in s.inodes && Mapped(s.blocks, s.inodes[i])
    requires FileKept(sb, s.blocks, s'.blocks, i, s.inodes[i])
    ensures Mapped(s'.blocks, s.inodes[i])
  {
    hide Mapped; hide FileKept; hide Owned; hide Content;
    KeptContent(sb, s.blocks, s'.blocks, i, s.inodes[i]);
  }

  lemma KeptEntry(sb: Super, bs: Store, bs': Store, i: nat, ino: Ino, task: Task)
    requires FileKept(sb, bs, bs', i, ino) && task.Writing? && task.tot < |task.src|
    requires task.off + |task.src| <= MAXFILE * BSIZE
    ensures Addr(bs', ino, Entry(ino, Pos(task) / BSIZE)) == Addr(bs, ino, Entry(ino, Pos(task) / BSIZE))
  {
    hide Addr; hide FS.InoAt;
    EntryBound(ino, task.off, task.tot, |task.src|);
  }

  lemma ZeroKeeps(sb: Super, s: Shared, a: Step)
    requires Inv(sb, s) && Enabled(sb, s, a) && a.Zero?
    ensures Inv(sb, Do(sb, s, a))
  {
    hide Inv; hide Addr; hide Marked; hide FS.Holding; hide FS.Splice; hide Mapped; hide BlocksOk; hide FileKept;
    hide Content; hide FileOk; hide LooseOk; hide Apply; hide PerformAll;
    Mover(sb, s, a.t);
    var task, s' := s.tasks[a.t], Do(sb, s, a);
    OneWrite(s.blocks, Logs(sb, s, a)[0]);
    NoOps(s.bytes);
    assert task.got.b in Loose(task);
    ZeroOk(sb, s.blocks, s.inodes, s.owner, task.got.b);
    KeptTask(sb, s.blocks, s'.blocks, s.inodes, s.inodes, s.bytes, s.bytes, task);
    MappedKept(sb, s, s', task.i);
    Assemble(sb, s, s', a.t, task.i);
  }

  lemma FreeKeeps(sb: Super, s: Shared, a: Step)
    requires Inv(sb, s) && Enabled(sb, s, a) && a.Free?
    ensures Inv(sb, Do(sb, s, a))
  {
    hide Inv; hide Addr; hide Marked; hide FS.Holding; hide FS.Splice; hide Mapped; hide BlocksOk; hide FileKept;
    hide Content; hide FileOk; hide LooseOk; hide Apply; hide PerformAll; hide ClearBlockBit;
    Mover(sb, s, a.t);
    var task, s' := s.tasks[a.t], Do(sb, s, a);
    OneWrite(s.blocks, Logs(sb, s, a)[0]);
    NoOps(s.bytes);
    assert a.b in Loose(task);
    UnmarkOk(sb, s.blocks, s.inodes, s.owner, a.b);
    Assemble(sb, s, s', a.t, task.i);
  }

  lemma StartEmptyKeeps(sb: Super, s: Shared, a: Step)
    requires Inv(sb, s) && Enabled(sb, s, a) && a.StartEmpty?
    ensures Inv(sb, Do(sb, s, a))
  {
    hide Addr; hide Marked; hide FS.Holding; hide FS.Splice; hide Mapped; hide FileKept; hide Inv; hide BlocksOk;
    hide FileOk; hide Content; hide Apply; hide PerformAll; hide FS.InoAt; hide OthersOnly;
    var s' := Do(sb, s, a);
    Starter(sb, s, a.i);
    Mover(sb, s, a.t);
    LogCode.NoWrites(s.blocks);
    NoOps(s.bytes);
    DetachOk(sb, s.blocks, s.inodes, s.owner, a.i);
    forall j | j in s.inodes
      ensures FileKept(sb, s.blocks, s.blocks, j, s.inodes[j])
    {
      KeptSame(sb, s.blocks, s.inodes, s.owner, j);
    }
    SpansLoose(sb, s);
    NotOwned(sb, s);
    hide LooseOk;
    Assemble(sb, s, s', a.t, a.i);
  }

  lemma NotOwned(sb: Super, s: Shared)
    ensures forall b: nat :: b in s.owner ==> !LooseOk(sb, s.blocks, s.owner, b)
  {
  }

  lemma Starter(sb: Super, s: Shared, i: nat)
    requires Inv(sb, s) && i in s.inodes && i !in s.lock
    ensures FileOk(sb, s.blocks, i, s.inodes[i], s.bytes) && i in s.bytes && |s.bytes[i].data| == s.inodes[i].size
    ensures InoOk(s.inodes[i]) && i < sb.ninodes && Mapped(s.blocks, s.inodes[i])
    ensures s.bytes[i].kind == s.inodes[i].kind && s.bytes[i].links == s.inodes[i].links
  {
    hide FS.InoAt; hide Owned; hide TaskOk; hide LooseOk; hide Mapped; hide LocksOk;
  }

  lemma SpansLoose(sb: Super, s: Shared)
    requires BlocksOk(sb, s.blocks, s.inodes, s.owner)
    ensures forall b: nat :: LooseOk(sb, s.blocks, s.owner, b) ==> b in s.blocks
  {
  }

  lemma StartWriteKeeps(sb: Super, s: Shared, a: Step)
    requires Inv(sb, s) && Enabled(sb, s, a) && a.StartWrite?
    ensures Inv(sb, Do(sb, s, a))
  {
    hide Addr; hide Marked; hide FS.Holding; hide FS.Splice; hide Mapped; hide FileKept; hide Inv; hide BlocksOk;
    hide Content; hide Apply; hide PerformAll; hide FS.InoAt;
    var s' := Do(sb, s, a);
    Starter(sb, s, a.i);
    Mover(sb, s, a.t);
    LogCode.NoWrites(s.blocks);
    NoOps(s.bytes);
    forall j | j in s.inodes
      ensures FileKept(sb, s.blocks, s.blocks, j, s.inodes[j])
    {
      KeptSame(sb, s.blocks, s.inodes, s.owner, j);
    }
    SpansLoose(sb, s);
    FS.HoldingContent(sb, s.blocks, s.inodes, s.owner, a.i);
    assert a.src[..0] == [];
    FS.SpliceEmpty(s.bytes[a.i].data, a.off);
    hide LooseOk; hide FileOk;
    Assemble(sb, s, s', a.t, a.i);
  }

  /** The entry that a thread with a new block fills, and what its blocks hold. */
  lemma Linker(sb: Super, s: Shared, t: nat)
    requires Inv(sb, s) && t < |s.tasks| && s.tasks[t].Writing? && s.tasks[t].got.Zeroed?
    ensures var task := s.tasks[t];
            && task.i in s.inodes && |s.inodes[task.i].addrs| == NDIRECT + 1 && InoOf(s, task.i) == s.inodes[task.i]
            && Where(s, task) < SLOTS && Addr(s.blocks, s.inodes[task.i], Where(s, task)) == 0
            && Fresh(sb, s.blocks, s.owner, task.got.b) && task.got.b <= UINT_MAX
            && (Where(s, task) > NDIRECT ==> IndirectOf(s.inodes[task.i]) != 0)
  {
    hide Addr; hide Marked; hide FS.Holding; hide FS.Splice; hide Mapped; hide FileOk; hide Owned;
    Mover(sb, s, t);
    var task := s.tasks[t];
    assert task.got.b in Loose(task);
    EntryBound(s.inodes[task.i], task.off, task.tot, |task.src|);
    hide LocksOk; hide LooseBlocks;
  }

  /** Whoever is not the new owner keeps its loose blocks. */
  lemma LinkLoose(sb: Super, bs: Store, bs': Store, owner: Owner, b: nat, o: (nat, nat), c: nat)
    requires LooseOk(sb, bs, owner, c) && c != b && SameMarks(sb, bs, bs')
    ensures LooseOk(sb, bs', owner[b := o], c)
  {
    hide Marked;
  }

  lemma LinkOwnKeeps(sb: Super, s: Shared, a: Step)
    requires Inv(sb, s) && Enabled(sb, s, a) && a.Link? && Where(s, s.tasks[a.t]) <= NDIRECT
    ensures Inv(sb, Do(sb, s, a))
  {
    hide Inv; hide Addr; hide Marked; hide FS.Holding; hide FS.Splice; hide Mapped; hide BlocksOk; hide FileKept;
    hide Content; hide FileOk; hide LooseOk; hide Apply; hide PerformAll; hide Where; hide Fresh; hide WithAddr;
    Mover(sb, s, a.t);
    Linker(sb, s, a.t);
    var task, s' := s.tasks[a.t], Do(sb, s, a);
    LogCode.NoWrites(s.blocks);
    NoOps(s.bytes);
    LinkOwn(sb, s.blocks, s.inodes, s.owner, task.i, Where(s, task), task.got.b,
        FS.Splice(s.bytes[task.i].data, task.off, task.src[..task.tot]));
    forall j | j in s.inodes
      ensures FileKept(sb, s.blocks, s.blocks, j, s.inodes[j])
    {
      KeptSame(sb, s.blocks, s.inodes, s.owner, j);
    }
    SpansLoose(sb, s);
    forall c: nat | LooseOk(sb, s.blocks, s.owner, c) && c != task.got.b
      ensures LooseOk(sb, s.blocks, s'.owner, c)
    {
      LinkLoose(sb, s.blocks, s.blocks, s.owner, task.got.b, (task.i, Where(s, task)), c);
    }
    Assemble(sb, s, s', a.t, task.i);
  }

  lemma LinkIndirectKeeps(sb: Super, s: Shared, a: Step)
    requires Inv(sb, s) && Enabled(sb, s, a) && a.Link? && Where(s, s.tasks[a.t]) > NDIRECT
    ensures Inv(sb, Do(sb, s, a))
  {
    hide Inv; hide Addr; hide Marked; hide FS.Holding; hide FS.Splice; hide Mapped; hide BlocksOk; hide FileKept;
    hide Content; hide FileOk; hide LooseOk; hide Apply; hide PerformAll; hide Where; hide Fresh; hide WithEntry;
    hide SameMarks;
    Mover(sb, s, a.t);
    Linker(sb, s, a.t);
    var task, s' := s.tasks[a.t], Do(sb, s, a);
    OneWrite(s.blocks, Logs(sb, s, a)[0]);
    NoOps(s.bytes);
    LinkIndirect(sb, s.blocks, s.inodes, s.owner, task.i, Where(s, task) - NDIRECT - 1, task.got.b,
        FS.Splice(s.bytes[task.i].data, task.off, task.src[..task.tot]));
    SpansLoose(sb, s);
    NotOwned(sb, s);
    forall c: nat | LooseOk(sb, s.blocks, s.owner, c) && c != task.got.b
      ensures LooseOk(sb, s'.blocks, s'.owner, c)
    {
      LinkLoose(sb, s.blocks, s'.blocks, s.owner, task.got.b, (task.i, Where(s, task)), c);
    }
    Assemble(sb, s, s', a.t, task.i);
  }

  lemma SameLoose(sb: Super, bs: Store, bs': Store, owner: Owner)
    requires SameMarks(sb, bs, bs')
    ensures forall c: nat :: LooseOk(sb, bs, owner, c) ==> LooseOk(sb, bs', owner, c)
  {
    hide Marked;
  }

  lemma ChunkIs(task: Task)
    requires task.Writing? && task.tot < |task.src|
    ensures var c := Chunk(task); c != [] && task.tot + |c| <= |task.src| && c == task.src[task.tot..task.tot + |c|]
  {
  }

  lemma StoreKeeps(sb: Super, s: Shared, a: Step)
    requires Inv(sb, s) && Enabled(sb, s, a) && a.Store?
    ensures Inv(sb, Do(sb, s, a))
  {
    hide Inv; hide Addr; hide Marked; hide FS.Holding; hide FS.Splice; hide Mapped; hide BlocksOk; hide FileKept;
    hide Content; hide FileOk; hide LooseOk; hide Apply; hide PerformAll; hide FS.Overlay; hide SameMarks; hide Chunk;
    Mover(sb, s, a.t);
    var task, s' := s.tasks[a.t], Do(sb, s, a);
    OneWrite(s.blocks, Logs(sb, s, a)[0]);
    NoOps(s.bytes);
    ChunkIs(task);
    var m, was := |Chunk(task)|, s.bytes[task.i].data;
    FS.SpliceOn(was, task.off, task.src, task.tot, m);
    StoreOk(sb, s.blocks, s.inodes, s.owner, task.i, Pos(task), Chunk(task), FS.Splice(was, task.off, task.src[..task.tot]));
    SpansLoose(sb, s);
    NotOwned(sb, s);
    SameLoose(sb, s.blocks, s'.blocks, s.owner);
    Assemble(sb, s, s', a.t, task.i);
  }

  lemma EndWriteKeeps(sb: Super, s: Shared, a: Step)
    requires Inv(sb, s) && Enabled(sb, s, a) && a.EndWrite?
    ensures Inv(sb, Do(sb, s, a))
  {
    hide Inv; hide Addr; hide Marked; hide FS.Holding; hide FS.Splice; hide Mapped; hide BlocksOk; hide FileKept;
    hide Content; hide LooseOk; hide Apply; hide PerformAll; hide SameMarks; hide FS.InoAt; hide WithInode;
    Mover(sb, s, a.t);
    var task, s' := s.tasks[a.t], Do(sb, s, a);
    OneWrite(s.blocks, Logs(sb, s, a)[0]);
    OneOp(s.bytes, Completes(sb, s, a)[0]);
    var t := FS.Splice(s.bytes[task.i].data, task.off, task.src[..task.tot]);
    FS.SpliceAt(s.bytes[task.i].data, task.off, task.src[..task.tot]);
    FS.Resized(sb, s.blocks, s.inodes, s.owner, task.i, t);
    assert s'.inodes == s.inodes[task.i := s.inodes[task.i].(size := |t|)];
    UpdateOk(sb, s.blocks, s'.inodes, s.owner, task.i);
    forall j | j in s.inodes && j != task.i
      ensures FileKept(sb, s.blocks, s'.blocks, j, s.inodes[j])
    {
      assert j in s'.inodes && s'.inodes[j] == s.inodes[j];
    }
    SpansLoose(sb, s);
    LooseArea(sb, s);
    SameLoose(sb, s.blocks, s'.blocks, s.owner);
    assert forall j: nat :: j != task.i ==> SameFile(s, s', j);
    assert Frame(sb, s, s', a.t, task.i);
    assert Own(sb, s, s', a.t, task.i);
    Assemble(sb, s, s', a.t, task.i);
  }

  lemma LooseArea(sb: Super, s: Shared)
    ensures forall b: nat :: LooseOk(sb, s.blocks, s.owner, b) ==> sb.datastart <= b
  {
  }

  lemma EndEmptyKeeps(sb: Super, s: Shared, a: Step)
    requires Inv(sb, s) && Enabled(sb, s, a) && a.EndEmpty?
    ensures Inv(sb, Do(sb, s, a))
  {
    hide Inv; hide Addr; hide Marked; hide FS.Holding; hide FS.Splice; hide Mapped; hide BlocksOk; hide FileKept;
    hide Content; hide LooseOk; hide Apply; hide PerformAll; hide SameMarks; hide FS.InoAt; hide WithInode;
    Mover(sb, s, a.t);
    var task, s' := s.tasks[a.t], Do(sb, s, a);
    OneWrite(s.blocks, Logs(sb, s, a)[0]);
    OneOp(s.bytes, Empty(task.i));
    AttachOk(sb, s.blocks, s.inodes, s.owner, task.i, task.ino);
    UpdateOk(sb, s.blocks, s'.inodes, s.owner, task.i);
    forall j | j in s.inodes && j != task.i
      ensures FileKept(sb, s.blocks, s'.blocks, j, s.inodes[j])
    {
      assert j in s'.inodes && s'.inodes[j] == s.inodes[j];
    }
    SpansLoose(sb, s);
    LooseArea(sb, s);
    SameLoose(sb, s.blocks, s'.blocks, s.owner);
    Assemble(sb, s, s', a.t, task.i);
  }

  lemma StepKeeps(sb: Super, s: Shared, a: Step)
    requires Inv(sb, s) && Enabled(sb, s, a)
    ensures Inv(sb, Do(sb, s, a))
  {
    hide Inv; hide Do; hide Enabled;
    match a {
      case StartWrite(_, _, _, _) => StartWriteKeeps(sb, s, a);
      case Alloc(_, _) => AllocKeeps(sb, s, a);
      case Zero(_) => ZeroKeeps(sb, s, a);
      case Link(_) => LinkKeeps(sb, s, a);
      case Store(_) => StoreKeeps(sb, s, a);
      case EndWrite(_) => EndWriteKeeps(sb, s, a);
      case StartEmpty(_, _) => StartEmptyKeeps(sb, s, a);
      case Free(_, _) => FreeKeeps(sb, s, a);
      case EndEmpty(_) => EndEmptyKeeps(sb, s, a);
    }
  }

  lemma LinkKeeps(sb: Super, s: Shared, a: Step)
    requires Inv(sb, s) && Enabled(sb, s, a) && a.Link?
    ensures Inv(sb, Do(sb, s, a))
  {
    hide Inv; hide Do; hide Where;
    if Where(s, s.tasks[a.t]) <= NDIRECT {
      LinkOwnKeeps(sb, s, a);
    } else {
      LinkIndirectKeeps(sb, s, a);
    }
  }

  // ---------- Every run ----------

  ghost function Held(s: Shared): Files {
    Files(s.blocks, s.inodes, s.owner)
  }

  ghost predicate Quiet(s: Shared) {
    forall t: nat :: t < |s.tasks| ==> s.tasks[t].Idle?
  }

  /** n threads on a file system, nobody inside an operation. */
  ghost function Start(f: Files, n: nat): Shared {
    Shared(f.blocks, f.inodes, f.owner, map[], seq(n, _ => Idle), Contents(f), [], [])
  }

  lemma StartOk(sb: Super, f: Files, n: nat)
    requires FilesOk(sb, f)
    ensures Inv(sb, Start(f, n))
  {
    hide BlocksOk; hide Mapped; hide Content; hide FS.InoAt;
  }

  /** Between operations there is a whole file system, with the bytes of the operations done. */
  lemma QuietFiles(sb: Super, s: Shared)
    requires Inv(sb, s) && Quiet(s)
    ensures FilesOk(sb, Held(s)) && Contents(Held(s)) == s.bytes
  {
    hide BlocksOk; hide Mapped; hide Content; hide FS.InoAt; hide TaskOk; hide LooseBlocks;
    assert forall i :: i in s.inodes ==> FileOk(sb, s.blocks, i, s.inodes[i], s.bytes);
  }

  ghost predicate Run(sb: Super, f: Files, n: nat, states: seq<Shared>, steps: seq<Step>) {
    && |states| == |steps| + 1 && states[0] == Start(f, n)
    && forall i :: 0 <= i < |steps| ==> Enabled(sb, states[i], steps[i]) && states[i + 1] == Do(sb, states[i], steps[i])
  }

  lemma {:induction false} PerformAllConcat(c: FileData, a: seq<Op>, b: seq<Op>)
    ensures PerformAll(c, a + b) == PerformAll(PerformAll(c, a), b)
  {
    if b == [] {
      assert a + b == a;
    } else {
      var n := |b| - 1;
      PerformAllConcat(c, a, b[..n]);
      assert (a + b)[..|a + b| - 1] == a + b[..n];
    }
  }

  /** The same inodes, with the same types and links. */
  ghost predicate SameKinds(f: Files, f': Files) {
    f'.inodes.Keys == f.inodes.Keys && forall i :: i in f.inodes ==> FS.SameKind(f.inodes[i], f'.inodes[i])
  }

  lemma KindsKept(f: Files, ops: seq<Op>, f': Files)
    requires Contents(f') == PerformAll(Contents(f), ops)
    ensures SameKinds(f, f')
  {
    hide PerformAll; hide Content;
    PerformKinds(Contents(f), ops);
    assert Contents(f').Keys == f'.inodes.Keys && Contents(f).Keys == f.inodes.Keys;
    forall i | i in f.inodes
      ensures FS.SameKind(f.inodes[i], f'.inodes[i])
    {
      assert i in Contents(f) && i in Contents(f');
    }
  }

  /** However threads interleave, a file changes only when the operation on it is over, and then
      as if the operation had been done at once; all changes of blocks are logged; and whenever
      no operation is under way, the blocks are a well-formed file system with these files. */
  lemma {:induction false} Linearizable(sb: Super, f: Files, n: nat, states: seq<Shared>, steps: seq<Step>, i: nat)
    requires FilesOk(sb, f) && Run(sb, f, n, states, steps) && i < |states|
    ensures var s := states[i];
            && Inv(sb, s) && s.bytes == PerformAll(Contents(f), s.done) && s.blocks == Apply(f.blocks, s.logged)
            && (Quiet(s) ==> FilesOk(sb, Held(s)) && Contents(Held(s)) == s.bytes && SameKinds(f, Held(s)))
  {
    hide Inv; hide FilesOk; hide Enabled; hide Logs; hide Completes; hide PerformAll; hide Apply; hide Contents; hide Quiet;
    if i == 0 {
      StartOk(sb, f, n);
      NoOps(Contents(f));
      LogCode.NoWrites(f.blocks);
    } else {
      Linearizable(sb, f, n, states, steps, i - 1);
      var s, a := states[i - 1], steps[i - 1];
      StepKeeps(sb, s, a);
      PerformAllConcat(Contents(f), s.done, Completes(sb, s, a));
      LogCode.ApplyConcat(f.blocks, s.logged, Logs(sb, s, a));
    }
    if Quiet(states[i]) {
      QuietFiles(sb, states[i]);
      KindsKept(f, states[i].done, Held(states[i]));
    }
  }

  /** In no run do two threads have the same block in hand, is a block in hand in any inode, or
      does bfree meet a free block. */
  lemma BlocksInHand(sb: Super, f: Files, n: nat, states: seq<Shared>, steps: seq<Step>, i: nat, t: nat, b: nat)
    requires FilesOk(sb, f) && Run(sb, f, n, states, steps) && i < |states|
    requires t < |states[i].tasks| && b in Loose(states[i].tasks[t])
    ensures Marked(sb, states[i].blocks, b) && sb.datastart <= b < sb.size
    ensures forall u: nat :: u < |states[i].tasks| && u != t ==> b !in Loose(states[i].tasks[u])
    ensures forall j: nat, k: nat :: j in states[i].inodes && k < SLOTS ==> Addr(states[i].blocks, states[i].inodes[j], k) != b
  {
    Linearizable(sb, f, n, states, steps, i);
    hide Run; hide FilesOk; hide Marked; hide Addr; hide Loose; hide TaskOk; hide FileOk; hide Mapped; hide LocksOk;
    hide Contents; hide Quiet;
    assert LooseOk(sb, states[i].blocks, states[i].owner, b);
  }

  /** The next step of an operation is possible. */
  ghost predicate GoesOn(sb: Super, s: Shared, t: nat)
    requires t < |s.tasks|
  {
    var task := s.tasks[t];
    match task
    case Idle => true
    case Writing(_, _, src, tot, got) =>
      if got.Marking? then Enabled(sb, s, Zero(t))
      else if got.Zeroed? then Enabled(sb, s, Link(t))
      else if tot == |src| then Enabled(sb, s, EndWrite(t))
      else if Place(s, task) != 0 then Enabled(sb, s, Store(t))
      else forall b: nat :: b < sb.size && !Marked(sb, s.blocks, b) ==> Enabled(sb, s, Alloc(t, b))
    case Emptying(_, _, left) =>
      if left == {} then Enabled(sb, s, EndEmpty(t)) else forall b :: b in left ==> Enabled(sb, s, Free(t, b))
  }

  /** In no run does an operation wait for another one: it can store its bytes wherever a block
      is mapped, take any free block where none is, free what it has left to free, or end. */
  lemma OperationsGoOn(sb: Super, f: Files, n: nat, states: seq<Shared>, steps: seq<Step>, i: nat, t: nat)
    requires FilesOk(sb, f) && Run(sb, f, n, states, steps) && i < |states| && t < |states[i].tasks|
    ensures GoesOn(sb, states[i], t)
  {
    Linearizable(sb, f, n, states, steps, i);
    hide Run; hide FilesOk; hide Contents; hide Quiet; hide FileOk; hide LocksOk; hide LooseBlocks; hide GoesOn;
    var s := states[i];
    assert TaskOk(sb, s.blocks, s.inodes, s.bytes, s.tasks[t]);
    assert s.tasks[t].Writing? ==> InoOk(s.inodes[s.tasks[t].i]);
    hide TaskOk;
    if s.tasks[t].Writing? && Place(s, s.tasks[t]) == 0 {
      UnmappedEntry(s, s.tasks[t]);
    }
    TaskGoesOn(sb, s, t);
  }

  lemma TaskGoesOn(sb: Super, s: Shared, t: nat)
    requires t < |s.tasks| && TaskOk(sb, s.blocks, s.inodes, s.bytes, s.tasks[t])
    requires s.tasks[t].Writing? && Place(s, s.tasks[t]) == 0 ==> Addr(s.blocks, InoOf(s, s.tasks[t].i), Where(s, s.tasks[t])) == 0
    ensures GoesOn(sb, s, t)
  {
    hide Addr; hide Marked; hide FS.Holding; hide Place; hide Where;
  }

  /** bmap's entry for a block that is not mapped is empty: the block's own, or the indirect one. */
  lemma UnmappedEntry(s: Shared, task: Task)
    requires task.Writing? && Place(s, task) == 0 && |InoOf(s, task.i).addrs| == NDIRECT + 1
    ensures Addr(s.blocks, InoOf(s, task.i), Where(s, task)) == 0
  {
  }
}
