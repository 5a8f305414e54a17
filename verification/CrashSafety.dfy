/** The file system on the log: whatever crashes, the recovered disk is a well-formed file
    system that holds the files after the operations of the committed groups. */
module CrashSafety {
  import opened Blocks
  import opened RedoLog
  import LogCode
  import opened FileBlocks
  import FS = FileSystem
  import GC = GroupCommit
  import opened FileSharing

  /** The disk has the file system's blocks outside the log area. */
  ghost predicate Agrees(l: Layout, d: Disk, blocks: Store) {
    forall bn: nat :: l.Home(bn) ==> bn in d && bn in blocks && d[bn] == blocks[bn]
  }

  /** The log lies before the inodes, on the same disk. */
  predicate Placed(sb: Super, l: Layout) {
    l.blocks == sb.size && l.start + l.nlog <= sb.inodestart
  }

  // ---------- A disk that agrees with a file system is one ----------

  ghost predicate SameFiles(f: Files, d: Store) {
    Contents(Files(d, f.inodes, f.owner)) == Contents(f)
  }

  lemma HomeBlocks(sb: Super, l: Layout, b: nat)
    requires Placed(sb, l) && sb.inodestart <= b < sb.size
    ensures l.Home(b)
  {
  }

  lemma MarksAgree(sb: Super, l: Layout, f: Files, d: Store, c: nat)
    requires Placed(sb, l) && sb.Ok() && Agrees(l, d, f.blocks) && c < sb.size
    ensures Marked(sb, d, c) <==> Marked(sb, f.blocks, c)
  {
    hide BlockBit;
    assert sb.inodestart <= sb.BBlock(c) < sb.size;
    HomeBlocks(sb, l, sb.BBlock(c));
  }

  lemma InodesAgree(sb: Super, l: Layout, f: Files, d: Store)
    requires Placed(sb, l) && sb.Ok() && Agrees(l, d, f.blocks)
    requires FS.NumbersOk(sb, f.inodes) && FS.Synced(sb, f.blocks, f.inodes, f.inodes.Keys)
    ensures FS.Synced(sb, d, f.inodes, f.inodes.Keys)
  {
    forall i | i in f.inodes
      ensures sb.IBlock(i) in d && FS.InoAt(d[sb.IBlock(i)], i % IPB) == f.inodes[i]
    {
      HomeBlocks(sb, l, sb.IBlock(i));
    }
  }

  lemma OwnersAgree(sb: Super, l: Layout, f: Files, d: Store)
    requires Placed(sb, l) && BlocksOk(sb, f.blocks, f.inodes, f.owner) && l.Spans(d) && Agrees(l, d, f.blocks)
    ensures SameAddrs(f.blocks, d, f.inodes) && KeepsData(f.blocks, f.inodes, d, f.inodes)
    ensures BlocksOk(sb, d, f.inodes, f.owner)
  {
    hide Marked; hide Addr; hide KeepsData;
    forall a | a in f.owner
      ensures d[a] == f.blocks[a]
    {
      HomeBlocks(sb, l, a);
    }
    UnownedChange(sb, f.blocks, d, f.inodes, f.owner);
    forall c: nat | c < sb.size
      ensures Marked(sb, d, c) <==> Marked(sb, f.blocks, c)
    {
      MarksAgree(sb, l, f, d, c);
    }
  }

  /** A disk that has the blocks of a file system outside the log area is that file system. */
  lemma AgreesIsFiles(sb: Super, l: Layout, f: Files, d: Store)
    requires Placed(sb, l) && FilesOk(sb, f) && l.Spans(d) && Agrees(l, d, f.blocks)
    ensures FilesOk(sb, Files(d, f.inodes, f.owner)) && SameFiles(f, d)
  {
    hide BlocksOk; hide Agrees; hide FS.Synced; hide FS.NumbersOk; hide KeepsData; hide SameAddrs;
    hide Content; hide Mapped;
    OwnersAgree(sb, l, f, d);
    InodesFine(sb, f);
    InodesAgree(sb, l, f, d);
    forall i | i in f.inodes
      ensures Mapped(d, f.inodes[i]) && Content(d, f.inodes[i]) == Content(f.blocks, f.inodes[i])
    {
      KeepsContent(f.blocks, f.inodes, d, f.inodes, i);
    }
  }

  lemma InodesFine(sb: Super, f: Files)
    requires BlocksOk(sb, f.blocks, f.inodes, f.owner)
    ensures sb.Ok() && forall i :: i in f.inodes ==> InoOk(f.inodes[i])
  {
  }

  // ---------- Operations ----------

  /** An operation that leads from f to f' by logging ws. */
  ghost predicate Operation(sb: Super, op: Op, f: Files, ws: seq<Write>, f': Files) {
    && f'.blocks == Apply(f.blocks, ws)
    && (FilesOk(sb, f) ==> FilesOk(sb, f') && Contents(f') == Perform(Contents(f), op))
  }

  /** What a file system object holds. */
  ghost function FilesOf(f: FS.FileSystem): Files
    reads f
  {
    Files(f.blocks, f.inodes, f.owner)
  }

  lemma FilesOfOk(f: FS.FileSystem)
    ensures f.Valid() <==> FilesOk(f.sb, FilesOf(f))
  {
  }

  /** writei is such an operation: from a well-formed file system, the blocks it logs lead to
      another, in which the bytes it has accepted are spliced into the file. */
  method WriteFile(f: FS.FileSystem, i: nat, off: uint, src: seq<byte>) returns (r: int)
    requires f.Valid() && i in f.inodes && |src| <= UINT_MAX && f.image == f.blocks && f.writes == [] && f.logged == []
    modifies f`blocks, f`inodes, f`owner, f`logged, f`writes
    ensures f.Valid() && -1 <= r <= |src| && (r == -1 <==> FS.Refuses(old(f.inodes)[i].size, off, |src|))
    ensures Operation(f.sb, WriteAt(i, if r == -1 then 0 else off, if r == -1 then [] else src[..r]), old(FilesOf(f)), f.writes, FilesOf(f))
  {
    hide Apply; hide FilesOk; hide Content; hide FS.Splice; hide BlocksOk; hide FS.Synced; hide FS.NumbersOk;
    hide Mapped; hide SameLeaks;
    hide FS.LogsOnly; hide FS.Full;
    FS.TraceStart(f.blocks);
    ghost var f0 := FilesOf(f);
    FilesOfOk(f);
    ghost var before;
    r, before := f.Writei(i, off, src);
    FilesOfOk(f);
    if r == -1 {
      NoSplice(Content(f.blocks, f.inodes[i]));
    }
    assert Contents(FilesOf(f)) == Perform(Contents(f0), WriteAt(i, if r == -1 then 0 else off, if r == -1 then [] else src[..r]));
  }

  lemma NoSplice(c: seq<byte>)
    ensures FS.Splice(c, 0, []) == c
  {
  }

  /** And so is itrunc, which empties the file. */
  method TruncateFile(f: FS.FileSystem, i: nat) returns (ok: bool)
    requires f.Valid() && i in f.inodes && f.image == f.blocks && f.writes == [] && f.logged == []
    modifies f`blocks, f`inodes, f`owner, f`logged, f`writes
    ensures ok && f.Valid() && Operation(f.sb, Empty(i), old(FilesOf(f)), f.writes, FilesOf(f))
  {
    hide Apply; hide FilesOk; hide BlocksOk; hide FS.Synced; hide FS.NumbersOk; hide Mapped; hide SameLeaks;
    hide FreedOnly; hide OthersOnly;
    FS.TraceStart(f.blocks);
    FilesOfOk(f);
    ok := f.Itrunc(i);
    FilesOfOk(f);
  }

  /** Operations that interleave, from one moment without operations to another. */
  ghost predicate Together(sb: Super, ops: seq<Op>, f: Files, ws: seq<Write>, f': Files) {
    exists n: nat, states: seq<Shared>, steps: seq<Step> ::
      && FileSharing.Run(sb, f, n, states, steps)
      && var last := states[|steps|]; Quiet(last) && Held(last) == f' && last.done == ops && last.logged == ws
  }

  /** One operation by itself, or several together. */
  ghost predicate Part(sb: Super, ops: seq<Op>, f: Files, ws: seq<Write>, f': Files) {
    (|ops| == 1 && Operation(sb, ops[0], f, ws, f')) || Together(sb, ops, f, ws, f')
  }

  lemma PartOk(sb: Super, ops: seq<Op>, f: Files, ws: seq<Write>, f': Files)
    requires Part(sb, ops, f, ws, f') && FilesOk(sb, f)
    ensures f'.blocks == Apply(f.blocks, ws) && FilesOk(sb, f') && Contents(f') == PerformAll(Contents(f), ops)
  {
    hide FilesOk; hide Apply; hide Contents; hide Perform; hide FileSharing.Do; hide FileSharing.Enabled;
    hide FileSharing.Inv; hide Quiet;
    if Together(sb, ops, f, ws, f') {
      var n: nat, states: seq<Shared>, steps: seq<Step> :|
        && FileSharing.Run(sb, f, n, states, steps)
        && var last := states[|steps|]; Quiet(last) && Held(last) == f' && last.done == ops && last.logged == ws;
      Linearizable(sb, f, n, states, steps, |steps|);
    } else {
      assert ops == [ops[0]];
      OneOp(Contents(f), ops[0]);
    }
  }

  /** A group of operations, part after part, from files[0] to the last of files. */
  datatype Group = Group(files: seq<Files>, ops: seq<seq<Op>>, writes: seq<seq<Write>>)

  ghost predicate Grouped(sb: Super, g: Group) {
    && |g.files| == |g.ops| + 1 && |g.writes| == |g.ops|
    && forall k :: 0 <= k < |g.ops| ==> Part(sb, g.ops[k], g.files[k], g.writes[k], g.files[k + 1])
  }

  ghost function Flat<T>(parts: seq<seq<T>>): seq<T> {
    if parts == [] then [] else Flat(parts[..|parts| - 1]) + parts[|parts| - 1]
  }

  /** The operations `ops`, in that order, lead from the files of f to those of f'. */
  ghost predicate After(f: Files, ops: seq<Op>, f': Files) {
    Contents(f') == PerformAll(Contents(f), ops)
  }

  /** The whole group, from a well-formed file system, leads to a well-formed one, by all that it
      logs and with the effects of its operations. */
  lemma {:induction false} GroupOk(sb: Super, g: Group, f0: Files, before: seq<Op>)
    requires Grouped(sb, g) && FilesOk(sb, g.files[0]) && After(f0, before, g.files[0])
    ensures var last := g.files[|g.ops|];
            && FilesOk(sb, last) && last.blocks == Apply(g.files[0].blocks, Flat(g.writes))
            && After(f0, before + Flat(g.ops), last)
    decreases |g.ops|
  {
    hide FilesOk; hide Apply; hide Contents; hide PerformAll; hide Part;
    var n := |g.ops|;
    if n == 0 {
      LogCode.NoWrites(g.files[0].blocks);
      assert before + Flat(g.ops) == before;
    } else {
      var p := Group(g.files[..n], g.ops[..n - 1], g.writes[..n - 1]);
      GroupOk(sb, p, f0, before);
      assert Part(sb, g.ops[n - 1], g.files[n - 1], g.writes[n - 1], g.files[n]);
      PartOk(sb, g.ops[n - 1], g.files[n - 1], g.writes[n - 1], g.files[n]);
      LogCode.ApplyConcat(g.files[0].blocks, Flat(p.writes), g.writes[n - 1]);
      PerformAllConcat(Contents(f0), before + Flat(p.ops), g.ops[n - 1]);
      assert before + Flat(p.ops) + g.ops[n - 1] == before + Flat(g.ops);
    }
  }

  // ---------- The machine with its clients ----------

  /** What readers see: the durable contents with the writes of the current group. */
  ghost function View(l: Layout, s: GC.State): Disk
    requires LogOk(l, s.disk)
  {
    Apply(GC.Durables(l, s.disk), s.pending)
  }

  /** The machine.  `now` is the file system when last no operation was active, `done` the
      operations that led to it, `since` what has been passed to log_write since then; `saved` and
      `kept` are the file system and the operations at the last commit. */
  datatype World = World(s: GC.State, now: Files, done: seq<Op>, since: seq<Write>, saved: Files, kept: seq<Op>)

  ghost predicate NoneActive(s: GC.State) {
    forall t: nat :: t < |s.threads| ==> !s.threads[t].inOp
  }

  /** A step of the machine; what is logged between two moments without active operations is
      what a group of operations logs. */
  ghost predicate Next(sb: Super, l: Layout, w: World, a: GC.Action, w': World) {
    && GC.Enabled(l, w.s, a) && GC.InBudget(w.s, a) && w'.s == GC.Do(l, w.s, a)
    && match a
       case LogWrite(t, bn) => w' == w.(s := w'.s, since := w.since + [Write(bn, w.s.cache[bn])])
       case End(t) =>
         if NoneActive(w'.s) then
           exists g: Group ::
             && Grouped(sb, g) && g.files[0] == w.now && Flat(g.writes) == w.since
             && w' == w.(s := w'.s, now := g.files[|g.ops|], done := w.done + Flat(g.ops), since := [])
         else w' == w.(s := w'.s)
       case CommitStep =>
         if w.s.phase.WritingHead? || w.s.phase.Finishing? then w' == w.(s := w'.s, saved := w.now, kept := w.done)
         else w' == w.(s := w'.s)
       case Crash => w' == World(w'.s, w.saved, w.kept, [], w.saved, w.kept)
       case _ => w' == w.(s := w'.s)
  }

  /** `start` is the file system at power-up. */
  ghost predicate Safe(sb: Super, l: Layout, start: Files, w: World) {
    && GC.Inv(l, w.s) && LogOk(l, w.s.disk)
    && FilesOk(sb, w.saved) && After(start, w.kept, w.saved) && Agrees(l, GC.Durables(l, w.s.disk), w.saved.blocks)
    && FilesOk(sb, w.now) && After(start, w.done, w.now) && Agrees(l, View(l, w.s), Apply(w.now.blocks, w.since))
    && (NoneActive(w.s) ==> w.since == [])
  }

  lemma Active(l: Layout, s: GC.State)
    requires GC.Inv(l, s)
    ensures LogOk(l, s.disk) && (NoneActive(s) <==> GC.Abs(l, s).active == {})
    ensures !s.phase.Running? ==> NoneActive(s)
    ensures s.phase.Finishing? ==> s.pending == []
  {
    hide GC.Durables; hide LogOk;
    GC.InvParts(l, s);
    if GC.Abs(l, s).active == {} {
      forall t: nat | t < |s.threads|
        ensures !s.threads[t].inOp
      {
        assert t !in GC.Abs(l, s).active;
      }
    }
  }

  lemma NextKeeps(sb: Super, l: Layout, start: Files, w: World, a: GC.Action, w': World)
    requires Safe(sb, l, start, w) && Next(sb, l, w, a, w')
    ensures Safe(sb, l, start, w')
  {
    hide GC.Inv; hide GC.Do; hide GC.Enabled; hide FilesOk; hide Agrees; hide LogOk; hide GC.Durables;
    hide Apply; hide GC.InBudget;
    hide After; hide Grouped; hide Flat;
    GC.StepOk(l, w.s, a);
    Active(l, w.s);
    Active(l, w'.s);
    NoPending(l, w.s);
    NoPending(l, w'.s);
    LogCode.NoWrites(w.now.blocks);
    LogCode.NoWrites(w'.now.blocks);
    if a.LogWrite? {
      var u := Write(a.bn, w.s.cache[a.bn]);
      OneMore(l, GC.Durables(l, w.s.disk), w.s.pending, w.now.blocks, w.since, u);
    } else if a.End? && NoneActive(w'.s) {
      GroupEnds(sb, l, start, w, a, w');
    }
    hide NoneActive;
  }

  lemma GroupEnds(sb: Super, l: Layout, start: Files, w: World, a: GC.Action, w': World)
    requires Next(sb, l, w, a, w') && a.End? && NoneActive(w'.s) && FilesOk(sb, w.now) && After(start, w.done, w.now)
    ensures FilesOk(sb, w'.now) && After(start, w'.done, w'.now) && w'.now.blocks == Apply(w.now.blocks, w.since)
    ensures w'.since == [] && w'.saved == w.saved && w'.kept == w.kept
  {
    hide GC.Do; hide GC.Enabled; hide GC.InBudget; hide FilesOk; hide After; hide Operation; hide Flat;
    hide Apply; hide NoneActive;
    var g: Group :| Grouped(sb, g) && g.files[0] == w.now && Flat(g.writes) == w.since
                    && w' == w.(s := w'.s, now := g.files[|g.ops|], done := w.done + Flat(g.ops), since := []);
    GroupOk(sb, g, start, w.done);
  }

  lemma NoPending(l: Layout, s: GC.State)
    requires LogOk(l, s.disk)
    ensures s.pending == [] ==> View(l, s) == GC.Durables(l, s.disk)
  {
  }

  /** The same writes keep disk and blocks in agreement. */
  lemma {:induction false} SameWrites(l: Layout, d: Disk, blocks: Store, ws: seq<Write>)
    requires Agrees(l, d, blocks)
    ensures Agrees(l, Apply(d, ws), Apply(blocks, ws))
  {
    if ws != [] {
      SameWrites(l, d, blocks, ws[..|ws| - 1]);
    }
  }

  lemma OneMore(l: Layout, d: Disk, pending: seq<Write>, blocks: Store, since: seq<Write>, w: Write)
    requires Agrees(l, Apply(d, pending), Apply(blocks, since))
    ensures Agrees(l, Apply(d, pending + [w]), Apply(blocks, since + [w]))
  {
    hide Agrees; hide Apply;
    LogCode.ApplyConcat(d, pending, [w]);
    LogCode.ApplyConcat(blocks, since, [w]);
    SameWrites(l, Apply(d, pending), Apply(blocks, since), [w]);
  }

  ghost predicate Run(sb: Super, l: Layout, worlds: seq<World>, steps: seq<GC.Action>) {
    && |worlds| == |steps| + 1 && Start(sb, l, worlds[0])
    && forall i :: 0 <= i < |steps| ==> Next(sb, l, worlds[i], steps[i], worlds[i + 1])
  }

  /** A machine powering up on an image whose durable contents are a file system. */
  ghost predicate Start(sb: Super, l: Layout, w: World) {
    && FilesOk(sb, w.saved) && w == World(w.s, w.saved, [], [], w.saved, [])
    && exists image: Disk, n: nat :: LogOk(l, image) && w.s == GC.PowerUp(image, n) && Agrees(l, GC.Durables(l, image), w.saved.blocks)
  }

  lemma StartSafe(sb: Super, l: Layout, w: World)
    requires Start(sb, l, w)
    ensures Safe(sb, l, w.saved, w)
  {
    hide LogOk; hide FilesOk; hide Agrees; hide GC.Durables; hide Apply; hide GC.Inv;
    var image, n :| LogOk(l, image) && w.s == GC.PowerUp(image, n) && Agrees(l, GC.Durables(l, image), w.saved.blocks);
    GC.PowerUpOk(l, image, n);
    NoPending(l, w.s);
    NoOps(Contents(w.saved));
    LogCode.NoWrites(w.now.blocks);
  }

  lemma {:induction false} RunSafe(sb: Super, l: Layout, worlds: seq<World>, steps: seq<GC.Action>, i: nat)
    requires Run(sb, l, worlds, steps) && i < |worlds|
    ensures Safe(sb, l, worlds[0].saved, worlds[i])
  {
    hide Safe; hide Next; hide Start;
    if i == 0 {
      StartSafe(sb, l, worlds[0]);
    } else {
      RunSafe(sb, l, worlds, steps, i - 1);
      NextKeeps(sb, l, worlds[0].saved, worlds[i - 1], steps[i - 1], worlds[i]);
    }
  }

  // ---------- What a crash leaves ----------

  /** The disk after a crash at this point and a whole recovery. */
  ghost function Recovered(l: Layout, d: Disk): Disk
    requires LogOk(l, d)
  {
    Apply(d, RecoveryWrites(l, d))
  }

  lemma RecoveredIs(l: Layout, d: Disk, blocks: Store)
    requires LogOk(l, d) && Agrees(l, GC.Durables(l, d), blocks)
    ensures l.Spans(Recovered(l, d)) && Agrees(l, Recovered(l, d), blocks)
  {
    hide Durable; hide Apply; hide RecoveryWrites;
    var ws := RecoveryWrites(l, d);
    RecoveryCut(l, d, |ws|);
    assert ws[..|ws|] == ws;
  }

  /** Whenever the machine is cut off, in a run with any crashes before, the disk that a recovery
      then leaves is itself a well-formed file system, and its files are those at power-up after
      the operations of the committed groups, in order; and while the machine runs, the disk
      already is that file system. */
  lemma RecoveredFiles(sb: Super, l: Layout, worlds: seq<World>, steps: seq<GC.Action>, i: nat)
    requires Placed(sb, l) && Run(sb, l, worlds, steps) && i < |worlds|
    ensures var w := worlds[i];
            && LogOk(l, w.s.disk) && After(worlds[0].saved, w.kept, w.saved) && SameKinds(worlds[0].saved, w.saved)
            && FilesOk(sb, Files(Recovered(l, w.s.disk), w.saved.inodes, w.saved.owner))
            && SameFiles(w.saved, Recovered(l, w.s.disk))
            && (w.s.phase.Running? ==> FilesOk(sb, Files(w.s.disk, w.saved.inodes, w.saved.owner)) && SameFiles(w.saved, w.s.disk))
  {
    hide Run; hide FilesOk; hide Recovered; hide After; hide Agrees; hide SameFiles; hide GC.Durables;
    hide LogOk; hide GC.Inv; hide View;
    RunSafe(sb, l, worlds, steps, i);
    var w := worlds[i];
    KindsAfter(worlds[0].saved, w.kept, w.saved);
    RecoveredIs(l, w.s.disk, w.saved.blocks);
    AgreesIsFiles(sb, l, w.saved, Recovered(l, w.s.disk));
    if w.s.phase.Running? {
      OnDisk(l, w.s, w.saved.blocks);
      AgreesIsFiles(sb, l, w.saved, w.s.disk);
    }
  }

  lemma KindsAfter(f: Files, ops: seq<Op>, f': Files)
    requires After(f, ops, f')
    ensures SameKinds(f, f')
  {
    hide Contents; hide PerformAll; hide SameKinds;
    KindsKept(f, ops, f');
  }

  lemma OnDisk(l: Layout, s: GC.State, blocks: Store)
    requires GC.Inv(l, s) && s.phase.Running? && LogOk(l, s.disk) && Agrees(l, GC.Durables(l, s.disk), blocks)
    ensures l.Spans(s.disk) && Agrees(l, s.disk, blocks)
  {
    hide Durable; hide Apply;
  }
}
