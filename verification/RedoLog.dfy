/** The redo log of kernel/log.c: the writes a commit and a recovery send to the disk,
    and what is left on the disk when the machine stops between any two of them. */
module RedoLog {
  import opened Basics
  import opened Blocks

  const MAXOPBLOCKS := 10
  const LOGSIZE := 30           // MAXOPBLOCKS * 3

  type Disk = map<nat, Block>

  /** A single-block write; the disk performs each one atomically. */
  datatype Write = Write(bn: nat, data: Block)

  /** Where the log lives: the header at `start`, then `nlog - 1` data blocks, on a disk
      of `blocks` blocks. */
  datatype Layout = Layout(start: nat, nlog: nat, blocks: nat)
  {
    predicate Ok() {
      LOGSIZE + 1 <= nlog && start + nlog <= blocks <= UINT_MAX
    }

    /** Blocks that belong to the file system rather than to the log. */
    predicate Home(bn: nat) {
      bn < blocks && !(start <= bn < start + nlog)
    }

    /** The log block that holds the i-th logged block. */
    function Slot(i: nat): (bn: nat) { start + i + 1 }

    ghost predicate Spans(d: Disk) {
      forall bn: nat :: bn in d <==> bn < blocks
    }
  }

  /** The log_writes of an operation that never logs when it has already logged MAXOPBLOCKS
      distinct blocks. */
  ghost predicate Fits(log: seq<nat>) {
    forall k :: 0 <= k < |log| ==> |Members(log[..k])| < MAXOPBLOCKS
  }

  ghost function Members(log: seq<nat>): set<nat> {
    set bn | bn in log
  }

  function Apply(d: Disk, ws: seq<Write>): (r: Disk)
  {
    if ws == [] then d
    else
      var w := ws[|ws| - 1];
      Apply(d, ws[..|ws| - 1])[w.bn := w.data]
  }

  // ---------- The header block ----------

  function HeadCount(b: Block): uint { Word(b, 0) }

  ghost predicate HeadOk(b: Block) { HeadCount(b) <= LOGSIZE }

  /** The block numbers listed in a header block. */
  function HeadList(b: Block): (lh: seq<nat>)
    requires HeadOk(b)
    ensures |lh| == HeadCount(b)
  {
    seq(HeadCount(b), i requires 0 <= i < HeadCount(b) => Word(b, i + 1))
  }

  predicate Listable(lh: seq<nat>) {
    |lh| <= LOGSIZE && forall i :: 0 <= i < |lh| ==> lh[i] <= UINT_MAX
  }

  /** The header after its count and first entries are overwritten; entries past the
      count keep what they held. */
  function PutEntries(b: Block, lh: seq<nat>, k: nat): (r: Block)
    requires Listable(lh) && k <= |lh|
  {
    if k == 0 then PutWord(b, 0, |lh|) else PutWord(PutEntries(b, lh, k - 1), k, lh[k - 1])
  }

  function PutHead(b: Block, lh: seq<nat>): (r: Block)
    requires Listable(lh)
  {
    PutEntries(b, lh, |lh|)
  }

  lemma {:induction false} PutEntriesWords(b: Block, lh: seq<nat>, k: nat, j: nat)
    requires Listable(lh) && k <= |lh| && j < WORDS
    ensures Word(PutEntries(b, lh, k), j) ==
            if j == 0 then |lh| else if j <= k then lh[j - 1] else Word(b, j)
  {
    if k == 0 {
      WordOfPut(b, 0, |lh|, j);
    } else {
      PutEntriesWords(b, lh, k - 1, j);
      WordOfPut(PutEntries(b, lh, k - 1), k, lh[k - 1], j);
    }
  }

  /** Reading back a header gives the list that was written, whatever the block held. */
  lemma HeadRoundTrip(b: Block, lh: seq<nat>)
    requires Listable(lh)
    ensures HeadOk(PutHead(b, lh)) && HeadList(PutHead(b, lh)) == lh
  {
    var r := PutHead(b, lh);
    PutEntriesWords(b, lh, |lh|, 0);
    forall i | 0 <= i < |lh|
      ensures Word(r, i + 1) == lh[i]
    {
      PutEntriesWords(b, lh, |lh|, i + 1);
    }
  }

  // ---------- What the log on disk stands for ----------

  ghost predicate HomeList(l: Layout, lh: seq<nat>) {
    Listable(lh) && Distinct(lh) && forall i :: 0 <= i < |lh| ==> l.Home(lh[i])
  }

  /** A disk whose log header lists distinct home blocks. */
  ghost predicate LogOk(l: Layout, d: Disk) {
    l.Ok() && l.Spans(d) && HeadOk(d[l.start]) && HomeList(l, HeadList(d[l.start]))
  }

  /** install_trans: copy the log area to the home locations. */
  function Installs(l: Layout, d: Disk, lh: seq<nat>): (ws: seq<Write>)
    requires l.Ok() && l.Spans(d) && |lh| <= LOGSIZE
    ensures |ws| == |lh|
  {
    seq(|lh|, i requires 0 <= i < |lh| => Write(lh[i], d[l.Slot(i)]))
  }

  /** The home contents a recovery of this disk produces. */
  ghost function Durable(l: Layout, d: Disk, bn: nat): (b: Block)
    requires LogOk(l, d) && l.Home(bn)
  {
    ApplySpans(l, d, Installs(l, d, HeadList(d[l.start])));
    Apply(d, Installs(l, d, HeadList(d[l.start])))[bn]
  }

  lemma {:induction false} ApplySpans(l: Layout, d: Disk, ws: seq<Write>)
    requires l.Spans(d) && forall i :: 0 <= i < |ws| ==> ws[i].bn < l.blocks
    ensures l.Spans(Apply(d, ws))
  {
    if ws != [] {
      ApplySpans(l, d, ws[..|ws| - 1]);
    }
  }

  lemma {:induction false} ApplyKeeps(d: Disk, ws: seq<Write>, bn: nat)
    requires bn in d && forall i :: 0 <= i < |ws| ==> ws[i].bn != bn
    ensures bn in Apply(d, ws) && Apply(d, ws)[bn] == d[bn]
  {
    if ws != [] {
      ApplyKeeps(d, ws[..|ws| - 1], bn);
    }
  }

  lemma {:induction false} ApplyLast(d: Disk, ws: seq<Write>, k: nat)
    requires k < |ws| && forall i :: k < i < |ws| ==> ws[i].bn != ws[k].bn
    ensures ws[k].bn in Apply(d, ws) && Apply(d, ws)[ws[k].bn] == ws[k].data
  {
    if k < |ws| - 1 {
      ApplyLast(d, ws[..|ws| - 1], k);
    }
  }

  /** A listed block is recovered from its log slot, any other from its home. */
  lemma DurableAt(l: Layout, d: Disk, bn: nat)
    requires LogOk(l, d) && l.Home(bn)
    ensures var lh := HeadList(d[l.start]);
            && (bn !in lh ==> Durable(l, d, bn) == d[bn])
            && (forall i :: 0 <= i < |lh| && lh[i] == bn ==> Durable(l, d, bn) == d[l.Slot(i)])
  {
    var lh: seq<nat> := HeadList(d[l.start]);
    var ws := Installs(l, d, lh);
    if bn !in lh {
      ApplyKeeps(d, ws, bn);
    }
    forall i | 0 <= i < |lh| && lh[i] == bn
      ensures Durable(l, d, bn) == d[l.Slot(i)]
    {
      ApplyLast(d, ws, i);
    }
  }

  ghost predicate SameDurable(l: Layout, d: Disk, e: Disk)
    requires LogOk(l, d)
  {
    LogOk(l, e) && forall bn: nat :: l.Home(bn) ==> Durable(l, e, bn) == Durable(l, d, bn)
  }

  /** An empty log: the home blocks are what the disk stands for. */
  ghost predicate Settled(l: Layout, d: Disk)
  {
    LogOk(l, d) && HeadCount(d[l.start]) == 0 && forall bn: nat :: l.Home(bn) ==> d[bn] == Durable(l, d, bn)
  }

  lemma EmptyLogSettled(l: Layout, d: Disk)
    requires LogOk(l, d) && HeadCount(d[l.start]) == 0
    ensures Settled(l, d)
  {
    forall bn: nat | l.Home(bn)
      ensures Durable(l, d, bn) == d[bn]
    {
      DurableAt(l, d, bn);
    }
  }

  // ---------- The four kinds of disk write ----------

  /** A write into the log area while the header is empty recovers to nothing new. */
  lemma SlotWriteDurable(l: Layout, d: Disk, i: nat, b: Block)
    requires LogOk(l, d) && HeadCount(d[l.start]) == 0 && i < LOGSIZE
    ensures var e := d[l.Slot(i) := b];
            SameDurable(l, d, e)
  {
    var e := d[l.Slot(i) := b];
    forall bn: nat | l.Home(bn)
      ensures Durable(l, e, bn) == Durable(l, d, bn)
    {
      DurableAt(l, d, bn);
      DurableAt(l, e, bn);
    }
  }

  /** Writing the header makes every slot count at once: this is the commit point. */
  lemma HeadWriteDurable(l: Layout, d: Disk, lh: seq<nat>)
    requires LogOk(l, d) && HeadCount(d[l.start]) == 0 && HomeList(l, lh)
    ensures var e := d[l.start := PutHead(d[l.start], lh)];
            && LogOk(l, e) && HeadList(e[l.start]) == lh
            && (forall i :: 0 <= i < |lh| ==> Durable(l, e, lh[i]) == d[l.Slot(i)])
            && (forall bn: nat :: l.Home(bn) && bn !in lh ==> Durable(l, e, bn) == Durable(l, d, bn))
  {
    var e := d[l.start := PutHead(d[l.start], lh)];
    HeadRoundTrip(d[l.start], lh);
    forall i | 0 <= i < |lh|
      ensures Durable(l, e, lh[i]) == d[l.Slot(i)]
    {
      DurableAt(l, e, lh[i]);
    }
    forall bn: nat | l.Home(bn) && bn !in lh
      ensures Durable(l, e, bn) == Durable(l, d, bn)
    {
      DurableAt(l, d, bn);
      DurableAt(l, e, bn);
    }
  }

  ghost predicate SameLogArea(l: Layout, d: Disk, e: Disk)
    requires l.Ok() && l.Spans(d) && l.Spans(e)
  {
    e[l.start] == d[l.start] && forall i: nat :: i < LOGSIZE ==> e[l.Slot(i)] == d[l.Slot(i)]
  }

  ghost predicate Installed(l: Layout, d: Disk, k: nat)
    requires LogOk(l, d) && k <= HeadCount(d[l.start])
  {
    var lh: seq<nat> := HeadList(d[l.start]);
    forall i: nat :: i < k ==> d[lh[i]] == d[l.Slot(i)]
  }

  /** Installing the next listed block changes the disk but not what it recovers to. */
  lemma InstallDurable(l: Layout, d: Disk, i: nat)
    requires LogOk(l, d) && i < HeadCount(d[l.start]) && Installed(l, d, i)
    ensures var e := d[HeadList(d[l.start])[i] := d[l.Slot(i)]];
            SameDurable(l, d, e) && SameLogArea(l, d, e) && Installed(l, e, i + 1)
  {
    var lh: seq<nat> := HeadList(d[l.start]);
    var e := d[lh[i] := d[l.Slot(i)]];
    assert SameLogArea(l, d, e);
    forall bn: nat | l.Home(bn)
      ensures Durable(l, e, bn) == Durable(l, d, bn)
    {
      DurableAt(l, d, bn);
      DurableAt(l, e, bn);
    }
    forall j: nat | j < i + 1
      ensures e[lh[j]] == e[l.Slot(j)]
    {
      assert j < i ==> d[lh[j]] == d[l.Slot(j)];
    }
  }

  /** Clearing the header once everything is installed recovers to nothing new. */
  lemma ClearDurable(l: Layout, d: Disk)
    requires LogOk(l, d) && Installed(l, d, HeadCount(d[l.start]))
    ensures var e := d[l.start := PutHead(d[l.start], [])];
            SameDurable(l, d, e) && Settled(l, e)
  {
    var e := d[l.start := PutHead(d[l.start], [])];
    HeadRoundTrip(d[l.start], []);
    forall bn: nat | l.Home(bn)
      ensures Durable(l, e, bn) == Durable(l, d, bn) == e[bn]
    {
      DurableAt(l, d, bn);
      DurableAt(l, e, bn);
    }
  }

  // ---------- Whole commits and recoveries, cut anywhere ----------

  ghost predicate Holds(view: Disk, lh: seq<nat>) {
    forall i :: 0 <= i < |lh| ==> lh[i] in view
  }

  /** write_log: copy the cached blocks into the log area. */
  function LogCopies(l: Layout, view: Disk, lh: seq<nat>): (ws: seq<Write>)
    requires Holds(view, lh)
    ensures |ws| == |lh|
  {
    seq(|lh|, i requires 0 <= i < |lh| => Write(l.Slot(i), view[lh[i]]))
  }

  /** install_trans after write_log: the logged contents reach their home blocks. */
  function HomeCopies(view: Disk, lh: seq<nat>): (ws: seq<Write>)
    requires Holds(view, lh)
    ensures |ws| == |lh|
  {
    seq(|lh|, i requires 0 <= i < |lh| => Write(lh[i], view[lh[i]]))
  }

  /** Every disk write of commit(), in order. */
  function CommitWrites(l: Layout, head: Block, view: Disk, lh: seq<nat>): (ws: seq<Write>)
    requires Holds(view, lh) && Listable(lh)
    ensures |ws| == 2 * |lh| + 2
  {
    LogCopies(l, view, lh) + [Write(l.start, PutHead(head, lh))] +
    HomeCopies(view, lh) + [Write(l.start, PutHead(PutHead(head, lh), []))]
  }

  /** Every disk write of recover_from_log(), in order. */
  function RecoveryWrites(l: Layout, d: Disk): (ws: seq<Write>)
    requires l.Ok() && l.Spans(d) && HeadOk(d[l.start])
    ensures |ws| == HeadCount(d[l.start]) + 1
  {
    Installs(l, d, HeadList(d[l.start])) + [Write(l.start, PutHead(d[l.start], []))]
  }

  /** The disk after `k` of a list of writes reached it. */
  function Cut(d: Disk, ws: seq<Write>, k: nat): (r: Disk)
  {
    Apply(d, if k <= |ws| then ws[..k] else ws)
  }

  lemma CutStep(d: Disk, ws: seq<Write>, k: nat)
    requires k < |ws|
    ensures Cut(d, ws, k + 1) == Cut(d, ws, k)[ws[k].bn := ws[k].data]
  {
    assert ws[..k + 1][..k] == ws[..k];
  }

  /** While a recovery is installing, nothing it reads changes. */
  lemma {:induction false} RecoveryInstalling(l: Layout, d: Disk, k: nat)
    requires LogOk(l, d) && k <= HeadCount(d[l.start])
    ensures var e := Cut(d, RecoveryWrites(l, d), k);
            SameDurable(l, d, e) && SameLogArea(l, d, e) && Installed(l, e, k)
  {
    if k > 0 {
      var ws := RecoveryWrites(l, d);
      var e := Cut(d, ws, k - 1);
      RecoveryInstalling(l, d, k - 1);
      CutStep(d, ws, k - 1);
      assert ws[k - 1] == Write(HeadList(e[l.start])[k - 1], e[l.Slot(k - 1)]);
      InstallDurable(l, e, k - 1);
    }
  }

  /** A recovery cut after any number of writes keeps what the disk recovers to; one
      that completes leaves exactly that in the home blocks and an empty log. */
  lemma RecoveryCut(l: Layout, d: Disk, k: nat)
    requires LogOk(l, d)
    ensures SameDurable(l, d, Cut(d, RecoveryWrites(l, d), k))
    ensures HeadCount(d[l.start]) < k ==> Settled(l, Cut(d, RecoveryWrites(l, d), k))
  {
    var ws := RecoveryWrites(l, d);
    var n := |ws| - 1;
    if k <= n {
      RecoveryInstalling(l, d, k);
    } else {
      RecoveryInstalling(l, d, n);
      CutStep(d, ws, n);
      ClearDurable(l, Cut(d, ws, n));
      assert ws[..n + 1] == ws == (if k <= |ws| then ws[..k] else ws);
    }
  }

  /** The disk after a series of recoveries, the i-th cut after cuts[i] writes. */
  ghost function CutRecoveries(l: Layout, d: Disk, cuts: seq<nat>): (r: Disk)
    requires LogOk(l, d)
    ensures SameDurable(l, d, r)
  {
    if cuts == [] then d
    else
      var e := CutRecoveries(l, d, cuts[..|cuts| - 1]);
      RecoveryCut(l, e, cuts[|cuts| - 1]);
      Cut(e, RecoveryWrites(l, e), cuts[|cuts| - 1])
  }

  /** Before the header write: the first k slots are filled, the rest is untouched. */
  ghost predicate Copied(l: Layout, d: Disk, e: Disk, view: Disk, lh: seq<nat>, k: nat)
    requires LogOk(l, d) && Holds(view, lh) && k <= |lh| <= LOGSIZE
  {
    SameDurable(l, d, e) && e[l.start] == d[l.start] && forall i: nat :: i < k ==> e[l.Slot(i)] == view[lh[i]]
  }

  /** After the header write: the disk recovers to the new contents, and the first k
      of them are already home. */
  ghost predicate Committed(l: Layout, d: Disk, e: Disk, view: Disk, lh: seq<nat>, k: nat)
    requires LogOk(l, d) && Holds(view, lh) && HomeList(l, lh) && k <= |lh|
  {
    && NewDurable(l, d, e, view, lh)
    && e[l.start] == PutHead(d[l.start], lh) && HeadList(e[l.start]) == lh
    && (forall i: nat :: i < |lh| ==> e[l.Slot(i)] == view[lh[i]])
    && Installed(l, e, k)
  }

  ghost predicate NewDurable(l: Layout, d: Disk, e: Disk, view: Disk, lh: seq<nat>)
    requires LogOk(l, d) && Holds(view, lh)
  {
    && LogOk(l, e)
    && forall bn: nat :: l.Home(bn) ==> Durable(l, e, bn) == if bn in lh then view[bn] else Durable(l, d, bn)
  }

  lemma {:induction false} CommitCopying(l: Layout, d: Disk, view: Disk, lh: seq<nat>, k: nat)
    requires Settled(l, d) && HomeList(l, lh) && Holds(view, lh) && k <= |lh|
    ensures Copied(l, d, Cut(d, CommitWrites(l, d[l.start], view, lh), k), view, lh, k)
  {
    var ws := CommitWrites(l, d[l.start], view, lh);
    if k > 0 {
      CommitCopying(l, d, view, lh, k - 1);
      CutStep(d, ws, k - 1);
      assert ws[k - 1] == Write(l.Slot(k - 1), view[lh[k - 1]]);
      SlotWriteDurable(l, Cut(d, ws, k - 1), k - 1, view[lh[k - 1]]);
    }
  }

  /** The header write turns a disk that recovers to the old contents into one that
      recovers to the new. */
  lemma CommitPoint(l: Layout, d: Disk, e: Disk, view: Disk, lh: seq<nat>)
    requires Settled(l, d) && HomeList(l, lh) && Holds(view, lh) && Copied(l, d, e, view, lh, |lh|)
    ensures Committed(l, d, e[l.start := PutHead(d[l.start], lh)], view, lh, 0)
  {
    HeadWriteDurable(l, e, lh);
    var e' := e[l.start := PutHead(d[l.start], lh)];
    forall bn: nat | l.Home(bn)
      ensures Durable(l, e', bn) == if bn in lh then view[bn] else Durable(l, d, bn)
    {
      if bn in lh {
        var i: nat :| i < |lh| && lh[i] == bn;
        assert e[l.Slot(i)] == view[lh[i]];
      }
    }
  }

  lemma CommitInstallNext(l: Layout, d: Disk, e: Disk, view: Disk, lh: seq<nat>, k: nat)
    requires Settled(l, d) && HomeList(l, lh) && Holds(view, lh) && k < |lh| && Committed(l, d, e, view, lh, k)
    ensures Committed(l, d, e[lh[k] := view[lh[k]]], view, lh, k + 1)
  {
    InstallDurable(l, e, k);
  }

  lemma CommitWriteAt(l: Layout, head: Block, view: Disk, lh: seq<nat>, k: nat)
    requires Holds(view, lh) && Listable(lh)
    ensures var ws := CommitWrites(l, head, view, lh);
            ws[|lh|] == Write(l.start, PutHead(head, lh)) && (k < |lh| ==> ws[|lh| + 1 + k] == Write(lh[k], view[lh[k]]))
  {
    hide PutEntries;
  }

  lemma {:induction false} CommitInstalling(l: Layout, d: Disk, view: Disk, lh: seq<nat>, k: nat)
    requires Settled(l, d) && HomeList(l, lh) && Holds(view, lh) && k <= |lh|
    ensures Committed(l, d, Cut(d, CommitWrites(l, d[l.start], view, lh), |lh| + 1 + k), view, lh, k)
  {
    hide Durable; hide Apply; hide Distinct; hide PutHead; hide CommitWrites; hide Cut; hide Committed;
    hide SameDurable; hide Copied;
    var n := |lh|;
    var ws := CommitWrites(l, d[l.start], view, lh);
    var e := Cut(d, ws, n + k);
    CutStep(d, ws, n + k);
    if k == 0 {
      CommitCopying(l, d, view, lh, n);
      CommitWriteAt(l, d[l.start], view, lh, 0);
      CommitPoint(l, d, e, view, lh);
    } else {
      CommitInstalling(l, d, view, lh, k - 1);
      CommitWriteAt(l, d[l.start], view, lh, k - 1);
      CommitInstallNext(l, d, e, view, lh, k - 1);
    }
  }

  /** What a commit cut after any number of writes recovers to. */
  lemma CommitCut(l: Layout, d: Disk, view: Disk, lh: seq<nat>, k: nat)
    requires Settled(l, d) && HomeList(l, lh) && Holds(view, lh)
    ensures k <= |lh| ==> SameDurable(l, d, Cut(d, CommitWrites(l, d[l.start], view, lh), k))
    ensures k > |lh| ==> NewDurable(l, d, Cut(d, CommitWrites(l, d[l.start], view, lh), k), view, lh)
  {
    hide Durable; hide Apply; hide Distinct; hide PutHead; hide CommitWrites; hide Cut; hide SameDurable;
    hide Installed; hide NewDurable;
    var n := |lh|;
    if k <= n {
      CommitCopying(l, d, view, lh, k);
    } else if k <= 2 * n + 1 {
      CommitInstalling(l, d, view, lh, k - n - 1);
    } else {
      CommitInstalling(l, d, view, lh, n);
      CommitCleared(l, d, view, lh, k);
    }
  }

  lemma CommitCleared(l: Layout, d: Disk, view: Disk, lh: seq<nat>, k: nat)
    requires Settled(l, d) && HomeList(l, lh) && Holds(view, lh) && k > 2 * |lh| + 1
    requires Committed(l, d, Cut(d, CommitWrites(l, d[l.start], view, lh), 2 * |lh| + 1), view, lh, |lh|)
    ensures NewDurable(l, d, Cut(d, CommitWrites(l, d[l.start], view, lh), k), view, lh)
    ensures Settled(l, Cut(d, CommitWrites(l, d[l.start], view, lh), k))
  {
    hide Durable; hide Apply; hide Distinct; hide PutEntries;
    var n := |lh|;
    var ws := CommitWrites(l, d[l.start], view, lh);
    CutStep(d, ws, 2 * n + 1);
    assert ws[2 * n + 1] == Write(l.start, PutHead(PutHead(d[l.start], lh), []));
    assert ws[..2 * n + 2] == ws == (if k <= |ws| then ws[..k] else ws);
    hide CommitWrites;
    ClearDurable(l, Cut(d, ws, 2 * n + 1));
  }

  /** Crash atomicity: cut a commit after any number of writes, cut any number of
      recoveries anywhere, then let one recovery finish.  Every home block is as it was
      before the commit, or every logged block is new; new exactly when the first
      header write reached the disk. */
  lemma CrashAtomicity(l: Layout, d: Disk, view: Disk, lh: seq<nat>, k: nat, cuts: seq<nat>)
    requires LogOk(l, d) && HeadCount(d[l.start]) == 0 && HomeList(l, lh) && Holds(view, lh)
    ensures var crashed := Cut(d, CommitWrites(l, d[l.start], view, lh), k);
            LogOk(l, crashed) &&
            var before := CutRecoveries(l, crashed, cuts);
            var after := Apply(before, RecoveryWrites(l, before));
            && l.Spans(after) && HeadCount(after[l.start]) == 0
            && (k <= |lh| ==> forall bn: nat :: l.Home(bn) ==> after[bn] == d[bn])
            && (k > |lh| ==> forall bn: nat :: l.Home(bn) ==> after[bn] == if bn in lh then view[bn] else d[bn])
  {
    EmptyLogSettled(l, d);
    CommitCut(l, d, view, lh, k);
    var before := CutRecoveries(l, Cut(d, CommitWrites(l, d[l.start], view, lh), k), cuts);
    var ws := RecoveryWrites(l, before);
    RecoveryCut(l, before, |ws|);
    assert ws[..|ws|] == ws;
  }
}
