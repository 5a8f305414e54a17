/** The code of kernel/log.c under the group-commit machine: each function, called by a thread
    of the machine, has the effect of that thread's step, and end_op of the last operation that
    of all the committer's steps, so that on its return the whole group is on the disk. */
module LogSteps {
  import opened Basics
  import opened Blocks
  import opened RedoLog
  import opened LogCode
  import opened GroupCommit

  /** The log in memory and on disk is the machine's. */
  ghost predicate Shows(log: Log, s: State)
    reads log
  {
    && log.disk == s.disk && log.cache == s.cache && log.refcnt == s.refcnt && log.lh == s.lh
    && log.outstanding == s.outstanding && log.committing == s.committing
  }

  // ---------- The committer undisturbed ----------

  ghost function Commits(l: Layout, s: State, n: nat): State {
    if n == 0 then s else Step(l, Commits(l, s, n - 1), CommitStep)
  }

  /** A commit is about to start, and no thread holds a buffer that it will need. */
  ghost predicate Ready(l: Layout, s: State) {
    && Inv(l, s) && s.committing && s.phase == (if |s.lh| > 0 then WritingLog(0) else Finishing)
    && forall bn :: bn in s.lh ==> Unheld(s, bn)
  }

  lemma {:induction false} CommitsInv(l: Layout, s: State, n: nat)
    requires Inv(l, s)
    ensures Inv(l, Commits(l, s, n))
  {
    hide Inv; hide Do; hide Enabled;
    if n > 0 {
      CommitsInv(l, s, n - 1);
      if Enabled(l, Commits(l, s, n - 1), CommitStep) {
        StepOk(l, Commits(l, s, n - 1), CommitStep);
      }
    }
  }

  /** What the committer reads. */
  lemma ReadsCommit(l: Layout, s: State)
    requires Inv(l, s) && InCommit(s.phase)
    ensures l.Ok() && l.Spans(s.disk) && HomeList(l, s.lh) && Changing(s.threads) == {}
    ensures s.phase.WritingLog? || s.phase.WritingHead? ==> Settled(l, s.disk) && RedoLog.Holds(s.cache, s.lh)
    ensures forall bn: nat :: l.start <= bn < l.start + l.nlog ==>
              bn in s.disk && Read(s.disk, s.cache, bn) == s.disk[bn]
  {
    hide Apply; hide Durables; hide Settled; hide Installed; hide RefsOk; hide ThreadsOk; hide HeadList; hide ValueOk;
    QuietParts(l, s);
    InvParts(l, s);
  }

  /** The first k slots have been written. */
  lemma {:induction false} CopyPhase(l: Layout, s: State, k: nat)
    requires Ready(l, s) && |s.lh| > 0 && k <= |s.lh|
    ensures l.start in s.disk && RedoLog.Holds(s.cache, s.lh) && Listable(s.lh)
    ensures var ws := CommitWrites(l, s.disk[l.start], s.cache, s.lh);
            Commits(l, s, k) == s.(disk := Apply(s.disk, ws[..k]), cache := Apply(s.cache, ws[..k]), phase := WritingLog(k))
  {
    hide Inv; hide Apply; hide CommitWrites; hide Settled; hide PutHead; hide Unheld; hide Do; hide Enabled;
    hide Commits;
    assert Commits(l, s, 0) == s by { CommitsAre(l, s, 0); }
    ReadsCommit(l, s);
    var ws := CommitWrites(l, s.disk[l.start], s.cache, s.lh);
    if k == 0 {
      NoWrites(s.disk);
      NoWrites(s.cache);
      assert ws[..0] == [];
    } else {
      CopyPhase(l, s, k - 1);
      CommitsAre(l, s, k);
      CommitsInv(l, s, k - 1);
      var m := Commits(l, s, k - 1);
      ReadsCommit(l, m);
      SlotWrite(l, s.disk, s.disk[l.start], s.cache, s.lh, k - 1);
      ApplyNext(s.disk, ws, k - 1);
      ApplyNext(s.cache, ws, k - 1);
      UnheldSame(s, m, s.lh[k - 1]);
      CopyStep(l, m, s.cache[s.lh[k - 1]]);
    }
  }

  lemma UnheldSame(s: State, m: State, bn: nat)
    requires Unheld(s, bn) && m.threads == s.threads
    ensures Unheld(m, bn)
  {
  }

  lemma CommitsAre(l: Layout, s: State, n: nat)
    ensures n == 0 ==> Commits(l, s, n) == s
    ensures n > 0 ==> Commits(l, s, n) == Step(l, Commits(l, s, n - 1), CommitStep)
  {
  }

  /** The k-th write of a commit goes to slot k, and does not change what it copies. */
  lemma SlotWrite(l: Layout, d: Disk, head: Block, view: Disk, lh: seq<nat>, k: nat)
    requires RedoLog.Holds(view, lh) && HomeList(l, lh) && k < |lh| && l.Ok()
    ensures var ws := CommitWrites(l, head, view, lh);
            && ws[k] == Write(l.Slot(k), view[lh[k]])
            && lh[k] in Apply(view, ws[..k]) && Apply(view, ws[..k])[lh[k]] == view[lh[k]]
  {
    hide PutHead; hide Distinct;
    var ws := CommitWrites(l, head, view, lh);
    assert forall i :: 0 <= i < k ==> ws[..k][i].bn == l.Slot(i);
    ApplyKeeps(view, ws[..k], lh[k]);
  }

  lemma CopyStep(l: Layout, m: State, v: Block)
    requires m.phase.WritingLog? && m.phase.tail < |m.lh| && l.Ok() && l.Spans(m.disk) && HomeList(l, m.lh)
    requires Unheld(m, m.lh[m.phase.tail]) && m.lh[m.phase.tail] in m.cache && m.cache[m.lh[m.phase.tail]] == v
    ensures Step(l, m, CommitStep) ==
            m.(disk := m.disk[l.Slot(m.phase.tail) := v], cache := m.cache[l.Slot(m.phase.tail) := v], phase := WritingLog(m.phase.tail + 1))
  {
  }

  /** The header has been written: two more steps. */
  lemma HeadPhase(l: Layout, s: State)
    requires Ready(l, s) && |s.lh| > 0
    ensures l.start in s.disk && RedoLog.Holds(s.cache, s.lh) && Listable(s.lh)
    ensures var ws, n := CommitWrites(l, s.disk[l.start], s.cache, s.lh), |s.lh| + 1;
            Commits(l, s, n + 1) == s.(disk := Apply(s.disk, ws[..n]), cache := Apply(s.cache, ws[..n]), phase := Installing(0), pending := [])
  {
    hide Inv; hide Apply; hide CommitWrites; hide Settled; hide PutHead; hide Commits; hide HomeList;
    var n := |s.lh|;
    CopyPhase(l, s, n);
    var ws := CommitWrites(l, s.disk[l.start], s.cache, s.lh);
    CommitsAre(l, s, n + 1);
    CommitsAre(l, s, n + 2);
    var m := Commits(l, s, n);
    CommitsInv(l, s, n);
    ReadsCommit(l, s);
    ReadsCommit(l, m);
    HeadKept(l, s.disk, s.cache, s.lh);
    CommitWriteAt(l, s.disk[l.start], s.cache, s.lh, 0);
    ApplyNext(s.disk, ws, n);
    ApplyNext(s.cache, ws, n);
  }

  lemma HeadKept(l: Layout, d: Disk, view: Disk, lh: seq<nat>)
    requires RedoLog.Holds(view, lh) && Listable(lh) && l.start in d
    ensures var ws := CommitWrites(l, d[l.start], view, lh);
            l.start in Apply(d, ws[..|lh|]) && Apply(d, ws[..|lh|])[l.start] == d[l.start]
  {
    hide PutHead;
    var ws := CommitWrites(l, d[l.start], view, lh);
    assert forall i :: 0 <= i < |lh| ==> ws[..|lh|][i].bn == l.Slot(i);
    ApplyKeeps(d, ws[..|lh|], l.start);
  }

  /** k blocks have been installed and unpinned. */
  lemma {:induction false} InstallPhase(l: Layout, s: State, k: nat)
    requires Ready(l, s) && |s.lh| > 0 && k <= |s.lh|
    ensures l.start in s.disk && RedoLog.Holds(s.cache, s.lh) && Listable(s.lh)
    ensures var ws, n := CommitWrites(l, s.disk[l.start], s.cache, s.lh), |s.lh| + 1;
            Commits(l, s, n + 1 + k) ==
            s.(disk := Apply(s.disk, ws[..n + k]), cache := Apply(s.cache, ws[..n + k]), phase := Installing(k), pending := [],
               refcnt := Unpinned(s.refcnt, s.lh[..k]))
  {
    hide Inv; hide Apply; hide CommitWrites; hide Settled; hide PutHead; hide Commits; hide Do; hide Enabled;
    hide Unheld; hide Unpinned;
    HeadPhase(l, s);
    var ws, n := CommitWrites(l, s.disk[l.start], s.cache, s.lh), |s.lh| + 1;
    if k == 0 {
      assert s.lh[..0] == [];
      assert Unpinned(s.refcnt, []) == s.refcnt by { UnpinNone(s.refcnt); }
    } else {
      InstallPhase(l, s, k - 1);
      CommitsAre(l, s, n + 1 + k);
      var m := Commits(l, s, n + k);
      CommitsInv(l, s, n + k);
      ReadsCommit(l, s);
      ReadsCommit(l, m);
      LogSlots(l, s.disk, s.cache, s.lh, k - 1);
      CommitWriteAt(l, s.disk[l.start], s.cache, s.lh, k - 1);
      ApplyNext(s.disk, ws, n + k - 1);
      ApplyNext(s.cache, ws, n + k - 1);
      UnpinNext(s.refcnt, s.lh, k - 1);
      UnheldSame(s, m, s.lh[k - 1]);
      InstallOne(l, m, s.cache[s.lh[k - 1]]);
    }
  }

  lemma UnpinNone(r: Refs)
    ensures Unpinned(r, []) == r
  {
  }

  /** While a commit installs, the slots hold the new contents and the header lists them. */
  lemma LogSlots(l: Layout, d: Disk, view: Disk, lh: seq<nat>, k: nat)
    requires Settled(l, d) && HomeList(l, lh) && RedoLog.Holds(view, lh) && k <= |lh|
    ensures var e := Apply(d, CommitWrites(l, d[l.start], view, lh)[..|lh| + 1 + k]);
            && l.Spans(e) && e[l.start] == PutHead(d[l.start], lh)
            && forall i: nat :: i < |lh| ==> e[l.Slot(i)] == view[lh[i]]
  {
    hide Apply; hide Durable; hide CommitWrites; hide PutHead; hide Distinct;
    CommitInstalling(l, d, view, lh, k);
  }

  lemma InstallOne(l: Layout, m: State, v: Block)
    requires m.phase.Installing? && m.phase.tail < |m.lh| && l.Ok() && l.Spans(m.disk) && HomeList(l, m.lh)
    requires Unheld(m, m.lh[m.phase.tail]) && Read(m.disk, m.cache, l.Slot(m.phase.tail)) == v
    ensures var bn := m.lh[m.phase.tail];
            Step(l, m, CommitStep) ==
            m.(disk := m.disk[bn := v], cache := m.cache[bn := v], refcnt := Bump(m.refcnt, bn, -1), phase := Installing(m.phase.tail + 1))
  {
  }

  /** The machine's committer, undisturbed, does what commit() does. */
  lemma CommitPhase(l: Layout, s: State) returns (n: nat)
    requires Ready(l, s)
    ensures l.start in s.disk && RedoLog.Holds(s.cache, s.lh) && Listable(s.lh)
    ensures var ws := CommitList(l, s.disk, s.cache, s.lh);
            Commits(l, s, n) ==
            s.(disk := Apply(s.disk, ws), cache := Apply(s.cache, ws), phase := Running, pending := [],
               refcnt := Unpinned(s.refcnt, s.lh), lh := [], committing := false)
  {
    hide Inv; hide Apply; hide CommitWrites; hide Settled; hide PutHead; hide Commits; hide Unpinned; hide HomeList;
    ReadsCommit(l, s);
    ListableHome(l, s.lh);
    if s.lh == [] {
      n := 1;
      CommitsAre(l, s, 0);
      CommitsAre(l, s, 1);
      NoWrites(s.disk);
      NoWrites(s.cache);
      UnpinNone(s.refcnt);
      PendingNone(l, s);
    } else {
      n := ClearPhase(l, s);
    }
  }

  lemma ListableHome(l: Layout, lh: seq<nat>)
    requires HomeList(l, lh)
    ensures Listable(lh)
  {
  }

  lemma PendingNone(l: Layout, s: State)
    requires Inv(l, s) && s.lh == []
    ensures s.pending == [] && RedoLog.Holds(s.cache, s.lh)
  {
  }

  /** The last steps: leave install_trans, clear the header, end the commit. */
  lemma ClearPhase(l: Layout, s: State) returns (n: nat)
    requires Ready(l, s) && |s.lh| > 0
    ensures l.start in s.disk && RedoLog.Holds(s.cache, s.lh) && Listable(s.lh)
    ensures var ws := CommitWrites(l, s.disk[l.start], s.cache, s.lh);
            Commits(l, s, n) ==
            s.(disk := Apply(s.disk, ws), cache := Apply(s.cache, ws), phase := Running, pending := [],
               refcnt := Unpinned(s.refcnt, s.lh), lh := [], committing := false)
  {
    hide Inv; hide Apply; hide CommitWrites; hide Settled; hide PutHead; hide Commits; hide Unpinned;
    hide HomeList; hide Unheld;
    hide Do; hide Enabled; hide Step;
    var k := |s.lh|;
    n := 2 * k + 5;
    InstallPhase(l, s, k);
    assert s.lh[..k] == s.lh;
    var ws := CommitWrites(l, s.disk[l.start], s.cache, s.lh);
    var m := Commits(l, s, 2 * k + 2);
    CommitsAre(l, s, 2 * k + 3);
    CommitsAre(l, s, 2 * k + 4);
    CommitsAre(l, s, 2 * k + 5);
    CommitsInv(l, s, 2 * k + 2);
    ReadsCommit(l, s);
    ReadsCommit(l, m);
    ListableHome(l, s.lh);
    LogSlots(l, s.disk, s.cache, s.lh, k);
    LastWrite(l, s.disk[l.start], s.cache, s.lh);
    ApplyNext(s.disk, ws, 2 * k + 1);
    ApplyNext(s.cache, ws, 2 * k + 1);
    assert ws[..2 * k + 2] == ws;
    LeaveInstall(l, m);
    ClearOne(l, m.(lh := [], phase := Clearing), m.disk[l.start]);
  }

  lemma LeaveInstall(l: Layout, m: State)
    requires m.phase == Installing(|m.lh|) && l.Ok() && l.Spans(m.disk) && Listable(m.lh)
    ensures Step(l, m, CommitStep) == m.(lh := [], phase := Clearing)
  {
  }

  lemma ClearOne(l: Layout, m: State, head: Block)
    requires m.phase == Clearing && m.lh == [] && l.Ok() && l.Spans(m.disk) && l.start in m.disk
    requires Read(m.disk, m.cache, l.start) == head
    ensures var r := m.(disk := m.disk[l.start := PutHead(head, [])], cache := m.cache[l.start := PutHead(head, [])], phase := Finishing);
            Step(l, m, CommitStep) == r && Step(l, r, CommitStep) == r.(committing := false, phase := Running)
  {
    hide PutHead;
  }

  lemma LastWrite(l: Layout, head: Block, view: Disk, lh: seq<nat>)
    requires RedoLog.Holds(view, lh) && Listable(lh)
    ensures CommitWrites(l, head, view, lh)[2 * |lh| + 1] == Write(l.start, PutHead(PutHead(head, lh), []))
  {
    hide PutHead;
  }

  /** What a commit leaves in the home blocks is what readers saw. */
  lemma CommitDurables(l: Layout, s: State, d: Disk)
    requires Ready(l, s) && l.start in s.disk && RedoLog.Holds(s.cache, s.lh) && Listable(s.lh)
    requires d == Apply(s.disk, CommitList(l, s.disk, s.cache, s.lh))
    ensures LogOk(l, s.disk) && LogOk(l, d) && Durables(l, d) == Apply(Durables(l, s.disk), s.pending)
  {
    hide Apply; hide CommitList; hide Durable; hide LogOk; hide RefsOk; hide ThreadsOk; hide HomeList;
    InvParts(l, s);
    QuietParts(l, s);
    SettledStart(l, s);
    CommitDone(l, s.disk, s.cache, s.lh);
    SettledLogOk(l, d);
    var now := Apply(Durables(l, s.disk), s.pending);
    forall bn: nat | l.Home(bn)
      ensures bn in now && Durable(l, d, bn) == now[bn]
    {
      assert Read(s.disk, s.cache, bn) == now[bn];
      UnlistedClean(l, s, bn);
    }
  }

  lemma SettledStart(l: Layout, s: State)
    requires Ready(l, s)
    ensures Settled(l, s.disk)
  {
  }

  lemma UnlistedClean(l: Layout, s: State, bn: nat)
    requires Ready(l, s) && l.Home(bn)
    ensures bn in s.disk && (bn !in s.lh ==> Read(s.disk, s.cache, bn) == s.disk[bn]) && (bn in s.lh ==> bn in s.cache)
  {
    hide Durables; hide Apply; hide Settled; hide RefsOk; hide ThreadsOk; hide ValueOk;
    QuietParts(l, s);
  }

  // ---------- The committer among other threads ----------

  /** The commit that was ready in s: first what the group wrote is pending, then durable. */
  ghost predicate Underway(l: Layout, s: State, r: State) {
    && Inv(l, r) && LogOk(l, s.disk) && LogOk(l, r.disk) && InCommit(r.phase)
    && (if r.phase.WritingLog? || r.phase.WritingHead? then Durables(l, r.disk) == Durables(l, s.disk) && r.pending == s.pending
        else Durables(l, r.disk) == Apply(Durables(l, s.disk), s.pending) && r.pending == [])
  }

  lemma ReadyUnderway(l: Layout, s: State)
    requires Inv(l, s) && s.committing && s.phase == (if |s.lh| > 0 then WritingLog(0) else Finishing)
    ensures LogOk(l, s.disk) && Underway(l, s, s)
  {
    hide Durables; hide LogOk; hide Inv;
    InvParts(l, s);
    if s.lh == [] {
      PendingNone(l, s);
      hide Apply;
      NoWrites(Durables(l, s.disk));
    }
  }

  lemma UnderwayStep(l: Layout, s: State, m: State, a: Action)
    requires Underway(l, s, m) && InBudget(m, a) && !a.Crash?
    ensures var r := Step(l, m, a);
            Underway(l, s, r) || (a.CommitStep? && m.phase.Finishing? && Inv(l, r) && r.phase.Running? && r.disk == m.disk && r.pending == [])
  {
    hide Inv; hide Durables; hide Apply; hide LogOk; hide InBudget;
    InvParts(l, m);
    if Enabled(l, m, a) {
      StepOk(l, m, a);
      InvParts(l, Do(l, m, a));
      PhaseMoves(l, m, a);
    }
  }

  /** Only the committer moves a commit on, and no operation begins meanwhile. */
  lemma PhaseMoves(l: Layout, m: State, a: Action)
    requires Inv(l, m) && InCommit(m.phase) && Enabled(l, m, a) && !a.Crash?
    ensures !a.Begin? && !a.End? && !a.LogWrite? && !a.RecoverStep?
    ensures var r := Do(l, m, a);
            if !a.CommitStep? then r.phase == m.phase
            else if m.phase.WritingLog? then r.phase.WritingLog? || r.phase.WritingHead?
            else if m.phase.Finishing? then r.phase.Running? && r.disk == m.disk && r.pending == m.pending
            else r.phase.Installing? || r.phase.Clearing? || r.phase.Finishing?
    ensures LogOk(l, m.disk) && Abs(l, m).active == {}
  {
    hide Durables; hide LogOk; hide HomeList; hide Inv; hide PutHead; hide HeadList; hide RefsOk; hide ThreadsOk;
    hide CacheOk; hide DiskOk; hide ValueOk; hide Changing; hide Reserved; hide Unwritten; hide DirtySet;
    InvParts(l, m);
    QuietParts(l, m);
    hide Abs;
  }

  /** Whatever other threads do while a commit runs, wherever the committer has to wait for
      them: when it is over, the whole group is durable. */
  lemma {:induction false} GroupDurable(l: Layout, s: State, acts: seq<Action>)
    requires Inv(l, s) && s.committing && s.phase == (if |s.lh| > 0 then WritingLog(0) else Finishing)
    requires Budgeted(l, s, acts) && (forall i :: 0 <= i < |acts| ==> !acts[i].Crash?)
    requires forall i: nat :: i < |acts| ==> InCommit(Run(l, s, acts[..i]).phase)
    ensures LogOk(l, s.disk)
    ensures var r := Run(l, s, acts);
            || Underway(l, s, r)
            || (Inv(l, r) && r.phase.Running? && LogOk(l, r.disk) && r.pending == []
                && Durables(l, r.disk) == Apply(Durables(l, s.disk), s.pending))
  {
    hide Inv; hide InBudget; hide Enabled; hide Do; hide LogOk; hide Durables; hide Apply; hide Step;
    ReadyUnderway(l, s);
    if acts != [] {
      var n := |acts| - 1;
      var pre := acts[..n];
      assert forall i: nat :: i < n ==> pre[..i] == acts[..i] && pre[i] == acts[i];
      GroupDurable(l, s, pre);
      assert InBudget(Run(l, s, acts[..n]), acts[n]);
      assert InCommit(Run(l, s, acts[..n]).phase);
      UnderwayStep(l, s, Run(l, s, pre), acts[n]);
    }
  }

  // ---------- The functions of log.c, called by a thread ----------

  /** begin_op's test passes exactly when the machine lets the thread begin. */
  method BeginOp(log: Log, ghost s: State, ghost t: nat) returns (admitted: bool, ghost s': State)
    requires Shows(log, s) && Up(s) && t < |s.threads| && !s.threads[t].inOp
    modifies log`outstanding
    ensures admitted <==> Enabled(log.l, s, Begin(t))
    ensures s' == (if admitted then Do(log.l, s, Begin(t)) else s) && Shows(log, s')
  {
    admitted := log.TryBegin();
    s' := if admitted then Do(log.l, s, Begin(t)) else s;
  }

  /** log_write of a thread within its budget: it does not panic. */
  method LogWriteOp(log: Log, ghost s: State, ghost t: nat, bn: nat) returns (ok: bool)
    requires Shows(log, s) && Inv(log.l, s) && Enabled(log.l, s, LogWrite(t, bn)) && InBudget(s, LogWrite(t, bn))
    modifies log`lh, log`refcnt
    ensures ok && Shows(log, Do(log.l, s, LogWrite(t, bn)))
  {
    hide Inv;
    LogWriteFits(log.l, s, t, bn);
    ok := log.LogWrite(bn);
  }

  /** end_op never panics.  It returns with the machine running: after the last operation of a
      group the committer has done all its steps and the group is durable, otherwise nothing
      has happened to the disk. */
  method EndOp(log: Log, ghost s: State, ghost t: nat) returns (ok: bool, ghost s': State)
    requires Shows(log, s) && log.Traced() && Inv(log.l, s) && Enabled(log.l, s, End(t))
    requires forall bn :: bn in s.lh ==> Unheld(Do(log.l, s, End(t)), bn)
    modifies log
    ensures ok && Shows(log, s') && s'.phase.Running? && LogOk(log.l, s.disk) && LogOk(log.l, s'.disk)
    ensures var m := Do(log.l, s, End(t));
            if Abs(log.l, m).active == {} then
              (exists n: nat :: s' == Commits(log.l, m, n)) && Durables(log.l, s'.disk) == Apply(Durables(log.l, s.disk), s.pending) && s'.pending == []
            else s' == m
  {
    hide Apply; hide Durables; hide Commits; hide CommitList; hide Unpinned; hide LogOk; hide Settled;
    hide HomeList; hide Inv; hide Unheld;
    ghost var m := Do(log.l, s, End(t));
    EndReady(log, s, t, m);
    s' := m;
    ghost var before := s;
    if m.committing {
      ghost var n := CommitPhase(log.l, m);
      s' := Commits(log.l, m, n);
      CommitDurables(log.l, m, Apply(m.disk, CommitList(log.l, m.disk, m.cache, m.lh)));
    }
    ok := log.EndOp();
  }

  /** The state after the thread has left its operation. */
  lemma EndReady(log: Log, s: State, t: nat, m: State)
    requires Shows(log, s) && log.Traced() && Inv(log.l, s) && Enabled(log.l, s, End(t)) && m == Do(log.l, s, End(t))
    requires forall bn :: bn in s.lh ==> Unheld(m, bn)
    ensures LogOk(log.l, s.disk) && !s.committing && m.disk == s.disk && m.cache == s.cache
    ensures m.refcnt == s.refcnt && m.lh == s.lh
    ensures m.pending == s.pending && m.outstanding == s.outstanding - 1 && (m.committing <==> m.outstanding == 0)
    ensures m.committing <==> Abs(log.l, m).active == {}
    ensures if m.committing then Ready(log.l, m) && log.CanCommit() else m.phase.Running?
  {
    hide LogOk; hide Durables; hide HomeList; hide Inv;
    InvParts(log.l, s);
    EndOk(log.l, s, t);
    InvParts(log.l, m);
    NoneActive(log.l, m);
    hide Abs;
    if m.committing {
      ReadyCommits(log, m);
    }
  }

  lemma NoneActive(l: Layout, m: State)
    requires Inv(l, m)
    ensures LogOk(l, m.disk) && (m.outstanding == 0 <==> Abs(l, m).active == {})
  {
    hide Durables; hide LogOk; hide HomeList; hide CacheOk; hide DiskOk; hide ValueOk; hide RefsOk;
    hide Count; hide Reserved;
    forall u: nat | u < |m.threads|
      ensures Reserve(m.threads[u]) >= 0
    {
      assert ThreadOk(l, m.cache, m.lh, m.threads[u]);
    }
    ReservedBounds(m.threads);
    if Abs(l, m).active == {} {
      forall t: nat | t < |m.threads|
        ensures !m.threads[t].inOp
      {
        assert t !in Abs(l, m).active;
      }
    }
  }

  lemma ReadyCommits(log: Log, m: State)
    requires Ready(log.l, m) && log.Traced() && log.disk == m.disk && log.cache == m.cache && log.lh == m.lh
    ensures log.CanCommit()
  {
    hide Durables; hide Apply; hide Settled; hide RefsOk; hide ThreadsOk; hide ValueOk; hide HeadList; hide DiskOk;
    QuietParts(log.l, m);
    InvParts(log.l, m);
  }
}
