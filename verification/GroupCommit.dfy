/** Concurrent file-system operations sharing the log, step by step: kernel threads enter
    and leave operations, lock and change cached buffers, the last one out commits, buffers
    are recycled, and the machine may stop at any step and recover.  A step is what happens
    between two lock operations or between two disk writes. */
module GroupCommit {
  import opened Basics
  import opened Blocks
  import opened RedoLog
  import opened LogCode

  // ---------- State ----------

  /** What a thread has of a buffer: a count in refcnt, or also its sleep-lock (dirty once
      the buffer is changed and not yet passed to log_write). */
  datatype Use = Counted | Held(dirty: bool)

  /** `logged` is the set of blocks the thread has passed to log_write in this operation. */
  datatype Thread = Thread(inOp: bool, logged: set<nat>, bufs: map<nat, Use>)

  datatype Phase =
    | Running
    | WritingLog(tail: nat) | WritingHead | Installing(tail: nat) | Clearing | Finishing
    | Booting | Replaying(tail: nat) | Wiping
    | Panicked

  /** `pending` is history: the log_writes not yet committed, oldest first. */
  datatype State = State(
    disk: Disk, cache: Disk, refcnt: Refs, lh: seq<nat>,
    outstanding: int, committing: bool, threads: seq<Thread>, phase: Phase,
    pending: seq<Write>)

  datatype Action =
    | Begin(t: nat) | End(t: nat)
    | Ref(t: nat, bn: nat) | Lock(t: nat, bn: nat) | Modify(t: nat, bn: nat, data: Block) | LogWrite(t: nat, bn: nat)
    | Unlock(t: nat, bn: nat) | Unref(t: nat, bn: nat)
    | Recycle(bn: nat)
    | CommitStep
    | Crash | RecoverStep

  const IDLE := Thread(false, {}, map[])

  ghost predicate Up(s: State) {
    !s.phase.Panicked? && !s.phase.Booting? && !s.phase.Replaying? && !s.phase.Wiping?
  }

  predicate Locks(th: Thread, bn: nat) {
    bn in th.bufs && th.bufs[bn].Held?
  }

  /** Blocks that the thread has changed and not yet logged. */
  function DirtySet(th: Thread): set<nat> {
    set bn | bn in th.bufs && th.bufs[bn] == Held(true)
  }

  ghost predicate Unheld(s: State, bn: nat) {
    forall u :: 0 <= u < |s.threads| ==> !Locks(s.threads[u], bn)
  }

  /** When a step can be taken; a thread that cannot take it sleeps or spins.  A buffer is
      recycled when its reference count is 0, whoever may use it. */
  ghost predicate Enabled(l: Layout, s: State, a: Action)
  {
    match a
    case Begin(t) => Up(s) && t < |s.threads| && !s.threads[t].inOp && Admits(s.committing, |s.lh|, s.outstanding)
    case End(t) => Up(s) && t < |s.threads| && s.threads[t].inOp && DirtySet(s.threads[t]) == {}
    case Ref(t, bn) => Up(s) && t < |s.threads| && bn !in s.threads[t].bufs && l.Home(bn)
    case Lock(t, bn) =>
      Up(s) && t < |s.threads| && bn in s.threads[t].bufs && s.threads[t].bufs[bn].Counted? && Unheld(s, bn) && bn in s.disk
    case Modify(t, bn, data) => Up(s) && t < |s.threads| && s.threads[t].inOp && Locks(s.threads[t], bn)
    case LogWrite(t, bn) => Up(s) && t < |s.threads| && s.threads[t].inOp && Locks(s.threads[t], bn) && bn in s.cache
    case Unlock(t, bn) => Up(s) && t < |s.threads| && Locks(s.threads[t], bn) && bn !in DirtySet(s.threads[t])
    case Unref(t, bn) => Up(s) && t < |s.threads| && bn in s.threads[t].bufs && s.threads[t].bufs[bn].Counted?
    case Recycle(bn) => Up(s) && bn in s.cache && Refcnt(s.refcnt, bn) == 0
    case CommitStep =>
      && l.Ok() && l.Spans(s.disk) && Listable(s.lh)
      && (match s.phase
          case WritingLog(tail) => tail < |s.lh| ==> Unheld(s, s.lh[tail]) && s.lh[tail] in s.disk
          case WritingHead => true
          case Installing(tail) => tail < |s.lh| <= LOGSIZE ==> Unheld(s, s.lh[tail])
          case Clearing => true
          case Finishing => true
          case _ => false)
    case Crash => true
    case RecoverStep =>
      && l.Ok() && l.Spans(s.disk) && HeadOk(s.disk[l.start]) && |s.lh| <= LOGSIZE
      && (s.phase.Booting? || s.phase.Replaying? || s.phase.Wiping?)
  }

  ghost function SetThread(s: State, t: nat, th: Thread): State
    requires t < |s.threads|
  {
    s.(threads := s.threads[t := th])
  }

  ghost function Read(d: Disk, c: Disk, bn: nat): Block
    requires bn in d || bn in c
  {
    if bn in c then c[bn] else d[bn]
  }

  ghost function Put(s: State, bn: nat, b: Block): State {
    s.(disk := s.disk[bn := b], cache := s.cache[bn := b])
  }

  function Using(th: Thread, bn: nat, u: Use): Thread {
    th.(bufs := th.bufs[bn := u])
  }

  ghost function Do(l: Layout, s: State, a: Action): State
    requires Enabled(l, s, a)
  {
    match a
    case Begin(t) => SetThread(s, t, s.threads[t].(inOp := true, logged := {})).(outstanding := s.outstanding + 1)
    case End(t) => DoEnd(s, t)
    case Ref(t, bn) => SetThread(s, t, Using(s.threads[t], bn, Counted)).(refcnt := Bump(s.refcnt, bn, 1))
    case Lock(t, bn) => SetThread(s, t, Using(s.threads[t], bn, Held(false))).(cache := s.cache[bn := Read(s.disk, s.cache, bn)])
    case Modify(t, bn, data) => SetThread(s, t, Using(s.threads[t], bn, Held(true))).(cache := s.cache[bn := data])
    case LogWrite(t, bn) => DoLogWrite(l, s, t, bn)
    case Unlock(t, bn) => SetThread(s, t, Using(s.threads[t], bn, Counted))
    case Unref(t, bn) => SetThread(s, t, s.threads[t].(bufs := s.threads[t].bufs - {bn})).(refcnt := Bump(s.refcnt, bn, -1))
    case Recycle(bn) => s.(cache := s.cache - {bn})
    case CommitStep => DoCommit(l, s)
    case Crash => PowerUp(s.disk, |s.threads|)
    case RecoverStep => DoRecover(l, s)
  }

  function Ended(th: Thread): Thread {
    th.(inOp := false, logged := {})
  }

  ghost function DoEnd(s: State, t: nat): State
    requires t < |s.threads|
  {
    var r := SetThread(s, t, Ended(s.threads[t])).(outstanding := s.outstanding - 1);
    if s.committing then r.(phase := Panicked)
    else if r.outstanding == 0 then r.(committing := true, phase := if |s.lh| > 0 then WritingLog(0) else Finishing)
    else r
  }

  function Logging(th: Thread, bn: nat): Thread {
    Thread(true, th.logged + {bn}, th.bufs[bn := Held(false)])
  }

  ghost function DoLogWrite(l: Layout, s: State, t: nat, bn: nat): State
    requires t < |s.threads| && bn in s.cache
  {
    if TooBig(l, |s.lh|) || s.outstanding < 1 then s.(phase := Panicked)
    else
      SetThread(s, t, Logging(s.threads[t], bn))
      .(lh := Absorb(s.lh, bn),
        refcnt := if bn in s.lh then s.refcnt else Bump(s.refcnt, bn, 1),
        pending := s.pending + [Write(bn, s.cache[bn])])
  }

  ghost function DoCommit(l: Layout, s: State): State
    requires Enabled(l, s, CommitStep)
  {
    match s.phase
    case WritingLog(tail) =>
      if tail < |s.lh| then
        Put(s, l.Slot(tail), Read(s.disk, s.cache, s.lh[tail])).(phase := WritingLog(tail + 1))
      else s.(phase := WritingHead)
    case WritingHead =>
      Put(s, l.start, PutHead(Read(s.disk, s.cache, l.start), s.lh)).(phase := Installing(0), pending := [])
    case Installing(tail) =>
      if tail < |s.lh| then
        Put(s, s.lh[tail], Read(s.disk, s.cache, l.Slot(tail)))
        .(refcnt := Bump(s.refcnt, s.lh[tail], -1), phase := Installing(tail + 1))
      else s.(lh := [], phase := Clearing)
    case Clearing => Put(s, l.start, PutHead(Read(s.disk, s.cache, l.start), s.lh)).(phase := Finishing)
    case Finishing => s.(committing := false, phase := Running)
  }

  ghost function DoRecover(l: Layout, s: State): State
    requires Enabled(l, s, RecoverStep)
  {
    match s.phase
    case Booting => s.(lh := HeadList(s.disk[l.start]), phase := Replaying(0))
    case Replaying(tail) =>
      if tail < |s.lh| then
        Put(s, s.lh[tail], Read(s.disk, s.cache, l.Slot(tail))).(phase := Replaying(tail + 1))
      else s.(lh := [], phase := Wiping)
    case Wiping => Put(s, l.start, PutHead(Read(s.disk, s.cache, l.start), [])).(phase := Running)
  }

  // ---------- The abstract disk ----------

  /** What a crash at this point would recover to. */
  ghost function Durables(l: Layout, d: Disk): (m: Disk)
    requires LogOk(l, d)
  {
    map bn: nat | bn < l.blocks && l.Home(bn) :: Durable(l, d, bn)
  }

  /** The abstract system: a disk of home blocks, the writes of the current group, and the
      threads inside an operation. */
  datatype Spec = Spec(durable: Disk, pending: seq<Write>, active: set<nat>)

  ghost function Abs(l: Layout, s: State): Spec
    requires LogOk(l, s.disk)
  {
    Spec(Durables(l, s.disk), s.pending, set t | 0 <= t < |s.threads| && s.threads[t].inOp)
  }

  /** A group of operations takes effect in one step, and only when none is active. */
  ghost predicate SpecCommit(a: Spec, b: Spec) {
    a.active == {} && b == Spec(Apply(a.durable, a.pending), [], {})
  }

  ghost predicate SpecCrash(a: Spec, b: Spec) {
    b == Spec(a.durable, [], {})
  }

  /** The abstract step that each concrete action is. */
  ghost predicate SpecStep(s: State, act: Action, a: Spec, b: Spec) {
    match act
    case Begin(t) => t !in a.active && b == a.(active := a.active + {t})
    case End(t) => t in a.active && b == a.(active := a.active - {t})
    case LogWrite(t, bn) =>
      t in a.active && bn in s.cache && b == a.(pending := a.pending + [Write(bn, s.cache[bn])])
    case CommitStep => if s.phase.WritingHead? then SpecCommit(a, b) else a == b
    case Crash => SpecCrash(a, b)
    case _ => a == b
  }

  // ---------- Invariant ----------

  function Count(ts: seq<Thread>): (n: nat)
  {
    if ts == [] then 0 else Count(ts[..|ts| - 1]) + if ts[|ts| - 1].inOp then 1 else 0
  }

  function Reserve(th: Thread): int {
    if th.inOp then MAXOPBLOCKS - |th.logged| else 0
  }

  /** Log space that the active operations may still claim. */
  function Reserved(ts: seq<Thread>): int
  {
    if ts == [] then 0 else Reserved(ts[..|ts| - 1]) + Reserve(ts[|ts| - 1])
  }

  ghost predicate Quiet(ts: seq<Thread>) {
    forall t: nat :: t < |ts| ==> !ts[t].inOp
  }

  /** Blocks that some thread has changed and not yet logged. */
  ghost function Changing(ts: seq<Thread>): set<nat> {
    set t, bn | 0 <= t < |ts| && bn in DirtySet(ts[t]) :: bn
  }

  /** How many threads have a count on the buffer of bn. */
  function On(ts: seq<Thread>, bn: nat): nat {
    if ts == [] then 0 else On(ts[..|ts| - 1], bn) + if bn in ts[|ts| - 1].bufs then 1 else 0
  }

  /** Logged blocks whose home copy is still old. */
  ghost function Unwritten(phase: Phase, lh: seq<nat>): seq<nat> {
    match phase
    case Installing(tail) => if tail <= |lh| then lh[tail..] else []
    case Replaying(tail) => []
    case _ => lh
  }

  ghost predicate InCommit(phase: Phase) {
    phase.WritingLog? || phase.WritingHead? || phase.Installing? || phase.Clearing? || phase.Finishing?
  }

  ghost predicate ThreadOk(l: Layout, c: Disk, lh: seq<nat>, th: Thread) {
    && (forall bn :: bn in th.bufs ==> l.Home(bn) && (th.bufs[bn].Held? ==> bn in c))
    && (!th.inOp ==> DirtySet(th) == {})
    && (th.inOp ==> |th.logged| <= MAXOPBLOCKS && forall bn :: bn in th.logged ==> bn in lh)
  }

  /** Two threads never hold the same buffer. */
  ghost predicate Apart(th: Thread, th': Thread) {
    forall bn: nat :: !(Locks(th, bn) && Locks(th', bn))
  }

  ghost predicate ThreadsOk(l: Layout, c: Disk, lh: seq<nat>, ts: seq<Thread>) {
    && (forall t: nat :: t < |ts| ==> ThreadOk(l, c, lh, ts[t]))
    && (forall t: nat, u: nat :: t < u < |ts| ==> Apart(ts[t], ts[u]))
  }

  /** refcnt counts the threads that use the buffer, and log_write's pin. */
  ghost predicate RefsOk(refcnt: Refs, ts: seq<Thread>, unwritten: seq<nat>) {
    forall bn: nat :: Refcnt(refcnt, bn) == On(ts, bn) + if bn in unwritten then 1 else 0
  }

  ghost predicate PhaseOk(s: State) {
    && !s.phase.Panicked?
    && s.committing == InCommit(s.phase)
    && (!s.phase.Running? ==> Quiet(s.threads))
    && (s.lh == [] ==> s.pending == [])
  }

  /** A cached block differs from the disk only if it is logged or being changed. */
  ghost predicate CacheOk(l: Layout, d: Disk, c: Disk, unwritten: seq<nat>, changing: set<nat>)
    requires l.Spans(d)
  {
    && (forall bn :: bn in c ==> bn < l.blocks)
    && (forall bn :: bn in unwritten ==> bn in c)
    && (forall bn :: bn in c && bn !in unwritten && bn !in changing ==> c[bn] == d[bn])
  }

  ghost predicate SlotsFilled(l: Layout, d: Disk, c: Disk, lh: seq<nat>, j: nat, k: nat)
    requires l.Ok() && l.Spans(d)
  {
    j <= k <= |lh| <= LOGSIZE && forall i: nat :: j <= i < k ==> lh[i] in c && d[l.Slot(i)] == c[lh[i]]
  }

  ghost predicate DiskOk(l: Layout, d: Disk, c: Disk, lh: seq<nat>, phase: Phase, pending: seq<Write>)
    requires LogOk(l, d)
  {
    match phase
    case Running => Settled(l, d)
    case WritingLog(tail) => Settled(l, d) && SlotsFilled(l, d, c, lh, 0, tail)
    case WritingHead => Settled(l, d) && SlotsFilled(l, d, c, lh, 0, |lh|)
    case Installing(tail) =>
      HeadList(d[l.start]) == lh && SlotsFilled(l, d, c, lh, tail, |lh|) && Installed(l, d, tail) && pending == []
    case Clearing => lh == [] && Installed(l, d, HeadCount(d[l.start]))
    case Finishing => lh == [] && Settled(l, d)
    case Booting => lh == []
    case Replaying(tail) => HeadList(d[l.start]) == lh && tail <= |lh| && Installed(l, d, tail) && pending == []
    case Wiping => lh == [] && Installed(l, d, HeadCount(d[l.start]))
    case Panicked => true
  }

  /** What a reader of a block sees is the committed contents plus the pending writes. */
  ghost predicate ValueOk(l: Layout, d: Disk, c: Disk, pending: seq<Write>, changing: set<nat>)
    requires LogOk(l, d)
  {
    var now := Apply(Durables(l, d), pending);
    && (forall bn: nat :: bn in now <==> l.Home(bn))
    && (forall bn: nat :: l.Home(bn) && bn !in changing ==> Read(d, c, bn) == now[bn])
  }

  ghost predicate Inv(l: Layout, s: State) {
    && LogOk(l, s.disk) && HomeList(l, s.lh) && PhaseOk(s)
    && ThreadsOk(l, s.cache, s.lh, s.threads)
    && s.outstanding == Count(s.threads) && |s.lh| + Reserved(s.threads) <= LOGSIZE
    && RefsOk(s.refcnt, s.threads, Unwritten(s.phase, s.lh))
    && CacheOk(l, s.disk, s.cache, Unwritten(s.phase, s.lh), Changing(s.threads))
    && DiskOk(l, s.disk, s.cache, s.lh, s.phase, s.pending)
    && (Up(s) ==> ValueOk(l, s.disk, s.cache, s.pending, Changing(s.threads)))
  }

  // ---------- Sums over the threads ----------

  lemma {:induction false} CountSet(ts: seq<Thread>, t: nat, th: Thread)
    requires t < |ts|
    ensures Count(ts[t := th]) == Count(ts) + (if th.inOp then 1 else 0) - (if ts[t].inOp then 1 else 0)
    ensures Reserved(ts[t := th]) == Reserved(ts) + Reserve(th) - Reserve(ts[t])
  {
    var us := ts[t := th];
    if t == |ts| - 1 {
      assert us[..|us| - 1] == ts[..|ts| - 1];
    } else {
      assert us[..|us| - 1] == ts[..|ts| - 1][t := th];
      CountSet(ts[..|ts| - 1], t, th);
    }
  }

  /** Active operations reserve at most MAXOPBLOCKS each, and together at least what any
      one of them does. */
  lemma {:induction false} ReservedBounds(ts: seq<Thread>)
    requires forall t: nat :: t < |ts| ==> Reserve(ts[t]) >= 0
    ensures 0 <= Reserved(ts) <= MAXOPBLOCKS * Count(ts)
    ensures forall t: nat :: t < |ts| ==> Reserve(ts[t]) <= Reserved(ts)
    ensures Count(ts) == 0 <==> forall t: nat :: t < |ts| ==> !ts[t].inOp
  {
    if ts != [] {
      ReservedBounds(ts[..|ts| - 1]);
      forall t: nat | t < |ts|
        ensures Reserve(ts[t]) <= Reserved(ts)
      {
        if t < |ts| - 1 {
          assert Reserve(ts[..|ts| - 1][t]) <= Reserved(ts[..|ts| - 1]);
        }
      }
      var us := ts[..|ts| - 1];
      assert forall t: nat :: t < |us| ==> us[t] == ts[t];
    }
  }

  lemma {:induction false} OnSet(ts: seq<Thread>, t: nat, th: Thread, bn: nat)
    requires t < |ts|
    ensures On(ts[t := th], bn) == On(ts, bn) + (if bn in th.bufs then 1 else 0) - (if bn in ts[t].bufs then 1 else 0)
  {
    var us := ts[t := th];
    if t == |ts| - 1 {
      assert us[..|us| - 1] == ts[..|ts| - 1];
    } else {
      assert us[..|us| - 1] == ts[..|ts| - 1][t := th];
      OnSet(ts[..|ts| - 1], t, th, bn);
    }
  }

  lemma {:induction false} OnNone(ts: seq<Thread>, bn: nat)
    ensures On(ts, bn) == 0 <==> forall t: nat :: t < |ts| ==> bn !in ts[t].bufs
  {
    if ts != [] {
      var us := ts[..|ts| - 1];
      OnNone(us, bn);
      assert forall t: nat :: t < |us| ==> us[t] == ts[t];
    }
  }

  /** A thread takes or drops a count on the buffer of bn, or only changes how it uses it. */
  lemma RefsSet(refcnt: Refs, ts: seq<Thread>, unwritten: seq<nat>, t: nat, th: Thread, bn: nat, n: int)
    requires RefsOk(refcnt, ts, unwritten) && t < |ts|
    requires forall x: nat :: x != bn ==> (x in th.bufs <==> x in ts[t].bufs)
    requires n == (if bn in th.bufs then 1 else 0) - (if bn in ts[t].bufs then 1 else 0)
    ensures RefsOk(Bump(refcnt, bn, n), ts[t := th], unwritten)
    ensures n == 0 ==> RefsOk(refcnt, ts[t := th], unwritten)
  {
    hide On;
    forall x: nat
      ensures On(ts[t := th], x) == On(ts, x) + if x == bn then n else 0
    {
      OnSet(ts, t, th, x);
    }
  }

  /** The thread table after thread t becomes th and the cache and list become c and lh. */
  lemma ThreadsSet(l: Layout, s: State, t: nat, th: Thread, c: Disk, lh: seq<nat>)
    requires ThreadsOk(l, s.cache, s.lh, s.threads) && t < |s.threads| && ThreadOk(l, c, lh, th)
    requires forall u: nat :: u < |s.threads| && u != t ==> Apart(th, s.threads[u])
    requires forall bn :: bn in s.cache ==> bn in c
    requires forall bn :: bn in s.lh ==> bn in lh
    ensures var ts := s.threads[t := th];
            && ThreadsOk(l, c, lh, ts)
            && Count(ts) == Count(s.threads) + (if th.inOp then 1 else 0) - (if s.threads[t].inOp then 1 else 0)
            && Reserved(ts) == Reserved(s.threads) + Reserve(th) - Reserve(s.threads[t])
            && Changing(ts) == Changing(s.threads) - DirtySet(s.threads[t]) + DirtySet(th)
    ensures Reserve(s.threads[t]) <= Reserved(s.threads) <= MAXOPBLOCKS * Count(s.threads)
  {
    hide Count; hide Reserved; hide Apart; hide Changing; hide DirtySet;
    CountSet(s.threads, t, th);
    var ts := s.threads[t := th];
    forall u: nat | u < |s.threads|
      ensures Reserve(s.threads[u]) >= 0 && ThreadOk(l, c, lh, ts[u])
    {
      assert ThreadOk(l, s.cache, s.lh, s.threads[u]);
    }
    forall u: nat, v: nat | u < v < |ts|
      ensures Apart(ts[u], ts[v])
    {
      if v == t {
        ApartSwap(ts[v], ts[u]);
      }
    }
    ReservedBounds(s.threads);
    ChangingSet(l, s, t, th);
  }

  lemma ApartSwap(a: Thread, b: Thread)
    ensures Apart(a, b) <==> Apart(b, a)
  {
  }

  lemma ApartAt(l: Layout, s: State, t: nat, u: nat)
    requires ThreadsOk(l, s.cache, s.lh, s.threads) && t < |s.threads| && u < |s.threads| && t != u
    ensures Apart(s.threads[t], s.threads[u])
  {
    hide ThreadOk; hide Apart;
    ApartSwap(s.threads[t], s.threads[u]);
  }

  lemma ChangingSet(l: Layout, s: State, t: nat, th: Thread)
    requires ThreadsOk(l, s.cache, s.lh, s.threads) && t < |s.threads|
    ensures Changing(s.threads[t := th]) == Changing(s.threads) - DirtySet(s.threads[t]) + DirtySet(th)
  {
    hide ThreadOk; hide ThreadsOk;
    var ts, us := s.threads, s.threads[t := th];
    forall bn | bn in Changing(us)
      ensures bn in Changing(ts) - DirtySet(ts[t]) + DirtySet(th)
    {
      var u :| 0 <= u < |us| && bn in DirtySet(us[u]);
      if u != t {
        assert us[u] == ts[u];
        ApartAt(l, s, t, u);
        assert !(Locks(ts[t], bn) && Locks(ts[u], bn));
      }
    }
    forall bn | bn in Changing(ts) - DirtySet(ts[t]) + DirtySet(th)
      ensures bn in Changing(us)
    {
      if bn in DirtySet(th) {
        assert us[t] == th;
      } else {
        var u :| 0 <= u < |ts| && bn in DirtySet(ts[u]);
        assert us[u] == ts[u];
      }
    }
  }

  // ---------- Steps of the threads ----------

  ghost predicate Preserves(l: Layout, s: State, a: Action)
    requires Inv(l, s) && Enabled(l, s, a)
  {
    InvParts(l, s);
    Inv(l, Do(l, s, a)) && SpecStep(s, a, Abs(l, s), Abs(l, Do(l, s, a)))
  }

  /** A step that changes one thread's record and nothing a reader can see. */
  lemma ThreadStep(l: Layout, s: State, t: nat, th: Thread, outstanding: int, refcnt: Refs)
    requires Inv(l, s) && t < |s.threads| && ThreadOk(l, s.cache, s.lh, th)
    requires forall u: nat :: u < |s.threads| && u != t ==> Apart(th, s.threads[u])
    requires DirtySet(th) == DirtySet(s.threads[t]) && RefsOk(refcnt, s.threads[t := th], Unwritten(s.phase, s.lh))
    requires th.inOp ==> s.phase.Running?
    requires th.inOp && !s.threads[t].inOp ==> |s.lh| + (s.outstanding + 1) * MAXOPBLOCKS <= LOGSIZE && th.logged == {}
    requires th.inOp && s.threads[t].inOp ==> th.logged == s.threads[t].logged
    requires outstanding == s.outstanding + (if th.inOp then 1 else 0) - (if s.threads[t].inOp then 1 else 0)
    ensures Inv(l, SetThread(s, t, th).(outstanding := outstanding, refcnt := refcnt))
  {
    hide Durable; hide Count; hide Reserved; hide Changing; hide CacheOk; hide DiskOk; hide ValueOk;
    hide LogOk; hide HomeList;
    hide RefsOk; hide DirtySet; hide Apart;
    var ts := s.threads[t := th];
    ThreadsSet(l, s, t, th, s.cache, s.lh);
    assert ThreadOk(l, s.cache, s.lh, s.threads[t]);
    InChanging(s.threads, t);
    assert Changing(ts) == Changing(s.threads);
  }

  lemma InChanging(ts: seq<Thread>, t: nat)
    requires t < |ts|
    ensures DirtySet(ts[t]) <= Changing(ts)
  {
  }

  lemma InvParts(l: Layout, s: State)
    requires Inv(l, s)
    ensures LogOk(l, s.disk) && HomeList(l, s.lh) && l.Spans(s.disk) && PhaseOk(s)
    ensures ThreadsOk(l, s.cache, s.lh, s.threads) && RefsOk(s.refcnt, s.threads, Unwritten(s.phase, s.lh))
    ensures Up(s) && !s.committing ==> s.phase.Running?
  {
  }

  /** A thread that uses no more locks than before stays apart from the others. */
  lemma StillApart(l: Layout, s: State, t: nat, th: Thread)
    requires ThreadsOk(l, s.cache, s.lh, s.threads) && t < |s.threads|
    requires forall bn: nat :: Locks(th, bn) ==> Locks(s.threads[t], bn)
    ensures forall u: nat :: u < |s.threads| && u != t ==> Apart(th, s.threads[u])
  {
    forall u: nat | u < |s.threads| && u != t
      ensures Apart(th, s.threads[u])
    {
      ApartAt(l, s, t, u);
    }
  }

  lemma BeginOk(l: Layout, s: State, t: nat)
    requires Inv(l, s) && Enabled(l, s, Begin(t))
    ensures Preserves(l, s, Begin(t))
  {
    hide Inv; hide LogOk; hide HomeList; hide Durables; hide RefsOk; hide Apart;
    InvParts(l, s);
    var th := s.threads[t].(inOp := true, logged := {});
    assert ThreadOk(l, s.cache, s.lh, s.threads[t]);
    StillApart(l, s, t, th);
    RefsSet(s.refcnt, s.threads, Unwritten(s.phase, s.lh), t, th, 0, 0);
    ThreadStep(l, s, t, th, s.outstanding + 1, s.refcnt);
    InvParts(l, Do(l, s, Begin(t)));
    assert t !in Abs(l, s).active;
    assert Abs(l, Do(l, s, Begin(t))) == Abs(l, s).(active := Abs(l, s).active + {t});
  }

  lemma BufferStepOk(l: Layout, s: State, a: Action)
    requires Inv(l, s) && Enabled(l, s, a) && (a.Ref? || a.Unlock? || a.Unref?)
    ensures Preserves(l, s, a)
  {
    hide Inv; hide LogOk; hide HomeList; hide Durables; hide RefsOk; hide Apart; hide Abs; hide Unwritten;
    InvParts(l, s);
    var r := Do(l, s, a);
    var th, th' := s.threads[a.t], r.threads[a.t];
    assert ThreadOk(l, s.cache, s.lh, th);
    assert DirtySet(th') == DirtySet(th);
    hide DirtySet; hide ThreadsOk;
    StillApart(l, s, a.t, th');
    RefsSet(s.refcnt, s.threads, Unwritten(s.phase, s.lh), a.t, th', a.bn,
        if a.Ref? then 1 else if a.Unref? then -1 else 0);
    ThreadStep(l, s, a.t, th', s.outstanding, r.refcnt);
    assert r == SetThread(s, a.t, th').(outstanding := s.outstanding, refcnt := r.refcnt);
    SameActive(l, s, r);
  }

  lemma EndOk(l: Layout, s: State, t: nat)
    requires Inv(l, s) && Enabled(l, s, End(t))
    ensures Preserves(l, s, End(t))
  {
    hide Inv; hide LogOk; hide HomeList; hide Durables; hide RefsOk; hide Apart;
    InvParts(l, s);
    var th := Ended(s.threads[t]);
    var m := SetThread(s, t, th).(outstanding := s.outstanding - 1);
    var r := Do(l, s, End(t));
    assert ThreadOk(l, s.cache, s.lh, s.threads[t]);
    StillApart(l, s, t, th);
    RefsSet(s.refcnt, s.threads, Unwritten(s.phase, s.lh), t, th, 0, 0);
    ThreadStep(l, s, t, th, s.outstanding - 1, s.refcnt);
    LastEnd(l, m);
    assert t in Abs(l, s).active;
    assert Abs(l, r) == Abs(l, s).(active := Abs(l, s).active - {t});
  }

  /** When the count of active operations reaches zero, none is active. */
  lemma LastEnd(l: Layout, m: State)
    requires Inv(l, m) && m.phase.Running?
    ensures m.outstanding == 0 ==>
              Inv(l, m.(committing := true, phase := if |m.lh| > 0 then WritingLog(0) else Finishing))
  {
    hide Durable; hide Count; hide Reserved; hide Changing; hide CacheOk; hide ValueOk; hide Settled;
    hide Installed; hide RefsOk; hide Apart;
    forall u: nat | u < |m.threads|
      ensures Reserve(m.threads[u]) >= 0
    {
      assert ThreadOk(l, m.cache, m.lh, m.threads[u]);
    }
    ReservedBounds(m.threads);
  }

  // ---------- Steps on the cache ----------

  lemma LoadOk(l: Layout, d: Disk, c: Disk, unwritten: seq<nat>, changing: set<nat>, bn: nat)
    requires l.Spans(d) && bn in d && CacheOk(l, d, c, unwritten, changing)
    ensures CacheOk(l, d, c[bn := Read(d, c, bn)], unwritten, changing)
  {
  }

  /** The lock that bread or bget takes was free. */
  lemma LockApart(s: State, t: nat, bn: nat, u: Use, v: nat, l: Layout)
    requires ThreadsOk(l, s.cache, s.lh, s.threads) && t < |s.threads| && v < |s.threads| && v != t
    requires Unheld(s, bn) || Locks(s.threads[t], bn)
    ensures Apart(Using(s.threads[t], bn, u), s.threads[v])
  {
    ApartAt(l, s, t, v);
    forall x: nat
      ensures !(Locks(Using(s.threads[t], bn, u), x) && Locks(s.threads[v], x))
    {
      assert !(Locks(s.threads[t], x) && Locks(s.threads[v], x));
      assert Unheld(s, bn) ==> !Locks(s.threads[v], bn);
    }
  }

  /** Thread t takes the lock of a buffer it counts, or changes one it holds. */
  lemma UsingOk(l: Layout, s: State, t: nat, bn: nat, u: Use, c: Disk)
    requires Inv(l, s) && t < |s.threads| && bn in s.threads[t].bufs && (Unheld(s, bn) || Locks(s.threads[t], bn))
    requires u.Held? && bn in c && (forall x :: x in s.cache ==> x in c) && (u.dirty ==> s.threads[t].inOp)
    ensures var ts := s.threads[t := Using(s.threads[t], bn, u)];
            && ThreadsOk(l, c, s.lh, ts) && Count(ts) == Count(s.threads) && Reserved(ts) == Reserved(s.threads)
            && RefsOk(s.refcnt, ts, Unwritten(s.phase, s.lh)) && l.Home(bn)
            && (u.dirty ==> Changing(ts) == Changing(s.threads) + {bn})
            && (!u.dirty && bn !in DirtySet(s.threads[t]) ==> Changing(ts) == Changing(s.threads))
  {
    hide Count; hide Reserved; hide Changing; hide RefsOk; hide Apart; hide LogOk; hide CacheOk; hide DiskOk;
    hide ValueOk; hide HomeList;
    var th := s.threads[t];
    var th' := Using(th, bn, u);
    assert ThreadOk(l, s.cache, s.lh, th);
    forall v: nat | v < |s.threads| && v != t
      ensures Apart(th', s.threads[v])
    {
      LockApart(s, t, bn, u, v, l);
    }
    assert DirtySet(th') == if u.dirty then DirtySet(th) + {bn} else DirtySet(th) - {bn};
    ThreadsSet(l, s, t, th', c, s.lh);
    RefsSet(s.refcnt, s.threads, Unwritten(s.phase, s.lh), t, th', bn, 0);
    InChanging(s.threads, t);
  }

  lemma SameActive(l: Layout, s: State, r: State)
    requires LogOk(l, s.disk) && r.disk == s.disk && r.pending == s.pending && |r.threads| == |s.threads|
    requires forall u :: 0 <= u < |s.threads| ==> s.threads[u].inOp == r.threads[u].inOp
    ensures Abs(l, r) == Abs(l, s)
  {
    hide Durables; hide LogOk;
  }

  lemma LockOk(l: Layout, s: State, t: nat, bn: nat)
    requires Inv(l, s) && Enabled(l, s, Lock(t, bn))
    ensures Preserves(l, s, Lock(t, bn))
  {
    hide Count; hide Reserved; hide Durables; hide Apply; hide CacheOk; hide Changing; hide Settled;
    hide Installed; hide RefsOk;
    hide ThreadsOk; hide Abs; hide DirtySet; hide LogOk; hide HomeList; hide HeadList;
    InvParts(l, s);
    var r := Do(l, s, Lock(t, bn));
    NotDirty(s.threads[t], bn);
    UsingOk(l, s, t, bn, Held(false), r.cache);
    LoadOk(l, s.disk, s.cache, Unwritten(s.phase, s.lh), Changing(s.threads), bn);
    SameActive(l, s, r);
  }

  lemma NotDirty(th: Thread, bn: nat)
    requires !Locks(th, bn)
    ensures bn !in DirtySet(th)
  {
  }

  lemma ModifyOk(l: Layout, s: State, t: nat, bn: nat, data: Block)
    requires Inv(l, s) && Enabled(l, s, Modify(t, bn, data))
    ensures Preserves(l, s, Modify(t, bn, data))
  {
    hide Count; hide Reserved; hide Durables; hide Apply; hide Changing; hide Settled; hide Installed; hide RefsOk;
    hide ThreadsOk; hide Abs; hide DirtySet; hide LogOk; hide HomeList; hide HeadList;
    InvParts(l, s);
    var r := Do(l, s, Modify(t, bn, data));
    UsingOk(l, s, t, bn, Held(true), r.cache);
    SameActive(l, s, r);
  }

  lemma DropOk(l: Layout, d: Disk, c: Disk, unwritten: seq<nat>, changing: set<nat>, bn: nat)
    requires LogOk(l, d) && bn in c && bn !in unwritten && bn !in changing && CacheOk(l, d, c, unwritten, changing)
    ensures CacheOk(l, d, c - {bn}, unwritten, changing) && d[bn] == c[bn]
    ensures forall b: nat :: b in d ==> Read(d, c - {bn}, b) == Read(d, c, b)
  {
  }

  /** A buffer with reference count 0 is used by no thread and pinned by no log entry. */
  lemma UnusedIfZero(refcnt: Refs, ts: seq<Thread>, unwritten: seq<nat>, bn: nat)
    requires RefsOk(refcnt, ts, unwritten) && Refcnt(refcnt, bn) == 0
    ensures bn !in unwritten && (forall t: nat :: t < |ts| ==> bn !in ts[t].bufs) && bn !in Changing(ts)
  {
    hide On;
    OnNone(ts, bn);
  }

  lemma RecycleOk(l: Layout, s: State, bn: nat)
    requires Inv(l, s) && Enabled(l, s, Recycle(bn))
    ensures Preserves(l, s, Recycle(bn))
  {
    hide Count; hide Reserved; hide Durables; hide Apply; hide Settled; hide Installed; hide CacheOk;
    hide Changing; hide RefsOk; hide Apart;
    hide LogOk; hide HomeList; hide HeadList; hide DirtySet;
    InvParts(l, s);
    var r := Do(l, s, Recycle(bn));
    UnusedIfZero(s.refcnt, s.threads, Unwritten(s.phase, s.lh), bn);
    DropOk(l, s.disk, s.cache, Unwritten(s.phase, s.lh), Changing(s.threads), bn);
    forall t: nat | t < |s.threads|
      ensures ThreadOk(l, r.cache, s.lh, s.threads[t])
    {
      assert ThreadOk(l, s.cache, s.lh, s.threads[t]);
    }
    assert DiskOk(l, s.disk, r.cache, s.lh, s.phase, s.pending) by {
      DropDiskOk(l, s.disk, s.cache, s.lh, s.phase, s.pending, bn);
    }
    assert Abs(l, r) == Abs(l, s);
  }

  lemma DropDiskOk(l: Layout, d: Disk, c: Disk, lh: seq<nat>, phase: Phase, pending: seq<Write>, bn: nat)
    requires LogOk(l, d) && DiskOk(l, d, c, lh, phase, pending) && bn !in Unwritten(phase, lh)
    ensures DiskOk(l, d, c - {bn}, lh, phase, pending)
  {
  }

  // ---------- log_write ----------

  /** The client's side of the space bound: no log_write by an operation that has already
      logged MAXOPBLOCKS distinct blocks. */
  ghost predicate InBudget(s: State, a: Action) {
    a.LogWrite? && a.t < |s.threads| && s.threads[a.t].inOp && Locks(s.threads[a.t], a.bn) ==>
      |s.threads[a.t].logged| < MAXOPBLOCKS
  }

  lemma AbsorbOk(l: Layout, lh: seq<nat>, bn: nat)
    requires HomeList(l, lh) && l.Home(bn) && l.Ok() && |lh| < LOGSIZE
    ensures HomeList(l, Absorb(lh, bn))
    ensures forall b :: b in Absorb(lh, bn) <==> b in lh || b == bn
  {
    if bn !in lh {
      var r := lh + [bn];
      forall i, j | 0 <= i < j < |r|
        ensures r[i] != r[j]
      {
      }
    }
  }

  lemma LogValueOk(l: Layout, d: Disk, c: Disk, pending: seq<Write>, changing: set<nat>, bn: nat)
    requires LogOk(l, d) && l.Home(bn) && bn in c && ValueOk(l, d, c, pending, changing)
    ensures ValueOk(l, d, c, pending + [Write(bn, c[bn])], changing - {bn})
  {
    var p := pending + [Write(bn, c[bn])];
    assert p[..|p| - 1] == pending;
  }

  /** With space reserved for every active operation, log_write does not panic. */
  lemma LogWriteFits(l: Layout, s: State, t: nat, bn: nat)
    requires Inv(l, s) && Enabled(l, s, LogWrite(t, bn)) && InBudget(s, LogWrite(t, bn))
    ensures s.phase.Running? && !TooBig(l, |s.lh|) && s.outstanding >= 1 && |s.lh| < LOGSIZE
  {
    hide Count; hide Reserved; hide Apart; hide RefsOk;
    assert ThreadOk(l, s.cache, s.lh, s.threads[t]);
    StillApart(l, s, t, s.threads[t]);
    ThreadsSet(l, s, t, s.threads[t], s.cache, s.lh);
  }

  lemma LogWriteOk(l: Layout, s: State, t: nat, bn: nat)
    requires Inv(l, s) && Enabled(l, s, LogWrite(t, bn)) && InBudget(s, LogWrite(t, bn))
    ensures Preserves(l, s, LogWrite(t, bn))
  {
    hide Count; hide Reserved; hide Durables; hide Apply; hide Settled; hide Installed; hide Changing; hide ValueOk;
    hide LogOk; hide HomeList; hide TooBig; hide Absorb; hide CacheOk; hide ThreadsOk; hide SpecStep;
    hide Abs; hide RefsOk;
    hide DirtySet; hide Logging; hide Apart;
    InvParts(l, s);
    LogWriteFits(l, s, t, bn);
    LoggedThreadOk(l, s, t, bn);
    var r := Do(l, s, LogWrite(t, bn));
    AbsorbOk(l, s.lh, bn);
    ThreadsSet(l, s, t, Logging(s.threads[t], bn), s.cache, Absorb(s.lh, bn));
    LogChanging(l, s, t, bn);
    assert Changing(r.threads) == Changing(s.threads) - {bn};
    LogValueOk(l, s.disk, s.cache, s.pending, Changing(s.threads), bn);
    LogReserve(l, s, t, bn);
    LogCacheOk(l, s.disk, s.cache, s.lh, Changing(s.threads), bn);
    LogRefsOk(s.refcnt, s.threads, s.lh, t, bn);
    assert r.lh != [] by { assert bn in r.lh; }
    LogWriteSpec(l, s, t, bn, r);
  }

  lemma LogReserve(l: Layout, s: State, t: nat, bn: nat)
    requires ThreadsOk(l, s.cache, s.lh, s.threads) && t < |s.threads| && s.threads[t].inOp
    ensures |Absorb(s.lh, bn)| + Reserve(Logging(s.threads[t], bn)) <= |s.lh| + Reserve(s.threads[t])
    ensures Logging(s.threads[t], bn).inOp
  {
    var th := s.threads[t];
    assert ThreadOk(l, s.cache, s.lh, th);
    if bn in th.logged {
      assert th.logged + {bn} == th.logged;
    }
  }

  lemma LoggedThreadOk(l: Layout, s: State, t: nat, bn: nat)
    requires ThreadsOk(l, s.cache, s.lh, s.threads) && t < |s.threads| && s.threads[t].inOp && Locks(s.threads[t], bn)
    requires |s.threads[t].logged| < MAXOPBLOCKS
    ensures l.Home(bn) && bn in s.cache && ThreadOk(l, s.cache, Absorb(s.lh, bn), Logging(s.threads[t], bn))
    ensures forall u: nat :: u < |s.threads| && u != t ==> Apart(Logging(s.threads[t], bn), s.threads[u])
  {
    assert ThreadOk(l, s.cache, s.lh, s.threads[t]);
    StillApart(l, s, t, Logging(s.threads[t], bn));
  }

  lemma LogCacheOk(l: Layout, d: Disk, c: Disk, lh: seq<nat>, changing: set<nat>, bn: nat)
    requires l.Spans(d) && bn in c && CacheOk(l, d, c, lh, changing)
    ensures CacheOk(l, d, c, Absorb(lh, bn), changing - {bn})
  {
  }

  /** A newly listed block is pinned. */
  lemma LogRefsOk(refcnt: Refs, ts: seq<Thread>, lh: seq<nat>, t: nat, bn: nat)
    requires RefsOk(refcnt, ts, lh) && t < |ts| && bn in ts[t].bufs
    ensures RefsOk(if bn in lh then refcnt else Bump(refcnt, bn, 1), ts[t := Logging(ts[t], bn)], Absorb(lh, bn))
  {
    hide On;
    RefsSet(refcnt, ts, lh, t, Logging(ts[t], bn), bn, 0);
  }

  lemma LogWriteSpec(l: Layout, s: State, t: nat, bn: nat, r: State)
    requires LogOk(l, s.disk) && bn in s.cache && r.disk == s.disk && r.pending == s.pending + [Write(bn, s.cache[bn])]
    requires t < |s.threads| && s.threads[t].inOp && |r.threads| == |s.threads|
    requires forall u :: 0 <= u < |s.threads| ==> s.threads[u].inOp == r.threads[u].inOp
    ensures SpecStep(s, LogWrite(t, bn), Abs(l, s), Abs(l, r))
  {
    hide Durables;
    assert t in Abs(l, s).active;
    assert Abs(l, r) == Abs(l, s).(pending := Abs(l, s).pending + [Write(bn, s.cache[bn])]);
  }

  /** Only its holder can be changing a buffer. */
  lemma LogChanging(l: Layout, s: State, t: nat, bn: nat)
    requires ThreadsOk(l, s.cache, s.lh, s.threads) && t < |s.threads| && Locks(s.threads[t], bn)
    ensures bn in Changing(s.threads) ==> bn in DirtySet(s.threads[t])
    ensures Changing(s.threads) - DirtySet(s.threads[t]) + DirtySet(Logging(s.threads[t], bn)) == Changing(s.threads) - {bn}
  {
    hide ThreadsOk;
    var th := s.threads[t];
    if bn in Changing(s.threads) {
      var u :| 0 <= u < |s.threads| && bn in DirtySet(s.threads[u]);
      if u != t {
        assert Locks(s.threads[t], bn) && Locks(s.threads[u], bn);
        ApartAt(l, s, t, u);
      }
    }
    assert DirtySet(Logging(th, bn)) == DirtySet(th) - {bn};
    InChanging(s.threads, t);
  }

  // ---------- Steps of the committer ----------

  /** Nothing is being changed while a commit or a recovery runs. */
  lemma QuietUnchanging(l: Layout, c: Disk, lh: seq<nat>, ts: seq<Thread>)
    requires ThreadsOk(l, c, lh, ts) && Quiet(ts)
    ensures Changing(ts) == {} && Reserved(ts) == 0
    ensures forall c': Disk, lh': seq<nat> :: (forall bn :: bn in c ==> bn in c') ==> ThreadsOk(l, c', lh', ts)
  {
    hide Apart;
    forall t: nat | t < |ts|
      ensures ThreadOk(l, c, lh, ts[t]) && Reserve(ts[t]) >= 0
    {
    }
    ReservedBounds(ts);
  }

  lemma SameDurables(l: Layout, d: Disk, e: Disk)
    requires LogOk(l, d) && SameDurable(l, d, e)
    ensures Durables(l, e) == Durables(l, d)
  {
  }

  /** Facts every committer step starts from. */
  lemma QuietParts(l: Layout, s: State)
    requires Inv(l, s) && !s.phase.Running?
    ensures InCommit(s.phase) ==> ValueOk(l, s.disk, s.cache, s.pending, {})
    ensures Changing(s.threads) == {} && Reserved(s.threads) == 0
    ensures CacheOk(l, s.disk, s.cache, Unwritten(s.phase, s.lh), {})
    ensures RefsOk(s.refcnt, s.threads, Unwritten(s.phase, s.lh))
    ensures DiskOk(l, s.disk, s.cache, s.lh, s.phase, s.pending)
    ensures Abs(l, s) == Spec(Durables(l, s.disk), s.pending, {})
  {
    hide CacheOk; hide DiskOk; hide ValueOk; hide Durables;
    QuietUnchanging(l, s.cache, s.lh, s.threads);
  }

  /** A state the committer or the recovery may move to. */
  lemma QuietInv(l: Layout, s: State, r: State)
    requires Inv(l, s) && !s.phase.Running? && r.threads == s.threads && r.outstanding == s.outstanding
    requires forall bn :: bn in s.cache ==> bn in r.cache
    requires LogOk(l, r.disk) && HomeList(l, r.lh) && !r.phase.Panicked?
    requires r.committing == InCommit(r.phase) && (r.lh == [] ==> r.pending == [])
    requires CacheOk(l, r.disk, r.cache, Unwritten(r.phase, r.lh), {})
    requires RefsOk(r.refcnt, r.threads, Unwritten(r.phase, r.lh))
    requires DiskOk(l, r.disk, r.cache, r.lh, r.phase, r.pending)
    requires Up(r) ==> ValueOk(l, r.disk, r.cache, r.pending, {})
    ensures Inv(l, r)
    ensures Abs(l, r) == Spec(Durables(l, r.disk), r.pending, {})
  {
    hide CacheOk; hide DiskOk; hide ValueOk; hide Durables; hide LogOk; hide Distinct;
    QuietUnchanging(l, s.cache, s.lh, s.threads);
  }

  lemma SlotStep(l: Layout, d: Disk, c: Disk, lh: seq<nat>, pending: seq<Write>, k: nat)
    requires Settled(l, d) && HomeList(l, lh) && k < |lh| && SlotsFilled(l, d, c, lh, 0, k)
    requires CacheOk(l, d, c, lh, {}) && ValueOk(l, d, c, pending, {})
    ensures var v := Read(d, c, lh[k]);
            var d', c' := d[l.Slot(k) := v], c[l.Slot(k) := v];
            && LogOk(l, d') && Settled(l, d') && SlotsFilled(l, d', c', lh, 0, k + 1)
            && CacheOk(l, d', c', lh, {}) && ValueOk(l, d', c', pending, {}) && Durables(l, d') == Durables(l, d)
  {
    hide Durables; hide Durable; hide Apply; hide Distinct;
    var v := Read(d, c, lh[k]);
    var d', c' := d[l.Slot(k) := v], c[l.Slot(k) := v];
    SlotWriteDurable(l, d, k, v);
    EmptyLogSettled(l, d');
    SameDurables(l, d, d');
  }

  lemma WritingLogOk(l: Layout, s: State)
    requires Inv(l, s) && s.phase.WritingLog? && Enabled(l, s, CommitStep)
    ensures Preserves(l, s, CommitStep)
  {
    hide CacheOk; hide Durables; hide Installed; hide Distinct; hide ValueOk; hide Settled; hide LogOk;
    hide SlotsFilled; hide HomeList;
    InvParts(l, s);
    QuietParts(l, s);
    var r := Do(l, s, CommitStep);
    if s.phase.tail < |s.lh| {
      SlotStep(l, s.disk, s.cache, s.lh, s.pending, s.phase.tail);
    } else {
      assert SlotsFilled(l, s.disk, s.cache, s.lh, 0, |s.lh|) by { FilledAll(l, s.disk, s.cache, s.lh, s.phase.tail); }
    }
    QuietInv(l, s, r);
  }

  lemma FilledAll(l: Layout, d: Disk, c: Disk, lh: seq<nat>, k: nat)
    requires l.Ok() && l.Spans(d) && SlotsFilled(l, d, c, lh, 0, k) && k >= |lh|
    ensures SlotsFilled(l, d, c, lh, 0, |lh|)
  {
  }

  /** The header write: the group takes effect, all of it and nothing else. */
  lemma HeadStep(l: Layout, d: Disk, c: Disk, lh: seq<nat>, pending: seq<Write>)
    requires Settled(l, d) && HomeList(l, lh) && SlotsFilled(l, d, c, lh, 0, |lh|)
    requires CacheOk(l, d, c, lh, {}) && ValueOk(l, d, c, pending, {})
    ensures Read(d, c, l.start) == d[l.start]
    ensures var h := PutHead(d[l.start], lh);
            var d', c' := d[l.start := h], c[l.start := h];
            && LogOk(l, d') && HeadList(d'[l.start]) == lh && SlotsFilled(l, d', c', lh, 0, |lh|) && Installed(l, d', 0)
            && CacheOk(l, d', c', lh[0..], {}) && Durables(l, d') == Apply(Durables(l, d), pending)
            && ValueOk(l, d', c', [], {})
  {
    hide Durable; hide Apply; hide Distinct; hide PutHead; hide HeadList;
    HeadWriteDurable(l, d, lh);
    HeadCache(l, d, c, lh);
    HeadValues(l, d, c, lh, pending);
    assert lh[0..] == lh;
    hide CacheOk; hide ValueOk; hide SlotsFilled; hide Durables;
  }

  lemma HeadCache(l: Layout, d: Disk, c: Disk, lh: seq<nat>)
    requires l.Ok() && l.Spans(d) && HomeList(l, lh) && SlotsFilled(l, d, c, lh, 0, |lh|) && CacheOk(l, d, c, lh, {})
    ensures Read(d, c, l.start) == d[l.start]
    ensures var h := PutHead(d[l.start], lh);
            var d', c' := d[l.start := h], c[l.start := h];
            l.Spans(d') && SlotsFilled(l, d', c', lh, 0, |lh|) && CacheOk(l, d', c', lh, {})
  {
    hide Distinct; hide PutHead;
  }

  lemma HeadValues(l: Layout, d: Disk, c: Disk, lh: seq<nat>, pending: seq<Write>)
    requires Settled(l, d) && HomeList(l, lh) && SlotsFilled(l, d, c, lh, 0, |lh|) && ValueOk(l, d, c, pending, {})
    requires forall bn :: bn in c && bn !in lh ==> bn in d && c[bn] == d[bn]
    ensures var h := PutHead(d[l.start], lh);
            var d', c' := d[l.start := h], c[l.start := h];
            LogOk(l, d') && Durables(l, d') == Apply(Durables(l, d), pending) && ValueOk(l, d', c', [], {})
  {
    hide Durable; hide Apply; hide Distinct; hide PutHead; hide HeadList;
    var h := PutHead(d[l.start], lh);
    var d', c' := d[l.start := h], c[l.start := h];
    HeadWriteDurable(l, d, lh);
    forall bn: nat | l.Home(bn)
      ensures Durable(l, d', bn) == Read(d, c, bn) == Read(d', c', bn)
    {
      if bn in lh {
        var i: nat :| i < |lh| && lh[i] == bn;
        assert Durable(l, d', lh[i]) == d[l.Slot(i)];
      }
    }
    assert Durables(l, d') == Apply(Durables(l, d), pending);
    NoWrites(Durables(l, d'));
  }

  lemma WritingHeadOk(l: Layout, s: State)
    requires Inv(l, s) && s.phase.WritingHead? && Enabled(l, s, CommitStep)
    ensures Preserves(l, s, CommitStep)
  {
    hide CacheOk; hide Durables; hide Installed; hide Distinct; hide ValueOk; hide Settled; hide LogOk;
    hide SlotsFilled; hide HomeList;
    InvParts(l, s);
    QuietParts(l, s);
    HeadStep(l, s.disk, s.cache, s.lh, s.pending);
    QuietInv(l, s, Do(l, s, CommitStep));
    assert SpecCommit(Abs(l, s), Abs(l, Do(l, s, CommitStep)));
  }

  /** A log slot is never dirty in the cache. */
  lemma SlotUncached(l: Layout, d: Disk, c: Disk, lh: seq<nat>, k: nat)
    requires LogOk(l, d) && HeadList(d[l.start]) == lh && k < |lh| && CacheOk(l, d, c, lh[k..], {})
    ensures Read(d, c, l.Slot(k)) == d[l.Slot(k)]
  {
    assert forall bn :: bn in lh[k..] ==> l.Home(bn);
  }

  lemma InstallStep(l: Layout, d: Disk, c: Disk, lh: seq<nat>, k: nat)
    requires LogOk(l, d) && HeadList(d[l.start]) == lh && k < |lh| && Installed(l, d, k)
    requires SlotsFilled(l, d, c, lh, k, |lh|) && CacheOk(l, d, c, lh[k..], {}) && ValueOk(l, d, c, [], {})
    ensures Read(d, c, l.Slot(k)) == d[l.Slot(k)]
    ensures var v := d[l.Slot(k)];
            var d', c' := d[lh[k] := v], c[lh[k] := v];
            && LogOk(l, d') && HeadList(d'[l.start]) == lh && Installed(l, d', k + 1)
            && SlotsFilled(l, d', c', lh, k + 1, |lh|)
            && CacheOk(l, d', c', lh[k + 1..], {}) && ValueOk(l, d', c', [], {})
            && Durables(l, d') == Durables(l, d)
  {
    hide Durables; hide Durable; hide ValueOk; hide Installed;
    var v := d[l.Slot(k)];
    var d', c' := d[lh[k] := v], c[lh[k] := v];
    SlotUncached(l, d, c, lh, k);
    InstallDurable(l, d, k);
    SameDurables(l, d, d');
    hide LogOk; hide CacheOk;
    InstallCacheOk(l, d, c, lh, k);
    InstallValueOk(l, d, c, lh[k]);
  }

  lemma InstallValueOk(l: Layout, d: Disk, c: Disk, bn: nat)
    requires LogOk(l, d) && bn in c && l.Home(bn) && ValueOk(l, d, c, [], {})
    requires LogOk(l, d[bn := c[bn]]) && Durables(l, d[bn := c[bn]]) == Durables(l, d)
    ensures ValueOk(l, d[bn := c[bn]], c[bn := c[bn]], [], {})
  {
    hide Durables; hide LogOk; hide Apply;
  }

  lemma InstallCacheOk(l: Layout, d: Disk, c: Disk, lh: seq<nat>, k: nat)
    requires l.Ok() && l.Spans(d) && HomeList(l, lh) && k < |lh| && CacheOk(l, d, c, lh[k..], {})
    requires lh[k] in c && d[l.Slot(k)] == c[lh[k]]
    ensures var v := d[l.Slot(k)];
            CacheOk(l, d[lh[k] := v], c[lh[k] := v], lh[k + 1..], {})
  {
    assert lh[k..] == [lh[k]] + lh[k + 1..];
  }

  lemma InstallingOk(l: Layout, s: State)
    requires Inv(l, s) && s.phase.Installing? && Enabled(l, s, CommitStep)
    ensures Preserves(l, s, CommitStep)
  {
    hide CacheOk; hide Durables; hide Installed; hide Distinct; hide ValueOk; hide Settled; hide LogOk;
    hide HomeList; hide HeadList;
    InvParts(l, s);
    QuietParts(l, s);
    hide ThreadsOk; hide RefsOk; hide Changing; hide Reserved;
    var r := Do(l, s, CommitStep);
    if s.phase.tail < |s.lh| {
      InstallStep(l, s.disk, s.cache, s.lh, s.phase.tail);
      InstallRefsOk(l, s.refcnt, s.threads, s.lh, s.phase.tail);
      QuietInv(l, s, r);
    } else {
      assert s.lh[|s.lh|..] == [];
      assert HomeList(l, []) by { NoneListed(l); }
      QuietInv(l, s, r);
    }
  }

  /** An installed block loses its pin. */
  lemma InstallRefsOk(l: Layout, refcnt: Refs, ts: seq<Thread>, lh: seq<nat>, k: nat)
    requires HomeList(l, lh) && k < |lh| && RefsOk(refcnt, ts, lh[k..])
    ensures RefsOk(Bump(refcnt, lh[k], -1), ts, lh[k + 1..])
  {
    hide On;
    assert lh[k..] == [lh[k]] + lh[k + 1..];
  }

  lemma NoneListed(l: Layout)
    ensures HomeList(l, [])
  {
  }

  lemma ClearStep(l: Layout, d: Disk, c: Disk)
    requires LogOk(l, d) && Installed(l, d, HeadCount(d[l.start])) && CacheOk(l, d, c, [], {})
    ensures Read(d, c, l.start) == d[l.start]
    ensures var h := PutHead(d[l.start], []);
            var d', c' := d[l.start := h], c[l.start := h];
            && Settled(l, d') && CacheOk(l, d', c', [], {}) && ValueOk(l, d', c', [], {})
            && Durables(l, d') == Durables(l, d)
  {
    hide Durable; hide Apply; hide PutHead; hide Installed; hide HeadList;
    var h := PutHead(d[l.start], []);
    var d' := d[l.start := h];
    ClearDurable(l, d);
    SameDurables(l, d, d');
    NoWrites(Durables(l, d'));
  }

  lemma ClearingOk(l: Layout, s: State)
    requires Inv(l, s) && (s.phase.Clearing? || s.phase.Finishing?) && Enabled(l, s, CommitStep)
    ensures Preserves(l, s, CommitStep)
  {
    hide CacheOk; hide Durables; hide Installed; hide Distinct; hide ValueOk; hide LogOk; hide HomeList;
    InvParts(l, s);
    QuietParts(l, s);
    if s.phase.Clearing? {
      ClearStep(l, s.disk, s.cache);
    }
    QuietInv(l, s, Do(l, s, CommitStep));
  }

  // ---------- Crash and recovery ----------

  lemma {:induction false} AllIdle(n: nat)
    ensures Count(seq(n, _ => IDLE)) == 0 && Reserved(seq(n, _ => IDLE)) == 0 && RefsOk(map[], seq(n, _ => IDLE), [])
  {
    if n > 0 {
      var ts := seq(n, _ => IDLE);
      AllIdle(n - 1);
      assert RefsOk(map[], seq(n - 1, _ => IDLE), []);
      assert ts[..n - 1] == seq(n - 1, _ => IDLE);
    }
  }

  lemma PowerUpAbs(l: Layout, d: Disk, n: nat)
    requires LogOk(l, d)
    ensures PowerUp(d, n).disk == d && Abs(l, PowerUp(d, n)) == Spec(Durables(l, d), [], {})
  {
    hide Durables; hide LogOk;
  }

  lemma CrashOk(l: Layout, s: State)
    requires Inv(l, s)
    ensures Preserves(l, s, Crash)
  {
    hide Durables; hide LogOk; hide Inv; hide PowerUp;
    InvParts(l, s);
    PowerUpOk(l, s.disk, |s.threads|);
    PowerUpAbs(l, s.disk, |s.threads|);
    hide ThreadsOk; hide RefsOk; hide HomeList; hide PhaseOk;
  }

  lemma ReplayStep(l: Layout, d: Disk, c: Disk, k: nat)
    requires LogOk(l, d) && k < HeadCount(d[l.start]) && Installed(l, d, k) && CacheOk(l, d, c, [], {})
    ensures Read(d, c, l.Slot(k)) == d[l.Slot(k)]
    ensures var v, home := d[l.Slot(k)], HeadList(d[l.start])[k];
            var d', c' := d[home := v], c[home := v];
            && LogOk(l, d') && HeadList(d'[l.start]) == HeadList(d[l.start]) && Installed(l, d', k + 1)
            && CacheOk(l, d', c', [], {}) && Durables(l, d') == Durables(l, d)
  {
    hide Durables; hide Durable;
    InstallDurable(l, d, k);
    SameDurables(l, d, d[HeadList(d[l.start])[k] := d[l.Slot(k)]]);
  }

  lemma RecoverOk(l: Layout, s: State)
    requires Inv(l, s) && Enabled(l, s, RecoverStep)
    ensures Preserves(l, s, RecoverStep)
  {
    hide Inv; hide Do; hide Preserves;
    if s.phase.Wiping? {
      WipingOk(l, s);
    } else {
      ReplayingOk(l, s);
    }
  }

  lemma ReplayingOk(l: Layout, s: State)
    requires Inv(l, s) && Enabled(l, s, RecoverStep) && !s.phase.Wiping?
    ensures Preserves(l, s, RecoverStep)
  {
    hide CacheOk; hide Durables; hide Distinct; hide ValueOk; hide HomeList; hide HeadList; hide Settled;
    hide ThreadsOk;
    InvParts(l, s);
    QuietParts(l, s);
    hide RefsOk; hide PhaseOk;
    NoneListed(l);
    if s.phase.Replaying? && s.phase.tail < |s.lh| {
      ReplayStep(l, s.disk, s.cache, s.phase.tail);
    }
    QuietInv(l, s, Do(l, s, RecoverStep));
  }

  lemma WipingOk(l: Layout, s: State)
    requires Inv(l, s) && Enabled(l, s, RecoverStep) && s.phase.Wiping?
    ensures Preserves(l, s, RecoverStep)
  {
    hide CacheOk; hide Durables; hide Distinct; hide ValueOk; hide HomeList; hide HeadList; hide Settled;
    hide ThreadsOk; hide Installed;
    InvParts(l, s);
    QuietParts(l, s);
    hide RefsOk; hide PhaseOk;
    ClearStep(l, s.disk, s.cache);
    SettledLogOk(l, Do(l, s, RecoverStep).disk);
    QuietInv(l, s, Do(l, s, RecoverStep));
  }

  lemma SettledLogOk(l: Layout, d: Disk)
    requires Settled(l, d)
    ensures LogOk(l, d)
  {
  }

  // ---------- Every run ----------

  /** Every step within budget keeps the invariant and is a step of the abstract disk. */
  lemma StepOk(l: Layout, s: State, a: Action)
    requires Inv(l, s) && Enabled(l, s, a) && InBudget(s, a)
    ensures Preserves(l, s, a)
  {
    match a
    case Begin(t) => BeginOk(l, s, t);
    case End(t) => EndOk(l, s, t);
    case Ref(t, bn) => BufferStepOk(l, s, a);
    case Lock(t, bn) => LockOk(l, s, t, bn);
    case Modify(t, bn, data) => ModifyOk(l, s, t, bn, data);
    case LogWrite(t, bn) => LogWriteOk(l, s, t, bn);
    case Unlock(t, bn) => BufferStepOk(l, s, a);
    case Unref(t, bn) => BufferStepOk(l, s, a);
    case Recycle(bn) => RecycleOk(l, s, bn);
    case CommitStep =>
      if s.phase.WritingLog? {
        WritingLogOk(l, s);
      } else if s.phase.WritingHead? {
        WritingHeadOk(l, s);
      } else if s.phase.Installing? {
        InstallingOk(l, s);
      } else {
        ClearingOk(l, s);
      }
    case Crash => CrashOk(l, s);
    case RecoverStep => RecoverOk(l, s);
  }

  ghost function Step(l: Layout, s: State, a: Action): State {
    if Enabled(l, s, a) then Do(l, s, a) else s
  }

  /** The state after a schedule of actions; one that is not enabled waits, changing nothing. */
  ghost function Run(l: Layout, s: State, acts: seq<Action>): State {
    if acts == [] then s else Step(l, Run(l, s, acts[..|acts| - 1]), acts[|acts| - 1])
  }

  /** A machine with n kernel threads powering up on a disk image. */
  ghost function PowerUp(image: Disk, n: nat): State {
    State(image, map[], map[], [], 0, false, seq(n, _ => IDLE), Booting, [])
  }

  lemma PowerUpOk(l: Layout, image: Disk, n: nat)
    requires LogOk(l, image)
    ensures Inv(l, PowerUp(image, n))
  {
    hide LogOk; hide Count; hide Reserved;
    AllIdle(n);
    NoneListed(l);
  }

  ghost predicate Budgeted(l: Layout, s: State, acts: seq<Action>) {
    forall i: nat :: i < |acts| ==> InBudget(Run(l, s, acts[..i]), acts[i])
  }

  lemma {:induction false} RunInv(l: Layout, s: State, acts: seq<Action>)
    requires Inv(l, s) && Budgeted(l, s, acts)
    ensures Inv(l, Run(l, s, acts))
  {
    hide Inv; hide InBudget; hide Enabled; hide Do;
    if acts != [] {
      var n := |acts| - 1;
      var pre := acts[..n];
      assert forall i: nat :: i < n ==> pre[..i] == acts[..i] && pre[i] == acts[i];
      RunInv(l, s, pre);
      assert InBudget(Run(l, s, acts[..n]), acts[n]);
      if Enabled(l, Run(l, s, pre), acts[n]) {
        StepOk(l, Run(l, s, pre), acts[n]);
      }
    }
  }

  /** Group-commit refinement.  Whatever threads, commits, buffer recycling, crashes and
      recoveries do, from any image with a well-formed log, every step is a step of a disk
      on which whole groups take effect at once while no operation is active, and no panic
      is reached. */
  lemma GroupCommitRefinement(l: Layout, image: Disk, n: nat, acts: seq<Action>, i: nat)
    requires LogOk(l, image) && Budgeted(l, PowerUp(image, n), acts) && i < |acts|
    ensures var s, r := Run(l, PowerUp(image, n), acts[..i]), Run(l, PowerUp(image, n), acts[..i + 1]);
            && Inv(l, s) && Inv(l, r)
            && (if Enabled(l, s, acts[i]) then SpecStep(s, acts[i], Abs(l, s), Abs(l, r)) else r == s)
            && !r.phase.Panicked? && (r.committing ==> Abs(l, r).active == {})
  {
    hide Inv; hide InBudget; hide Enabled; hide Do; hide SpecStep; hide LogOk; hide Durables; hide PowerUp;
    hide HomeList; hide RefsOk;
    hide ThreadsOk;
    var s0 := PowerUp(image, n);
    PowerUpOk(l, image, n);
    var pre, pos := acts[..i], acts[..i + 1];
    assert forall j: nat :: j < i ==> pre[..j] == acts[..j] && pre[j] == acts[j];
    assert forall j: nat :: j < i + 1 ==> pos[..j] == acts[..j] && pos[j] == acts[j];
    RunInv(l, s0, pre);
    RunInv(l, s0, pos);
    var s, r := Run(l, s0, pre), Run(l, s0, pos);
    InvParts(l, s);
    InvParts(l, r);
    assert pos[..i] == pre;
    assert InBudget(Run(l, s0, acts[..i]), acts[i]);
    if Enabled(l, s, acts[i]) {
      StepOk(l, s, acts[i]);
    }
    if r.committing {
      assert Quiet(r.threads);
    }
  }

  /** In no run is a buffer recycled that a thread uses or that log_write has pinned. */
  lemma UsedNotRecycled(l: Layout, image: Disk, n: nat, acts: seq<Action>, bn: nat)
    requires LogOk(l, image) && Budgeted(l, PowerUp(image, n), acts)
    requires Enabled(l, Run(l, PowerUp(image, n), acts), Recycle(bn))
    ensures var s := Run(l, PowerUp(image, n), acts);
            && (forall t: nat :: t < |s.threads| ==> bn !in s.threads[t].bufs)
            && bn !in Unwritten(s.phase, s.lh)
  {
    hide Inv; hide InBudget; hide Do; hide LogOk; hide RefsOk; hide Run; hide Changing;
    PowerUpOk(l, image, n);
    RunInv(l, PowerUp(image, n), acts);
    var s := Run(l, PowerUp(image, n), acts);
    InvParts(l, s);
    UnusedIfZero(s.refcnt, s.threads, Unwritten(s.phase, s.lh), bn);
  }

  /** Coherence: in every reachable state, a thread that holds an unchanged buffer sees the
      committed contents of the block with the pending writes applied. */
  lemma ReadsLatest(l: Layout, image: Disk, n: nat, acts: seq<Action>, t: nat, bn: nat)
    requires LogOk(l, image) && Budgeted(l, PowerUp(image, n), acts)
    requires var s := Run(l, PowerUp(image, n), acts);
             Up(s) && t < |s.threads| && Locks(s.threads[t], bn) && bn !in DirtySet(s.threads[t])
    ensures var s := Run(l, PowerUp(image, n), acts);
            LogOk(l, s.disk) && bn in s.cache && bn in Apply(Durables(l, s.disk), s.pending)
            && s.cache[bn] == Apply(Durables(l, s.disk), s.pending)[bn]
  {
    hide Durables; hide Apply; hide Run; hide Settled; hide Installed; hide LogOk; hide RefsOk; hide Changing;
    PowerUpOk(l, image, n);
    RunInv(l, PowerUp(image, n), acts);
    var s := Run(l, PowerUp(image, n), acts);
    InvParts(l, s);
    assert ThreadOk(l, s.cache, s.lh, s.threads[t]);
    LogChanging(l, s, t, bn);
  }

  /** Some thread holds the buffer of bn. */
  ghost predicate HeldBySome(s: State, bn: nat) {
    exists u: nat :: u < |s.threads| && Locks(s.threads[u], bn)
  }

  /** Committer and recovery can take their next step, the committer unless a thread holds a
      logged buffer; a thread can log what it changed, release what it holds, and lock what
      nobody else holds. */
  ghost predicate GoesOn(l: Layout, s: State) {
    && (s.phase.Booting? || s.phase.Replaying? || s.phase.Wiping? ==> Enabled(l, s, RecoverStep))
    && (s.committing ==> Enabled(l, s, CommitStep) || exists bn: nat :: bn in s.lh && HeldBySome(s, bn))
    && (Up(s) ==> forall t: nat, bn: nat :: t < |s.threads| && bn in s.threads[t].bufs ==> BufferGoesOn(l, s, t, bn))
  }

  ghost predicate BufferGoesOn(l: Layout, s: State, t: nat, bn: nat)
    requires t < |s.threads| && bn in s.threads[t].bufs
  {
    match s.threads[t].bufs[bn]
    case Counted => Enabled(l, s, Unref(t, bn)) && (Enabled(l, s, Lock(t, bn)) || HeldBySome(s, bn))
    case Held(dirty) => if dirty then Enabled(l, s, LogWrite(t, bn)) else Enabled(l, s, Unlock(t, bn))
  }

  /** In every run the next step is possible: only the holder of a buffer, who can always
      release it, makes anybody wait, and a recovery is never stopped but by a crash. */
  lemma NobodyStuck(l: Layout, image: Disk, n: nat, acts: seq<Action>)
    requires LogOk(l, image) && Budgeted(l, PowerUp(image, n), acts)
    ensures GoesOn(l, Run(l, PowerUp(image, n), acts))
  {
    hide Inv; hide InBudget; hide Do; hide LogOk; hide Run; hide Enabled; hide PhaseOk; hide ThreadsOk; hide RefsOk; hide HomeList; hide Unwritten;
    PowerUpOk(l, image, n);
    RunInv(l, PowerUp(image, n), acts);
    var s := Run(l, PowerUp(image, n), acts);
    InvParts(l, s);
    RecoveryGoesOn(l, s);
    CommitterGoesOn(l, s);
    if Up(s) {
      forall t: nat, bn: nat | t < |s.threads| && bn in s.threads[t].bufs
        ensures BufferGoesOn(l, s, t, bn)
      {
        ThreadGoesOn(l, s, t, bn);
      }
    }
  }

  lemma RecoveryGoesOn(l: Layout, s: State)
    requires LogOk(l, s.disk) && HomeList(l, s.lh)
    ensures s.phase.Booting? || s.phase.Replaying? || s.phase.Wiping? ==> Enabled(l, s, RecoverStep)
  {
    hide Distinct;
  }

  lemma CommitterGoesOn(l: Layout, s: State)
    requires LogOk(l, s.disk) && HomeList(l, s.lh) && PhaseOk(s)
    ensures s.committing ==> Enabled(l, s, CommitStep) || exists bn: nat :: bn in s.lh && HeldBySome(s, bn)
  {
    hide Distinct; hide HeadList; hide Quiet;
    assert forall bn: nat :: Unheld(s, bn) || HeldBySome(s, bn);
    hide Unheld; hide HeldBySome;
    if (s.phase.WritingLog? || s.phase.Installing?) && s.phase.tail < |s.lh| {
      assert s.lh[s.phase.tail] in s.lh;
    }
  }

  lemma ThreadGoesOn(l: Layout, s: State, t: nat, bn: nat)
    requires Up(s) && LogOk(l, s.disk) && ThreadsOk(l, s.cache, s.lh, s.threads) && t < |s.threads| && bn in s.threads[t].bufs
    ensures BufferGoesOn(l, s, t, bn)
  {
    assert ThreadOk(l, s.cache, s.lh, s.threads[t]);
    assert Unheld(s, bn) || HeldBySome(s, bn);
    hide ThreadsOk; hide Unheld; hide HeldBySome; hide HomeList;
    assert s.threads[t].bufs[bn] == Held(true) ==> bn in DirtySet(s.threads[t]);
  }
}
