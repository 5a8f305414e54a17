/** How much an operation may log.  log_write tests for a full log before it looks for the
    block, so the bound that keeps it from panicking is on what the operation had logged
    before the call, not on how many distinct blocks it logs in all. */
module LogSpace {
  import opened Blocks
  import opened RedoLog
  import opened GroupCommit
  import LogCode

  /** No log_write by an operation that has logged b distinct blocks or more. */
  ghost predicate Under(b: nat, s: State, a: Action) {
    a.LogWrite? && a.t < |s.threads| && s.threads[a.t].inOp && Locks(s.threads[a.t], a.bn) ==> |s.threads[a.t].logged| < b
  }

  /** No operation logs more than MAXOPBLOCKS distinct blocks. */
  ghost predicate FewBlocks(s: State, a: Action) {
    a.LogWrite? && a.t < |s.threads| ==>
      var th := s.threads[a.t];
      |th.logged + (if Locks(th, a.bn) then {a.bn} else {})| <= MAXOPBLOCKS
  }

  ghost predicate AllUnder(b: nat, l: Layout, s: State, acts: seq<Action>) {
    forall i: nat :: i < |acts| ==> Under(b, Run(l, s, acts[..i]), acts[i])
  }

  ghost predicate AllFew(l: Layout, s: State, acts: seq<Action>) {
    forall i: nat :: i < |acts| ==> FewBlocks(Run(l, s, acts[..i]), acts[i])
  }

  // ---------- Runs that fill the log ----------

  const LAYOUT := Layout(40, 31, 100)

  ghost function Blank(): Disk {
    map bn | bn in Span(0, 100) :: ZeroBlock()
  }

  ghost function Span(lo: nat, hi: nat): (r: set<nat>)
    ensures forall i: nat :: i in r <==> lo <= i < hi
    ensures |r| == if lo <= hi then hi - lo else 0
    decreases hi
  {
    if hi <= lo then {} else Span(lo, hi - 1) + {hi - 1}
  }

  /** The actions lead from s0 to s; no operation logs more than MAXOPBLOCKS distinct blocks, or
      anything once it has logged b. */
  ghost predicate Goes(b: nat, s0: State, acts: seq<Action>, s: State) {
    Run(LAYOUT, s0, acts) == s && AllFew(LAYOUT, s0, acts) && AllUnder(b, LAYOUT, s0, acts)
  }

  lemma Stays(b: nat, s: State)
    ensures Goes(b, s, [], s)
  {
  }

  lemma GoesOn(b: nat, s0: State, acts: seq<Action>, s: State, a: Action)
    requires Goes(b, s0, acts, s) && FewBlocks(s, a) && Under(b, s, a)
    ensures Goes(b, s0, acts + [a], Step(LAYOUT, s, a))
  {
    hide Step; hide FewBlocks; hide Under;
    var bs := acts + [a];
    assert bs[..|bs| - 1] == acts;
    forall i: nat | i < |bs|
      ensures FewBlocks(Run(LAYOUT, s0, bs[..i]), bs[i]) && Under(b, Run(LAYOUT, s0, bs[..i]), bs[i])
    {
      if i < |acts| {
        assert bs[..i] == acts[..i] && bs[i] == acts[i];
      }
    }
  }

  /** An action that logs nothing. */
  lemma Moves(b: nat, s0: State, acts: seq<Action>, s: State, a: Action) returns (bs: seq<Action>, r: State)
    requires Goes(b, s0, acts, s) && !a.LogWrite?
    ensures Goes(b, s0, bs, r) && r == Step(LAYOUT, s, a)
  {
    hide Goes; hide Step;
    GoesOn(b, s0, acts, s, a);
    bs, r := acts + [a], Step(LAYOUT, s, a);
  }

  /** Between operations' steps: blocks 0, 1, .. are in the log, and nobody uses a buffer. */
  ghost predicate Ready(s: State) {
    && s.phase == Running && !s.committing && LAYOUT.Spans(s.disk) && |s.lh| <= 30 && s.outstanding >= 0
    && (forall i: nat :: i < |s.lh| ==> s.lh[i] == i)
    && (forall t: nat :: t < |s.threads| ==> s.threads[t].bufs == map[] && s.threads[t].logged <= Span(0, |s.lh|))
  }

  lemma BootStep(s: State)
    requires s.phase.Booting? || s.phase == Replaying(0) || s.phase.Wiping?
    requires s.lh == [] && LAYOUT.Spans(s.disk) && HeadCount(s.disk[40]) == 0
    ensures var r := Step(LAYOUT, s, RecoverStep);
            && r == s.(disk := r.disk, cache := r.cache, phase := r.phase) && LAYOUT.Spans(r.disk)
            && r.phase == (if s.phase.Booting? then Replaying(0) else if s.phase.Replaying? then Wiping else Running)
            && (!s.phase.Wiping? ==> r.disk == s.disk)
  {
    hide PutEntries; hide Word;
  }

  lemma Boot(b: nat, n: nat) returns (acts: seq<Action>, s: State)
    ensures Goes(b, PowerUp(Blank(), n), acts, s) && Ready(s) && s.lh == [] && s.outstanding == 0 && |s.threads| == n
    ensures forall t: nat :: t < n ==> s.threads[t] == IDLE
  {
    hide Goes; hide Step; hide Blank; hide Word; hide Span; hide Ready; hide LogOk; hide HeadCount;
    BlankOk();
    var s0 := PowerUp(Blank(), n);
    acts, s := [], s0;
    Stays(b, s0);
    BootStep(s);
    acts, s := Moves(b, s0, acts, s, RecoverStep);
    BootStep(s);
    acts, s := Moves(b, s0, acts, s, RecoverStep);
    BootStep(s);
    acts, s := Moves(b, s0, acts, s, RecoverStep);
    BootReady(s, n);
  }

  lemma BootReady(s: State, n: nat)
    requires s.phase == Running && s.lh == [] && s.outstanding == 0 && !s.committing && LAYOUT.Spans(s.disk)
    requires s.threads == seq(n, _ => IDLE)
    ensures Ready(s) && |s.threads| == n && forall t: nat :: t < n ==> s.threads[t] == IDLE
  {
  }

  function Op(logged: set<nat>): Thread {
    Thread(true, logged, map[])
  }

  lemma Enter(b: nat, s0: State, acts: seq<Action>, s: State, t: nat) returns (bs: seq<Action>, r: State)
    requires Goes(b, s0, acts, s) && Ready(s) && t < |s.threads| && !s.threads[t].inOp
    requires LogCode.Admits(false, |s.lh|, s.outstanding)
    ensures Goes(b, s0, bs, r) && Ready(r)
    ensures r == s.(outstanding := s.outstanding + 1, threads := s.threads[t := Op({})])
  {
    hide Goes; hide Span;
    bs, r := Moves(b, s0, acts, s, Begin(t));
    assert s.threads[t].bufs == map[];
    assert r.threads == s.threads[t := Op({})];
  }

  /** An operation ends, and it is not the last. */
  lemma Leave(b: nat, s0: State, acts: seq<Action>, s: State, t: nat) returns (bs: seq<Action>, r: State)
    requires Goes(b, s0, acts, s) && Ready(s) && t < |s.threads| && s.threads[t].inOp && s.outstanding > 1
    ensures Goes(b, s0, bs, r) && Ready(r)
    ensures r == s.(outstanding := s.outstanding - 1, threads := s.threads[t := IDLE])
  {
    hide Goes; hide Span;
    assert s.threads[t].bufs == map[] && DirtySet(s.threads[t]) == {};
    bs, r := Moves(b, s0, acts, s, End(t));
    assert r.threads == s.threads[t := IDLE];
  }

  /** Thread t takes a block through bread, up to holding its lock. */
  lemma Hold(b: nat, s0: State, acts: seq<Action>, s: State, t: nat, bn: nat) returns (bs: seq<Action>, r: State)
    requires Goes(b, s0, acts, s) && Ready(s) && t < |s.threads| && bn < 40
    ensures Goes(b, s0, bs, r) && bn in r.cache
    ensures r == s.(cache := r.cache, refcnt := r.refcnt, threads := s.threads[t := s.threads[t].(bufs := map[bn := Held(false)])])
  {
    hide Goes; hide Span;
    bs, r := Moves(b, s0, acts, s, Ref(t, bn));
    assert s.threads[t].bufs == map[];
    assert r.threads[t].bufs == map[bn := Counted] && Unheld(r, bn);
    bs, r := Moves(b, s0, bs, r, Lock(t, bn));
    assert map[bn := Counted][bn := Held(false)] == map[bn := Held(false)];
    assert r.threads == s.threads[t := s.threads[t].(bufs := map[bn := Held(false)])];
  }

  /** A held block that is not yet in the log is logged and released. */
  lemma LogHeld(b: nat, s0: State, acts: seq<Action>, s: State, t: nat, bn: nat) returns (bs: seq<Action>, r: State)
    requires Goes(b, s0, acts, s) && s.phase == Running && s.outstanding >= 1 && |s.lh| < 30 && t < |s.threads|
    requires s.threads[t].inOp && s.threads[t].bufs == map[bn := Held(false)] && bn in s.cache && bn !in s.lh
    requires |s.threads[t].logged + {bn}| <= MAXOPBLOCKS && |s.threads[t].logged| < b
    ensures Goes(b, s0, bs, r)
    ensures r == s.(threads := s.threads[t := Op(s.threads[t].logged + {bn})], lh := s.lh + [bn],
                    refcnt := r.refcnt, pending := r.pending)
  {
    hide Goes; hide Step;
    GoesOn(b, s0, acts, s, LogWrite(t, bn));
    LogOne(s, t, bn);
    bs, r := acts + [LogWrite(t, bn)], Step(LAYOUT, s, LogWrite(t, bn));
    ReleaseOne(r, t, bn);
    bs, r := Moves(b, s0, bs, r, Unlock(t, bn));
    bs, r := Moves(b, s0, bs, r, Unref(t, bn));
    assert r.threads == s.threads[t := Op(s.threads[t].logged + {bn})];
  }

  lemma LogOne(s: State, t: nat, bn: nat)
    requires s.phase == Running && s.outstanding >= 1 && |s.lh| < 30 && t < |s.threads|
    requires s.threads[t].inOp && s.threads[t].bufs == map[bn := Held(false)] && bn in s.cache && bn !in s.lh
    ensures var r := Step(LAYOUT, s, LogWrite(t, bn));
            && r.threads == s.threads[t := Thread(true, s.threads[t].logged + {bn}, map[bn := Held(false)])]
            && r == s.(threads := r.threads, lh := s.lh + [bn], refcnt := r.refcnt, pending := r.pending)
  {
    assert map[bn := Held(false)][bn := Held(false)] == map[bn := Held(false)];
  }

  lemma ReleaseOne(s: State, t: nat, bn: nat)
    requires s.phase == Running && t < |s.threads| && s.threads[t].bufs == map[bn := Held(false)]
    ensures var m := Step(LAYOUT, s, Unlock(t, bn));
            var r := Step(LAYOUT, m, Unref(t, bn));
            && m == s.(threads := s.threads[t := s.threads[t].(bufs := map[bn := Counted])])
            && r == s.(threads := s.threads[t := s.threads[t].(bufs := map[])], refcnt := r.refcnt)
  {
    assert bn !in DirtySet(s.threads[t]);
    assert map[bn := Held(false)][bn := Counted] == map[bn := Counted] && map[bn := Counted] - {bn} == map[];
  }

  /** Thread t logs the next block. */
  lemma LogNext(b: nat, s0: State, acts: seq<Action>, s: State, t: nat) returns (bs: seq<Action>, r: State)
    requires Goes(b, s0, acts, s) && Ready(s) && s.outstanding >= 1 && |s.lh| < 30 && t < |s.threads|
    requires s.threads[t].inOp && |s.threads[t].logged| < MAXOPBLOCKS <= b
    ensures Goes(b, s0, bs, r) && Ready(r) && |r.lh| == |s.lh| + 1 && r.outstanding == s.outstanding
    ensures |r.threads| == |s.threads| && forall u: nat :: u < |s.threads| && u != t ==> r.threads[u] == s.threads[u]
    ensures r.threads[t].inOp && |r.threads[t].logged| == |s.threads[t].logged| + 1
  {
    hide Goes;
    var n := |s.lh|;
    assert n !in s.threads[t].logged;
    bs, r := Hold(b, s0, acts, s, t, n);
    bs, r := LogHeld(b, s0, bs, r, t, n);
    assert r.threads == s.threads[t := Op(s.threads[t].logged + {n})];
    ReadyNext(s, r, t);
  }

  lemma ReadyNext(s: State, r: State, t: nat)
    requires Ready(s) && |s.lh| < 30 && t < |s.threads| && r.threads == s.threads[t := Op(s.threads[t].logged + {|s.lh|})]
    requires r == s.(threads := r.threads, lh := s.lh + [|s.lh|], refcnt := r.refcnt, pending := r.pending, cache := r.cache)
    ensures Ready(r)
  {
    forall u: nat | u < |r.threads|
      ensures r.threads[u].bufs == map[] && r.threads[u].logged <= Span(0, |r.lh|)
    {
      assert s.threads[u].bufs == map[] && s.threads[u].logged <= Span(0, |s.lh|);
    }
  }

  /** Thread t logs until its operation has logged c blocks. */
  lemma {:induction false} LogUpTo(b: nat, s0: State, acts: seq<Action>, s: State, t: nat, c: nat) returns (bs: seq<Action>, r: State)
    requires Goes(b, s0, acts, s) && Ready(s) && s.outstanding >= 1 && t < |s.threads| && s.threads[t].inOp
    requires |s.threads[t].logged| <= c <= MAXOPBLOCKS <= b && |s.lh| + c - |s.threads[t].logged| <= 30
    ensures Goes(b, s0, bs, r) && Ready(r) && |r.lh| == |s.lh| + c - |s.threads[t].logged| && r.outstanding == s.outstanding
    ensures |r.threads| == |s.threads| && forall u: nat :: u < |s.threads| && u != t ==> r.threads[u] == s.threads[u]
    ensures r.threads[t].inOp && |r.threads[t].logged| == c
    decreases c - |s.threads[t].logged|
  {
    hide Goes; hide Ready;
    bs, r := acts, s;
    if |s.threads[t].logged| < c {
      bs, r := LogNext(b, s0, acts, s, t);
      bs, r := LogUpTo(b, s0, bs, r, t, c);
    }
  }

  /** A block that thread t has logged. */
  lemma Logged(s: State, t: nat) returns (bn: nat)
    requires Ready(s) && t < |s.threads| && |s.threads[t].logged| > 0
    ensures bn < 40 && s.threads[t].logged + {bn} == s.threads[t].logged
  {
    bn :| bn in s.threads[t].logged;
    assert bn in Span(0, |s.lh|);
  }

  /** With a full log, log_write panics. */
  lemma FullPanics(b: nat, s0: State, acts: seq<Action>, s: State, t: nat, bn: nat) returns (bs: seq<Action>, r: State)
    requires Goes(b, s0, acts, s) && Ready(s) && |s.lh| == 30 && t < |s.threads| && s.threads[t].inOp && bn < 40
    requires |s.threads[t].logged| < b && |s.threads[t].logged + {bn}| <= MAXOPBLOCKS
    ensures Goes(b, s0, bs, r) && r.phase.Panicked?
  {
    hide Goes; hide Span;
    bs, r := Hold(b, s0, acts, s, t, bn);
    GoesOn(b, s0, bs, r, LogWrite(t, bn));
    bs, r := bs + [LogWrite(t, bn)], Step(LAYOUT, r, LogWrite(t, bn));
  }

  /** Three operations of ten blocks each fill the log; the next log_write panics although
      its block is already logged and no operation ever logs an eleventh block. */
  lemma FullLogPanics() returns (acts: seq<Action>)
    ensures LogOk(LAYOUT, Blank())
    ensures AllFew(LAYOUT, PowerUp(Blank(), 3), acts)
    ensures AllUnder(MAXOPBLOCKS + 1, LAYOUT, PowerUp(Blank(), 3), acts)
    ensures Run(LAYOUT, PowerUp(Blank(), 3), acts).phase.Panicked?
  {
    BlankOk();
    hide Ready; hide Run; hide LogOk; hide Blank; hide Span; hide AllFew; hide AllUnder;
    var b, s0 := MAXOPBLOCKS + 1, PowerUp(Blank(), 3);
    var s;
    acts, s := Boot(b, 3);
    acts, s := Enter(b, s0, acts, s, 0);
    acts, s := Enter(b, s0, acts, s, 1);
    acts, s := Enter(b, s0, acts, s, 2);
    acts, s := LogUpTo(b, s0, acts, s, 0, 10);
    acts, s := LogUpTo(b, s0, acts, s, 1, 10);
    acts, s := LogUpTo(b, s0, acts, s, 2, 10);
    var bn := Logged(s, 0);
    acts, s := FullPanics(b, s0, acts, s, 0, bn);
  }

  lemma BlankOk()
    ensures LogOk(LAYOUT, Blank()) && LAYOUT.Spans(Blank()) && HeadCount(Blank()[40]) == 0
  {
    BlankSpans();
    ZeroHead();
    var d := Blank();
    hide Blank; hide Word; hide ZeroBlock; hide HeadList;
    assert d[40] == ZeroBlock();
  }

  lemma BlankSpans()
    ensures LAYOUT.Spans(Blank()) && forall bn :: bn in Blank() ==> Blank()[bn] == ZeroBlock()
  {
    hide ZeroBlock; hide Span;
  }

  lemma ZeroHead()
    ensures HeadCount(ZeroBlock()) == 0 && HeadList(ZeroBlock()) == []
  {
    ZeroWord(0);
    hide Word; hide ZeroBlock;
  }

  // ---------- The exact bound ----------

  ghost predicate NeverPanics(b: nat) {
    forall l: Layout, image: Disk, n: nat, acts: seq<Action> ::
      LogOk(l, image) && AllUnder(b, l, PowerUp(image, n), acts) ==> !Run(l, PowerUp(image, n), acts).phase.Panicked?
  }

  /** Clients that stop logging at b distinct blocks are safe on every layout, image and
      schedule exactly when b is at most MAXOPBLOCKS. */
  lemma TightBudget(b: nat)
    ensures NeverPanics(b) <==> b <= MAXOPBLOCKS
  {
    hide LogOk; hide Run;
    if b <= MAXOPBLOCKS {
      forall l: Layout, image: Disk, n: nat, acts: seq<Action> | LogOk(l, image) && AllUnder(b, l, PowerUp(image, n), acts)
        ensures !Run(l, PowerUp(image, n), acts).phase.Panicked?
      {
        var s0 := PowerUp(image, n);
        PowerUpOk(l, image, n);
        assert Budgeted(l, s0, acts) by {
          forall i: nat | i < |acts|
            ensures InBudget(Run(l, s0, acts[..i]), acts[i])
          {
            assert Under(b, Run(l, s0, acts[..i]), acts[i]);
          }
        }
        RunInv(l, s0, acts);
        InvParts(l, Run(l, s0, acts));
      }
    } else {
      var acts := FullLogPanics();
      var s0 := PowerUp(Blank(), 3);
      assert AllUnder(b, LAYOUT, s0, acts) by {
        forall i: nat | i < |acts|
          ensures Under(b, Run(LAYOUT, s0, acts[..i]), acts[i])
        {
          assert Under(MAXOPBLOCKS + 1, Run(LAYOUT, s0, acts[..i]), acts[i]);
        }
      }
    }
  }

  // ---------- The exact test of begin_op ----------

  /** s is reached, outside a commit, by operations within their budget, with n blocks in the log
      and `o` operations under way. */
  ghost predicate Reached(l: Layout, image: Disk, k: nat, acts: seq<Action>, s: State, n: nat, o: nat) {
    && LogOk(l, image) && AllUnder(MAXOPBLOCKS, l, PowerUp(image, k), acts) && s == Run(l, PowerUp(image, k), acts)
    && s.phase == Running && |s.lh| == n && s.outstanding == o
  }

  ghost predicate Occurs(n: nat, o: nat) {
    exists l: Layout, image: Disk, k: nat, acts: seq<Action>, s: State :: Reached(l, image, k, acts, s, n, o)
  }

  /** One more operation, whether or not begin_op would let it begin. */
  ghost function Admitted(s: State, t: nat): State
    requires t < |s.threads|
  {
    SetThread(s, t, s.threads[t].(inOp := true, logged := {})).(outstanding := s.outstanding + 1)
  }

  /** From s, one more operation can lead to "too big a transaction" within everybody's budget. */
  ghost predicate Overflows(l: Layout, s: State) {
    exists t: nat, acts: seq<Action> ::
      && t < |s.threads| && !s.threads[t].inOp && AllUnder(MAXOPBLOCKS, l, Admitted(s, t), acts)
      && Run(l, Admitted(s, t), acts).phase.Panicked?
  }

  ghost predicate Unsafe(n: nat, o: nat) {
    exists l: Layout, image: Disk, k: nat, acts: seq<Action>, s: State ::
      Reached(l, image, k, acts, s, n, o) && Overflows(l, s)
  }

  /** How many blocks thread j of o has logged when n are in the log and as many as possible of
      them are those of operations that are over. */
  function Part(n: nat, o: nat, j: nat): nat
    requires o <= 3
  {
    var own := if n + 10 * o <= 30 then 0 else n + 10 * o - 30;
    if own <= 10 * j then 0 else if own >= 10 * j + 10 then 10 else own - 10 * j
  }

  /** Threads 0 to o-1 are in an operation, and the others are not. */
  ghost predicate Busy(s: State, o: nat) {
    && Ready(s) && |s.threads| == 4 && o <= 3 && s.outstanding == o
    && (forall t: nat :: t < o ==> s.threads[t].inOp) && (forall t: nat :: o <= t < 4 ==> s.threads[t] == IDLE)
  }

  ghost predicate NoneLogged(s: State, o: nat) {
    forall t: nat :: t < o && t < |s.threads| ==> s.threads[t].logged == {}
  }

  ghost predicate Parts(s: State, n: nat, o: nat, j: nat)
    requires o <= 3
  {
    forall t: nat :: t < o && t < |s.threads| ==> |s.threads[t].logged| == if t < j then Part(n, o, t) else 0
  }

  lemma {:induction false} EnterAll(o: nat) returns (acts: seq<Action>, s: State)
    requires o <= 3
    ensures Goes(MAXOPBLOCKS, PowerUp(Blank(), 4), acts, s) && Busy(s, o) && NoneLogged(s, o) && s.lh == []
  {
    hide Goes; hide Ready;
    if o == 0 {
      acts, s := Boot(MAXOPBLOCKS, 4);
    } else {
      acts, s := EnterAll(o - 1);
      acts, s := Enter(MAXOPBLOCKS, PowerUp(Blank(), 4), acts, s, o - 1);
    }
  }

  /** An operation of thread 3 that logs m blocks and ends. */
  lemma PassBy(acts: seq<Action>, s: State, o: nat, m: nat) returns (bs: seq<Action>, r: State)
    requires Goes(MAXOPBLOCKS, PowerUp(Blank(), 4), acts, s) && 0 < o && Busy(s, o) && NoneLogged(s, o)
    requires m <= 10 && |s.lh| + 10 * (o + 1) <= 30
    ensures Goes(MAXOPBLOCKS, PowerUp(Blank(), 4), bs, r) && Busy(r, o) && NoneLogged(r, o) && |r.lh| == |s.lh| + m
  {
    hide Goes; hide Ready;
    var s0 := PowerUp(Blank(), 4);
    bs, r := Enter(MAXOPBLOCKS, s0, acts, s, 3);
    bs, r := LogUpTo(MAXOPBLOCKS, s0, bs, r, 3, m);
    bs, r := Leave(MAXOPBLOCKS, s0, bs, r, 3);
  }

  /** Operations that are over leave e blocks in the log, as many as the reservations allow. */
  lemma {:induction false} PassAll(o: nat, e: nat) returns (acts: seq<Action>, s: State)
    requires 0 < o <= 3 && e + 10 * o <= 30
    ensures Goes(MAXOPBLOCKS, PowerUp(Blank(), 4), acts, s) && Busy(s, o) && NoneLogged(s, o) && |s.lh| == e
    decreases e
  {
    hide Goes; hide Ready; hide Busy; hide NoneLogged;
    if e == 0 {
      acts, s := EnterAll(o);
    } else {
      var m := if e % 10 == 0 then 10 else e % 10;
      acts, s := PassAll(o, e - m);
      acts, s := PassBy(acts, s, o, m);
    }
  }

  /** The operations under way log their parts. */
  lemma {:induction false} LogParts(n: nat, o: nat, j: nat) returns (acts: seq<Action>, s: State)
    requires 0 < o <= 3 && n <= 30 && j <= o
    ensures Goes(MAXOPBLOCKS, PowerUp(Blank(), 4), acts, s) && Busy(s, o) && Parts(s, n, o, j)
    ensures |s.lh| == Ended(n, o) + Before(n, o, j)
  {
    hide Goes; hide Ready;
    if j == 0 {
      acts, s := PassAll(o, Ended(n, o));
    } else {
      acts, s := LogParts(n, o, j - 1);
      PartsSum(n, o, j);
      acts, s := LogUpTo(MAXOPBLOCKS, PowerUp(Blank(), 4), acts, s, j - 1, Part(n, o, j - 1));
    }
  }

  function Ended(n: nat, o: nat): nat
    requires o <= 3
  {
    if n + 10 * o <= 30 then n else 30 - 10 * o
  }

  function Before(n: nat, o: nat, j: nat): nat
    requires o <= 3
  {
    if j == 0 then 0 else Before(n, o, j - 1) + Part(n, o, j - 1)
  }

  lemma PartsSum(n: nat, o: nat, j: nat)
    requires 0 < o <= 3 && n <= 30 && j <= o
    ensures Ended(n, o) + Before(n, o, j) <= n && (j == o ==> Ended(n, o) + Before(n, o, j) == n)
    ensures Ended(n, o) + Before(n, o, j) <= 30
  {
    assert Before(n, o, 1) == Part(n, o, 0);
    assert Before(n, o, 2) == Before(n, o, 1) + Part(n, o, 1);
    assert Before(n, o, 3) == Before(n, o, 2) + Part(n, o, 2);
  }

  /** From where the operations under way have logged their parts, one more operation overflows
      the log whenever begin_op would have refused it. */
  lemma Overflow(s: State, n: nat, o: nat)
    requires 0 < o <= 3 && n <= 30 && Busy(s, o) && Parts(s, n, o, o) && |s.lh| == n && n + 10 * (o + 1) > 30
    ensures Overflows(LAYOUT, s)
  {
    hide Goes; hide Ready;
    var b, s0 := MAXOPBLOCKS, Admitted(s, 3);
    assert Ready(s0) by { AdmittedReady(s); }
    Stays(b, s0);
    PartsSum(n, o, o);
    var acts, r := FillUp(s0, n, o, o);
    var x := 30 - Ended(n, o) - 10 * o;
    acts, r := LogUpTo(b, s0, acts, r, 3, x);
    acts, r := FullPanics(b, s0, acts, r, 3, 0);
    GoesEnds(b, s0, acts, r);
  }

  lemma AdmittedReady(s: State)
    requires Ready(s) && |s.threads| == 4 && s.threads[3] == IDLE
    ensures Ready(Admitted(s, 3))
  {
    hide Span;
  }

  lemma GoesEnds(b: nat, s0: State, acts: seq<Action>, r: State)
    requires Goes(b, s0, acts, r)
    ensures AllUnder(b, LAYOUT, s0, acts) && Run(LAYOUT, s0, acts) == r
  {
  }

  /** The first j operations log all they may. */
  lemma {:induction false} FillUp(s0: State, n: nat, o: nat, j: nat) returns (acts: seq<Action>, r: State)
    requires 0 < o <= 3 && n <= 30 && j <= o && Ready(s0) && |s0.threads| == 4 && s0.outstanding == o + 1
    requires (forall t: nat :: t < o ==> s0.threads[t].inOp && |s0.threads[t].logged| == Part(n, o, t)) && |s0.lh| == n
    ensures Goes(MAXOPBLOCKS, s0, acts, r) && Ready(r) && |r.threads| == 4 && r.outstanding == o + 1
    ensures forall t: nat :: t < 4 && t >= j ==> r.threads[t] == s0.threads[t]
    ensures |r.lh| == n - Before(n, o, j) + 10 * j
  {
    hide Goes; hide Ready;
    if j == 0 {
      acts, r := [], s0;
      Stays(MAXOPBLOCKS, s0);
    } else {
      acts, r := FillUp(s0, n, o, j - 1);
      PartsSum(n, o, o);
      Bounded(n, o, j);
      acts, r := LogUpTo(MAXOPBLOCKS, s0, acts, r, j - 1, 10);
    }
  }

  lemma Bounded(n: nat, o: nat, j: nat)
    requires 0 < o <= 3 && n <= 30 && 0 < j <= o
    ensures n - Before(n, o, j) + 10 * j <= 30 && Before(n, o, o) - Before(n, o, j) <= 10 * (o - j)
  {
    PartsSum(n, o, o);
    assert Before(n, o, 1) == Part(n, o, 0);
    assert Before(n, o, 2) == Before(n, o, 1) + Part(n, o, 1);
    assert Before(n, o, 3) == Before(n, o, 2) + Part(n, o, 2);
  }

  /** Which numbers occur outside a commit. */
  lemma OccursIs(n: nat, o: nat)
    ensures Occurs(n, o) <==> o <= 3 && n <= LOGSIZE && (o == 0 ==> n == 0)
  {
    hide Run; hide AllUnder; hide LogOk;
    if Occurs(n, o) {
      var l: Layout, image: Disk, k: nat, acts: seq<Action>, s: State :| Reached(l, image, k, acts, s, n, o);
      Within(l, image, k, acts);
    }
    if o <= 3 && n <= LOGSIZE && (o == 0 ==> n == 0) {
      var acts, s := Reach(n, o);
    }
  }

  lemma Reach(n: nat, o: nat) returns (acts: seq<Action>, s: State)
    requires o <= 3 && n <= 30 && (o == 0 ==> n == 0)
    ensures Reached(LAYOUT, Blank(), 4, acts, s, n, o)
    ensures o > 0 ==> Busy(s, o) && Parts(s, n, o, o)
  {
    BlankOk();
    hide LogOk; hide Blank; hide Run; hide AllUnder; hide AllFew; hide Parts;
    if o == 0 {
      acts, s := Boot(MAXOPBLOCKS, 4);
    } else {
      acts, s := LogParts(n, o, o);
      PartsSum(n, o, o);
    }
    hide Ready;
  }

  /** In every run within budget there are at most three operations, at most LOGSIZE blocks, and
      outside a commit none without an operation. */
  ghost predicate Few(s: State) {
    s.outstanding <= 3 && (s.phase.Running? && s.outstanding == 0 ==> s.lh == [])
  }

  lemma FewStep(l: Layout, s: State, a: Action)
    requires Inv(l, s) && Few(s) && Enabled(l, s, a) && InBudget(s, a)
    ensures Few(Do(l, s, a))
  {
    hide LogOk; hide HomeList; hide HeadList; hide PutHead; hide Durables; hide RefsOk; hide CacheOk; hide ValueOk;
  }

  lemma {:induction false} FewRun(l: Layout, s: State, acts: seq<Action>)
    requires Inv(l, s) && Few(s) && Budgeted(l, s, acts)
    ensures Inv(l, Run(l, s, acts)) && Few(Run(l, s, acts))
  {
    hide Inv; hide InBudget; hide Enabled; hide Do; hide Few;
    RunInv(l, s, acts);
    if acts != [] {
      var n := |acts| - 1;
      var pre := acts[..n];
      assert forall i: nat :: i < n ==> pre[..i] == acts[..i] && pre[i] == acts[i];
      FewRun(l, s, pre);
      assert InBudget(Run(l, s, acts[..n]), acts[n]);
      if Enabled(l, Run(l, s, pre), acts[n]) {
        FewStep(l, Run(l, s, pre), acts[n]);
      }
    }
  }

  lemma UnderIsBudget(l: Layout, s: State, acts: seq<Action>)
    requires AllUnder(MAXOPBLOCKS, l, s, acts)
    ensures Budgeted(l, s, acts)
  {
    hide Run;
    forall i: nat | i < |acts|
      ensures InBudget(Run(l, s, acts[..i]), acts[i])
    {
      assert Under(MAXOPBLOCKS, Run(l, s, acts[..i]), acts[i]);
    }
  }

  lemma Within(l: Layout, image: Disk, k: nat, acts: seq<Action>)
    requires LogOk(l, image) && AllUnder(MAXOPBLOCKS, l, PowerUp(image, k), acts)
    ensures var s := Run(l, PowerUp(image, k), acts);
            && Inv(l, s) && 0 <= s.outstanding <= 3 && |s.lh| <= LOGSIZE
            && (s.phase.Running? && s.outstanding == 0 ==> s.lh == [])
  {
    hide Run; hide LogOk; hide AllUnder;
    PowerUpOk(l, image, k);
    UnderIsBudget(l, PowerUp(image, k), acts);
    FewRun(l, PowerUp(image, k), acts);
    LogBound(l, Run(l, PowerUp(image, k), acts));
  }

  lemma LogBound(l: Layout, s: State)
    requires Inv(l, s)
    ensures |s.lh| <= LOGSIZE && 0 <= s.outstanding
  {
    hide LogOk; hide HeadList; hide Durables; hide RefsOk; hide CacheOk; hide ValueOk;
  }

  /** begin_op's test is exact: outside a commit it refuses an operation exactly when, with these
      numbers, letting it begin could lead to a panic within everybody's budget. */
  lemma AdmitsExact(n: nat, o: nat)
    requires Occurs(n, o)
    ensures LogCode.Admits(false, n, o) <==> !Unsafe(n, o)
  {
    hide Run; hide AllUnder; hide LogOk; hide Overflows; hide Occurs;
    OccursIs(n, o);
    if LogCode.Admits(false, n, o) {
      forall l: Layout, image: Disk, k: nat, acts: seq<Action>, s: State | Reached(l, image, k, acts, s, n, o)
        ensures !Overflows(l, s)
      {
        AdmittedSafe(l, image, k, acts, s, n, o);
      }
    } else {
      var acts, s := Reach(n, o);
      Overflow(s, n, o);
    }
  }

  lemma AdmittedSafe(l: Layout, image: Disk, k: nat, acts: seq<Action>, s: State, n: nat, o: nat)
    requires Reached(l, image, k, acts, s, n, o) && LogCode.Admits(false, n, o)
    ensures !Overflows(l, s)
  {
    hide Run; hide AllUnder; hide LogOk;
    Within(l, image, k, acts);
    forall t: nat, bs: seq<Action> | t < |s.threads| && !s.threads[t].inOp && AllUnder(MAXOPBLOCKS, l, Admitted(s, t), bs)
      ensures !Run(l, Admitted(s, t), bs).phase.Panicked?
    {
      BeginsSafely(l, s, t);
      UnderIsBudget(l, Admitted(s, t), bs);
      RunInv(l, Admitted(s, t), bs);
      InvParts(l, Run(l, Admitted(s, t), bs));
    }
  }

  lemma BeginsSafely(l: Layout, s: State, t: nat)
    requires Inv(l, s) && s.phase == Running && t < |s.threads| && !s.threads[t].inOp
    requires LogCode.Admits(false, |s.lh|, s.outstanding)
    ensures Inv(l, Admitted(s, t))
  {
    hide Inv; hide LogOk;
    InvParts(l, s);
    StepOk(l, s, Begin(t));
  }

  // ---------- Schedules of operations that fit ----------

  /** What thread t has passed to log_write since it last entered an operation. */
  ghost function OpLog(l: Layout, s: State, acts: seq<Action>, t: nat): seq<nat> {
    if acts == [] then []
    else
      var pre, a := acts[..|acts| - 1], acts[|acts| - 1];
      var m := Run(l, s, pre);
      if !Enabled(l, m, a) then OpLog(l, s, pre, t)
      else if a == Begin(t) || a.Crash? then []
      else if a.LogWrite? && a.t == t then OpLog(l, s, pre, t) + [a.bn]
      else OpLog(l, s, pre, t)
  }

  /** Every operation logs a prefix of some list that fits, such as the ones filewrite makes. */
  ghost predicate OpsFit(l: Layout, s: State, acts: seq<Action>) {
    forall i: nat :: i < |acts| && acts[i].LogWrite? && Enabled(l, Run(l, s, acts[..i]), acts[i]) ==>
      Fits(OpLog(l, s, acts[..i + 1], acts[i].t))
  }

  /** The set a thread carries is the set of what it logged. */
  lemma {:induction false} LoggedIsOpLog(l: Layout, s: State, acts: seq<Action>, t: nat)
    requires Inv(l, s) && (forall u :: 0 <= u < |s.threads| ==> s.threads[u] == IDLE) && Budgeted(l, s, acts)
    ensures var r := Run(l, s, acts);
            Inv(l, r) && |r.threads| == |s.threads| && (t < |r.threads| && r.threads[t].inOp ==> r.threads[t].logged == Members(OpLog(l, s, acts, t)))
  {
    hide Inv; hide InBudget; hide Do; hide Enabled; hide Members;
    RunInv(l, s, acts);
    if acts != [] {
      var n := |acts| - 1;
      var pre, a := acts[..n], acts[n];
      assert forall i: nat :: i < n ==> pre[..i] == acts[..i] && pre[i] == acts[i];
      LoggedIsOpLog(l, s, pre, t);
      var m := Run(l, s, pre);
      if Enabled(l, m, a) {
        ThreadCount(l, m, a);
        if t < |m.threads| {
          InvParts(l, Run(l, s, acts));
          LoggedStep(l, m, a, t, OpLog(l, s, pre, t));
        }
      }
    }
  }

  lemma LoggedStep(l: Layout, m: State, a: Action, t: nat, log: seq<nat>)
    requires Enabled(l, m, a) && t < |m.threads| && !Do(l, m, a).phase.Panicked?
    requires m.threads[t].inOp ==> m.threads[t].logged == Members(log)
    ensures |Do(l, m, a).threads| == |m.threads|
    ensures var log' := if a == Begin(t) || a.Crash? then [] else if a.LogWrite? && a.t == t then log + [a.bn] else log;
            Do(l, m, a).threads[t].inOp ==> Do(l, m, a).threads[t].logged == Members(log')
  {
    if a.CommitStep? || a.RecoverStep? || a.Recycle? {
      ThreadsAlone(l, m, a);
      hide Do; hide Enabled; hide Members;
    } else {
      hide Members;
      if a.LogWrite? && a.t == t {
        MembersNext(log, a.bn);
      }
    }
  }

  lemma ThreadCount(l: Layout, m: State, a: Action)
    requires Enabled(l, m, a)
    ensures |Do(l, m, a).threads| == |m.threads|
  {
    if a.CommitStep? || a.RecoverStep? || a.Recycle? {
      ThreadsAlone(l, m, a);
    }
  }

  lemma MembersNext(log: seq<nat>, bn: nat)
    ensures Members(log + [bn]) == Members(log) + {bn}
  {
  }

  /** Steps of the committer, of recovery and of the cache leave the threads alone. */
  lemma ThreadsAlone(l: Layout, m: State, a: Action)
    requires Enabled(l, m, a) && (a.CommitStep? || a.RecoverStep? || a.Recycle?)
    ensures Do(l, m, a).threads == m.threads
  {
    hide PutHead; hide HeadList; hide LogOk;
  }

  lemma LogEnabled(l: Layout, m: State, t: nat, bn: nat)
    requires Inv(l, m) && t < |m.threads| && m.threads[t].inOp && Locks(m.threads[t], bn)
    ensures Enabled(l, m, LogWrite(t, bn))
  {
    hide Inv; hide LogOk; hide HomeList; hide RefsOk; hide DirtySet; hide Apart;
    InvParts(l, m);
    assert ThreadOk(l, m.cache, m.lh, m.threads[t]);
  }

  /** The last action of a fitting schedule is within budget. */
  lemma FitsBudget(l: Layout, s: State, acts: seq<Action>)
    requires Inv(l, s) && (forall u :: 0 <= u < |s.threads| ==> s.threads[u] == IDLE) && acts != []
    requires Budgeted(l, s, acts[..|acts| - 1]) && OpsFit(l, s, acts)
    ensures InBudget(Run(l, s, acts[..|acts| - 1]), acts[|acts| - 1])
  {
    hide Run; hide Do; hide Inv; hide Members;
    var k := |acts| - 1;
    var pre, a := acts[..k], acts[k];
    LoggedIsOpLog(l, s, pre, if a.LogWrite? then a.t else 0);
    var m := Run(l, s, pre);
    if a.LogWrite? && a.t < |m.threads| && m.threads[a.t].inOp && Locks(m.threads[a.t], a.bn) {
      LogEnabled(l, m, a.t, a.bn);
      assert acts[..k + 1] == acts;
      var log := OpLog(l, s, acts, a.t);
      assert log == OpLog(l, s, pre, a.t) + [a.bn];
      assert log[..|log| - 1] == OpLog(l, s, pre, a.t);
    }
  }

  /** No interleaving of operations that fit reaches "too big a transaction". */
  lemma {:induction false} FittingOpsNeverPanic(l: Layout, image: Disk, n: nat, acts: seq<Action>)
    requires LogOk(l, image) && OpsFit(l, PowerUp(image, n), acts)
    ensures Inv(l, Run(l, PowerUp(image, n), acts)) && !Run(l, PowerUp(image, n), acts).phase.Panicked?
    ensures Budgeted(l, PowerUp(image, n), acts)
  {
    hide Inv; hide Run; hide Enabled; hide Do; hide LogOk;
    var s := PowerUp(image, n);
    PowerUpOk(l, image, n);
    if acts != [] {
      var k := |acts| - 1;
      var pre, a := acts[..k], acts[k];
      forall i: nat | i < |pre| && pre[i].LogWrite? && Enabled(l, Run(l, s, pre[..i]), pre[i])
        ensures Fits(OpLog(l, s, pre[..i + 1], pre[i].t))
      {
        assert pre[..i] == acts[..i] && pre[i] == acts[i] && pre[..i + 1] == acts[..i + 1];
      }
      FittingOpsNeverPanic(l, image, n, pre);
      assert acts[..|acts|] == acts;
      assert InBudget(Run(l, s, pre), a) by { FitsBudget(l, s, acts); }
      forall i: nat | i < |acts|
        ensures InBudget(Run(l, s, acts[..i]), acts[i])
      {
        if i < k {
          assert pre[..i] == acts[..i];
          assert InBudget(Run(l, s, pre[..i]), pre[i]);
        }
      }
    }
    RunInv(l, s, acts);
    InvParts(l, Run(l, s, acts));
  }
}
