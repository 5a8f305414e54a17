/** Process creation, exit, wait and scheduling (kernel/proc.c), as interleaved steps between
    lock operations.  `proc[INIT]` is initproc. */
module ProcessTree {

  import opened Basics

  datatype RunState = UNUSED | USED | SLEEPING | RUNNABLE | RUNNING | ZOMBIE

  /** Where a process is in fork, exit or wait. */
  datatype Pc =
    | Idle
    | Fork1(np: nat)             // allocproc done, np->lock held
    | Fork2(np: nat)             // np->lock released, np->parent not set
    | Fork3(np: nat)             // np->parent set, np not RUNNABLE yet
    | Exiting(i: nat)            // in reparent at proc[i], wait_lock held
    | Calling(i: nat, k: nat)    // after proc[i] in reparent, in wakeup(initproc) at proc[k]
    | Parting(k: nat)            // in exit's wakeup(p->parent) at proc[k]
    | Dead
    | Waiting(i: nat, kids: bool)  // in wait's scan at proc[i], wait_lock held
    | WaitAgain                  // asleep in wait, or about to reacquire wait_lock

  /** `lock` is the process that holds p->lock; the scheduler holds it for p around swtch. */
  datatype Proc = Proc(st: RunState, pid: nat, parent: Option<nat>, killed: bool, pc: Pc, lock: Option<nat>)

  /** `cpus[c]` is c->proc.  History: the pids that have exited, and those that wait has
      returned. */
  datatype State = State(procs: seq<Proc>, cpus: seq<Option<nat>>, waitLock: Option<nat>, nextpid: nat, exited: set<nat>, reaped: seq<nat>)

  const INIT := 0
  const FREE := Proc(UNUSED, 0, None, false, Idle, None)

  datatype Action =
    | AllocProc(p: nat, np: nat) | ForkFail(p: nat) | ForkCopied(p: nat) | ForkParent(p: nat) | ForkRun(p: nat)
    | ExitStart(p: nat) | Reparent(p: nat) | WakeScan(p: nat) | CallDone(p: nat) | ReparentDone(p: nat) | ExitEnd(p: nat)
    | WaitStart(p: nat) | WaitScan(p: nat) | WaitFault(p: nat) | WaitNone(p: nat) | WaitSleep(p: nat)
    | Yield(p: nat) | Sleep(p: nat) | Switch(p: nat, c: nat) | Dispatch(p: nat, c: nat) | Resume(p: nat)
    | Wake(p: nat) | Kill(p: nat)

  predicate Alive(st: RunState) { st.SLEEPING? || st.RUNNABLE? || st.RUNNING? }

  predicate InExit(pc: Pc) { pc.Exiting? || pc.Calling? || pc.Parting? }

  /** Asleep in wait, on its own channel. */
  predicate Dozing(p: Proc) { p.st.SLEEPING? && p.pc.WaitAgain? }

  /** Whom a wakeup in exit is for. */
  function Target(p: Proc): nat { if p.pc.Parting? && p.parent.Some? then p.parent.value else INIT }

  predicate Forking(pc: Pc) { pc.Fork1? || pc.Fork2? || pc.Fork3? }

  /** Running its own code, with p->lock released. */
  predicate Runs(p: Proc) { p.st.RUNNING? && p.lock.None? }

  predicate Enabled(s: State, a: Action) {
    var n := |s.procs|;
    a.p < n &&
    var p := s.procs[a.p];
    match a
    case AllocProc(_, np) => Runs(p) && p.pc.Idle? && np < n && s.procs[np].st.UNUSED? && s.procs[np].lock.None?
    case ForkFail(_) => Runs(p) && p.pc.Fork1? && p.pc.np < n
    case ForkCopied(_) => Runs(p) && p.pc.Fork1? && p.pc.np < n
    case ForkParent(_) => Runs(p) && p.pc.Fork2? && p.pc.np < n && s.waitLock.None?
    case ForkRun(_) => Runs(p) && p.pc.Fork3? && p.pc.np < n && s.procs[p.pc.np].lock.None?
    case ExitStart(_) => Runs(p) && p.pc.Idle? && a.p != INIT && s.waitLock.None?
    case Reparent(_) => Runs(p) && p.pc.Exiting? && p.pc.i < n
    case WakeScan(_) => Runs(p) && (p.pc.Calling? || p.pc.Parting?) && p.pc.k < n && (p.pc.k == a.p || s.procs[p.pc.k].lock.None?)
    case CallDone(_) => Runs(p) && p.pc.Calling? && p.pc.k == n
    case ReparentDone(_) => Runs(p) && p.pc.Exiting? && p.pc.i == n
    case ExitEnd(_) => Runs(p) && p.pc.Parting? && p.pc.k == n
    case WaitStart(_) => Runs(p) && (p.pc.Idle? || p.pc.WaitAgain?) && s.waitLock.None?
    case WaitScan(_) => Runs(p) && p.pc.Waiting? && p.pc.i < n && (s.procs[p.pc.i].parent == Some(a.p) ==> s.procs[p.pc.i].lock.None?)
    case WaitFault(_) => Runs(p) && p.pc.Waiting? && p.pc.i < n && s.procs[p.pc.i].parent == Some(a.p) && s.procs[p.pc.i].lock.None? && s.procs[p.pc.i].st.ZOMBIE?
    case WaitNone(_) => Runs(p) && p.pc.Waiting? && p.pc.i == n && (!p.pc.kids || p.killed)
    case WaitSleep(_) => Runs(p) && p.pc.Waiting? && p.pc.i == n && p.pc.kids
    case Yield(_) => Runs(p) && (p.pc.Idle? || p.pc.Fork2? || p.pc.Fork3? || p.pc.WaitAgain?)
    case Sleep(_) => Runs(p) && p.pc.Idle?
    case Switch(_, c) => c < |s.cpus| && s.cpus[c] == Some(a.p) && p.lock == Some(a.p) && !p.st.RUNNING?
    case Dispatch(_, c) => c < |s.cpus| && s.cpus[c].None? && p.st.RUNNABLE? && p.lock.None?
    case Resume(_) => p.st.RUNNING? && p.lock == Some(a.p)
    case Wake(_) => p.st.SLEEPING? && p.lock.None?
    case Kill(_) => p.lock.None?
  }

  function Set(s: State, i: nat, p: Proc): State
    requires i < |s.procs|
  {
    s.(procs := s.procs[i := p])
  }

  function Do(s: State, a: Action): State
    requires Enabled(s, a)
  {
    var p := s.procs[a.p];
    match a
    case AllocProc(_, np) =>
      Set(Set(s, a.p, p.(pc := Fork1(np))), np, s.procs[np].(st := USED, pid := s.nextpid, lock := Some(a.p))).(nextpid := s.nextpid + 1)
    case ForkFail(_) => Set(Set(s, a.p, p.(pc := Idle)), p.pc.np, FREE)
    case ForkCopied(_) => Set(Set(s, a.p, p.(pc := Fork2(p.pc.np))), p.pc.np, s.procs[p.pc.np].(lock := None))
    case ForkParent(_) => Set(Set(s, a.p, p.(pc := Fork3(p.pc.np))), p.pc.np, s.procs[p.pc.np].(parent := Some(a.p)))
    case ForkRun(_) => Set(Set(s, a.p, p.(pc := Idle)), p.pc.np, s.procs[p.pc.np].(st := RUNNABLE))
    case ExitStart(_) => Set(s, a.p, p.(pc := Exiting(0))).(waitLock := Some(a.p))
    case Reparent(_) => DoReparent(s, a.p)
    case WakeScan(_) => DoWake(s, a.p)
    case CallDone(_) => Set(s, a.p, p.(pc := Exiting(p.pc.i + 1)))
    case ReparentDone(_) => Set(s, a.p, p.(pc := Parting(0)))
    case ExitEnd(_) => Set(s, a.p, p.(st := ZOMBIE, pc := Dead, lock := Some(a.p))).(waitLock := None, exited := s.exited + {p.pid})
    case WaitStart(_) => Set(s, a.p, p.(pc := Waiting(0, false))).(waitLock := Some(a.p))
    case WaitScan(_) => DoWait(s, a.p)
    case WaitFault(_) => Set(s, a.p, p.(pc := Idle)).(waitLock := None)
    case WaitNone(_) => Set(s, a.p, p.(pc := Idle)).(waitLock := None)
    case WaitSleep(_) => Set(s, a.p, p.(st := SLEEPING, pc := WaitAgain, lock := Some(a.p))).(waitLock := None)
    case Yield(_) => Set(s, a.p, p.(st := RUNNABLE, lock := Some(a.p)))
    case Sleep(_) => Set(s, a.p, p.(st := SLEEPING, lock := Some(a.p)))
    case Switch(_, c) => Set(s, a.p, p.(lock := None)).(cpus := s.cpus[c := None])
    case Dispatch(_, c) => Set(s, a.p, p.(st := RUNNING, lock := Some(a.p))).(cpus := s.cpus[c := Some(a.p)])
    case Resume(_) => Set(s, a.p, p.(lock := None))
    case Wake(_) => Set(s, a.p, p.(st := RUNNABLE))
    case Kill(_) => Set(s, a.p, p.(killed := true, st := if p.st.SLEEPING? then RUNNABLE else p.st))
  }

  /** One round of reparent's loop, up to its wakeup. */
  function DoReparent(s: State, p: nat): State
    requires Enabled(s, Reparent(p))
  {
    var i := s.procs[p].pc.i;
    if s.procs[i].parent == Some(p) then
      var t := Set(s, i, s.procs[i].(parent := Some(INIT)));
      Set(t, p, t.procs[p].(pc := Calling(i, 0)))
    else Set(s, p, s.procs[p].(pc := Exiting(i + 1)))
  }

  /** One round of wakeup's loop in exit: of the sleepers in wait, only the target is on the
      target's channel. */
  function DoWake(s: State, p: nat): State
    requires Enabled(s, WakeScan(p))
  {
    var k := s.procs[p].pc.k;
    var t := if k != p && k == Target(s.procs[p]) && Dozing(s.procs[k]) then Set(s, k, s.procs[k].(st := RUNNABLE)) else s;
    Set(t, p, t.procs[p].(pc := if t.procs[p].pc.Calling? then Calling(t.procs[p].pc.i, k + 1) else Parting(k + 1)))
  }

  /** One round of wait's scan; a zombie child is freed and its pid returned. */
  function DoWait(s: State, p: nat): State
    requires Enabled(s, WaitScan(p))
  {
    var i, kids := s.procs[p].pc.i, s.procs[p].pc.kids;
    if s.procs[i].parent != Some(p) then Set(s, p, s.procs[p].(pc := Waiting(i + 1, kids)))
    else if !s.procs[i].st.ZOMBIE? then Set(s, p, s.procs[p].(pc := Waiting(i + 1, true)))
    else Set(Set(s, p, s.procs[p].(pc := Idle)), i, FREE).(waitLock := None, reaped := s.reaped + [s.procs[i].pid])
  }

  // ---------- Invariant ----------

  /** A process's own fields fit together. */
  ghost predicate ProcOk(p: Proc, i: nat, nextpid: nat) {
    && (if p.st.UNUSED? then p.parent.None? && p.pid == 0 else 0 < p.pid < nextpid)
    && (p.st.UNUSED? || p.st.USED? ==> p.pc.Idle? && p.lock != Some(i))
    && (p.st.ZOMBIE? <==> p.pc.Dead?)
    && (InExit(p.pc) || p.pc.Waiting? || p.pc.Fork1? ==> p.st.RUNNING? && p.lock.None?)
    && (i != INIT && (Alive(p.st) || p.st.ZOMBIE?) ==> p.parent.Some?)
    && (i == INIT ==> Alive(p.st) && p.pid == 1 && p.parent.None? && !InExit(p.pc))
  }

  /** How far a process in exit has given its children away. */
  function ExitAt(pc: Pc, n: nat): nat
    requires InExit(pc)
  {
    match pc case Exiting(i) => i case Calling(i, _) => i + 1 case Parting(_) => n
  }

  /** A parent is alive, older, and not past its child in exit's scan. */
  ghost predicate ParentOk(procs: seq<Proc>, x: nat)
    requires x < |procs|
  {
    procs[x].parent.Some? ==>
      var q := procs[x].parent.value;
      && q < |procs| && q != x && Alive(procs[q].st) && procs[q].pid < procs[x].pid
      && (InExit(procs[q].pc) ==> ExitAt(procs[q].pc, |procs|) <= x)
  }

  /** A process in fork owns the slot of its child. */
  ghost predicate ForkOk(procs: seq<Proc>, p: nat)
    requires p < |procs|
  {
    Forking(procs[p].pc) ==>
      var np := procs[p].pc.np;
      && np < |procs| && np != p && np != INIT && procs[np].st.USED? && procs[p].pid < procs[np].pid
      && (procs[p].pc.Fork1? ==> procs[np].lock == Some(p))
      && procs[np].parent == if procs[p].pc.Fork3? then Some(p) else None
  }

  /** Pids are unique, a slot is forked into by one process, and p->lock is held by p itself,
      by the scheduler for it, or by the parent that is creating it. */
  ghost predicate PairsOk(procs: seq<Proc>) {
    && (forall x, y :: 0 <= x < y < |procs| && !procs[x].st.UNUSED? ==> procs[x].pid != procs[y].pid)
    && (forall x, y :: 0 <= x < y < |procs| && Forking(procs[x].pc) && Forking(procs[y].pc) ==>
          procs[x].pc.np != procs[y].pc.np)
    && (forall x, y :: 0 <= x < |procs| && 0 <= y < |procs| && x != y && procs[x].lock == Some(y) ==>
          procs[y].pc == Fork1(x))
  }

  ghost predicate TreeOk(procs: seq<Proc>, nextpid: nat) {
    && 0 < |procs|
    && (forall x :: 0 <= x < |procs| ==> ProcOk(procs[x], x, nextpid))
    && (forall x :: 0 <= x < |procs| ==> ParentOk(procs, x))
    && (forall x :: 0 <= x < |procs| ==> ForkOk(procs, x))
    && PairsOk(procs)
  }

  // ---------- Every step keeps it ----------

  lemma At(procs: seq<Proc>, nextpid: nat, x: nat)
    requires TreeOk(procs, nextpid) && x < |procs|
    ensures ProcOk(procs[x], x, nextpid) && ParentOk(procs, x) && ForkOk(procs, x)
  {
  }

  /** The second process that a step changes, if any. */
  function Other(s: State, a: Action): nat
    requires Enabled(s, a)
  {
    var pc := s.procs[a.p].pc;
    if a.AllocProc? then a.np else if Forking(pc) then pc.np else if a.Reparent? || a.WaitScan? then pc.i else if a.WakeScan? then pc.k else a.p
  }

  /** A step changes no third process. */
  lemma Untouched(s: State, a: Action, x: nat)
    requires Enabled(s, a) && x < |s.procs| && x != a.p && x != Other(s, a)
    ensures |Do(s, a).procs| == |s.procs| && Do(s, a).procs[x] == s.procs[x] && s.nextpid <= Do(s, a).nextpid
  {
  }

  lemma KeepsProc(s: State, a: Action, x: nat)
    requires TreeOk(s.procs, s.nextpid) && Enabled(s, a) && x < |s.procs| == |Do(s, a).procs|
    ensures ProcOk(Do(s, a).procs[x], x, Do(s, a).nextpid)
  {
    hide TreeOk; hide ParentOk;
    At(s.procs, s.nextpid, x);
    if x != a.p && x != Other(s, a) {
      Untouched(s, a, x);
      hide Do; hide Enabled;
    } else if x == a.p {
      ActorProc(s, a);
    } else {
      OtherProc(s, a);
    }
  }

  lemma ActorProc(s: State, a: Action)
    requires TreeOk(s.procs, s.nextpid) && Enabled(s, a) && |s.procs| == |Do(s, a).procs|
    ensures ProcOk(Do(s, a).procs[a.p], a.p, Do(s, a).nextpid)
  {
    hide TreeOk; hide ParentOk;
    if Quiet(a) {
      QuietProc(s, a);
    } else {
      At(s.procs, s.nextpid, a.p);
    }
  }

  lemma QuietProc(s: State, a: Action)
    requires TreeOk(s.procs, s.nextpid) && Enabled(s, a) && Quiet(a) && |s.procs| == |Do(s, a).procs|
    ensures ProcOk(Do(s, a).procs[a.p], a.p, Do(s, a).nextpid)
  {
    hide TreeOk; hide ParentOk; hide ForkOk;
    At(s.procs, s.nextpid, a.p);
  }

  lemma OtherProc(s: State, a: Action)
    requires TreeOk(s.procs, s.nextpid) && Enabled(s, a) && |s.procs| == |Do(s, a).procs| && Other(s, a) != a.p
    ensures Other(s, a) < |s.procs| && ProcOk(Do(s, a).procs[Other(s, a)], Other(s, a), Do(s, a).nextpid)
  {
    hide TreeOk; hide ParentOk;
    At(s.procs, s.nextpid, a.p);
    OtherBound(s, a);
    At(s.procs, s.nextpid, Other(s, a));
  }

  lemma OtherBound(s: State, a: Action)
    requires TreeOk(s.procs, s.nextpid) && Enabled(s, a)
    ensures Other(s, a) < |s.procs|
  {
    hide TreeOk; hide ParentOk; hide ProcOk;
    At(s.procs, s.nextpid, a.p);
  }

  /** The steps that create, free, reparent or bury no process. */
  predicate Quiet(a: Action) {
    !(a.AllocProc? || a.ForkFail? || a.ForkParent? || a.ForkRun? || a.Reparent? || a.ExitEnd? || a.WaitScan?)
  }

  lemma QuietStep(s: State, a: Action, x: nat)
    requires TreeOk(s.procs, s.nextpid) && Enabled(s, a) && Quiet(a) && x < |s.procs|
    ensures |Do(s, a).procs| == |s.procs| && Do(s, a).nextpid == s.nextpid
    ensures var p, p' := s.procs[x], Do(s, a).procs[x];
            && p'.pid == p.pid && p'.parent == p.parent && (Alive(p'.st) <==> Alive(p.st))
            && (p'.st.UNUSED? <==> p.st.UNUSED?)
            && (p'.st.USED? <==> p.st.USED?)
            && (InExit(p'.pc) ==> ExitAt(p'.pc, |s.procs|) == 0 || (InExit(p.pc) && ExitAt(p'.pc, |s.procs|) == ExitAt(p.pc, |s.procs|)))
            && (Forking(p'.pc) ==> Forking(p.pc) && p'.pc.np == p.pc.np && (p'.pc.Fork3? <==> p.pc.Fork3?) && (p'.pc.Fork1? ==> p.pc.Fork1?))
  {
    hide TreeOk; hide ParentOk;
    At(s.procs, s.nextpid, a.p);
  }

  lemma KeepsParent(s: State, a: Action, x: nat)
    requires TreeOk(s.procs, s.nextpid) && Enabled(s, a) && x < |s.procs| == |Do(s, a).procs|
    ensures ParentOk(Do(s, a).procs, x)
  {
    hide TreeOk;
    At(s.procs, s.nextpid, x);
    if Quiet(a) {
      QuietStep(s, a, x);
      if s.procs[x].parent.Some? {
        QuietStep(s, a, s.procs[x].parent.value);
      }
      hide Do; hide Enabled;
    } else {
      ParentMoves(s, a, x);
    }
  }

  lemma ParentMoves(s: State, a: Action, x: nat)
    requires TreeOk(s.procs, s.nextpid) && Enabled(s, a) && !Quiet(a) && x < |s.procs| == |Do(s, a).procs|
    ensures ParentOk(Do(s, a).procs, x)
  {
    hide TreeOk; hide Do; hide ParentOk; hide Enabled;
    if a.AllocProc? || a.ForkFail? {
      ParentSlot(s, a, x);
    } else if a.ForkParent? || a.ForkRun? {
      ParentFork(s, a, x);
    } else if a.Reparent? {
      ParentReparent(s, a, x);
    } else {
      ParentBury(s, a, x);
    }
  }

  lemma ParentSlot(s: State, a: Action, x: nat)
    requires TreeOk(s.procs, s.nextpid) && Enabled(s, a) && x < |s.procs| == |Do(s, a).procs|
    requires a.AllocProc? || a.ForkFail?
    ensures ParentOk(Do(s, a).procs, x)
  {
    hide TreeOk;
    At(s.procs, s.nextpid, x);
    At(s.procs, s.nextpid, a.p);
    if s.procs[x].parent.Some? {
      At(s.procs, s.nextpid, s.procs[x].parent.value);
    }
  }

  lemma ParentFork(s: State, a: Action, x: nat)
    requires TreeOk(s.procs, s.nextpid) && Enabled(s, a) && x < |s.procs| == |Do(s, a).procs|
    requires a.ForkParent? || a.ForkRun?
    ensures ParentOk(Do(s, a).procs, x)
  {
    hide TreeOk;
    At(s.procs, s.nextpid, x);
    At(s.procs, s.nextpid, a.p);
    if s.procs[x].parent.Some? {
      At(s.procs, s.nextpid, s.procs[x].parent.value);
    }
  }

  lemma ParentReparent(s: State, a: Action, x: nat)
    requires TreeOk(s.procs, s.nextpid) && Enabled(s, a) && x < |s.procs| == |Do(s, a).procs| && a.Reparent?
    ensures ParentOk(Do(s, a).procs, x)
  {
    hide TreeOk;
    At(s.procs, s.nextpid, x);
    At(s.procs, s.nextpid, a.p);
    At(s.procs, s.nextpid, INIT);
    if s.procs[x].parent.Some? {
      At(s.procs, s.nextpid, s.procs[x].parent.value);
    }
  }

  lemma ParentBury(s: State, a: Action, x: nat)
    requires TreeOk(s.procs, s.nextpid) && Enabled(s, a) && x < |s.procs| == |Do(s, a).procs|
    requires a.ExitEnd? || a.WaitScan?
    ensures ParentOk(Do(s, a).procs, x)
  {
    hide TreeOk;
    At(s.procs, s.nextpid, x);
    At(s.procs, s.nextpid, a.p);
    if s.procs[x].parent.Some? {
      At(s.procs, s.nextpid, s.procs[x].parent.value);
    }
  }

  lemma KeepsFork(s: State, a: Action, x: nat)
    requires TreeOk(s.procs, s.nextpid) && Enabled(s, a) && x < |s.procs| == |Do(s, a).procs|
    ensures ForkOk(Do(s, a).procs, x)
  {
    hide Do; hide Enabled; hide TreeOk;
    if x == a.p {
      ForkHere(s, a);
    } else if Forking(Do(s, a).procs[x].pc) {
      ForkElsewhere(s, a, x);
    }
  }

  lemma ForkHere(s: State, a: Action)
    requires TreeOk(s.procs, s.nextpid) && Enabled(s, a) && |s.procs| == |Do(s, a).procs|
    ensures ForkOk(Do(s, a).procs, a.p)
  {
    hide TreeOk; hide ParentOk; hide ProcOk;
    if a.AllocProc? {
      ForkStarts(s, a);
      hide Do; hide Enabled;
    } else {
      At(s.procs, s.nextpid, a.p);
    }
  }

  lemma ForkStarts(s: State, a: Action)
    requires TreeOk(s.procs, s.nextpid) && Enabled(s, a) && a.AllocProc? && |s.procs| == |Do(s, a).procs|
    ensures ForkOk(Do(s, a).procs, a.p)
  {
    hide TreeOk; hide ParentOk;
    At(s.procs, s.nextpid, a.p);
    At(s.procs, s.nextpid, a.np);
    At(s.procs, s.nextpid, INIT);
  }

  lemma PairAt(procs: seq<Proc>, nextpid: nat, x: nat, y: nat)
    requires TreeOk(procs, nextpid) && x < |procs| && y < |procs| && x != y
    ensures !procs[x].st.UNUSED? || !procs[y].st.UNUSED? ==> procs[x].pid != procs[y].pid
    ensures Forking(procs[x].pc) && Forking(procs[y].pc) ==> procs[x].pc.np != procs[y].pc.np
    ensures procs[x].lock == Some(y) ==> procs[y].pc == Fork1(x)
  {
    assert ProcOk(procs[x], x, nextpid) && ProcOk(procs[y], y, nextpid);
    hide ProcOk; hide ParentOk; hide ForkOk;
  }

  /** What a step can do to one process. */
  ghost predicate Move(s: State, a: Action, x: nat)
    requires Enabled(s, a) && x < |s.procs| == |Do(s, a).procs|
  {
    var p, p' := s.procs[x], Do(s, a).procs[x];
    && (x != a.p && x != Other(s, a) ==> p' == p)
    && (x != a.p ==> p'.pc == p.pc || p'.pc == Idle)
    && (Forking(p'.pc) ==> (Forking(p.pc) && p'.pc.np == p.pc.np) || (x == a.p && a.AllocProc? && p'.pc == Fork1(a.np)))
    && (p'.lock == p.lock || p'.lock == None || p'.lock == Some(x) || (a.AllocProc? && x == a.np && p'.lock == Some(a.p)))
    && (p'.pid == p.pid || (a.AllocProc? && x == a.np && p'.pid == s.nextpid) || (p'.st.UNUSED? && p'.pid == 0))
  }

  lemma Moves(s: State, a: Action, x: nat)
    requires TreeOk(s.procs, s.nextpid) && Enabled(s, a) && x < |s.procs| == |Do(s, a).procs|
    ensures Move(s, a, x)
  {
    hide TreeOk; hide Do; hide Enabled;
    if x == a.p {
      MoveHere(s, a);
    } else if x == Other(s, a) {
      MoveThere(s, a);
    } else {
      Untouched(s, a, x);
    }
  }

  lemma MoveHere(s: State, a: Action)
    requires TreeOk(s.procs, s.nextpid) && Enabled(s, a) && |s.procs| == |Do(s, a).procs|
    ensures Move(s, a, a.p)
  {
    hide TreeOk; hide ProcOk; hide ParentOk;
    At(s.procs, s.nextpid, a.p);
  }

  lemma MoveThere(s: State, a: Action)
    requires TreeOk(s.procs, s.nextpid) && Enabled(s, a) && Other(s, a) != a.p
    requires Other(s, a) < |s.procs| == |Do(s, a).procs|
    ensures Move(s, a, Other(s, a))
  {
    hide TreeOk; hide ProcOk; hide ParentOk;
    At(s.procs, s.nextpid, a.p);
  }

  /** A step of another process leaves a process in fork and its child alone. */
  lemma ForkElsewhere(s: State, a: Action, x: nat)
    requires TreeOk(s.procs, s.nextpid) && Enabled(s, a) && x < |s.procs| == |Do(s, a).procs| && x != a.p
    requires Forking(Do(s, a).procs[x].pc)
    ensures ForkOk(Do(s, a).procs, x)
  {
    hide TreeOk; hide ProcOk; hide ParentOk;
    Moves(s, a, x);
    At(s.procs, s.nextpid, x);
    var np := s.procs[x].pc.np;
    ForkedAlone(s, a, x);
    hide Do; hide Enabled;
  }

  lemma ForkedAlone(s: State, a: Action, x: nat)
    requires TreeOk(s.procs, s.nextpid) && Enabled(s, a) && x < |s.procs| == |Do(s, a).procs| && x != a.p
    requires Forking(s.procs[x].pc)
    ensures var np := s.procs[x].pc.np;
            && np < |s.procs| && Do(s, a).procs[np].(killed := false) == s.procs[np].(killed := false)
            && Do(s, a).procs[x].pid == s.procs[x].pid
            && Do(s, a).procs[x].pc == s.procs[x].pc
  {
    hide TreeOk; hide ParentOk;
    At(s.procs, s.nextpid, x);
    PairAt(s.procs, s.nextpid, x, a.p);
    var np := s.procs[x].pc.np;
    At(s.procs, s.nextpid, np);
    OtherAlone(s, a, x);
    if x != Other(s, a) {
      Untouched(s, a, x);
    }
    if np == a.p {
      UsedOnlyKilled(s, a);
    }
    hide Do; hide Enabled;
  }

  /** Neither a process in fork nor its child is changed by a step of a third process. */
  lemma OtherAlone(s: State, a: Action, x: nat)
    requires TreeOk(s.procs, s.nextpid) && Enabled(s, a) && x < |s.procs| && x != a.p && Forking(s.procs[x].pc)
    requires ForkOk(s.procs, x) && ProcOk(s.procs[x], x, s.nextpid)
    ensures var np := s.procs[x].pc.np; np != a.p ==> np < |s.procs| == |Do(s, a).procs| && Do(s, a).procs[np] == s.procs[np]
    ensures x == Other(s, a) ==> |Do(s, a).procs| == |s.procs| && Do(s, a).procs[x].pid == s.procs[x].pid && Do(s, a).procs[x].pc == s.procs[x].pc
  {
    hide TreeOk; hide ParentOk;
    PairAt(s.procs, s.nextpid, x, a.p);
    var np := s.procs[x].pc.np;
    At(s.procs, s.nextpid, np);
    if np != a.p && np != Other(s, a) {
      Untouched(s, a, np);
    }
    if x != Other(s, a) {
      hide Enabled;
    } else {
      At(s.procs, s.nextpid, a.p);
    }
  }

  /** The only step in the name of a process that is not started is kill. */
  lemma UsedOnlyKilled(s: State, a: Action)
    requires Enabled(s, a) && s.procs[a.p].st.USED? && s.procs[a.p].pc.Idle? && s.procs[a.p].lock != Some(a.p)
    ensures |Do(s, a).procs| == |s.procs| && Do(s, a).procs[a.p].(killed := false) == s.procs[a.p].(killed := false)
  {
  }

  lemma KeepsPids(s: State, a: Action, x: nat, y: nat)
    requires TreeOk(s.procs, s.nextpid) && Enabled(s, a) && x < y < |s.procs| == |Do(s, a).procs|
    requires !Do(s, a).procs[x].st.UNUSED?
    ensures Do(s, a).procs[x].pid != Do(s, a).procs[y].pid
  {
    hide TreeOk; hide ParentOk; hide ForkOk;
    KeepsProc(s, a, x);
    Moves(s, a, x);
    Moves(s, a, y);
    At(s.procs, s.nextpid, x);
    At(s.procs, s.nextpid, y);
    PairAt(s.procs, s.nextpid, x, y);
    hide Do; hide Enabled;
  }

  lemma KeepsForks(s: State, a: Action, x: nat, y: nat)
    requires TreeOk(s.procs, s.nextpid) && Enabled(s, a) && x < |s.procs| && y < |s.procs| == |Do(s, a).procs| && x != y
    requires Forking(Do(s, a).procs[x].pc) && Forking(Do(s, a).procs[y].pc)
    ensures Do(s, a).procs[x].pc.np != Do(s, a).procs[y].pc.np
  {
    assert a.AllocProc? ==> a.np < |s.procs| && s.procs[a.np].st.UNUSED?;
    hide TreeOk; hide ParentOk; hide ProcOk;
    Moves(s, a, x);
    Moves(s, a, y);
    At(s.procs, s.nextpid, x);
    At(s.procs, s.nextpid, y);
    PairAt(s.procs, s.nextpid, x, y);
    hide Do; hide Enabled;
  }

  lemma ActorLocks(s: State, a: Action, x: nat)
    requires Enabled(s, a) && x < |s.procs| == |Do(s, a).procs| && x != a.p && s.procs[a.p].pc == Fork1(x)
    requires s.procs[a.p].lock.None? && s.procs[a.p].st.RUNNING? && Do(s, a).procs[x].lock == Some(a.p)
    ensures Do(s, a).procs[a.p].pc == Fork1(x)
  {
  }

  lemma KeepsLocks(s: State, a: Action, x: nat, y: nat)
    requires TreeOk(s.procs, s.nextpid) && Enabled(s, a) && x < |s.procs| && y < |s.procs| == |Do(s, a).procs| && x != y
    requires Do(s, a).procs[x].lock == Some(y)
    ensures Do(s, a).procs[y].pc == Fork1(x)
  {
    hide TreeOk; hide ParentOk; hide ForkOk;
    At(s.procs, s.nextpid, y);
    PairAt(s.procs, s.nextpid, x, y);
    if s.procs[x].lock == Some(y) {
      if y != a.p {
        ForkedAlone(s, a, y);
        hide Do; hide Enabled;
      } else {
        ActorLocks(s, a, x);
        hide Do; hide Enabled;
      }
    } else {
      Moves(s, a, x);
    }
  }

  lemma KeepsTree(s: State, a: Action)
    requires TreeOk(s.procs, s.nextpid) && Enabled(s, a)
    ensures TreeOk(Do(s, a).procs, Do(s, a).nextpid)
  {
    assert |Do(s, a).procs| == |s.procs|;
    var procs', nextpid' := Do(s, a).procs, Do(s, a).nextpid;
    hide Do; hide Enabled; hide ProcOk; hide ParentOk; hide ForkOk; hide PairsOk;
    forall x | 0 <= x < |procs'|
      ensures ProcOk(procs'[x], x, nextpid') && ParentOk(procs', x) && ForkOk(procs', x)
    {
      KeepsProc(s, a, x);
      KeepsParent(s, a, x);
      KeepsFork(s, a, x);
    }
    KeepsPairs(s, a);
  }

  lemma KeepsPairs(s: State, a: Action)
    requires TreeOk(s.procs, s.nextpid) && Enabled(s, a) && |Do(s, a).procs| == |s.procs|
    ensures PairsOk(Do(s, a).procs)
  {
    var procs' := Do(s, a).procs;
    hide Do; hide Enabled; hide TreeOk; hide Forking;
    forall x, y | 0 <= x < y < |procs'| && !procs'[x].st.UNUSED?
      ensures procs'[x].pid != procs'[y].pid
    {
      KeepsPids(s, a, x, y);
    }
    forall x, y | 0 <= x < y < |procs'| && Forking(procs'[x].pc) && Forking(procs'[y].pc)
      ensures procs'[x].pc.np != procs'[y].pc.np
    {
      KeepsForks(s, a, x, y);
    }
    forall x, y | 0 <= x < |procs'| && 0 <= y < |procs'| && x != y && procs'[x].lock == Some(y)
      ensures procs'[y].pc == Fork1(x)
    {
      KeepsLocks(s, a, x, y);
    }
  }

  // ---------- wait_lock, CPUs and history ----------

  predicate InScan(pc: Pc) { InExit(pc) || pc.Waiting? }

  ghost predicate WaitOk(procs: seq<Proc>, waitLock: Option<nat>) {
    forall p: nat :: waitLock == Some(p) <==> p < |procs| && InScan(procs[p].pc)
  }

  /** On a CPU: running, or between its state change and swtch with p->lock held. */
  predicate OnCpu(p: Proc, i: nat) { p.st.RUNNING? || p.lock == Some(i) }

  ghost predicate CpuOk(procs: seq<Proc>, cpus: seq<Option<nat>>) {
    && (forall c :: 0 <= c < |cpus| && cpus[c].Some? ==>
          cpus[c].value < |procs| && OnCpu(procs[cpus[c].value], cpus[c].value))
    && (forall c, d :: 0 <= c < d < |cpus| && cpus[c].Some? ==> cpus[c] != cpus[d])
    && (forall p :: 0 <= p < |procs| && OnCpu(procs[p], p) ==> exists c :: 0 <= c < |cpus| && cpus[c] == Some(p))
  }

  ghost predicate Zombie(procs: seq<Proc>, pid: nat) {
    exists x :: 0 <= x < |procs| && procs[x].st.ZOMBIE? && procs[x].pid == pid
  }

  /** What has exited is either still a zombie or has been returned by wait, once. */
  ghost predicate HistoryOk(procs: seq<Proc>, exited: set<nat>, reaped: seq<nat>, nextpid: nat) {
    && (forall i, j :: 0 <= i < j < |reaped| ==> reaped[i] != reaped[j])
    && (forall pid: nat :: pid in exited <==> pid in reaped || Zombie(procs, pid))
    && (forall x :: 0 <= x < |procs| && !procs[x].st.UNUSED? ==> procs[x].pid !in reaped)
    && (forall pid :: pid in reaped ==> pid < nextpid)
  }

  ghost predicate ZombieOf(procs: seq<Proc>, x: nat, q: nat) {
    x < |procs| && procs[x].st.ZOMBIE? && procs[x].parent == Some(q)
  }

  /** A wakeup(initproc) that has not yet come to initproc. */
  ghost predicate CallComing(procs: seq<Proc>) {
    exists w :: 0 <= w < |procs| && procs[w].pc.Calling? && procs[w].pc.k <= INIT
  }

  /** A wakeup in exit that is past the process it is for. */
  ghost predicate Called(p: Proc) {
    (p.pc.Calling? || p.pc.Parting?) && Target(p) < p.pc.k
  }

  /** wait has seen no zombie child so far; a process asleep in wait has none, or is initproc
      with its wakeup coming; a wakeup leaves nobody asleep behind it. */
  ghost predicate WaitersOk(procs: seq<Proc>) {
    && (forall q: nat, x: nat :: q < |procs| && procs[q].pc.Waiting? && x < procs[q].pc.i ==> !ZombieOf(procs, x, q))
    && (forall q: nat, x: nat :: q < |procs| && Dozing(procs[q]) && ZombieOf(procs, x, q) ==>
          q == INIT && CallComing(procs))
    && (forall w: nat :: w < |procs| && Called(procs[w]) && Target(procs[w]) < |procs| ==>
          !Dozing(procs[Target(procs[w])]))
  }

  /** One of the first n processes is a child of q. */
  ghost predicate HasChild(procs: seq<Proc>, q: nat, n: nat) {
    exists x: nat :: x < n && x < |procs| && procs[x].parent == Some(q)
  }

  /** wait's havekids tells whether the scan has met a child; whoever sleeps in wait has one. */
  ghost predicate KidsOk(procs: seq<Proc>) {
    && (forall q: nat :: q < |procs| && procs[q].pc.Waiting? ==> (procs[q].pc.kids <==> HasChild(procs, q, procs[q].pc.i)))
    && (forall q: nat :: q < |procs| && procs[q].pc.WaitAgain? ==> HasChild(procs, q, |procs|))
  }

  /** Scans stay within the table, and locks are held by processes. */
  ghost predicate BoundOk(p: Proc, n: nat) {
    && (p.pc.Exiting? || p.pc.Waiting? ==> p.pc.i <= n)
    && (p.pc.Calling? ==> p.pc.i < n && p.pc.k <= n)
    && (p.pc.Parting? ==> p.pc.k <= n)
    && (p.lock.Some? ==> p.lock.value < n)
  }

  ghost predicate BoundsOk(procs: seq<Proc>) {
    forall x :: 0 <= x < |procs| ==> BoundOk(procs[x], |procs|)
  }

  ghost predicate Inv(s: State) {
    && TreeOk(s.procs, s.nextpid) && WaitOk(s.procs, s.waitLock) && CpuOk(s.procs, s.cpus)
    && HistoryOk(s.procs, s.exited, s.reaped, s.nextpid) && WaitersOk(s.procs) && KidsOk(s.procs) && BoundsOk(s.procs)
  }

  lemma KeepsWait(s: State, a: Action)
    requires TreeOk(s.procs, s.nextpid) && WaitOk(s.procs, s.waitLock) && Enabled(s, a)
    ensures WaitOk(Do(s, a).procs, Do(s, a).waitLock)
  {
    hide TreeOk; hide Do; hide Enabled; hide InScan;
    CpuFields(s, a);
    ScanHere(s, a);
    forall x: nat | x < |s.procs| && x != a.p
      ensures InScan(Do(s, a).procs[x].pc) <==> InScan(s.procs[x].pc)
    {
      ScanElsewhere(s, a, x);
    }
  }

  /** A process takes wait_lock as it enters a scan and drops it as it leaves. */
  lemma ScanHere(s: State, a: Action)
    requires TreeOk(s.procs, s.nextpid) && Enabled(s, a) && (s.waitLock == Some(a.p) <==> InScan(s.procs[a.p].pc))
    ensures |Do(s, a).procs| == |s.procs|
    ensures Do(s, a).waitLock == Some(a.p) <==> InScan(Do(s, a).procs[a.p].pc)
    ensures Do(s, a).waitLock == s.waitLock || (s.waitLock.None? && Do(s, a).waitLock == Some(a.p)) || (s.waitLock == Some(a.p) && Do(s, a).waitLock.None?)
  {
    hide TreeOk; hide ParentOk; hide ForkOk;
    At(s.procs, s.nextpid, a.p);
  }

  lemma ScanElsewhere(s: State, a: Action, x: nat)
    requires TreeOk(s.procs, s.nextpid) && Enabled(s, a) && x < |s.procs| == |Do(s, a).procs| && x != a.p
    ensures InScan(Do(s, a).procs[x].pc) <==> InScan(s.procs[x].pc)
  {
    hide TreeOk; hide ParentOk;
    At(s.procs, s.nextpid, x);
    At(s.procs, s.nextpid, a.p);
    if x != Other(s, a) {
      Untouched(s, a, x);
      hide Do; hide Enabled;
    }
  }

  /** A step takes a process off its CPU only in swtch, and puts one on only in the scheduler. */
  ghost predicate CpuMove(s: State, a: Action, x: nat)
    requires Enabled(s, a) && x < |s.procs| == |Do(s, a).procs|
  {
    if a.Switch? && x == a.p then !OnCpu(Do(s, a).procs[x], x) && OnCpu(s.procs[x], x)
    else if a.Dispatch? && x == a.p then OnCpu(Do(s, a).procs[x], x) && !OnCpu(s.procs[x], x)
    else OnCpu(Do(s, a).procs[x], x) <==> OnCpu(s.procs[x], x)
  }

  lemma CpuAt(s: State, a: Action, x: nat)
    requires TreeOk(s.procs, s.nextpid) && Enabled(s, a) && x < |s.procs| == |Do(s, a).procs|
    ensures CpuMove(s, a, x)
  {
    hide TreeOk; hide Enabled; hide Do;
    if x == a.p {
      CpuHere(s, a);
    } else if x == Other(s, a) {
      CpuThere(s, a);
    } else {
      Untouched(s, a, x);
    }
  }

  lemma CpuHere(s: State, a: Action)
    requires TreeOk(s.procs, s.nextpid) && Enabled(s, a) && |s.procs| == |Do(s, a).procs|
    ensures CpuMove(s, a, a.p)
  {
    hide TreeOk; hide ParentOk;
    At(s.procs, s.nextpid, a.p);
  }

  lemma CpuThere(s: State, a: Action)
    requires TreeOk(s.procs, s.nextpid) && Enabled(s, a) && Other(s, a) != a.p
    requires Other(s, a) < |s.procs| == |Do(s, a).procs|
    ensures CpuMove(s, a, Other(s, a))
  {
    hide TreeOk; hide ParentOk;
    At(s.procs, s.nextpid, a.p);
    At(s.procs, s.nextpid, Other(s, a));
  }

  lemma CpuFields(s: State, a: Action)
    requires Enabled(s, a)
    ensures a.p < |s.procs| == |Do(s, a).procs|
    ensures Do(s, a).cpus == if a.Switch? then s.cpus[a.c := None] else if a.Dispatch? then s.cpus[a.c := Some(a.p)] else s.cpus
    ensures a.Switch? ==> a.c < |s.cpus| && s.cpus[a.c] == Some(a.p)
    ensures a.Dispatch? ==> a.c < |s.cpus| && s.cpus[a.c] == None
  {
  }

  lemma KeepsCpus(s: State, a: Action)
    requires TreeOk(s.procs, s.nextpid) && CpuOk(s.procs, s.cpus) && Enabled(s, a)
    ensures CpuOk(Do(s, a).procs, Do(s, a).cpus)
  {
    hide TreeOk; hide Do; hide Enabled; hide OnCpu;
    var s' := Do(s, a);
    CpuFields(s, a);
    forall x | 0 <= x < |s.procs|
      ensures OnCpu(s'.procs[x], x) <==> (OnCpu(s.procs[x], x) && !(a.Switch? && x == a.p)) || (a.Dispatch? && x == a.p)
      ensures a.Dispatch? && x == a.p ==> !OnCpu(s.procs[x], x)
    {
      CpuAt(s, a, x);
    }
    forall p | 0 <= p < |s'.procs| && OnCpu(s'.procs[p], p)
      ensures exists c :: 0 <= c < |s'.cpus| && s'.cpus[c] == Some(p)
    {
      if a.Dispatch? && p == a.p {
        assert s'.cpus[a.c] == Some(p);
      } else {
        var c :| 0 <= c < |s.cpus| && s.cpus[c] == Some(p);
        assert s'.cpus[c] == Some(p);
      }
    }
  }

  /** The child that a step of wait frees. */
  predicate Reaps(s: State, a: Action)
    requires Enabled(s, a)
  {
    a.WaitScan? && var i := s.procs[a.p].pc.i; s.procs[i].parent == Some(a.p) && s.procs[i].st.ZOMBIE?
  }

  /** What a step does to one process as far as the history is concerned. */
  ghost predicate HistoryMove(s: State, a: Action, x: nat)
    requires Enabled(s, a) && x < |s.procs| == |Do(s, a).procs|
  {
    var p, p' := s.procs[x], Do(s, a).procs[x];
    && (p'.st.ZOMBIE? ==> p'.pid == p.pid && (p.st.ZOMBIE? || (a.ExitEnd? && x == a.p)))
    && (p.st.ZOMBIE? ==> (p'.st.ZOMBIE? && p'.pid == p.pid) || (Reaps(s, a) && x == s.procs[a.p].pc.i && p'.st.UNUSED?))
    && (!p'.st.UNUSED? ==> p'.pid == s.nextpid || (!p.st.UNUSED? && p'.pid == p.pid))
    && (Reaps(s, a) && x == s.procs[a.p].pc.i ==> p.st.ZOMBIE? && p'.st.UNUSED?)
    && (a.ExitEnd? && x == a.p ==> p'.st.ZOMBIE?)
  }

  lemma HistoryAt(s: State, a: Action, x: nat)
    requires TreeOk(s.procs, s.nextpid) && Enabled(s, a) && x < |s.procs| == |Do(s, a).procs|
    ensures HistoryMove(s, a, x)
  {
    hide TreeOk; hide Enabled; hide Do;
    if x == a.p {
      HistoryHere(s, a);
    } else if x == Other(s, a) {
      HistoryThere(s, a);
    } else {
      Untouched(s, a, x);
      if Reaps(s, a) {
        ReapedBound(s, a);
      }
    }
  }

  lemma HistoryHere(s: State, a: Action)
    requires TreeOk(s.procs, s.nextpid) && Enabled(s, a) && |s.procs| == |Do(s, a).procs|
    ensures HistoryMove(s, a, a.p)
  {
    hide TreeOk; hide ParentOk;
    At(s.procs, s.nextpid, a.p);
  }

  lemma HistoryThere(s: State, a: Action)
    requires TreeOk(s.procs, s.nextpid) && Enabled(s, a) && Other(s, a) != a.p
    requires Other(s, a) < |s.procs| == |Do(s, a).procs|
    ensures HistoryMove(s, a, Other(s, a))
  {
    hide TreeOk; hide ParentOk;
    At(s.procs, s.nextpid, a.p);
    At(s.procs, s.nextpid, Other(s, a));
  }

  lemma HistoryFields(s: State, a: Action)
    requires Enabled(s, a)
    ensures var s' := Do(s, a);
            && |s'.procs| == |s.procs| && s.nextpid <= s'.nextpid
            && s'.exited == (if a.ExitEnd? then s.exited + {s.procs[a.p].pid} else s.exited)
            && s'.reaped == (if Reaps(s, a) then s.reaped + [s.procs[s.procs[a.p].pc.i].pid] else s.reaped)
  {
  }

  lemma ZombieBefore(s: State, a: Action, pid: nat)
    requires TreeOk(s.procs, s.nextpid) && Enabled(s, a) && |s.procs| == |Do(s, a).procs| && Zombie(Do(s, a).procs, pid)
    ensures Zombie(s.procs, pid) || (a.ExitEnd? && pid == s.procs[a.p].pid)
    ensures !(Reaps(s, a) && pid == s.procs[s.procs[a.p].pc.i].pid)
  {
    var s' := Do(s, a);
    hide TreeOk; hide Do; hide Enabled; hide Reaps;
    var x :| 0 <= x < |s'.procs| && s'.procs[x].st.ZOMBIE? && s'.procs[x].pid == pid;
    HistoryAt(s, a, x);
    if Reaps(s, a) {
      ReapedBound(s, a);
      HistoryAt(s, a, s.procs[a.p].pc.i);
      if x != s.procs[a.p].pc.i {
        PairAt(s.procs, s.nextpid, x, s.procs[a.p].pc.i);
      }
    }
  }

  lemma KeepsZombies(s: State, a: Action, pid: nat)
    requires TreeOk(s.procs, s.nextpid) && Enabled(s, a) && |s.procs| == |Do(s, a).procs|
    ensures Zombie(Do(s, a).procs, pid) <==>
              (Zombie(s.procs, pid) && !(Reaps(s, a) && pid == s.procs[s.procs[a.p].pc.i].pid)) || (a.ExitEnd? && pid == s.procs[a.p].pid)
  {
    var s' := Do(s, a);
    hide TreeOk; hide Do; hide Enabled; hide Reaps;
    if Zombie(s'.procs, pid) {
      ZombieBefore(s, a, pid);
    }
    if Zombie(s.procs, pid) {
      var x :| 0 <= x < |s.procs| && s.procs[x].st.ZOMBIE? && s.procs[x].pid == pid;
      HistoryAt(s, a, x);
    }
    if a.ExitEnd? && pid == s.procs[a.p].pid {
      HistoryAt(s, a, a.p);
    }
  }

  lemma ReapedBound(s: State, a: Action)
    requires Enabled(s, a) && Reaps(s, a)
    ensures !a.ExitEnd? && s.procs[a.p].pc.Waiting? && s.procs[a.p].pc.i < |s.procs| && Other(s, a) == s.procs[a.p].pc.i
  {
  }

  lemma KeepsHistory(s: State, a: Action)
    requires TreeOk(s.procs, s.nextpid) && HistoryOk(s.procs, s.exited, s.reaped, s.nextpid) && Enabled(s, a)
    ensures HistoryOk(Do(s, a).procs, Do(s, a).exited, Do(s, a).reaped, Do(s, a).nextpid)
  {
    var s' := Do(s, a);
    HistoryFields(s, a);
    hide TreeOk; hide Do; hide Enabled; hide Reaps; hide Zombie;
    if Reaps(s, a) {
      ReapedBound(s, a);
      HistoryAt(s, a, s.procs[a.p].pc.i);
      At(s.procs, s.nextpid, s.procs[a.p].pc.i);
    }
    forall pid: nat
      ensures pid in s'.exited <==> pid in s'.reaped || Zombie(s'.procs, pid)
    {
      KeepsExited(s, a, pid);
    }
    forall x: nat | x < |s'.procs| && !s'.procs[x].st.UNUSED?
      ensures s'.procs[x].pid !in s'.reaped
    {
      KeepsUnreaped(s, a, x);
    }
  }

  lemma KeepsExited(s: State, a: Action, pid: nat)
    requires TreeOk(s.procs, s.nextpid) && HistoryOk(s.procs, s.exited, s.reaped, s.nextpid) && Enabled(s, a)
    ensures pid in Do(s, a).exited <==> pid in Do(s, a).reaped || Zombie(Do(s, a).procs, pid)
  {
    HistoryFields(s, a);
    hide TreeOk; hide Do; hide Enabled; hide Reaps; hide Zombie;
    if Reaps(s, a) {
      ReapedBound(s, a);
      HistoryAt(s, a, s.procs[a.p].pc.i);
      ReapedZombie(s, a);
    }
    KeepsZombies(s, a, pid);
  }

  lemma KeepsUnreaped(s: State, a: Action, x: nat)
    requires TreeOk(s.procs, s.nextpid) && HistoryOk(s.procs, s.exited, s.reaped, s.nextpid) && Enabled(s, a)
    requires x < |Do(s, a).procs| && !Do(s, a).procs[x].st.UNUSED?
    ensures Do(s, a).procs[x].pid !in Do(s, a).reaped
  {
    HistoryFields(s, a);
    hide TreeOk; hide Do; hide Enabled; hide Reaps; hide Zombie;
    HistoryAt(s, a, x);
    At(s.procs, s.nextpid, x);
    if Reaps(s, a) {
      ReapedBound(s, a);
      HistoryAt(s, a, s.procs[a.p].pc.i);
      if x != s.procs[a.p].pc.i {
        PairAt(s.procs, s.nextpid, x, s.procs[a.p].pc.i);
      }
    }
  }

  lemma ReapedZombie(s: State, a: Action)
    requires Enabled(s, a) && Reaps(s, a)
    ensures Zombie(s.procs, s.procs[s.procs[a.p].pc.i].pid)
  {
  }

  // ---------- Waiters ----------

  /** A process falls asleep in wait only in its own step. */
  lemma DozeFrom(s: State, a: Action, q: nat)
    requires TreeOk(s.procs, s.nextpid) && Enabled(s, a) && q < |s.procs| == |Do(s, a).procs|
    requires Dozing(Do(s, a).procs[q])
    ensures Dozing(s.procs[q]) || a == WaitSleep(q)
  {
    hide TreeOk; hide ParentOk;
    At(s.procs, s.nextpid, a.p);
    if q != a.p && q != Other(s, a) {
      Untouched(s, a, q);
      hide Do; hide Enabled;
    }
  }

  /** A process becomes a zombie child of q in its own exit, or as one is given to initproc. */
  lemma ZombieFrom(s: State, a: Action, x: nat, q: nat)
    requires TreeOk(s.procs, s.nextpid) && Enabled(s, a) && |s.procs| == |Do(s, a).procs|
    requires ZombieOf(Do(s, a).procs, x, q)
    ensures ZombieOf(s.procs, x, q) || (a == ExitEnd(x) && s.procs[x].parent == Some(q))
            || (a.Reparent? && q == INIT && Do(s, a).procs[a.p].pc.Calling? && Do(s, a).procs[a.p].pc.k == 0)
  {
    hide TreeOk; hide ParentOk; hide Do; hide Enabled;
    if x == a.p {
      ZombieHere(s, a, q);
    } else if x == Other(s, a) {
      ZombieThere(s, a, q);
    } else {
      Untouched(s, a, x);
    }
  }

  lemma ZombieHere(s: State, a: Action, q: nat)
    requires TreeOk(s.procs, s.nextpid) && Enabled(s, a) && |s.procs| == |Do(s, a).procs|
    requires ZombieOf(Do(s, a).procs, a.p, q)
    ensures ZombieOf(s.procs, a.p, q) || (a == ExitEnd(a.p) && s.procs[a.p].parent == Some(q))
  {
    hide TreeOk; hide ParentOk;
    At(s.procs, s.nextpid, a.p);
  }

  lemma ZombieThere(s: State, a: Action, q: nat)
    requires TreeOk(s.procs, s.nextpid) && Enabled(s, a) && |s.procs| == |Do(s, a).procs| && Other(s, a) != a.p
    requires ZombieOf(Do(s, a).procs, Other(s, a), q)
    ensures ZombieOf(s.procs, Other(s, a), q)
            || (a.Reparent? && q == INIT && Do(s, a).procs[a.p].pc.Calling? && Do(s, a).procs[a.p].pc.k == 0)
  {
    hide TreeOk; hide ParentOk;
    At(s.procs, s.nextpid, a.p);
  }

  /** How wait's scan advances. */
  lemma WaitPc(s: State, a: Action)
    requires Enabled(s, a) && |s.procs| == |Do(s, a).procs| && Do(s, a).procs[a.p].pc.Waiting?
    ensures var pc, pc' := s.procs[a.p].pc, Do(s, a).procs[a.p].pc;
            pc'.i == 0 || pc' == pc || (a.WaitScan? && pc.Waiting? && pc'.i == pc.i + 1 && !ZombieOf(s.procs, pc.i, a.p))
    ensures !a.ExitEnd? && !a.Reparent?
  {
  }

  /** How a wakeup in exit advances. */
  lemma CallPc(s: State, a: Action)
    requires TreeOk(s.procs, s.nextpid) && Enabled(s, a) && |s.procs| == |Do(s, a).procs| && Called(Do(s, a).procs[a.p])
    ensures var p, p' := s.procs[a.p], Do(s, a).procs[a.p];
            && Target(p') == Target(p) && a != WaitSleep(a.p) && InExit(p.pc)
            && (Called(p) || (Target(p) < |s.procs| ==> !Dozing(Do(s, a).procs[Target(p)])))
  {
    hide TreeOk; hide ForkOk; hide Do;
    At(s.procs, s.nextpid, a.p);
    hide Enabled;
    if a.WakeScan? {
      CallScan(s, a);
    } else {
      CallBegins(s, a);
    }
  }

  lemma CallScan(s: State, a: Action)
    requires Enabled(s, a) && a.WakeScan? && |s.procs| == |Do(s, a).procs| && Called(Do(s, a).procs[a.p])
    requires ParentOk(s.procs, a.p)
    ensures var p, p' := s.procs[a.p], Do(s, a).procs[a.p];
            && Target(p') == Target(p) && InExit(p.pc)
            && (Called(p) || (Target(p) < |s.procs| ==> !Dozing(Do(s, a).procs[Target(p)])))
  {
  }

  lemma CallBegins(s: State, a: Action)
    requires Enabled(s, a) && !a.WakeScan? && |s.procs| == |Do(s, a).procs| && Called(Do(s, a).procs[a.p])
    requires ProcOk(s.procs[a.p], a.p, s.nextpid)
    ensures var p, p' := s.procs[a.p], Do(s, a).procs[a.p];
            && Target(p') == Target(p) && a != WaitSleep(a.p) && InExit(p.pc)
            && (Called(p) || (Target(p) < |s.procs| ==> !Dozing(Do(s, a).procs[Target(p)])))
  {
  }

  /** Two processes are never in a scan under wait_lock together. */
  lemma OneScan(procs: seq<Proc>, waitLock: Option<nat>, p: nat, q: nat)
    requires WaitOk(procs, waitLock) && p < |procs| && q < |procs| && InScan(procs[p].pc) && InScan(procs[q].pc)
    ensures p == q
  {
    assert waitLock == Some(p) && waitLock == Some(q);
  }

  lemma ScanActions(s: State, a: Action)
    requires Enabled(s, a) && (a.ExitEnd? || a.Reparent? || a.WaitSleep?)
    ensures a.p < |s.procs| && InScan(s.procs[a.p].pc) && (!a.WaitSleep? ==> InExit(s.procs[a.p].pc))
  {
  }

  lemma KeepsScanned(s: State, a: Action, q: nat, x: nat)
    requires TreeOk(s.procs, s.nextpid) && WaitOk(s.procs, s.waitLock) && WaitersOk(s.procs) && Enabled(s, a)
    requires q < |s.procs| == |Do(s, a).procs| && Do(s, a).procs[q].pc.Waiting? && x < Do(s, a).procs[q].pc.i
    ensures !ZombieOf(Do(s, a).procs, x, q)
  {
    hide TreeOk; hide WaitOk; hide Do; hide Enabled;
    Moves(s, a, q);
    CpuFields(s, a);
    if q == a.p {
      WaitPc(s, a);
    } else if a.ExitEnd? || a.Reparent? {
      ScanActions(s, a);
      OneScan(s.procs, s.waitLock, a.p, q);
    }
    if ZombieOf(Do(s, a).procs, x, q) {
      ZombieFrom(s, a, x, q);
    }
  }

  lemma KeepsCalled(s: State, a: Action, w: nat)
    requires TreeOk(s.procs, s.nextpid) && WaitOk(s.procs, s.waitLock) && WaitersOk(s.procs) && Enabled(s, a)
    requires w < |s.procs| == |Do(s, a).procs| && Called(Do(s, a).procs[w]) && Target(Do(s, a).procs[w]) < |s.procs|
    ensures !Dozing(Do(s, a).procs[Target(Do(s, a).procs[w])])
  {
    hide TreeOk; hide WaitOk; hide Do; hide Enabled;
    CpuFields(s, a);
    if w == a.p {
      CallPc(s, a);
    } else {
      CalledElsewhere(s, a, w);
    }
    var t := Target(s.procs[w]);
    if Dozing(Do(s, a).procs[t]) {
      DozeFrom(s, a, t);
      if a == WaitSleep(t) {
        ScanActions(s, a);
        OneScan(s.procs, s.waitLock, t, w);
      }
    }
  }

  /** A process in exit keeps its parent, since it holds wait_lock. */
  lemma CalledElsewhere(s: State, a: Action, w: nat)
    requires TreeOk(s.procs, s.nextpid) && WaitOk(s.procs, s.waitLock) && Enabled(s, a)
    requires w < |s.procs| == |Do(s, a).procs| && w != a.p && Called(Do(s, a).procs[w])
    ensures InExit(s.procs[w].pc) && Called(s.procs[w]) && Target(Do(s, a).procs[w]) == Target(s.procs[w])
  {
    hide TreeOk; hide WaitOk; hide ParentOk;
    Moves(s, a, w);
    At(s.procs, s.nextpid, a.p);
    At(s.procs, s.nextpid, w);
    if a.Reparent? {
      OneScan(s.procs, s.waitLock, a.p, w);
    }
    if w != Other(s, a) {
      Untouched(s, a, w);
      hide Do; hide Enabled;
    }
  }

  lemma KeepsDozing(s: State, a: Action, q: nat, x: nat)
    requires TreeOk(s.procs, s.nextpid) && WaitOk(s.procs, s.waitLock) && WaitersOk(s.procs) && Enabled(s, a)
    requires q < |s.procs| == |Do(s, a).procs| && Dozing(Do(s, a).procs[q]) && ZombieOf(Do(s, a).procs, x, q)
    ensures q == INIT && CallComing(Do(s, a).procs)
  {
    hide TreeOk; hide WaitOk; hide Do; hide Enabled; hide CallComing;
    CpuFields(s, a);
    DozeFrom(s, a, q);
    ZombieFrom(s, a, x, q);
    if a == WaitSleep(q) {
      SleptAll(s, q, x);
    } else if ZombieOf(s.procs, x, q) {
      StillComing(s, a);
    } else if a == ExitEnd(x) {
      ExitCalled(s, x, q);
    } else {
      NowComing(Do(s, a).procs, a.p);
    }
  }

  lemma SleptAll(s: State, q: nat, x: nat)
    requires WaitersOk(s.procs) && Enabled(s, WaitSleep(q)) && x < |s.procs|
    ensures !ZombieOf(s.procs, x, q)
  {
  }

  lemma ExitCalled(s: State, x: nat, q: nat)
    requires TreeOk(s.procs, s.nextpid) && WaitersOk(s.procs) && Enabled(s, ExitEnd(x)) && s.procs[x].parent == Some(q)
    ensures q < |s.procs| && !Dozing(s.procs[q])
  {
    hide TreeOk;
    At(s.procs, s.nextpid, x);
    assert Called(s.procs[x]);
  }

  lemma NowComing(procs: seq<Proc>, w: nat)
    requires w < |procs| && procs[w].pc.Calling? && procs[w].pc.k <= INIT
    ensures CallComing(procs)
  {
  }

  /** A wakeup that is coming to initproc comes until it has woken it. */
  lemma StillComing(s: State, a: Action)
    requires TreeOk(s.procs, s.nextpid) && CallComing(s.procs) && Enabled(s, a) && |s.procs| == |Do(s, a).procs|
    requires Dozing(Do(s, a).procs[INIT])
    ensures CallComing(Do(s, a).procs)
  {
    hide TreeOk; hide ParentOk;
    var w: nat :| w < |s.procs| && s.procs[w].pc.Calling? && s.procs[w].pc.k <= INIT;
    At(s.procs, s.nextpid, w);
    At(s.procs, s.nextpid, a.p);
    At(s.procs, s.nextpid, INIT);
    if w != a.p && w != Other(s, a) {
      Untouched(s, a, w);
      hide Do; hide Enabled;
    }
    NowComing(Do(s, a).procs, w);
  }

  lemma KeepsWaiters(s: State, a: Action)
    requires TreeOk(s.procs, s.nextpid) && WaitOk(s.procs, s.waitLock) && WaitersOk(s.procs) && Enabled(s, a)
    ensures WaitersOk(Do(s, a).procs)
  {
    hide TreeOk; hide WaitOk; hide Do; hide Enabled; hide ZombieOf; hide Dozing; hide Called;
    hide CallComing; hide Target;
    CpuFields(s, a);
    var procs' := Do(s, a).procs;
    forall q: nat, x: nat | q < |procs'| && procs'[q].pc.Waiting? && x < procs'[q].pc.i
      ensures !ZombieOf(procs', x, q)
    {
      KeepsScanned(s, a, q, x);
    }
    forall q: nat, x: nat | q < |procs'| && Dozing(procs'[q]) && ZombieOf(procs', x, q)
      ensures q == INIT && CallComing(procs')
    {
      KeepsDozing(s, a, q, x);
    }
    forall w: nat | w < |procs'| && Called(procs'[w]) && Target(procs'[w]) < |procs'|
      ensures !Dozing(procs'[Target(procs'[w])])
    {
      KeepsCalled(s, a, w);
    }
  }

  // ---------- havekids ----------

  /** Parents change only under wait_lock. */
  lemma ParentsStay(s: State, a: Action, x: nat)
    requires TreeOk(s.procs, s.nextpid) && Enabled(s, a) && x < |s.procs| == |Do(s, a).procs|
    requires !a.ForkParent? && !a.Reparent? && !Reaps(s, a)
    ensures Do(s, a).procs[x].parent == s.procs[x].parent
  {
    hide TreeOk; hide ParentOk;
    At(s.procs, s.nextpid, a.p);
    At(s.procs, s.nextpid, x);
    if x != a.p && x != Other(s, a) {
      Untouched(s, a, x);
      hide Do; hide Enabled;
    }
  }

  /** What its own step does to the scan of wait. */
  lemma ScanPc(s: State, a: Action)
    requires Enabled(s, a) && |s.procs| == |Do(s, a).procs| && Do(s, a).procs[a.p].pc.Waiting?
    ensures var pc, pc' := s.procs[a.p].pc, Do(s, a).procs[a.p].pc;
            || pc' == Waiting(0, false) || pc' == pc
            || (pc.Waiting? && pc.i < |s.procs| && pc' == Waiting(pc.i + 1, pc.kids || s.procs[pc.i].parent == Some(a.p)))
    ensures !a.ForkParent? && !a.Reparent? && !Reaps(s, a)
  {
  }

  lemma KeepsKidsOf(s: State, a: Action, q: nat)
    requires TreeOk(s.procs, s.nextpid) && WaitOk(s.procs, s.waitLock) && KidsOk(s.procs) && Enabled(s, a)
    requires q < |s.procs| == |Do(s, a).procs| && Do(s, a).procs[q].pc.Waiting?
    ensures Do(s, a).procs[q].pc.kids <==> HasChild(Do(s, a).procs, q, Do(s, a).procs[q].pc.i)
  {
    hide TreeOk; hide WaitOk; hide Do; hide Enabled; hide Reaps;
    Moves(s, a, q);
    CpuFields(s, a);
    if q == a.p {
      ScanPc(s, a);
    } else {
      ScanOf(s, a, q);
    }
    forall x: nat | x < |s.procs|
      ensures Do(s, a).procs[x].parent == s.procs[x].parent
    {
      ParentsStay(s, a, x);
    }
  }

  /** While one process scans, no other changes a parent. */
  lemma ScanOf(s: State, a: Action, q: nat)
    requires WaitOk(s.procs, s.waitLock) && Enabled(s, a) && q < |s.procs| && q != a.p && s.procs[q].pc.Waiting?
    ensures !a.ForkParent? && !a.Reparent? && !Reaps(s, a)
  {
    hide WaitOk;
    assert InScan(s.procs[q].pc);
    if a.Reparent? || Reaps(s, a) {
      OneScan(s.procs, s.waitLock, a.p, q);
    } else if a.ForkParent? {
      Scanning(s.procs, s.waitLock, q);
    }
  }

  lemma Scanning(procs: seq<Proc>, waitLock: Option<nat>, q: nat)
    requires WaitOk(procs, waitLock) && q < |procs| && InScan(procs[q].pc)
    ensures waitLock == Some(q)
  {
  }

  /** A child stays its parent's until the parent exits or reaps it. */
  lemma ChildStays(s: State, a: Action, x: nat, q: nat)
    requires TreeOk(s.procs, s.nextpid) && Enabled(s, a) && x < |s.procs| == |Do(s, a).procs|
    requires s.procs[x].parent == Some(q) && (q != a.p || Quiet(a))
    ensures Do(s, a).procs[x].parent == Some(q)
  {
    hide TreeOk; hide ParentOk;
    At(s.procs, s.nextpid, a.p);
    At(s.procs, s.nextpid, x);
    if x != a.p && x != Other(s, a) {
      Untouched(s, a, x);
      hide Do; hide Enabled;
    }
  }

  lemma KeepsSleeperOf(s: State, a: Action, q: nat)
    requires TreeOk(s.procs, s.nextpid) && KidsOk(s.procs) && Enabled(s, a)
    requires q < |s.procs| == |Do(s, a).procs| && Do(s, a).procs[q].pc.WaitAgain?
    ensures HasChild(Do(s, a).procs, q, |s.procs|)
  {
    SleepsAgain(s, a, q);
    hide TreeOk; hide Do; hide Enabled;
    var x: nat :| x < |s.procs| && s.procs[x].parent == Some(q);
    ChildStays(s, a, x, q);
  }

  lemma SleepsAgain(s: State, a: Action, q: nat)
    requires TreeOk(s.procs, s.nextpid) && KidsOk(s.procs) && Enabled(s, a)
    requires q < |s.procs| == |Do(s, a).procs| && Do(s, a).procs[q].pc.WaitAgain?
    ensures HasChild(s.procs, q, |s.procs|) && (q != a.p || Quiet(a))
  {
    hide TreeOk; hide ParentOk; hide HasChild; hide KidsOk;
    if q == a.p {
      KidsAtSleep(s, a);
    } else {
      SleepStays(s, a, q);
    }
  }

  /** Only the process itself starts to sleep in wait. */
  lemma SleepStays(s: State, a: Action, q: nat)
    requires TreeOk(s.procs, s.nextpid) && KidsOk(s.procs) && Enabled(s, a)
    requires q < |s.procs| == |Do(s, a).procs| && Do(s, a).procs[q].pc.WaitAgain? && q != a.p
    ensures HasChild(s.procs, q, |s.procs|)
  {
    hide TreeOk; hide ParentOk; hide HasChild;
    At(s.procs, s.nextpid, a.p);
    if q != Other(s, a) {
      Untouched(s, a, q);
      hide Do; hide Enabled;
    }
  }

  lemma KidsAtSleep(s: State, a: Action)
    requires KidsOk(s.procs) && Enabled(s, a) && |s.procs| == |Do(s, a).procs| && Do(s, a).procs[a.p].pc.WaitAgain?
    ensures HasChild(s.procs, a.p, |s.procs|) && Quiet(a)
  {
    hide HasChild;
  }

  lemma KeepsBounds(s: State, a: Action)
    requires TreeOk(s.procs, s.nextpid) && BoundsOk(s.procs) && Enabled(s, a)
    ensures BoundsOk(Do(s, a).procs)
  {
    CpuFields(s, a);
    hide TreeOk; hide BoundOk;
    forall x: nat | x < |s.procs|
      ensures BoundOk(Do(s, a).procs[x], |s.procs|)
    {
      KeepsBound(s, a, x);
    }
  }

  lemma KeepsBound(s: State, a: Action, x: nat)
    requires BoundsOk(s.procs) && Enabled(s, a) && x < |s.procs| == |Do(s, a).procs|
    ensures BoundOk(Do(s, a).procs[x], |s.procs|)
  {
    assert BoundOk(s.procs[x], |s.procs|) && BoundOk(s.procs[a.p], |s.procs|);
    hide BoundsOk; hide BoundOk; hide Do; hide Enabled;
    if x == a.p {
      ActorBound(s, a);
    } else {
      OtherKeepsBound(s, a, x);
    }
  }

  lemma ActorBound(s: State, a: Action)
    requires Enabled(s, a) && BoundOk(s.procs[a.p], |s.procs|) && |s.procs| == |Do(s, a).procs|
    ensures BoundOk(Do(s, a).procs[a.p], |s.procs|)
  {
  }

  /** A step that changes another process leaves its place alone, or frees it. */
  lemma OtherKeepsBound(s: State, a: Action, x: nat)
    requires Enabled(s, a) && x < |s.procs| == |Do(s, a).procs| && x != a.p && BoundOk(s.procs[x], |s.procs|)
    ensures BoundOk(Do(s, a).procs[x], |s.procs|)
  {
    var q, q' := s.procs[x], Do(s, a).procs[x];
    assert q'.pc == q.pc || q' == FREE;
    assert q'.lock == q.lock || q'.lock == None || q'.lock == Some(a.p);
    hide Do; hide Enabled;
  }

  lemma KeepsKids(s: State, a: Action)
    requires TreeOk(s.procs, s.nextpid) && WaitOk(s.procs, s.waitLock) && KidsOk(s.procs) && Enabled(s, a)
    ensures KidsOk(Do(s, a).procs)
  {
    hide TreeOk; hide WaitOk; hide Do; hide Enabled; hide HasChild;
    CpuFields(s, a);
    forall q: nat | q < |s.procs| && Do(s, a).procs[q].pc.Waiting?
      ensures Do(s, a).procs[q].pc.kids <==> HasChild(Do(s, a).procs, q, Do(s, a).procs[q].pc.i)
    {
      KeepsKidsOf(s, a, q);
    }
    forall q: nat | q < |s.procs| && Do(s, a).procs[q].pc.WaitAgain?
      ensures HasChild(Do(s, a).procs, q, |s.procs|)
    {
      KeepsSleeperOf(s, a, q);
    }
  }

  // ---------- Every run ----------

  lemma StepKeeps(s: State, a: Action)
    requires Inv(s) && Enabled(s, a)
    ensures Inv(Do(s, a))
  {
    KeepsTree(s, a);
    KeepsWait(s, a);
    KeepsCpus(s, a);
    KeepsHistory(s, a);
    KeepsWaiters(s, a);
    KeepsKids(s, a);
    KeepsBounds(s, a);
    hide BoundsOk;
    hide Do; hide Enabled; hide TreeOk; hide WaitOk; hide CpuOk; hide HistoryOk; hide WaitersOk; hide KidsOk;
  }

  /** After userinit: one process, RUNNABLE, and an empty table. */
  ghost predicate Init(s: State) {
    && 0 < |s.procs| && s.procs[INIT] == Proc(RUNNABLE, 1, None, false, Idle, None)
    && (forall x :: 0 < x < |s.procs| ==> s.procs[x] == FREE)
    && (forall c :: 0 <= c < |s.cpus| ==> s.cpus[c].None?)
    && s.waitLock.None? && s.nextpid == 2 && s.exited == {} && s.reaped == []
  }

  ghost predicate Run(states: seq<State>, steps: seq<Action>) {
    && |states| == |steps| + 1 && Init(states[0])
    && forall i :: 0 <= i < |steps| ==> Enabled(states[i], steps[i]) && states[i + 1] == Do(states[i], steps[i])
  }

  lemma {:induction false} RunKeeps(states: seq<State>, steps: seq<Action>, i: nat)
    requires Run(states, steps) && i < |states|
    ensures Inv(states[i])
  {
    hide Do; hide Enabled; hide Inv;
    if i == 0 {
      InitOk(states[0]);
    } else {
      RunKeeps(states, steps, i - 1);
      StepKeeps(states[i - 1], steps[i - 1]);
    }
  }

  lemma InitOk(s: State)
    requires Init(s)
    ensures Inv(s)
  {
    InitTree(s);
    hide TreeOk;
  }

  lemma InitTree(s: State)
    requires Init(s)
    ensures TreeOk(s.procs, s.nextpid)
  {
  }

  /** Each process on the path is the parent of the one before it. */
  ghost predicate Ancestry(procs: seq<Proc>, path: seq<nat>) {
    && path != [] && (forall i :: 0 <= i < |path| ==> path[i] < |procs|)
    && (forall i :: 0 <= i < |path| - 1 ==> procs[path[i]].parent == Some(path[i + 1]))
  }

  lemma {:induction false} PathToInit(procs: seq<Proc>, nextpid: nat, x: nat) returns (path: seq<nat>)
    requires TreeOk(procs, nextpid) && x < |procs| && (Alive(procs[x].st) || procs[x].st.ZOMBIE?)
    ensures Ancestry(procs, path) && path[0] == x && path[|path| - 1] == INIT
    ensures forall i, j :: 0 <= i < j < |path| ==> procs[path[j]].pid < procs[path[i]].pid
    ensures forall j :: 0 < j < |path| ==> Alive(procs[path[j]].st)
    decreases procs[x].pid
  {
    hide TreeOk;
    At(procs, nextpid, x);
    if x == INIT {
      path := [x];
    } else {
      var q := procs[x].parent.value;
      var rest := PathToInit(procs, nextpid, q);
      path := [x] + rest;
      forall j | 0 < j < |path|
        ensures path[j] == rest[j - 1] && procs[path[j]].pid <= procs[q].pid && Alive(procs[path[j]].st)
      {
        if j > 1 {
          assert procs[rest[j - 1]].pid < procs[rest[0]].pid;
        }
      }
    }
  }

  /** At every point of every run, parent pointers lead from every started process up to
      initproc through live processes. */
  lemma ProcessesFormTree(states: seq<State>, steps: seq<Action>, i: nat, x: nat) returns (path: seq<nat>)
    requires Run(states, steps) && i < |states| && x < |states[i].procs|
    requires Alive(states[i].procs[x].st) || states[i].procs[x].st.ZOMBIE?
    ensures Ancestry(states[i].procs, path) && path[0] == x && path[|path| - 1] == INIT
    ensures forall k :: 0 < k < |path| ==> Alive(states[i].procs[path[k]].st)
  {
    RunKeeps(states, steps, i);
    hide Run; hide TreeOk;
    path := PathToInit(states[i].procs, states[i].nextpid, x);
  }

  /** No exited or free process is anyone's parent. */
  lemma NoChildrenOfTheDead(states: seq<State>, steps: seq<Action>, i: nat, x: nat, q: nat)
    requires Run(states, steps) && i < |states| && x < |states[i].procs| && states[i].procs[x].parent == Some(q)
    ensures q < |states[i].procs| && Alive(states[i].procs[q].st)
  {
    RunKeeps(states, steps, i);
    hide Run;
    At(states[i].procs, states[i].nextpid, x);
  }

  /** Each process that has exited is a zombie, or has been returned by exactly one wait. */
  lemma ReapedOnce(states: seq<State>, steps: seq<Action>, i: nat, pid: nat)
    requires Run(states, steps) && i < |states|
    ensures multiset(states[i].reaped)[pid] <= 1
    ensures pid in states[i].exited <==> (pid in states[i].reaped) != Zombie(states[i].procs, pid)
    ensures pid !in states[i].exited ==> pid !in states[i].reaped && !Zombie(states[i].procs, pid)
  {
    RunKeeps(states, steps, i);
    var s := states[i];
    hide Run; hide TreeOk; hide CpuOk; hide WaitOk;
    CountOnce(s.reaped, pid);
  }

  lemma {:induction false} CountOnce(xs: seq<nat>, x: nat)
    requires forall i, j :: 0 <= i < j < |xs| ==> xs[i] != xs[j]
    ensures multiset(xs)[x] <= 1
  {
    if xs != [] {
      var n := |xs| - 1;
      CountOnce(xs[..n], x);
      assert xs == xs[..n] + [xs[n]];
    }
  }

  /** No wakeup of wait is lost: at no point of any run does a process sleep in wait while it
      has a zombie child, except initproc while the process that gave it the child is in its
      call of wakeup(initproc), under wait_lock, and has not come to it yet. */
  lemma WaitersWoken(states: seq<State>, steps: seq<Action>, i: nat, q: nat, x: nat) returns (w: nat)
    requires Run(states, steps) && i < |states| && q < |states[i].procs| && Dozing(states[i].procs[q])
    requires ZombieOf(states[i].procs, x, q)
    ensures q == INIT && w < |states[i].procs| && states[i].waitLock == Some(w)
    ensures states[i].procs[w].pc.Calling? && states[i].procs[w].pc.k <= INIT
  {
    RunKeeps(states, steps, i);
    hide Run; hide TreeOk; hide CpuOk; hide HistoryOk;
    assert CallComing(states[i].procs);
    w :| w < |states[i].procs| && states[i].procs[w].pc.Calling? && states[i].procs[w].pc.k <= INIT;
  }

  /** At the end of its scan wait returns -1 exactly when the process has no children or has been
      killed, and can sleep exactly when it has children. */
  lemma WaitDecides(states: seq<State>, steps: seq<Action>, i: nat, p: nat)
    requires Run(states, steps) && i < |states| && p < |states[i].procs|
    requires states[i].procs[p].pc.Waiting? && states[i].procs[p].pc.i == |states[i].procs|
    ensures Enabled(states[i], WaitNone(p)) <==>
              states[i].procs[p].killed || forall x: nat :: x < |states[i].procs| ==> states[i].procs[x].parent != Some(p)
    ensures Enabled(states[i], WaitSleep(p)) <==>
              exists x: nat :: x < |states[i].procs| && states[i].procs[x].parent == Some(p)
  {
    hide Run; hide Inv; hide Enabled;
    RunKeeps(states, steps, i);
    DecidesAt(states[i], p);
  }

  lemma DecidesAt(s: State, p: nat)
    requires Inv(s) && p < |s.procs| && s.procs[p].pc.Waiting? && s.procs[p].pc.i == |s.procs|
    ensures Enabled(s, WaitNone(p)) <==> s.procs[p].killed || forall x: nat :: x < |s.procs| ==> s.procs[x].parent != Some(p)
    ensures Enabled(s, WaitSleep(p)) <==> exists x: nat :: x < |s.procs| && s.procs[x].parent == Some(p)
  {
    hide CpuOk; hide HistoryOk; hide WaitersOk; hide BoundsOk; hide KidsOk; hide WaitOk;
    At(s.procs, s.nextpid, p);
    hide TreeOk; hide ParentOk; hide ForkOk;
    KidsAt(s.procs, p);
  }

  lemma KidsAt(procs: seq<Proc>, p: nat)
    requires KidsOk(procs) && p < |procs| && procs[p].pc.Waiting?
    ensures procs[p].pc.kids <==> HasChild(procs, p, procs[p].pc.i)
  {
    hide HasChild;
  }

  /** No process is on two CPUs, and one on a CPU is running or holds its own lock. */
  lemma OneCpu(states: seq<State>, steps: seq<Action>, i: nat, c: nat, d: nat)
    requires Run(states, steps) && i < |states| && c < |states[i].cpus| && d < |states[i].cpus|
    requires states[i].cpus[c].Some?
    ensures states[i].cpus[c] == states[i].cpus[d] ==> c == d
    ensures var p := states[i].cpus[c].value; p < |states[i].procs| && OnCpu(states[i].procs[p], p)
  {
    RunKeeps(states, steps, i);
    hide Run;
  }

  /** kill wakes its victim, and from then on the process is killed for as long as it exists. */
  lemma {:induction false} KillSticks(states: seq<State>, steps: seq<Action>, i: nat, j: nat, p: nat)
    requires Run(states, steps) && i < j < |states| && steps[i] == Kill(p)
    ensures p < |states[i].procs| == |states[j].procs| && states[i].nextpid <= states[j].nextpid
    ensures j == i + 1 ==> !states[j].procs[p].st.SLEEPING?
    ensures !states[i].procs[p].st.UNUSED? && states[j].procs[p].pid == states[i].procs[p].pid ==> states[j].procs[p].killed
  {
    hide Inv; hide Enabled; hide Do;
    assert |states| == |steps| + 1;
    hide Run;
    RunKeeps(states, steps, i);
    RunStep(states, steps, i);
    KillIs(states[i], p);
    if j > i + 1 {
      KillSticks(states, steps, i, j - 1, p);
      RunStep(states, steps, j - 1);
      PidMoves(states[j - 1], steps[j - 1], p);
      if !states[i].procs[p].st.UNUSED? {
        PidBound(states[i], p);
      }
    }
  }

  lemma RunStep(states: seq<State>, steps: seq<Action>, i: nat)
    requires Run(states, steps) && i < |steps|
    ensures Enabled(states[i], steps[i]) && states[i + 1] == Do(states[i], steps[i])
  {
  }

  lemma PidBound(s: State, p: nat)
    requires Inv(s) && p < |s.procs| && !s.procs[p].st.UNUSED?
    ensures 0 < s.procs[p].pid < s.nextpid
  {
    At(s.procs, s.nextpid, p);
  }

  lemma KillIs(s: State, p: nat)
    requires Enabled(s, Kill(p))
    ensures |Do(s, Kill(p)).procs| == |s.procs| && Do(s, Kill(p)).nextpid == s.nextpid && p < |s.procs|
    ensures Do(s, Kill(p)).procs[p].killed && !Do(s, Kill(p)).procs[p].st.SLEEPING?
  {
  }

  /** A slot keeps its process and that its killed flag, or is given a new pid or none. */
  lemma PidMoves(s: State, a: Action, p: nat)
    requires Enabled(s, a) && p < |s.procs|
    ensures |Do(s, a).procs| == |s.procs| && s.nextpid <= Do(s, a).nextpid
    ensures var q, q' := s.procs[p], Do(s, a).procs[p];
            (q'.pid == q.pid && (q.killed ==> q'.killed)) || q'.pid == s.nextpid || q'.pid == 0
  {
    hide Inv;
    if p != a.p && p != Other(s, a) {
      Untouched(s, a, p);
    }
  }

  // ---------- No step is left ----------

  /** Only new calls, and events from outside, are possible. */
  ghost predicate Settled(s: State) {
    forall a :: Enabled(s, a) ==>
      || a.AllocProc? || a.ExitStart? || (a.WaitStart? && s.procs[a.p].pc.Idle?)
      || a.Yield? || a.Sleep? || a.Wake? || a.Kill?
  }

  /** In a run that cannot go on otherwise, no call of fork, exit or wait is unfinished except by
      a process that waits for a CPU while all are busy, or sleeps in wait; and that one has
      children, none of which has exited. */
  lemma CallsComplete(states: seq<State>, steps: seq<Action>, i: nat, p: nat)
    requires Run(states, steps) && i < |states| && Settled(states[i]) && p < |states[i].procs|
    ensures var s, q := states[i], states[i].procs[p];
            && s.waitLock.None? && q.lock.None? && (q.st.RUNNING? ==> q.pc.Idle?)
            && (q.st.RUNNABLE? ==> forall c :: 0 <= c < |s.cpus| ==> s.cpus[c].Some?)
            && (Dozing(q) ==> HasChild(s.procs, p, |s.procs|) && forall x: nat :: !ZombieOf(s.procs, x, p))
  {
    RunKeeps(states, steps, i);
    var s := states[i];
    hide Run; hide TreeOk; hide HistoryOk; hide CpuOk; hide WaitersOk; hide BoundsOk; hide Enabled; hide HasChild; hide ZombieOf;
    assert Inv(s);
    hide WaitOk; hide KidsOk;
    forall x: nat | x < |s.procs|
      ensures s.procs[x].lock.None?
    {
      if s.procs[x].lock.Some? {
        LockMoves(s, x);
      }
    }
    if s.waitLock.Some? {
      ScanMoves(s, s.waitLock.value);
    }
    if Ready(s, p) {
      RunningMoves(s, p);
    }
    if Dozing(s.procs[p]) {
      DozesRightly(s, p);
    }
  }

  lemma LockMoves(s: State, x: nat)
    requires Inv(s) && x < |s.procs| && s.procs[x].lock.Some?
    ensures !Settled(s)
  {
    hide HistoryOk; hide WaitersOk; hide KidsOk; hide WaitOk; hide TreeOk; hide CpuOk;
    assert BoundOk(s.procs[x], |s.procs|);
    var y := s.procs[x].lock.value;
    if y != x {
      MakerMoves(s, y, x);
    } else if s.procs[x].st.RUNNING? {
      assert Enabled(s, Resume(x));
    } else {
      var c := CpuOf(s.procs, s.cpus, x);
      assert Enabled(s, Switch(x, c));
    }
  }

  lemma MakerMoves(s: State, y: nat, x: nat)
    requires TreeOk(s.procs, s.nextpid) && x < |s.procs| && y < |s.procs| && x != y && s.procs[x].lock == Some(y)
    ensures Enabled(s, ForkCopied(y))
  {
    assert s.procs[y].pc == Fork1(x);
    At(s.procs, s.nextpid, y);
    hide TreeOk; hide ParentOk; hide ForkOk;
  }

  lemma CpuOf(procs: seq<Proc>, cpus: seq<Option<nat>>, x: nat) returns (c: nat)
    requires CpuOk(procs, cpus) && x < |procs| && OnCpu(procs[x], x)
    ensures c < |cpus| && cpus[c] == Some(x)
  {
    c :| c < |cpus| && cpus[c] == Some(x);
  }

  /** What the holder of wait_lock does next. */
  function Turn(pc: Pc, w: nat, n: nat): Action {
    match pc
    case Exiting(i) => if i < n then Reparent(w) else ReparentDone(w)
    case Calling(_, k) => if k < n then WakeScan(w) else CallDone(w)
    case Parting(k) => if k < n then WakeScan(w) else ExitEnd(w)
    case Waiting(i, kids) => if i < n then WaitScan(w) else if kids then WaitSleep(w) else WaitNone(w)
    case _ => Kill(w)
  }

  lemma ScanMoves(s: State, w: nat)
    requires Inv(s) && s.waitLock == Some(w) && forall x: nat :: x < |s.procs| ==> s.procs[x].lock.None?
    ensures !Settled(s)
  {
    hide HistoryOk; hide WaitersOk; hide KidsOk; hide CpuOk;
    assert InScan(s.procs[w].pc);
    At(s.procs, s.nextpid, w);
    hide TreeOk;
    assert BoundOk(s.procs[w], |s.procs|);
    assert Enabled(s, Turn(s.procs[w].pc, w, |s.procs|));
  }

  /** In the middle of a call, or waiting for a CPU while one is free. */
  ghost predicate Ready(s: State, p: nat) {
    p < |s.procs| && ((s.procs[p].st.RUNNING? && !s.procs[p].pc.Idle?)
                      || (s.procs[p].st.RUNNABLE? && exists c :: 0 <= c < |s.cpus| && s.cpus[c].None?))
  }

  lemma RunningMoves(s: State, p: nat)
    requires Inv(s) && s.waitLock.None? && (forall x: nat :: x < |s.procs| ==> s.procs[x].lock.None?) && p < |s.procs|
    requires Ready(s, p)
    ensures !Settled(s)
  {
    hide HistoryOk; hide WaitersOk; hide KidsOk; hide CpuOk;
    At(s.procs, s.nextpid, p);
    hide TreeOk;
    assert !InScan(s.procs[p].pc);
    if s.procs[p].st.RUNNABLE? {
      var c: nat :| c < |s.cpus| && s.cpus[c].None?;
      assert Enabled(s, Dispatch(p, c));
    } else if s.procs[p].pc.WaitAgain? {
      assert Enabled(s, WaitStart(p));
    } else {
      assert Enabled(s, ForkCopied(p)) || Enabled(s, ForkParent(p)) || Enabled(s, ForkRun(p));
    }
  }

  lemma DozesRightly(s: State, p: nat)
    requires Inv(s) && s.waitLock.None? && p < |s.procs| && Dozing(s.procs[p])
    ensures HasChild(s.procs, p, |s.procs|) && forall x: nat :: !ZombieOf(s.procs, x, p)
  {
    hide TreeOk; hide HistoryOk; hide CpuOk; hide HasChild;
    assert forall w: nat :: w < |s.procs| ==> !InScan(s.procs[w].pc);
  }

  // ---------- A run ----------

  ghost predicate Goes(s: State, a: Action, s': State) {
    Enabled(s, a) && Do(s, a) == s'
  }

  ghost predicate Path(states: seq<State>, steps: seq<Action>) {
    |states| == |steps| + 1 && forall i :: 0 <= i < |steps| ==> Goes(states[i], steps[i], states[i + 1])
  }

  lemma Begin(s: State, a: Action, s': State)
    requires Goes(s, a, s')
    ensures Path([s, s'], [a])
  {
    hide Goes;
  }

  lemma Next(states: seq<State>, steps: seq<Action>, a: Action, s: State)
    requires Path(states, steps) && Goes(states[|steps|], a, s)
    ensures Path(states + [s], steps + [a])
  {
    hide Goes;
  }

  lemma Join(xs: seq<State>, ms: seq<Action>, ys: seq<State>, bs: seq<Action>) returns (zs: seq<State>, cs: seq<Action>)
    requires Path(xs, ms) && Path(ys, bs) && xs[|ms|] == ys[0]
    ensures Path(zs, cs) && |cs| == |ms| + |bs| && zs[0] == xs[0] && zs[|ms|] == ys[0] && zs[|cs|] == ys[|bs|]
    ensures xs <= zs
  {
    hide Goes;
    zs, cs := xs[..|ms|] + ys, ms + bs;
    forall i | 0 <= i < |cs|
      ensures Goes(zs[i], cs[i], zs[i + 1])
    {
      if i >= |ms| {
        assert Goes(ys[i - |ms|], bs[i - |ms|], ys[i - |ms| + 1]);
      }
    }
  }

  /** Two processes and one CPU. */
  function Two(p: Proc, q: Proc, cpu: Option<nat>, waitLock: Option<nat>, nextpid: nat, exited: set<nat>, reaped: seq<nat>): State {
    State([p, q], [cpu], waitLock, nextpid, exited, reaped)
  }

  function Pr(st: RunState, pid: nat, parent: Option<nat>, pc: Pc, lock: Option<nat>): Proc {
    Proc(st, pid, parent, false, pc, lock)
  }

  /** initproc is dispatched. */
  lemma StartTold(s0: State) returns (states: seq<State>, steps: seq<Action>)
    requires s0 == Two(Pr(RUNNABLE, 1, None, Idle, None), FREE, None, None, 2, {}, [])
    ensures Path(states, steps) && |steps| == 2
    ensures states[0] == s0
    ensures states[2] == Two(Pr(RUNNING, 1, None, Idle, None), FREE, Some(0), None, 2, {}, [])
  {
    var s1 := Two(Pr(RUNNING, 1, None, Idle, Some(0)), FREE, Some(0), None, 2, {}, []);
    var s2 := Two(Pr(RUNNING, 1, None, Idle, None), FREE, Some(0), None, 2, {}, []);
    assert Goes(s0, Dispatch(0, 0), s1) by { assert Do(s0, Dispatch(0, 0)).procs == s1.procs; }
    assert Goes(s1, Resume(0), s2) by { assert Do(s1, Resume(0)).procs == s2.procs; }
    hide Goes; hide Two; hide Pr;
    Begin(s0, Dispatch(0, 0), s1);
    states, steps := [s0, s1], [Dispatch(0, 0)];
    Next(states, steps, Resume(0), s2);
    states, steps := states + [s2], steps + [Resume(0)];
  }

  /** It forks a child. */
  lemma ForkTold(s2: State) returns (states: seq<State>, steps: seq<Action>)
    requires s2 == Two(Pr(RUNNING, 1, None, Idle, None), FREE, Some(0), None, 2, {}, [])
    ensures Path(states, steps) && |steps| == 4
    ensures states[0] == s2
    ensures states[4] == Two(Pr(RUNNING, 1, None, Idle, None), Pr(RUNNABLE, 2, Some(0), Idle, None), Some(0), None, 3, {}, [])
  {
    var s3 := Two(Pr(RUNNING, 1, None, Fork1(1), None), Pr(USED, 2, None, Idle, Some(0)), Some(0), None, 3, {}, []);
    var s4 := Two(Pr(RUNNING, 1, None, Fork2(1), None), Pr(USED, 2, None, Idle, None), Some(0), None, 3, {}, []);
    var s5 := Two(Pr(RUNNING, 1, None, Fork3(1), None), Pr(USED, 2, Some(0), Idle, None), Some(0), None, 3, {}, []);
    var s6 := Two(Pr(RUNNING, 1, None, Idle, None), Pr(RUNNABLE, 2, Some(0), Idle, None), Some(0), None, 3, {}, []);
    assert Goes(s2, AllocProc(0, 1), s3) by { assert Do(s2, AllocProc(0, 1)).procs == s3.procs; }
    assert Goes(s3, ForkCopied(0), s4) by { assert Do(s3, ForkCopied(0)).procs == s4.procs; }
    assert Goes(s4, ForkParent(0), s5) by { assert Do(s4, ForkParent(0)).procs == s5.procs; }
    assert Goes(s5, ForkRun(0), s6) by { assert Do(s5, ForkRun(0)).procs == s6.procs; }
    hide Goes; hide Two; hide Pr;
    Begin(s2, AllocProc(0, 1), s3);
    states, steps := [s2, s3], [AllocProc(0, 1)];
    Next(states, steps, ForkCopied(0), s4);
    states, steps := states + [s4], steps + [ForkCopied(0)];
    Next(states, steps, ForkParent(0), s5);
    states, steps := states + [s5], steps + [ForkParent(0)];
    Next(states, steps, ForkRun(0), s6);
    states, steps := states + [s6], steps + [ForkRun(0)];
  }

  /** Waiting for it, and falling asleep. */
  lemma SleepTold(s6: State) returns (states: seq<State>, steps: seq<Action>)
    requires s6 == Two(Pr(RUNNING, 1, None, Idle, None), Pr(RUNNABLE, 2, Some(0), Idle, None), Some(0), None, 3, {}, [])
    ensures Path(states, steps) && |steps| == 5
    ensures states[0] == s6
    ensures states[5] == Two(Pr(SLEEPING, 1, None, WaitAgain, None), Pr(RUNNABLE, 2, Some(0), Idle, None), None, None, 3, {}, [])
  {
    var s7 := Two(Pr(RUNNING, 1, None, Waiting(0, false), None), Pr(RUNNABLE, 2, Some(0), Idle, None), Some(0), Some(0), 3, {}, []);
    var s8 := Two(Pr(RUNNING, 1, None, Waiting(1, false), None), Pr(RUNNABLE, 2, Some(0), Idle, None), Some(0), Some(0), 3, {}, []);
    var s9 := Two(Pr(RUNNING, 1, None, Waiting(2, true), None), Pr(RUNNABLE, 2, Some(0), Idle, None), Some(0), Some(0), 3, {}, []);
    var s10 := Two(Pr(SLEEPING, 1, None, WaitAgain, Some(0)), Pr(RUNNABLE, 2, Some(0), Idle, None), Some(0), None, 3, {}, []);
    var s11 := Two(Pr(SLEEPING, 1, None, WaitAgain, None), Pr(RUNNABLE, 2, Some(0), Idle, None), None, None, 3, {}, []);
    assert Goes(s6, WaitStart(0), s7) by { assert Do(s6, WaitStart(0)).procs == s7.procs; }
    assert Goes(s7, WaitScan(0), s8) by { assert Do(s7, WaitScan(0)).procs == s8.procs; }
    assert Goes(s8, WaitScan(0), s9) by { assert Do(s8, WaitScan(0)).procs == s9.procs; }
    assert Goes(s9, WaitSleep(0), s10) by { assert Do(s9, WaitSleep(0)).procs == s10.procs; }
    assert Goes(s10, Switch(0, 0), s11) by { assert Do(s10, Switch(0, 0)).procs == s11.procs; }
    hide Goes; hide Two; hide Pr;
    Begin(s6, WaitStart(0), s7);
    states, steps := [s6, s7], [WaitStart(0)];
    Next(states, steps, WaitScan(0), s8);
    states, steps := states + [s8], steps + [WaitScan(0)];
    Next(states, steps, WaitScan(0), s9);
    states, steps := states + [s9], steps + [WaitScan(0)];
    Next(states, steps, WaitSleep(0), s10);
    states, steps := states + [s10], steps + [WaitSleep(0)];
    Next(states, steps, Switch(0, 0), s11);
    states, steps := states + [s11], steps + [Switch(0, 0)];
  }

  /** The child runs and begins to exit. */
  lemma ExitTold(s11: State) returns (states: seq<State>, steps: seq<Action>)
    requires s11 == Two(Pr(SLEEPING, 1, None, WaitAgain, None), Pr(RUNNABLE, 2, Some(0), Idle, None), None, None, 3, {}, [])
    ensures Path(states, steps) && |steps| == 5
    ensures states[0] == s11
    ensures states[5] == Two(Pr(SLEEPING, 1, None, WaitAgain, None), Pr(RUNNING, 2, Some(0), Exiting(2), None), Some(1), Some(1), 3, {}, [])
  {
    var s12 := Two(Pr(SLEEPING, 1, None, WaitAgain, None), Pr(RUNNING, 2, Some(0), Idle, Some(1)), Some(1), None, 3, {}, []);
    var s13 := Two(Pr(SLEEPING, 1, None, WaitAgain, None), Pr(RUNNING, 2, Some(0), Idle, None), Some(1), None, 3, {}, []);
    var s14 := Two(Pr(SLEEPING, 1, None, WaitAgain, None), Pr(RUNNING, 2, Some(0), Exiting(0), None), Some(1), Some(1), 3, {}, []);
    var s15 := Two(Pr(SLEEPING, 1, None, WaitAgain, None), Pr(RUNNING, 2, Some(0), Exiting(1), None), Some(1), Some(1), 3, {}, []);
    var s16 := Two(Pr(SLEEPING, 1, None, WaitAgain, None), Pr(RUNNING, 2, Some(0), Exiting(2), None), Some(1), Some(1), 3, {}, []);
    assert Goes(s11, Dispatch(1, 0), s12) by { assert Do(s11, Dispatch(1, 0)).procs == s12.procs; }
    assert Goes(s12, Resume(1), s13) by { assert Do(s12, Resume(1)).procs == s13.procs; }
    assert Goes(s13, ExitStart(1), s14) by { assert Do(s13, ExitStart(1)).procs == s14.procs; }
    assert Goes(s14, Reparent(1), s15) by { assert Do(s14, Reparent(1)).procs == s15.procs; }
    assert Goes(s15, Reparent(1), s16) by { assert Do(s15, Reparent(1)).procs == s16.procs; }
    hide Goes; hide Two; hide Pr;
    Begin(s11, Dispatch(1, 0), s12);
    states, steps := [s11, s12], [Dispatch(1, 0)];
    Next(states, steps, Resume(1), s13);
    states, steps := states + [s13], steps + [Resume(1)];
    Next(states, steps, ExitStart(1), s14);
    states, steps := states + [s14], steps + [ExitStart(1)];
    Next(states, steps, Reparent(1), s15);
    states, steps := states + [s15], steps + [Reparent(1)];
    Next(states, steps, Reparent(1), s16);
    states, steps := states + [s16], steps + [Reparent(1)];
  }

  /** It wakes its parent and is a zombie. */
  lemma WakeTold(s16: State) returns (states: seq<State>, steps: seq<Action>)
    requires s16 == Two(Pr(SLEEPING, 1, None, WaitAgain, None), Pr(RUNNING, 2, Some(0), Exiting(2), None), Some(1), Some(1), 3, {}, [])
    ensures Path(states, steps) && |steps| == 5
    ensures states[0] == s16
    ensures states[5] == Two(Pr(RUNNABLE, 1, None, WaitAgain, None), Pr(ZOMBIE, 2, Some(0), Dead, None), None, None, 3, {2}, [])
  {
    var s17 := Two(Pr(SLEEPING, 1, None, WaitAgain, None), Pr(RUNNING, 2, Some(0), Parting(0), None), Some(1), Some(1), 3, {}, []);
    var s18 := Two(Pr(RUNNABLE, 1, None, WaitAgain, None), Pr(RUNNING, 2, Some(0), Parting(1), None), Some(1), Some(1), 3, {}, []);
    var s19 := Two(Pr(RUNNABLE, 1, None, WaitAgain, None), Pr(RUNNING, 2, Some(0), Parting(2), None), Some(1), Some(1), 3, {}, []);
    var s20 := Two(Pr(RUNNABLE, 1, None, WaitAgain, None), Pr(ZOMBIE, 2, Some(0), Dead, Some(1)), Some(1), None, 3, {2}, []);
    var s21 := Two(Pr(RUNNABLE, 1, None, WaitAgain, None), Pr(ZOMBIE, 2, Some(0), Dead, None), None, None, 3, {2}, []);
    assert Goes(s16, ReparentDone(1), s17) by { assert Do(s16, ReparentDone(1)).procs == s17.procs; }
    assert Goes(s17, WakeScan(1), s18) by { assert Do(s17, WakeScan(1)).procs == s18.procs; }
    assert Goes(s18, WakeScan(1), s19) by { assert Do(s18, WakeScan(1)).procs == s19.procs; }
    assert Goes(s19, ExitEnd(1), s20) by { assert Do(s19, ExitEnd(1)).procs == s20.procs; }
    assert Goes(s20, Switch(1, 0), s21) by { assert Do(s20, Switch(1, 0)).procs == s21.procs; }
    hide Goes; hide Two; hide Pr;
    Begin(s16, ReparentDone(1), s17);
    states, steps := [s16, s17], [ReparentDone(1)];
    Next(states, steps, WakeScan(1), s18);
    states, steps := states + [s18], steps + [WakeScan(1)];
    Next(states, steps, WakeScan(1), s19);
    states, steps := states + [s19], steps + [WakeScan(1)];
    Next(states, steps, ExitEnd(1), s20);
    states, steps := states + [s20], steps + [ExitEnd(1)];
    Next(states, steps, Switch(1, 0), s21);
    states, steps := states + [s21], steps + [Switch(1, 0)];
  }

  /** The parent scans again and finds it. */
  lemma ReapTold(s21: State) returns (states: seq<State>, steps: seq<Action>)
    requires s21 == Two(Pr(RUNNABLE, 1, None, WaitAgain, None), Pr(ZOMBIE, 2, Some(0), Dead, None), None, None, 3, {2}, [])
    ensures Path(states, steps) && |steps| == 5
    ensures states[0] == s21
    ensures states[5] == Two(Pr(RUNNING, 1, None, Idle, None), FREE, Some(0), None, 3, {2}, [2])
  {
    var s22 := Two(Pr(RUNNING, 1, None, WaitAgain, Some(0)), Pr(ZOMBIE, 2, Some(0), Dead, None), Some(0), None, 3, {2}, []);
    var s23 := Two(Pr(RUNNING, 1, None, WaitAgain, None), Pr(ZOMBIE, 2, Some(0), Dead, None), Some(0), None, 3, {2}, []);
    var s24 := Two(Pr(RUNNING, 1, None, Waiting(0, false), None), Pr(ZOMBIE, 2, Some(0), Dead, None), Some(0), Some(0), 3, {2}, []);
    var s25 := Two(Pr(RUNNING, 1, None, Waiting(1, false), None), Pr(ZOMBIE, 2, Some(0), Dead, None), Some(0), Some(0), 3, {2}, []);
    var s26 := Two(Pr(RUNNING, 1, None, Idle, None), FREE, Some(0), None, 3, {2}, [2]);
    assert Goes(s21, Dispatch(0, 0), s22) by { assert Do(s21, Dispatch(0, 0)).procs == s22.procs; }
    assert Goes(s22, Resume(0), s23) by { assert Do(s22, Resume(0)).procs == s23.procs; }
    assert Goes(s23, WaitStart(0), s24) by { assert Do(s23, WaitStart(0)).procs == s24.procs; }
    assert Goes(s24, WaitScan(0), s25) by { assert Do(s24, WaitScan(0)).procs == s25.procs; }
    assert Goes(s25, WaitScan(0), s26) by { assert Do(s25, WaitScan(0)).procs == s26.procs; }
    hide Goes; hide Two; hide Pr;
    Begin(s21, Dispatch(0, 0), s22);
    states, steps := [s21, s22], [Dispatch(0, 0)];
    Next(states, steps, Resume(0), s23);
    states, steps := states + [s23], steps + [Resume(0)];
    Next(states, steps, WaitStart(0), s24);
    states, steps := states + [s24], steps + [WaitStart(0)];
    Next(states, steps, WaitScan(0), s25);
    states, steps := states + [s25], steps + [WaitScan(0)];
    Next(states, steps, WaitScan(0), s26);
    states, steps := states + [s26], steps + [WaitScan(0)];
  }

  lemma StartIs(s: State)
    requires s == Two(Pr(RUNNABLE, 1, None, Idle, None), FREE, None, None, 2, {}, [])
    ensures Init(s)
  {
  }

  /** Some process does sleep in wait and is then given its child. */
  lemma WaitHappens() returns (states: seq<State>, steps: seq<Action>)
    ensures Run(states, steps) && |steps| == 26 && |states[11].procs| == 2 == |states[26].procs|
    ensures Dozing(states[11].procs[0]) && states[11].procs[1].parent == Some(0) && states[11].procs[1].pid == 2
    ensures states[26].reaped == [2] && states[26].procs[1].st.UNUSED?
  {
    hide Goes; hide Init; hide Two; hide Pr;
    var start := Two(Pr(RUNNABLE, 1, None, Idle, None), FREE, None, None, 2, {}, []);
    StartIs(start);
    states, steps := StartTold(start);
    var xs1, as1 := ForkTold(states[|steps|]);
    states, steps := Join(states, steps, xs1, as1);
    var xs2, as2 := SleepTold(states[|steps|]);
    states, steps := Join(states, steps, xs2, as2);
    var asleep := states[11];
    var xs3, as3 := ExitTold(states[|steps|]);
    states, steps := Join(states, steps, xs3, as3);
    var xs4, as4 := WakeTold(states[|steps|]);
    states, steps := Join(states, steps, xs4, as4);
    var xs5, as5 := ReapTold(states[|steps|]);
    states, steps := Join(states, steps, xs5, as5);
    IsRun(states, steps);
    assert states[11] == asleep;
    Pictures(states[11], states[26]);
  }

  lemma Pictures(s: State, r: State)
    requires s == Two(Pr(SLEEPING, 1, None, WaitAgain, None), Pr(RUNNABLE, 2, Some(0), Idle, None), None, None, 3, {}, [])
    requires r == Two(Pr(RUNNING, 1, None, Idle, None), FREE, Some(0), None, 3, {2}, [2])
    ensures |s.procs| == 2 == |r.procs| && Dozing(s.procs[0]) && s.procs[1].parent == Some(0) && s.procs[1].pid == 2
    ensures r.reaped == [2] && r.procs[1].st.UNUSED?
  {
  }

  lemma IsRun(states: seq<State>, steps: seq<Action>)
    requires Path(states, steps) && Init(states[0])
    ensures Run(states, steps)
  {
    hide Do; hide Enabled; hide Init;
    forall i | 0 <= i < |steps|
      ensures Enabled(states[i], steps[i]) && states[i + 1] == Do(states[i], steps[i])
    {
      assert Goes(states[i], steps[i], states[i + 1]);
    }
  }
}
