/** sleep and wakeup (kernel/proc.c), step by step between lock operations, for clients that
    test and change a channel's condition while holding its lock, and that before releasing
    it call wakeup for every channel whose condition they made true. */
module SleepWakeup {
  import opened Basics

  /** A channel and the spin-lock that guards its condition. */
  datatype Chan = Chan(lock: nat, id: nat)

  /** Where a process is.  While it holds a lock, `waked` are the channels it has called
      wakeup for since it acquired the lock, and `owed` those whose condition it has made
      true without having called wakeup yet. */
  datatype Pc =
    | Out
    | Holding(k: nat, waked: set<Chan>, owed: set<Chan>)
    | Scanning(k: nat, waked: set<Chan>, owed: set<Chan>, c: Chan, i: nat)  // in wakeup(c), next is proc[i]
    | Locked(c: Chan)        // in sleep: holds c.lock and p->lock
    | Released(c: Chan)      // holds p->lock
    | Down(c: Chan)          // SLEEPING, p->lock held until the scheduler releases it
    | Asleep(c: Chan)        // off the CPU
    | Up(c: Chan)            // dispatched again, p->lock held
    | Back(k: nat)           // about to acquire(lk) again

  /** `asleep` is state == SLEEPING. */
  datatype Proc = Proc(pc: Pc, asleep: bool, chan: Option<Chan>)

  /** Held spin-locks with their holders, and the channels whose condition holds. */
  datatype State = State(procs: seq<Proc>, spin: map<nat, nat>, cond: set<Chan>)

  datatype Action =
    | Acquire(p: nat, k: nat) | Release(p: nat)
    | Change(p: nat, c: Chan, holds: bool)      // change the condition of c
    | Wake(p: nat, c: Chan) | Scan(p: nat) | ScanEnd(p: nat)
    | Sleep(p: nat, c: Chan) | LetGo(p: nat) | Mark(p: nat) | Switch(p: nat)
    | Dispatch(p: nat) | Tidy(p: nat) | Reacquire(p: nat)
    | Kill(p: nat)

  /** A step inside sleep or wakeup, or a kill. */
  predicate InnerAction(a: Action) {
    a.Scan? || a.ScanEnd? || a.LetGo? || a.Mark? || a.Switch? || a.Dispatch? || a.Tidy? || a.Reacquire? || a.Kill?
  }

  /** p->lock is held, by p itself or by the scheduler on its behalf. */
  predicate SelfLocked(pc: Pc) {
    pc.Locked? || pc.Released? || pc.Down? || pc.Up?
  }

  predicate Holds(pc: Pc, k: nat) {
    ((pc.Holding? || pc.Scanning?) && pc.k == k) || (pc.Locked? && pc.c.lock == k)
  }

  predicate Enabled(s: State, a: Action) {
    a.p < |s.procs| &&
    var p := s.procs[a.p];
    match a
    case Acquire(_, k) => p.pc.Out? && k !in s.spin
    case Release(_) => p.pc.Holding? && p.pc.owed == {}
    case Change(_, c, _) => p.pc.Holding? && c.lock == p.pc.k
    case Wake(_, _) => p.pc.Holding?
    case Scan(_) => p.pc.Scanning? && p.pc.i < |s.procs| && (p.pc.i == a.p || !SelfLocked(s.procs[p.pc.i].pc))
    case ScanEnd(_) => p.pc.Scanning? && p.pc.i == |s.procs|
    case Sleep(_, c) => p.pc.Holding? && p.pc.owed == {} && c.lock == p.pc.k && c !in s.cond
    case LetGo(_) => p.pc.Locked?
    case Mark(_) => p.pc.Released?
    case Switch(_) => p.pc.Down?
    case Dispatch(_) => p.pc.Asleep? && !p.asleep
    case Tidy(_) => p.pc.Up?
    case Reacquire(_) => p.pc.Back? && p.pc.k !in s.spin
    case Kill(_) => !SelfLocked(p.pc) && p.asleep
  }

  function At(s: State, p: nat, pc: Pc): State
    requires p < |s.procs|
  {
    s.(procs := s.procs[p := s.procs[p].(pc := pc)])
  }

  /** A condition that becomes true, and that wakeup has not been called for, is owed one. */
  function Owing(pc: Pc, c: Chan, holds: bool, held: bool): set<Chan>
    requires pc.Holding?
  {
    if !holds then pc.owed - {c} else if held || c in pc.waked then pc.owed else pc.owed + {c}
  }

  function Do(s: State, a: Action): State
    requires Enabled(s, a)
  {
    var p := s.procs[a.p];
    match a
    case Acquire(_, k) => At(s, a.p, Holding(k, {}, {})).(spin := s.spin[k := a.p])
    case Release(_) => At(s, a.p, Out).(spin := s.spin - {p.pc.k})
    case Change(_, c, holds) =>
      At(s, a.p, Holding(p.pc.k, p.pc.waked, Owing(p.pc, c, holds, c in s.cond)))
      .(cond := if holds then s.cond + {c} else s.cond - {c})
    case Wake(_, c) => At(s, a.p, Scanning(p.pc.k, p.pc.waked, p.pc.owed, c, 0))
    case Scan(_) => DoScan(s, a.p)
    case ScanEnd(_) =>
      At(s, a.p, Holding(p.pc.k, if p.pc.c.lock == p.pc.k then p.pc.waked + {p.pc.c} else p.pc.waked, p.pc.owed - {p.pc.c}))
    case Sleep(_, c) => At(s, a.p, Locked(c))
    case LetGo(_) => At(s, a.p, Released(p.pc.c)).(spin := s.spin - {p.pc.c.lock})
    case Mark(_) => s.(procs := s.procs[a.p := Proc(Down(p.pc.c), true, Some(p.pc.c))])
    case Switch(_) => At(s, a.p, Asleep(p.pc.c))
    case Dispatch(_) => At(s, a.p, Up(p.pc.c))
    case Tidy(_) => s.(procs := s.procs[a.p := Proc(Back(p.pc.c.lock), p.asleep, None)])
    case Reacquire(_) => At(s, a.p, Holding(p.pc.k, {}, {})).(spin := s.spin[p.pc.k := a.p])
    case Kill(_) => s.(procs := s.procs[a.p := p.(asleep := false)])
  }

  /** One round of wakeup's loop. */
  function DoScan(s: State, p: nat): State
    requires Enabled(s, Scan(p))
  {
    var i, c := s.procs[p].pc.i, s.procs[p].pc.c;
    var t := At(s, p, s.procs[p].pc.(i := i + 1));
    if i != p && s.procs[i].asleep && s.procs[i].chan == Some(c)
    then t.(procs := t.procs[i := t.procs[i].(asleep := false)])
    else t
  }

  // ---------- Invariant ----------

  /** In sleep(c) past release(lk), and not woken. */
  predicate OnChan(p: Proc, c: Chan) {
    p.pc == Released(c) || (p.asleep && p.chan == Some(c))
  }

  /** A wakeup of c is due, or in progress and not yet past proc[p]. */
  predicate Due(pc: Pc, c: Chan, p: nat) {
    (pc.Holding? && c in pc.owed) || (pc.Scanning? && c in pc.owed && (pc.c != c || pc.i <= p))
  }

  ghost predicate ProcOk(p: Proc, cond: set<Chan>) {
    && (p.asleep ==> (p.pc.Down? || p.pc.Asleep?) && p.chan == Some(p.pc.c))
    && (p.pc.Down? ==> p.asleep)
    && (p.pc.Locked? ==> p.pc.c !in cond)
    && (p.pc.Holding? || p.pc.Scanning? ==>
          (forall c :: c in p.pc.waked ==> c.lock == p.pc.k) && (forall c :: c in p.pc.owed ==> c.lock == p.pc.k))
  }

  ghost predicate SpinOk(s: State) {
    && (forall k :: k in s.spin ==> s.spin[k] < |s.procs| && Holds(s.procs[s.spin[k]].pc, k))
    && (forall p: nat, k: nat {:trigger Holds(s.procs[p].pc, k)} :: p < |s.procs| && Holds(s.procs[p].pc, k) ==>
          k in s.spin && s.spin[k] == p)
  }

  /** No process waits for a condition that holds without a wakeup on its way. */
  ghost predicate NotLost(s: State) {
    forall p, c :: 0 <= p < |s.procs| && OnChan(s.procs[p], c) && c in s.cond ==>
      exists w :: 0 <= w < |s.procs| && Due(s.procs[w].pc, c, p)
  }

  /** Nobody is left on a channel that the lock holder has called wakeup for. */
  ghost predicate Swept(s: State) {
    && (forall w, p, c :: 0 <= w < |s.procs| && 0 <= p < |s.procs| && IsWaked(s.procs[w].pc, c) ==>
          !OnChan(s.procs[p], c))
    && (forall w, p :: 0 <= w < |s.procs| && 0 <= p < |s.procs| && s.procs[w].pc.Scanning? && s.procs[w].pc.c.lock == s.procs[w].pc.k && p < s.procs[w].pc.i ==>
          !OnChan(s.procs[p], s.procs[w].pc.c))
  }

  predicate IsWaked(pc: Pc, c: Chan) {
    (pc.Holding? || pc.Scanning?) && c in pc.waked
  }

  ghost predicate Inv(s: State) {
    && (forall p :: 0 <= p < |s.procs| ==> ProcOk(s.procs[p], s.cond))
    && SpinOk(s) && NotLost(s) && Swept(s) && ScansOk(s)
  }

  ghost predicate ScansOk(s: State) {
    forall p :: 0 <= p < |s.procs| && s.procs[p].pc.Scanning? ==> s.procs[p].pc.i <= |s.procs|
  }

  // ---------- Every step keeps it ----------

  /** A step moves one process; it can only wake others. */
  lemma OneMoves(s: State, a: Action)
    requires Enabled(s, a)
    ensures |Do(s, a).procs| == |s.procs|
    ensures forall q :: 0 <= q < |s.procs| && q != a.p ==>
              && Do(s, a).procs[q].pc == s.procs[q].pc && Do(s, a).procs[q].chan == s.procs[q].chan
              && (Do(s, a).procs[q].asleep ==> s.procs[q].asleep)
  {
  }

  /** Where a client's step leaves the process that takes it. */
  lemma ClientMoves(s: State, a: Action)
    requires Enabled(s, a) && !InnerAction(a)
    ensures a.p < |s.procs| == |Do(s, a).procs|
    ensures var pc, pc' := s.procs[a.p].pc, Do(s, a).procs[a.p].pc;
            match a
            case Acquire(_, k) => pc' == Holding(k, {}, {})
            case Release(_) => pc' == Out
            case Change(_, c, holds) => pc.Holding? && pc' == Holding(pc.k, pc.waked, Owing(pc, c, holds, c in s.cond))
            case Wake(_, c) => pc.Holding? && pc' == Scanning(pc.k, pc.waked, pc.owed, c, 0)
            case Sleep(_, c) => pc' == Locked(c)
            case _ => true
  {
  }

  lemma KeepsProcs(s: State, a: Action)
    requires Inv(s) && Enabled(s, a)
    ensures |Do(s, a).procs| == |s.procs| && forall p :: 0 <= p < |s.procs| ==> ProcOk(Do(s, a).procs[p], Do(s, a).cond)
  {
    hide NotLost; hide Swept;
    OneMoves(s, a);
    forall p | 0 <= p < |s.procs|
      ensures ProcOk(Do(s, a).procs[p], Do(s, a).cond)
    {
      assert ProcOk(s.procs[p], s.cond);
      if p != a.p && s.procs[p].pc.Locked? {
        assert Holds(s.procs[p].pc, s.procs[p].pc.c.lock);
        assert a.Change? ==> Holds(s.procs[a.p].pc, a.c.lock);
      }
    }
  }

  lemma KeepsSpin(s: State, a: Action)
    requires SpinOk(s) && Enabled(s, a)
    ensures SpinOk(Do(s, a))
  {
    OneMoves(s, a);
    var s', p := Do(s, a), a.p;
    var pc, pc' := s.procs[p].pc, s'.procs[p].pc;
    var j := TookOrGave(pc, a);
    assert forall k :: k != j ==> (Holds(pc', k) <==> Holds(pc, k));
    assert Holds(s.procs[p].pc, j) ==> j in s.spin && s.spin[j] == p;
    SpinMoves(s, s', p, j);
  }

  /** The lock that a step may acquire or release. */
  ghost function TookOrGave(pc: Pc, a: Action): nat {
    if a.Acquire? then a.k else if pc.Back? || pc.Holding? then pc.k else if pc.Locked? then pc.c.lock else 0
  }

  lemma SpinMoves(s: State, s': State, p: nat, j: nat)
    requires SpinOk(s) && |s'.procs| == |s.procs| && p < |s.procs|
    requires forall q :: 0 <= q < |s.procs| && q != p ==> s'.procs[q].pc == s.procs[q].pc
    requires forall k :: k != j ==> (Holds(s'.procs[p].pc, k) <==> Holds(s.procs[p].pc, k))
    requires forall k :: k != j ==> (k in s'.spin <==> k in s.spin) && (k in s.spin ==> s'.spin[k] == s.spin[k])
    requires Holds(s'.procs[p].pc, j) ==> j in s'.spin && s'.spin[j] == p && (Holds(s.procs[p].pc, j) || j !in s.spin)
    requires !Holds(s'.procs[p].pc, j) ==>
               if Holds(s.procs[p].pc, j) then j !in s'.spin else (j in s'.spin <==> j in s.spin) && (j in s.spin ==> s'.spin[j] == s.spin[j])
    ensures SpinOk(s')
  {
    hide Holds;
  }

  /** Two processes never hold the same spin-lock. */
  lemma OneHolder(s: State, p: nat, q: nat, k: nat)
    requires SpinOk(s) && p < |s.procs| && q < |s.procs| && Holds(s.procs[p].pc, k) && Holds(s.procs[q].pc, k)
    ensures p == q
  {
  }

  /** Only the step that releases the lock in sleep puts a process on a channel. */
  lemma JoinsChan(s: State, a: Action, p: nat, c: Chan)
    requires Inv(s) && Enabled(s, a) && p < |s.procs| && p < |Do(s, a).procs| && OnChan(Do(s, a).procs[p], c)
    ensures OnChan(s.procs[p], c) || (a == LetGo(p) && s.procs[p].pc == Locked(c))
  {
    hide NotLost; hide Swept; hide SpinOk;
    assert ProcOk(s.procs[p], s.cond);
  }

  lemma KeepsSwept(s: State, a: Action)
    requires Inv(s) && Enabled(s, a)
    ensures Swept(Do(s, a))
  {
    OneMoves(s, a);
    var s' := Do(s, a);
    forall w, p, c | 0 <= w < |s'.procs| && 0 <= p < |s'.procs| && IsWaked(s'.procs[w].pc, c)
      ensures !OnChan(s'.procs[p], c)
    {
      SweptAt(s, a, w, p, c);
    }
    forall w, p | 0 <= w < |s'.procs| && 0 <= p < |s'.procs| && s'.procs[w].pc.Scanning? && s'.procs[w].pc.c.lock == s'.procs[w].pc.k && p < s'.procs[w].pc.i
      ensures !OnChan(s'.procs[p], s'.procs[w].pc.c)
    {
      PassedAt(s, a, w, p);
    }
  }

  lemma SweptAt(s: State, a: Action, w: nat, p: nat, c: Chan)
    requires Inv(s) && Enabled(s, a) && w < |s.procs| && p < |s.procs| && |Do(s, a).procs| == |s.procs|
    requires IsWaked(Do(s, a).procs[w].pc, c)
    ensures !OnChan(Do(s, a).procs[p], c)
  {
    hide NotLost; hide Do; hide Enabled;
    if OnChan(Do(s, a).procs[p], c) {
      JoinsChan(s, a, p, c);
      WakedBefore(s, a, w, c);
      assert ProcOk(s.procs[w], s.cond) && ProcOk(s.procs[p], s.cond);
      if a == LetGo(p) {
        OneHolder(s, w, p, c.lock);
      }
    }
  }

  /** A channel is waked when its wakeup has passed everybody. */
  lemma WakedBefore(s: State, a: Action, w: nat, c: Chan)
    requires Enabled(s, a) && w < |s.procs| && |Do(s, a).procs| == |s.procs| && IsWaked(Do(s, a).procs[w].pc, c)
    ensures IsWaked(s.procs[w].pc, c) ||
            (s.procs[w].pc.Scanning? && s.procs[w].pc.i == |s.procs| && s.procs[w].pc.c == c && c.lock == s.procs[w].pc.k)
  {
  }

  lemma PassedAt(s: State, a: Action, w: nat, p: nat)
    requires Inv(s) && Enabled(s, a) && w < |s.procs| && p < |s.procs| && |Do(s, a).procs| == |s.procs|
    requires var pc := Do(s, a).procs[w].pc; pc.Scanning? && pc.c.lock == pc.k && p < pc.i
    ensures !OnChan(Do(s, a).procs[p], Do(s, a).procs[w].pc.c)
  {
    hide NotLost;
    var c := Do(s, a).procs[w].pc.c;
    if OnChan(Do(s, a).procs[p], c) {
      JoinsChan(s, a, p, c);
      hide OnChan;
      assert ProcOk(s.procs[w], s.cond) && ProcOk(s.procs[p], s.cond);
      if a == LetGo(p) {
        OneHolder(s, w, p, c.lock);
      } else {
        PassedBefore(s, a, w, p);
      }
    }
  }

  /** What the scan has passed, it has found or left off the channel. */
  lemma PassedBefore(s: State, a: Action, w: nat, p: nat)
    requires Inv(s) && Enabled(s, a) && w < |s.procs| && p < |s.procs| && |Do(s, a).procs| == |s.procs|
    requires var pc := Do(s, a).procs[w].pc; pc.Scanning? && pc.c.lock == pc.k && p < pc.i && OnChan(s.procs[p], pc.c)
    ensures !OnChan(Do(s, a).procs[p], Do(s, a).procs[w].pc.c)
  {
    hide NotLost; hide SpinOk;
    OneMoves(s, a);
    assert ProcOk(s.procs[w], s.cond) && ProcOk(s.procs[p], s.cond);
  }

  /** A due wakeup stays due, unless it has just reached p or the condition is gone. */
  lemma DueStays(s: State, a: Action, w: nat, p: nat, c: Chan)
    requires Inv(s) && Enabled(s, a) && w < |s.procs| && p < |s.procs| && |Do(s, a).procs| == |s.procs|
    requires Due(s.procs[w].pc, c, p) && OnChan(Do(s, a).procs[p], c) && c in Do(s, a).cond
    ensures Due(Do(s, a).procs[w].pc, c, p)
  {
    hide NotLost; hide Swept; hide SpinOk;
    if w != a.p {
      OneMoves(s, a);
    } else {
      assert ProcOk(s.procs[w], s.cond) && ProcOk(s.procs[p], s.cond);
    }
  }

  /** A condition that becomes true is waited for by nobody, or its wakeup is due. */
  lemma DueStarts(s: State, a: Action, p: nat, c: Chan)
    requires Inv(s) && Enabled(s, a) && p < |s.procs| && |Do(s, a).procs| == |s.procs|
    requires OnChan(Do(s, a).procs[p], c) && c in Do(s, a).cond && !(OnChan(s.procs[p], c) && c in s.cond)
    ensures Due(Do(s, a).procs[a.p].pc, c, p)
  {
    hide NotLost; hide SpinOk;
    JoinsChan(s, a, p, c);
    assert ProcOk(s.procs[p], s.cond);
  }

  lemma KeepsNotLost(s: State, a: Action)
    requires Inv(s) && Enabled(s, a)
    ensures NotLost(Do(s, a))
  {
    OneMoves(s, a);
    hide SpinOk; hide Do; hide Enabled; hide OnChan; hide Due; hide Swept; hide ProcOk;
    var s' := Do(s, a);
    forall p, c | 0 <= p < |s'.procs| && OnChan(s'.procs[p], c) && c in s'.cond
      ensures exists w :: 0 <= w < |s'.procs| && Due(s'.procs[w].pc, c, p)
    {
      if OnChan(s.procs[p], c) && c in s.cond {
        var w :| 0 <= w < |s.procs| && Due(s.procs[w].pc, c, p);
        DueStays(s, a, w, p, c);
      } else {
        DueStarts(s, a, p, c);
        assert a.p < |s'.procs| by { ActorExists(s, a); }
      }
    }
  }

  lemma KeepsScans(s: State, a: Action)
    requires ScansOk(s) && Enabled(s, a)
    ensures ScansOk(Do(s, a))
  {
  }

  lemma ActorExists(s: State, a: Action)
    requires Enabled(s, a)
    ensures a.p < |s.procs|
  {
  }

  lemma StepKeeps(s: State, a: Action)
    requires Inv(s) && Enabled(s, a)
    ensures Inv(Do(s, a))
  {
    KeepsProcs(s, a);
    KeepsSpin(s, a);
    KeepsSwept(s, a);
    KeepsNotLost(s, a);
    KeepsScans(s, a);
    hide Do; hide Enabled; hide ProcOk; hide SpinOk; hide Swept; hide NotLost; hide ScansOk;
  }

  /** procinit: nobody in any of this code. */
  ghost predicate Init(s: State) {
    s.spin == map[] && forall p :: 0 <= p < |s.procs| ==> s.procs[p].pc == Out && !s.procs[p].asleep
  }

  lemma InitOk(s: State)
    requires Init(s)
    ensures Inv(s)
  {
  }

  ghost predicate Run(states: seq<State>, steps: seq<Action>) {
    && |states| == |steps| + 1 && Init(states[0])
    && forall i :: 0 <= i < |steps| ==> Enabled(states[i], steps[i]) && states[i + 1] == Do(states[i], steps[i])
  }

  lemma {:induction false} RunKeeps(states: seq<State>, steps: seq<Action>, i: nat)
    requires Run(states, steps) && i < |states|
    ensures Inv(states[i])
  {
    hide Do; hide Enabled; hide Inv;
    if i == 0 {
      InitOk(states[0]);
    } else {
      RunKeeps(states, steps, i - 1);
      StepKeeps(states[i - 1], steps[i - 1]);
    }
  }

  /** A wakeup of c by the holder of its lock has still to reach proc[p]. */
  ghost predicate WakeupComing(s: State, c: Chan, p: nat) {
    exists w :: 0 <= w < |s.procs| && Holds(s.procs[w].pc, c.lock) && Due(s.procs[w].pc, c, p)
  }

  /** In a state that keeps the invariant, a sleeper whose condition holds is about to be woken. */
  lemma WakeupIsComing(s: State, p: nat)
    requires Inv(s) && p < |s.procs| && s.procs[p].asleep && s.procs[p].chan.Some? && s.procs[p].chan.value in s.cond
    ensures WakeupComing(s, s.procs[p].chan.value, p)
  {
    var c := s.procs[p].chan.value;
    assert OnChan(s.procs[p], c);
    var w :| 0 <= w < |s.procs| && Due(s.procs[w].pc, c, p);
    assert ProcOk(s.procs[w], s.cond);
  }

  /** No lost wakeup: at no point of any run is a process SLEEPING on a channel whose
      condition holds, unless a wakeup that has not passed it yet is coming. */
  lemma NoLostWakeup(states: seq<State>, steps: seq<Action>, i: nat, p: nat)
    requires Run(states, steps) && i < |states| && p < |states[i].procs|
    requires states[i].procs[p].asleep && states[i].procs[p].chan.Some?
    requires states[i].procs[p].chan.value in states[i].cond
    ensures WakeupComing(states[i], states[i].procs[p].chan.value, p)
  {
    hide Run; hide Inv;
    RunKeeps(states, steps, i);
    WakeupIsComing(states[i], p);
  }

  /** So when nobody holds the channel's lock, its sleepers are right to sleep. */
  lemma SleepersWait(states: seq<State>, steps: seq<Action>, i: nat, p: nat)
    requires Run(states, steps) && i < |states| && p < |states[i].procs|
    requires states[i].procs[p].asleep && states[i].procs[p].chan.Some?
    requires states[i].procs[p].chan.value.lock !in states[i].spin
    ensures states[i].procs[p].chan.value !in states[i].cond
  {
    if states[i].procs[p].chan.value in states[i].cond {
      NoLostWakeup(states, steps, i, p);
      RunKeeps(states, steps, i);
    }
  }

  /** Nothing but kill and a wakeup of its own channel ends a process's sleep, and a process
      that is back from sleep is on no channel. */
  lemma WokenByChannel(states: seq<State>, steps: seq<Action>, i: nat, p: nat)
    requires Run(states, steps) && i < |steps| && p < |states[i].procs|
    ensures p < |states[i + 1].procs|
    ensures states[i].procs[p].asleep && !states[i + 1].procs[p].asleep ==>
              steps[i] == Kill(p) || (steps[i].Scan? && states[i].procs[steps[i].p].pc.i == p
                                      && states[i].procs[p].chan == Some(states[i].procs[steps[i].p].pc.c))
    ensures steps[i] == Tidy(p) ==> states[i + 1].procs[p].chan == None
  {
  }

  // ---------- No step is left ----------

  /** No step inside sleep and wakeup is possible. */
  ghost predicate Still(s: State) {
    forall a :: InnerAction(a) && !a.Kill? ==> !Enabled(s, a)
  }

  /** Then whoever is in sleep or wakeup sleeps, or wants a lock from a client that holds it. */
  lemma StillProc(s: State, p: nat)
    requires Inv(s) && Still(s) && p < |s.procs|
    ensures var pc := s.procs[p].pc;
            || pc.Out? || pc.Holding? || (pc.Asleep? && s.procs[p].asleep)
            || (pc.Back? && pc.k in s.spin && s.spin[pc.k] < |s.procs| && s.procs[s.spin[pc.k]].pc.Holding?)
  {
    hide NotLost; hide Swept; hide ProcOk;
    NotWithin(s, p);
    NotScanning(s, p);
    if s.procs[p].pc.Back? {
      assert !Enabled(s, Reacquire(p));
      var h := s.spin[s.procs[p].pc.k];
      NotWithin(s, h);
      NotScanning(s, h);
    }
  }

  lemma NotWithin(s: State, p: nat)
    requires Still(s) && p < |s.procs|
    ensures !SelfLocked(s.procs[p].pc) && (s.procs[p].pc.Asleep? ==> s.procs[p].asleep)
  {
    assert InnerAction(LetGo(p)) && InnerAction(Mark(p)) && InnerAction(Switch(p)) && InnerAction(Tidy(p)) && InnerAction(Dispatch(p));
  }

  lemma NotScanning(s: State, p: nat)
    requires Still(s) && ScansOk(s) && p < |s.procs|
    ensures !s.procs[p].pc.Scanning?
  {
    assert InnerAction(Scan(p)) && InnerAction(ScanEnd(p));
    if s.procs[p].pc.Scanning? && s.procs[p].pc.i < |s.procs| {
      NotWithin(s, s.procs[p].pc.i);
    }
  }

  /** If no client is inside its critical section either, everybody is outside or sleeps on a
      condition that does not hold. */
  lemma AllAtRest(s: State, p: nat)
    requires Inv(s) && Still(s) && p < |s.procs| && forall q :: 0 <= q < |s.procs| ==> !s.procs[q].pc.Holding?
    ensures var pc := s.procs[p].pc;
            pc.Out? || (pc.Asleep? && s.procs[p].asleep && s.procs[p].chan == Some(pc.c) && pc.c !in s.cond)
  {
    StillProc(s, p);
    assert ProcOk(s.procs[p], s.cond);
    if s.procs[p].pc.Asleep? && s.procs[p].pc.c in s.cond {
      WakeupIsComing(s, p);
      var w :| 0 <= w < |s.procs| && Due(s.procs[w].pc, s.procs[p].pc.c, p);
      StillProc(s, w);
    }
  }
}
