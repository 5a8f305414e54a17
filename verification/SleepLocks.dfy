/** Sleep-locks (kernel/sleeplock.c) as a client of sleep and wakeup: each step of
    acquiresleep and releasesleep is one step of the machine in SleepWakeup. */
module SleepLocks {
  import opened Basics
  import opened SW = SleepWakeup

  /** Where a process is in acquiresleep(l) or releasesleep(l). */
  datatype Code =
    | Away
    | Acquiring(l: nat)      // in the while loop
    | Got(l: nat)            // lk->locked = 1, about to release lk->lk
    | Releasing(l: nat)      // holds lk->lk
    | Freed(l: nat)          // lk->locked = 0, about to call wakeup
    | Waking(l: nat)         // in wakeup, or about to release lk->lk

  /** `owner[l]` is lk->pid while lk->locked; `held[p]` are the locks that p has got from
      acquiresleep and not given to releasesleep. */
  datatype Locks = Locks(base: SW.State, owner: seq<Option<nat>>, code: seq<Code>, held: seq<set<nat>>)

  datatype Step =
    | CallAcquire(p: nat, l: nat) | Test(p: nat) | Leave(p: nat)
    | CallRelease(p: nat, l: nat) | Unlock(p: nat) | CallWakeup(p: nat) | Done(p: nat)
    | Inner(a: SW.Action)      // a step inside sleep or wakeup, or a kill

  /** A sleep-lock's channel is the lock itself, guarded by its spin-lock. */
  function LockChan(l: nat): Chan { Chan(l, 0) }

  function Who(a: Step): nat {
    match a
    case Inner(b) => b.p
    case _ => a.p
  }

  ghost predicate Sized(s: Locks) {
    |s.code| == |s.base.procs| && |s.held| == |s.base.procs|
  }

  /** The step of the underlying machine. */
  function Under(s: Locks, a: Step): SW.Action
    requires Who(a) < |s.code|
  {
    match a
    case CallAcquire(p, l) => SW.Acquire(p, l)
    case Test(p) =>
      if s.code[p].Acquiring? && s.code[p].l < |s.owner| && s.owner[s.code[p].l].Some? then SW.Sleep(p, LockChan(s.code[p].l))
      else SW.Change(p, LockChan(if s.code[p].Acquiring? then s.code[p].l else 0), false)
    case Leave(p) => SW.Release(p)
    case CallRelease(p, l) => SW.Acquire(p, l)
    case Unlock(p) => SW.Change(p, LockChan(if s.code[p].Releasing? then s.code[p].l else 0), true)
    case CallWakeup(p) => SW.Wake(p, LockChan(if s.code[p].Freed? then s.code[p].l else 0))
    case Done(p) => SW.Release(p)
    case Inner(b) => b
  }

  ghost predicate Enabled(s: Locks, a: Step) {
    && Sized(s) && Who(a) < |s.code| && SW.Enabled(s.base, Under(s, a))
    && match a
       case CallAcquire(p, l) => s.code[p].Away? && l < |s.owner| && l !in s.held[p]
       case Test(p) => s.code[p].Acquiring? && s.code[p].l < |s.owner| && s.base.procs[p].pc.Holding?
       case Leave(p) => s.code[p].Got?
       case CallRelease(p, l) => s.code[p].Away? && l < |s.owner| && l in s.held[p]
       case Unlock(p) => s.code[p].Releasing? && s.code[p].l < |s.owner|
       case CallWakeup(p) => s.code[p].Freed?
       case Done(p) => s.code[p].Waking?
       case Inner(b) => InnerAction(b)
  }

  ghost function Do(s: Locks, a: Step): Locks
    requires Enabled(s, a)
  {
    var t := s.(base := SW.Do(s.base, Under(s, a)));
    match a
    case CallAcquire(p, l) => t.(code := s.code[p := Acquiring(l)])
    case Test(p) =>
      var l := s.code[p].l;
      if s.owner[l].Some? then t else t.(owner := s.owner[l := Some(p)], code := s.code[p := Got(l)])
    case Leave(p) => t.(code := s.code[p := Away], held := s.held[p := s.held[p] + {s.code[p].l}])
    case CallRelease(p, l) => t.(code := s.code[p := Releasing(l)])
    case Unlock(p) =>
      var l := s.code[p].l;
      t.(owner := s.owner[l := None], code := s.code[p := Freed(l)], held := s.held[p := s.held[p] - {l}])
    case CallWakeup(p) => t.(code := s.code[p := Waking(s.code[p].l)])
    case Done(p) => t.(code := s.code[p := Away])
    case Inner(_) => t
  }

  // ---------- Invariant ----------

  ghost predicate CodeOk(pc: Pc, code: Code) {
    match code
    case Away => pc.Out?
    case Acquiring(l) =>
      || pc == Holding(l, {}, {}) || pc == Back(l)
      || ((pc.Locked? || pc.Released? || pc.Down? || pc.Asleep? || pc.Up?) && pc.c == LockChan(l))
    case Got(l) => pc == Holding(l, {}, {})
    case Releasing(l) => pc == Holding(l, {}, {})
    case Freed(l) => pc.Holding? && pc.k == l && pc.waked == {} && pc.owed <= {LockChan(l)}
    case Waking(l) =>
      || (pc.Scanning? && pc.k == l && pc.waked == {} && pc.owed <= {LockChan(l)} && pc.c == LockChan(l))
      || pc == Holding(l, {LockChan(l)}, {})
  }

  /** p owns lock l, in or out of acquiresleep. */
  predicate Owns(code: seq<Code>, held: seq<set<nat>>, p: nat, l: nat) {
    p < |code| && p < |held| && (l in held[p] || code[p] == Got(l))
  }

  ghost predicate CodesOk(s: Locks) {
    Sized(s) && forall p :: 0 <= p < |s.code| ==>
        CodeOk(s.base.procs[p].pc, s.code[p]) && (s.code[p].Away? || s.code[p].l < |s.owner|)
  }

  ghost predicate CondOk(s: Locks) {
    forall l :: 0 <= l < |s.owner| ==> (LockChan(l) in s.base.cond <==> s.owner[l].None?)
  }

  ghost predicate OwnersOk(owner: seq<Option<nat>>, code: seq<Code>, held: seq<set<nat>>) {
    && |held| == |code|
    && (forall p: nat, l: nat :: Owns(code, held, p, l) ==> l < |owner| && owner[l] == Some(p))
    && (forall p: nat :: p < |code| && (code[p].Got? || code[p].Acquiring?) ==> code[p].l !in held[p])
    && (forall p: nat :: p < |code| && code[p].Releasing? ==> code[p].l in held[p])
    && (forall l: nat :: l < |owner| && owner[l].Some? ==> Owns(code, held, owner[l].value, l))
  }

  ghost predicate Inv(s: Locks) {
    SW.Inv(s.base) && CodesOk(s) && CondOk(s) && OwnersOk(s.owner, s.code, s.held)
  }

  lemma KeepsCodes(s: Locks, a: Step)
    requires CodesOk(s) && CondOk(s) && Enabled(s, a)
    ensures CodesOk(Do(s, a))
  {
    SW.OneMoves(s.base, Under(s, a));
    CodeMoves(s, a);
    SameCodes(s, a);
    hide SW.Do; hide SW.Enabled; hide Do; hide Enabled; hide CodeOk; hide Under;
  }

  lemma SameCodes(s: Locks, a: Step)
    requires Sized(s) && Enabled(s, a)
    ensures |Do(s, a).code| == |s.code| && |Do(s, a).held| == |s.held| && forall p :: 0 <= p < |s.code| && p != Who(a) ==> Do(s, a).code[p] == s.code[p]
    ensures |Do(s, a).owner| == |s.owner|
    ensures Do(s, a).base == SW.Do(s.base, Under(s, a)) && Under(s, a).p == Who(a)
  {
    hide SW.Do; hide SW.Enabled;
  }

  /** The process that moves still fits its place in the lock code. */
  lemma CodeMoves(s: Locks, a: Step)
    requires CodesOk(s) && CondOk(s) && Enabled(s, a)
    ensures var p := Who(a); p < |Do(s, a).code| && p < |Do(s, a).base.procs| && CodeOk(Do(s, a).base.procs[p].pc, Do(s, a).code[p])
                             && (Do(s, a).code[p].Away? || Do(s, a).code[p].l < |s.owner|)
  {
    var p := Who(a);
    assert CodeOk(s.base.procs[p].pc, s.code[p]);
    hide CodesOk;
  }

  lemma KeepsCond(s: Locks, a: Step)
    requires CodesOk(s) && CondOk(s) && Enabled(s, a)
    ensures CondOk(Do(s, a))
  {
    assert CodeOk(s.base.procs[Who(a)].pc, s.code[Who(a)]);
  }

  lemma OwnersTake(owner: seq<Option<nat>>, code: seq<Code>, held: seq<set<nat>>, p: nat, l: nat)
    requires OwnersOk(owner, code, held) && p < |code| && l < |owner| && owner[l].None? && code[p] == Acquiring(l)
    ensures OwnersOk(owner[l := Some(p)], code[p := Got(l)], held)
  {
    var code' := code[p := Got(l)];
    assert !Owns(code, held, p, l);
    forall q: nat, x: nat
      ensures Owns(code', held, q, x) <==> Owns(code, held, q, x) || (q == p && x == l)
    {
    }
  }

  lemma OwnersLeave(owner: seq<Option<nat>>, code: seq<Code>, held: seq<set<nat>>, p: nat, l: nat)
    requires OwnersOk(owner, code, held) && p < |code| && code[p] == Got(l)
    ensures OwnersOk(owner, code[p := Away], held[p := held[p] + {l}])
  {
    var code', held' := code[p := Away], held[p := held[p] + {l}];
    forall q: nat, x: nat
      ensures Owns(code', held', q, x) <==> Owns(code, held, q, x)
    {
    }
  }

  lemma OwnersUnlock(owner: seq<Option<nat>>, code: seq<Code>, held: seq<set<nat>>, p: nat, l: nat)
    requires OwnersOk(owner, code, held) && p < |code| && code[p] == Releasing(l) && l < |owner|
    ensures OwnersOk(owner[l := None], code[p := Freed(l)], held[p := held[p] - {l}])
  {
    var code', held' := code[p := Freed(l)], held[p := held[p] - {l}];
    assert Owns(code, held, p, l);
    forall q: nat, x: nat
      ensures Owns(code', held', q, x) <==> Owns(code, held, q, x) && !(q == p && x == l)
    {
    }
    forall q: nat | q < |code| && q != p && code[q].Releasing?
      ensures code[q].l != l
    {
      assert Owns(code, held, q, code[q].l);
    }
  }

  lemma OwnersSame(owner: seq<Option<nat>>, code: seq<Code>, held: seq<set<nat>>, p: nat, c: Code)
    requires OwnersOk(owner, code, held) && p < |code| && !code[p].Got? && !c.Got? && (c.Releasing? ==> c.l in held[p]) && (c.Acquiring? ==> c.l !in held[p])
    ensures OwnersOk(owner, code[p := c], held)
  {
    var code' := code[p := c];
    forall q: nat, x: nat
      ensures Owns(code', held, q, x) <==> Owns(code, held, q, x)
    {
    }
  }

  lemma KeepsOwners(s: Locks, a: Step)
    requires OwnersOk(s.owner, s.code, s.held) && Enabled(s, a)
    ensures OwnersOk(Do(s, a).owner, Do(s, a).code, Do(s, a).held)
  {
    hide SW.Do; hide SW.Enabled; hide OwnersOk;
    match a {
      case CallAcquire(p, l) => OwnersSame(s.owner, s.code, s.held, p, Acquiring(l));
      case Test(p) =>
        if s.owner[s.code[p].l].None? {
          OwnersTake(s.owner, s.code, s.held, p, s.code[p].l);
        }
      case Leave(p) => OwnersLeave(s.owner, s.code, s.held, p, s.code[p].l);
      case CallRelease(p, l) => OwnersSame(s.owner, s.code, s.held, p, Releasing(l));
      case Unlock(p) => OwnersUnlock(s.owner, s.code, s.held, p, s.code[p].l);
      case CallWakeup(p) => OwnersSame(s.owner, s.code, s.held, p, Waking(s.code[p].l));
      case Done(p) => OwnersSame(s.owner, s.code, s.held, p, Away);
      case Inner(_) =>
    }
  }

  lemma StepKeeps(s: Locks, a: Step)
    requires Inv(s) && Enabled(s, a)
    ensures Inv(Do(s, a))
  {
    SW.StepKeeps(s.base, Under(s, a));
    KeepsCodes(s, a);
    KeepsCond(s, a);
    KeepsOwners(s, a);
    hide SW.Inv; hide CodesOk; hide CondOk; hide OwnersOk;
  }

  /** initsleeplock: all locks free, nobody holding any. */
  ghost predicate Init(s: Locks) {
    && Sized(s) && SW.Init(s.base) && CondOk(s)
    && (forall l :: 0 <= l < |s.owner| ==> s.owner[l].None?)
    && (forall p :: 0 <= p < |s.code| ==> s.code[p] == Away && s.held[p] == {})
  }

  ghost predicate Run(states: seq<Locks>, steps: seq<Step>) {
    && |states| == |steps| + 1 && Init(states[0])
    && forall i :: 0 <= i < |steps| ==> Enabled(states[i], steps[i]) && states[i + 1] == Do(states[i], steps[i])
  }

  lemma {:induction false} RunKeeps(states: seq<Locks>, steps: seq<Step>, i: nat)
    requires Run(states, steps) && i < |states|
    ensures Inv(states[i])
  {
    hide Do; hide Enabled;
    if i == 0 {
      SW.InitOk(states[0].base);
      hide SW.Inv;
    } else {
      RunKeeps(states, steps, i - 1);
      StepKeeps(states[i - 1], steps[i - 1]);
    }
  }

  /** A sleep-lock has at most one holder, and holdingsleep tells it. */
  lemma MutualExclusion(states: seq<Locks>, steps: seq<Step>, i: nat, p: nat, q: nat, l: nat)
    requires Run(states, steps) && i < |states| && p < |states[i].held| && q < |states[i].held|
    requires l in states[i].held[p] && l in states[i].held[q]
    ensures p == q && l < |states[i].owner| && states[i].owner[l] == Some(p)
  {
    RunKeeps(states, steps, i);
    hide Run;
    var s := states[i];
    assert Owns(s.code, s.held, p, l) && Owns(s.code, s.held, q, l);
  }

  /** lk->locked && lk->pid == p tells a process outside the lock code whether it holds lk. */
  lemma HoldingSleep(states: seq<Locks>, steps: seq<Step>, i: nat, p: nat, l: nat)
    requires Run(states, steps) && i < |states| && p < |states[i].held| && p < |states[i].code|
    requires l < |states[i].owner| && states[i].code[p].Away?
    ensures states[i].owner[l] == Some(p) <==> l in states[i].held[p]
  {
    RunKeeps(states, steps, i);
    hide Run;
    var s := states[i];
    assert Owns(s.code, s.held, p, l) <==> l in s.held[p];
  }

  ghost function Bases(states: seq<Locks>): seq<SW.State> {
    seq(|states|, i requires 0 <= i < |states| => states[i].base)
  }

  ghost function Actions(states: seq<Locks>, steps: seq<Step>): seq<SW.Action>
    requires |states| == |steps| + 1 && forall i :: 0 <= i < |steps| ==> Enabled(states[i], steps[i])
  {
    seq(|steps|, i requires 0 <= i < |steps| && Enabled(states[i], steps[i]) => Under(states[i], steps[i]))
  }

  /** A run of sleep-locks is a run of sleep and wakeup. */
  lemma BaseRun(states: seq<Locks>, steps: seq<Step>)
    requires Run(states, steps)
    ensures SW.Run(Bases(states), Actions(states, steps))
  {
    hide SW.Do; hide SW.Enabled; hide SW.Init;
  }

  /** No process sleeps for a free sleep-lock unless a wakeup is on its way. */
  lemma NoLostSleeper(states: seq<Locks>, steps: seq<Step>, i: nat, p: nat, l: nat)
    requires Run(states, steps) && i < |states| && p < |states[i].base.procs| && l < |states[i].owner|
    requires states[i].base.procs[p].asleep && states[i].base.procs[p].chan == Some(LockChan(l))
    requires states[i].owner[l].None?
    ensures SW.WakeupComing(states[i].base, LockChan(l), p)
  {
    RunKeeps(states, steps, i);
    BaseRun(states, steps);
    hide Run; hide SW.Run; hide SW.Inv;
    assert Bases(states)[i] == states[i].base;
    SW.NoLostWakeup(Bases(states), Actions(states, steps), i, p);
  }

  // ---------- No step is left ----------

  /** The loop of acquiresleep decides: with lk->lk held the test can be made, and it takes the
      lock exactly when it is free and goes to sleep on it otherwise. */
  lemma AcquireDecides(states: seq<Locks>, steps: seq<Step>, i: nat, p: nat)
    requires Run(states, steps) && i < |states| && p < |states[i].code| && p < |states[i].base.procs|
    requires states[i].code[p].Acquiring? && states[i].base.procs[p].pc.Holding?
    ensures states[i].code[p].l < |states[i].owner| && Enabled(states[i], Test(p))
    ensures var s, s', l := states[i], Do(states[i], Test(p)), states[i].code[p].l;
            if s.owner[l].None? then s'.owner == s.owner[l := Some(p)] && s'.code[p] == Got(l)
            else s'.owner == s.owner && p < |s'.base.procs| && s'.base.procs[p].pc == Locked(LockChan(l))
  {
    RunKeeps(states, steps, i);
    hide Run; hide SW.Inv; hide OwnersOk;
    assert CodeOk(states[i].base.procs[p].pc, states[i].code[p]);
  }

  /** Only new calls, and kills, are possible. */
  ghost predicate Idle(s: Locks) {
    forall a :: Enabled(s, a) ==> a.CallAcquire? || a.CallRelease? || (a.Inner? && a.a.Kill?)
  }

  /** In a run that cannot go on, everybody is outside the lock code or asleep for a lock that
      another process holds: nothing else ever stops an acquiresleep or a releasesleep. */
  lemma OnlyHoldersBlock(states: seq<Locks>, steps: seq<Step>, i: nat, p: nat)
    requires Run(states, steps) && i < |states| && p < |states[i].code| && Idle(states[i])
    ensures var s := states[i];
            || s.code[p].Away?
            || (s.code[p].Acquiring? && p < |s.base.procs| && s.base.procs[p].asleep
                && exists q: nat :: q < |s.held| && q != p && s.code[p].l in s.held[q])
  {
    RunKeeps(states, steps, i);
    var s := states[i];
    hide Run; hide SW.Inv; hide OwnersOk;
    IdleIsStill(s);
    forall q | 0 <= q < |s.base.procs|
      ensures !s.base.procs[q].pc.Holding?
    {
      IdleHoldsNothing(s, q);
    }
    SW.AllAtRest(s.base, p);
    assert CodeOk(s.base.procs[p].pc, s.code[p]);
    if s.code[p].Acquiring? {
      TakenIsHeld(s, s.code[p].l);
    }
  }

  lemma IdleIsStill(s: Locks)
    requires CodesOk(s) && Idle(s)
    ensures SW.Still(s.base)
  {
    forall a | InnerAction(a) && !a.Kill?
      ensures !SW.Enabled(s.base, a)
    {
      assert !Enabled(s, Inner(a));
    }
  }

  lemma IdleHoldsNothing(s: Locks, p: nat)
    requires CodesOk(s) && CondOk(s) && Idle(s) && p < |s.base.procs|
    ensures !s.base.procs[p].pc.Holding?
  {
    assert CodeOk(s.base.procs[p].pc, s.code[p]);
    assert !Enabled(s, Test(p)) && !Enabled(s, Leave(p)) && !Enabled(s, Unlock(p)) && !Enabled(s, CallWakeup(p)) && !Enabled(s, Done(p));
  }

  lemma TakenIsHeld(s: Locks, l: nat)
    requires CodesOk(s) && OwnersOk(s.owner, s.code, s.held) && l < |s.owner| && s.owner[l].Some?
    requires forall q :: 0 <= q < |s.base.procs| ==> !s.base.procs[q].pc.Holding?
    ensures exists q: nat :: q < |s.held| && l in s.held[q]
  {
    var q := s.owner[l].value;
    assert Owns(s.code, s.held, q, l);
    assert CodeOk(s.base.procs[q].pc, s.code[q]);
  }
}
