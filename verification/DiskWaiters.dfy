/** The waiting in virtio_disk_rw (kernel/virtio_disk.c) as a client of sleep and wakeup: for
    three free descriptors on &disk.free[0], and for the interrupt handler on the buffer.
    Every step under disk.vdisk_lock is one step of the machine in SleepWakeup. */
module DiskWaiters {
  import opened Basics
  import opened SW = SleepWakeup
  import VirtioQueue

  /** &disk.free[0]. */
  const FREE := Chan(0, 0)

  /** The channel of buffer b. */
  function Buf(b: nat): Chan { Chan(FREE.lock, 1 + b) }

  /** Where a process is in virtio_disk_rw(b), or an interrupt in virtio_disk_intr. */
  datatype Code =
    | Away
    | Trying(b: nat)                  // about to call alloc3_desc
    | Undoing(b: nat, k: nat)         // alloc3_desc has failed, k descriptors to give back
    | Dozing(b: nat)                  // in sleep(&disk.free[0])
    | Taken(b: nat)                   // has its three descriptors
    | Waiting(b: nat)                 // in the loop on b->disk
    | Freeing(k: nat)                 // in free_chain, k descriptors to free
    | Handling                        // in virtio_disk_intr's loop
    | Rousing(c: Chan, next: Code)    // about to call wakeup(c)
    | Waking(c: Chan, next: Code)     // in wakeup(c), or back from it

  /** `free` counts the set entries of disk.free, `busy` are the buffers with b->disk == 1;
      there are `bufs` buffers.  An interrupt is an entry of `base.procs` of its own. */
  datatype Disk = Disk(base: SW.State, bufs: nat, free: nat, busy: set<nat>, code: seq<Code>)

  datatype Step =
    | Call(p: nat, b: nat) | Alloc(p: nat) | GiveBack(p: nat) | Doze(p: nat) | Woken(p: nat)
    | Submit(p: nat) | Test(p: nat) | Free(p: nat) | Leave(p: nat)
    | Interrupt(p: nat) | Complete(p: nat, b: nat) | EndInterrupt(p: nat)
    | CallWakeup(p: nat) | Continue(p: nat)
    | Inner(a: SW.Action)      // a step inside sleep or wakeup, or a kill

  function Who(a: Step): nat {
    match a
    case Inner(b) => b.p
    case _ => a.p
  }

  /** Whether the step happens at this place in the code. */
  predicate Fits(s: Disk, a: Step, c: Code) {
    match a
    case Call(_, b) => c.Away? && b < s.bufs
    case Alloc(_) => c.Trying?
    case GiveBack(_) => c.Undoing? && c.k > 0
    case Doze(_) => c.Undoing? && c.k == 0
    case Woken(p) => c.Dozing? && p < |s.base.procs| && s.base.procs[p].pc.Holding?
    case Submit(_) => c.Taken?
    case Test(p) => c.Waiting? && p < |s.base.procs| && s.base.procs[p].pc.Holding?
    case Free(_) => c.Freeing? && c.k > 0
    case Leave(_) => c.Freeing? && c.k == 0
    case Interrupt(_) => c.Away?
    case Complete(_, b) => c.Handling? && b < s.bufs
    case EndInterrupt(_) => c.Handling?
    case CallWakeup(_) => c.Rousing?
    case Continue(p) => c.Waking? && p < |s.base.procs| && s.base.procs[p].pc.Holding?
    case Inner(b) => InnerAction(b)
  }

  function NextCode(s: Disk, a: Step, c: Code): Code
    requires Fits(s, a, c)
  {
    match a
    case Call(_, b) => Trying(b)
    case Alloc(_) => if s.free >= 3 then Taken(c.b) else Undoing(c.b, s.free)
    case GiveBack(_) => Rousing(FREE, Undoing(c.b, c.k - 1))
    case Doze(_) => Dozing(c.b)
    case Woken(_) => Trying(c.b)
    case Submit(_) => Waiting(c.b)
    case Test(_) => if c.b in s.busy then c else Freeing(3)
    case Free(_) => Rousing(FREE, Freeing(c.k - 1))
    case Leave(_) => Away
    case Interrupt(_) => Handling
    case Complete(_, b) => Rousing(Buf(b), Handling)
    case EndInterrupt(_) => Away
    case CallWakeup(_) => Waking(c.c, c.next)
    case Continue(_) => c.next
    case Inner(_) => c
  }

  function NextFree(s: Disk, a: Step): nat {
    match a
    case Alloc(_) => if s.free >= 3 then s.free - 3 else 0
    case GiveBack(_) => s.free + 1
    case Free(_) => s.free + 1
    case _ => s.free
  }

  function NextBusy(s: Disk, a: Step, c: Code): set<nat>
    requires Fits(s, a, c)
  {
    match a
    case Submit(_) => s.busy + {c.b}
    case Complete(_, b) => s.busy - {b}
    case _ => s.busy
  }

  /** The step of the underlying machine. */
  function Under(s: Disk, a: Step, c: Code): SW.Action
    requires Fits(s, a, c)
  {
    match a
    case Call(p, _) => SW.Acquire(p, FREE.lock)
    case Alloc(p) => SW.Change(p, FREE, NextFree(s, a) >= 3)
    case GiveBack(p) => SW.Change(p, FREE, NextFree(s, a) >= 3)
    case Doze(p) => SW.Sleep(p, FREE)
    case Woken(p) => SW.Change(p, FREE, s.free >= 3)
    case Submit(p) => SW.Change(p, Buf(c.b), false)
    case Test(p) => if c.b in s.busy then SW.Sleep(p, Buf(c.b)) else SW.Change(p, Buf(c.b), true)
    case Free(p) => SW.Change(p, FREE, NextFree(s, a) >= 3)
    case Leave(p) => SW.Release(p)
    case Interrupt(p) => SW.Acquire(p, FREE.lock)
    case Complete(p, b) => SW.Change(p, Buf(b), true)
    case EndInterrupt(p) => SW.Release(p)
    case CallWakeup(p) => SW.Wake(p, c.c)
    case Continue(p) => SW.Change(p, FREE, s.free >= 3)
    case Inner(b) => b
  }

  predicate Enabled(s: Disk, a: Step) {
    && |s.code| == |s.base.procs| && Who(a) < |s.code| && Fits(s, a, s.code[Who(a)])
    && SW.Enabled(s.base, Under(s, a, s.code[Who(a)]))
  }

  function Do(s: Disk, a: Step): Disk
    requires Enabled(s, a)
  {
    var c := s.code[Who(a)];
    Disk(SW.Do(s.base, Under(s, a, c)), s.bufs, NextFree(s, a), NextBusy(s, a, c), s.code[Who(a) := NextCode(s, a, c)])
  }

  // ---------- Invariant ----------

  /** Holding vdisk_lock, with no wakeup owed. */
  predicate AtRest(pc: Pc) {
    pc.Holding? && pc.k == FREE.lock && pc.owed == {}
  }

  predicate InSleep(pc: Pc, c: Chan) {
    AtRest(pc) || pc == Back(FREE.lock) || ((pc.Locked? || pc.Released? || pc.Down? || pc.Asleep? || pc.Up?) && pc.c == c)
  }

  predicate CodeOk(pc: Pc, code: Code, bufs: nat) {
    match code
    case Away => pc.Out?
    case Dozing(b) => b < bufs && InSleep(pc, FREE)
    case Waiting(b) => b < bufs && InSleep(pc, Buf(b))
    case Rousing(c, next) => Resumes(next, bufs) && c.lock == FREE.lock && pc.Holding? && pc.k == FREE.lock && pc.owed <= {c}
    case Waking(c, next) =>
      && Resumes(next, bufs) && c.lock == FREE.lock
      && (AtRest(pc) || (pc.Scanning? && pc.k == FREE.lock && pc.owed <= {c} && pc.c == c))
    case Trying(b) => b < bufs && AtRest(pc)
    case Undoing(b, _) => b < bufs && AtRest(pc)
    case Taken(b) => b < bufs && AtRest(pc)
    case Freeing(_) => AtRest(pc)
    case Handling => AtRest(pc)
  }

  /** What the code goes on with after wakeup. */
  predicate Resumes(code: Code, bufs: nat) {
    (code.Undoing? && code.b < bufs) || code.Freeing? || code.Handling?
  }

  /** The descriptors that a failed alloc3_desc has still to give back. */
  predicate Owes(code: Code, k: nat) {
    || (code.Undoing? && code.k == k)
    || ((code.Rousing? || code.Waking?) && code.next.Undoing? && code.next.k == k)
  }

  ghost predicate CodesOk(s: Disk) {
    |s.code| == |s.base.procs| && forall p :: 0 <= p < |s.code| ==> CodeOk(s.base.procs[p].pc, s.code[p], s.bufs)
  }

  ghost predicate CondOk(s: Disk) {
    && (FREE in s.base.cond <==> s.free >= 3)
    && (forall b: nat :: b < s.bufs ==> (Buf(b) in s.base.cond <==> b !in s.busy))
  }

  /** alloc3_desc fails only when fewer than three are free, and gives back what it took. */
  ghost predicate ShortOk(s: Disk) {
    forall p, k :: 0 <= p < |s.code| && Owes(s.code[p], k) ==> s.free + k < 3
  }

  /** The descriptors a process has at this place. */
  function Share(c: Code): nat {
    match c
    case Undoing(_, k) => k
    case Freeing(k) => k
    case Rousing(_, next) => Share(next)
    case Waking(_, next) => Share(next)
    case Taken(_) => 3
    case Waiting(_) => 3
    case _ => 0
  }

  function Shares(code: seq<Code>): nat {
    if code == [] then 0 else Shares(code[..|code| - 1]) + Share(code[|code| - 1])
  }

  /** Every descriptor is free or some process's. */
  ghost predicate SharesOk(s: Disk) {
    s.free + Shares(s.code) == VirtioQueue.NUM
  }

  ghost predicate Inv(s: Disk) {
    SW.Inv(s.base) && CodesOk(s) && CondOk(s) && ShortOk(s) && SharesOk(s)
  }

  /** The process that moves still fits its place in the code. */
  lemma CodeMoves(s: Disk, a: Step)
    requires CodesOk(s) && CondOk(s) && Enabled(s, a)
    ensures var p := Who(a); p < |Do(s, a).base.procs| && CodeOk(Do(s, a).base.procs[p].pc, Do(s, a).code[p], s.bufs)
  {
    hide SW.Do; hide SW.Enabled; hide CodeOk;
    if a.Inner? {
      InnerMoves(s, a.a);
    } else {
      OuterMoves(s, a);
    }
  }

  lemma OuterMoves(s: Disk, a: Step)
    requires Enabled(s, a) && !a.Inner? && CodeOk(s.base.procs[Who(a)].pc, s.code[Who(a)], s.bufs) && CondOk(s)
    ensures var p := Who(a); p < |Do(s, a).base.procs| && CodeOk(Do(s, a).base.procs[p].pc, Do(s, a).code[p], s.bufs)
  {
    UnderWho(s, a);
    SW.ClientMoves(s.base, Under(s, a, s.code[Who(a)]));
    hide SW.Do; hide SW.Enabled;
  }

  lemma InnerMoves(s: Disk, b: SW.Action)
    requires Enabled(s, Inner(b)) && CodeOk(s.base.procs[b.p].pc, s.code[b.p], s.bufs)
    ensures b.p < |SW.Do(s.base, b).procs| && CodeOk(SW.Do(s.base, b).procs[b.p].pc, s.code[b.p], s.bufs)
  {
  }

  lemma UnderWho(s: Disk, a: Step)
    requires Enabled(s, a)
    ensures Under(s, a, s.code[Who(a)]).p == Who(a)
  {
    hide SW.Enabled;
  }

  lemma KeepsCodes(s: Disk, a: Step)
    requires CodesOk(s) && CondOk(s) && Enabled(s, a)
    ensures CodesOk(Do(s, a))
  {
    SW.OneMoves(s.base, Under(s, a, s.code[Who(a)]));
    CodeMoves(s, a);
    UnderWho(s, a);
    hide SW.Do; hide SW.Enabled; hide CodeOk; hide Under; hide CondOk; hide NextCode; hide Fits;
    hide NextFree; hide NextBusy;
  }

  lemma KeepsCond(s: Disk, a: Step)
    requires CodesOk(s) && CondOk(s) && Enabled(s, a)
    ensures CondOk(Do(s, a))
  {
    var c := s.code[Who(a)];
    assert CodeOk(s.base.procs[Who(a)].pc, c, s.bufs);
    hide CodesOk; hide NextCode;
    assert forall b: nat, d: nat :: Buf(b) == Buf(d) ==> b == d;
  }

  /** Only the holder of vdisk_lock changes the count. */
  lemma CountMoves(s: Disk, a: Step)
    requires CodesOk(s) && Enabled(s, a) && NextFree(s, a) != s.free
    ensures var p := Who(a); SW.Holds(s.base.procs[p].pc, FREE.lock)
  {
    assert CodeOk(s.base.procs[Who(a)].pc, s.code[Who(a)], s.bufs);
    hide CodesOk;
  }

  lemma OwerHolds(s: Disk, p: nat, k: nat)
    requires CodesOk(s) && p < |s.code| && Owes(s.code[p], k)
    ensures p < |s.base.procs| && SW.Holds(s.base.procs[p].pc, FREE.lock)
  {
    assert CodeOk(s.base.procs[p].pc, s.code[p], s.bufs);
    hide CodesOk;
  }

  lemma KeepsShort(s: Disk, a: Step)
    requires Inv(s) && Enabled(s, a)
    ensures ShortOk(Do(s, a))
  {
    var p := Who(a);
    var s' := Do(s, a);
    forall q, k | 0 <= q < |s'.code| && Owes(s'.code[q], k)
      ensures s'.free + k < 3
    {
      if q == p {
        OwesNext(s, a, k);
      } else {
        assert Owes(s.code[q], k);
        if s'.free != s.free {
          CountMoves(s, a);
          OwerHolds(s, q, k);
          SW.OneHolder(s.base, p, q, FREE.lock);
        }
      }
    }
  }

  lemma OwesNext(s: Disk, a: Step, k: nat)
    requires CodesOk(s) && ShortOk(s) && Enabled(s, a) && Owes(NextCode(s, a, s.code[Who(a)]), k)
    ensures NextFree(s, a) + k < 3
  {
    var c := s.code[Who(a)];
    assert CodeOk(s.base.procs[Who(a)].pc, c, s.bufs);
    assert a.GiveBack? ==> Owes(c, k + 1);
    assert !a.GiveBack? && !a.Alloc? ==> Owes(c, k);
    hide ShortOk; hide CodesOk; hide SW.Enabled;
  }

  lemma {:induction false} SharesUpdate(code: seq<Code>, p: nat, c: Code)
    requires p < |code|
    ensures Shares(code[p := c]) == Shares(code) - Share(code[p]) + Share(c)
  {
    var last := |code| - 1;
    if p == last {
      assert code[p := c][..last] == code[..last];
    } else {
      assert code[p := c][..last] == code[..last][p := c];
      SharesUpdate(code[..last], p, c);
    }
  }

  lemma {:induction false} SharesSome(code: seq<Code>)
    ensures Shares(code) > 0 ==> exists p :: 0 <= p < |code| && Share(code[p]) > 0
    ensures (forall p :: 0 <= p < |code| ==> Share(code[p]) == 0) ==> Shares(code) == 0
  {
    if code != [] {
      var last := |code| - 1;
      SharesSome(code[..last]);
      if Share(code[last]) == 0 && Shares(code) > 0 {
        var p :| 0 <= p < last && Share(code[..last][p]) > 0;
        assert Share(code[p]) > 0;
      }
    }
  }

  lemma KeepsShares(s: Disk, a: Step)
    requires SharesOk(s) && Enabled(s, a)
    ensures SharesOk(Do(s, a))
  {
    hide SW.Do; hide SW.Enabled; hide Under; hide Shares;
    SharesUpdate(s.code, Who(a), NextCode(s, a, s.code[Who(a)]));
  }

  lemma StepKeeps(s: Disk, a: Step)
    requires Inv(s) && Enabled(s, a)
    ensures Inv(Do(s, a))
  {
    KeepsShares(s, a);
    SW.StepKeeps(s.base, Under(s, a, s.code[Who(a)]));
    KeepsCodes(s, a);
    KeepsCond(s, a);
    KeepsShort(s, a);
    hide SW.Inv; hide SW.Do; hide SW.Enabled; hide CodesOk; hide CondOk; hide ShortOk; hide Under;
    hide NextCode; hide Fits; hide SharesOk;
  }

  // ---------- Every run ----------

  /** virtio_disk_init: nobody in the driver, all descriptors free. */
  ghost predicate Init(s: Disk) {
    SW.Init(s.base) && s.free == VirtioQueue.NUM && |s.code| == |s.base.procs| && CondOk(s) && forall p :: 0 <= p < |s.code| ==> s.code[p] == Away
  }

  ghost predicate Run(states: seq<Disk>, steps: seq<Step>) {
    && |states| == |steps| + 1 && Init(states[0])
    && forall i :: 0 <= i < |steps| ==> Enabled(states[i], steps[i]) && states[i + 1] == Do(states[i], steps[i])
  }

  lemma InitOk(s: Disk)
    requires Init(s)
    ensures Inv(s)
  {
    SW.InitOk(s.base);
    SharesSome(s.code);
    hide SW.Inv; hide CondOk;
  }

  lemma {:induction false} RunOk(states: seq<Disk>, steps: seq<Step>, i: nat)
    requires Run(states, steps) && i < |states|
    ensures Inv(states[i])
  {
    hide Do; hide Enabled; hide Inv; hide Init;
    if i == 0 {
      InitOk(states[0]);
    } else {
      RunOk(states, steps, i - 1);
      StepKeeps(states[i - 1], steps[i - 1]);
    }
  }

  /** A process sleeps for descriptors while three are free, or for a buffer that the device
      is done with, only when a wakeup that has not passed it is coming. */
  lemma NoLostRequest(states: seq<Disk>, steps: seq<Step>, i: nat, p: nat, c: Chan)
    requires Run(states, steps) && i < |states| && p < |states[i].base.procs|
    requires states[i].base.procs[p].asleep && states[i].base.procs[p].chan == Some(c)
    requires (c == FREE && states[i].free >= 3) || exists b: nat :: b < states[i].bufs && b !in states[i].busy && c == Buf(b)
    ensures SW.WakeupComing(states[i].base, c, p)
  {
    RunOk(states, steps, i);
    hide Run; hide CodesOk; hide ShortOk; hide SW.Inv;
    SW.WakeupIsComing(states[i].base, p);
  }

  /** When alloc3_desc has failed and given back what it took, fewer than three descriptors
      are free, so that the call of sleep is right. */
  lemma FailedIsShort(states: seq<Disk>, steps: seq<Step>, i: nat, p: nat)
    requires Run(states, steps) && i < |states| && p < |states[i].code| && states[i].code[p].Undoing?
    requires states[i].code[p].k == 0
    ensures Enabled(states[i], Doze(p))
  {
    RunOk(states, steps, i);
    hide Run; hide SW.Inv;
    var s := states[i];
    assert Owes(s.code[p], 0);
    assert CodeOk(s.base.procs[p].pc, s.code[p], s.bufs);
  }

  // ---------- No step is left ----------

  /** Only new calls, interrupts and kills are possible. */
  ghost predicate Idle(s: Disk) {
    forall a :: Enabled(s, a) ==> a.Call? || a.Interrupt? || (a.Inner? && a.a.Kill?)
  }

  /** Asleep for the device to finish with b. */
  predicate WithDevice(s: Disk, p: nat, b: nat) {
    p < |s.code| && p < |s.base.procs| && s.code[p] == Waiting(b) && s.base.procs[p].asleep && b in s.busy
  }

  /** In a run that cannot go on, everybody is outside the driver, or waits for a buffer that the
      device has, or sleeps for descriptors while the device has somebody's buffer: nothing
      but the device keeps a call of virtio_disk_rw from returning. */
  lemma OnlyDeviceBlocks(states: seq<Disk>, steps: seq<Step>, i: nat, p: nat)
    requires Run(states, steps) && i < |states| && p < |states[i].code| && Idle(states[i])
    ensures var s := states[i];
            || s.code[p].Away?
            || (s.code[p].Waiting? && WithDevice(s, p, s.code[p].b))
            || (s.code[p].Dozing? && p < |s.base.procs| && s.base.procs[p].asleep && s.free < 3
                && exists q: nat, b: nat :: WithDevice(s, q, b))
  {
    RunOk(states, steps, i);
    var s := states[i];
    hide Run; hide SW.Inv; hide SharesOk; hide ShortOk;
    IdleIsStill(s);
    forall q: nat | q < |s.base.procs|
      ensures !s.base.procs[q].pc.Holding?
    {
      IdleHoldsNothing(s, q);
    }
    forall q: nat | q < |s.base.procs|
      ensures Rests(s, q)
    {
      SW.AllAtRest(s.base, q);
      assert CodeOk(s.base.procs[q].pc, s.code[q], s.bufs);
    }
    hide CodesOk; hide CondOk;
    assert Rests(s, p);
    if s.code[p].Dozing? {
      SomeRequest(s);
    }
  }

  predicate Rests(s: Disk, p: nat) {
    p < |s.code| && p < |s.base.procs| &&
    (s.code[p].Away? || (s.code[p].Waiting? && WithDevice(s, p, s.code[p].b))
     || (s.code[p].Dozing? && s.base.procs[p].asleep && s.free < 3))
  }

  lemma IdleIsStill(s: Disk)
    requires CodesOk(s) && Idle(s)
    ensures SW.Still(s.base)
  {
    forall a | InnerAction(a) && !a.Kill?
      ensures !SW.Enabled(s.base, a)
    {
      assert !Enabled(s, Inner(a));
    }
  }

  lemma IdleHoldsNothing(s: Disk, p: nat)
    requires CodesOk(s) && CondOk(s) && ShortOk(s) && Idle(s) && p < |s.base.procs|
    ensures !s.base.procs[p].pc.Holding?
  {
    hide SW.Enabled; hide Enabled; hide CondOk;
    assert CodeOk(s.base.procs[p].pc, s.code[p], s.bufs);
    assert s.code[p].Undoing? ==> Owes(s.code[p], s.code[p].k);
    if s.base.procs[p].pc.Holding? {
      TurnEnabled(s, p);
    }
  }

  /** What a process that holds vdisk_lock does next. */
  function Turn(c: Code, p: nat): Step {
    match c
    case Undoing(_, k) => if k > 0 then GiveBack(p) else Doze(p)
    case Dozing(_) => Woken(p)
    case Taken(_) => Submit(p)
    case Waiting(_) => Test(p)
    case Freeing(k) => if k > 0 then Free(p) else Leave(p)
    case Handling => EndInterrupt(p)
    case Rousing(_, _) => CallWakeup(p)
    case Waking(_, _) => Continue(p)
    case _ => Alloc(p)
  }

  lemma TurnEnabled(s: Disk, p: nat)
    requires |s.code| == |s.base.procs| && p < |s.code| && s.base.procs[p].pc.Holding?
    requires CodeOk(s.base.procs[p].pc, s.code[p], s.bufs) && CondOk(s)
    requires s.code[p].Undoing? && s.code[p].k == 0 ==> s.free < 3
    ensures Enabled(s, Turn(s.code[p], p))
  {
  }

  lemma SomeRequest(s: Disk)
    requires SharesOk(s) && s.free < 3 && forall q: nat :: q < |s.code| ==> Rests(s, q)
    ensures exists q: nat, b: nat :: WithDevice(s, q, b)
  {
    SharesSome(s.code);
    var q: nat :| q < |s.code| && Share(s.code[q]) > 0;
    assert Rests(s, q);
    assert WithDevice(s, q, s.code[q].b);
  }
}
