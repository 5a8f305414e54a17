/** The waiting in begin_op (kernel/log.c) as a client of sleep and wakeup: each step of
    begin_op, log_write and end_op under log.lock is one step of the machine in SleepWakeup. */
module LogWaiters {
  import opened Basics
  import opened SW = SleepWakeup
  import LogCode

  /** &log, guarded by log.lock. */
  const LOG := Chan(0, 0)

  /** Where a process is in log.c. */
  datatype Code =
    | Away(inOp: bool)
    | Beginning          // in begin_op's loop
    | Began              // outstanding raised, about to release log.lock
    | Logging            // in log_write, log.lock held
    | Logged             // about to release log.lock
    | Ending             // in end_op, log.lock held
    | Last               // committing set, about to release log.lock
    | Committing         // in commit, without log.lock
    | Finishing          // log.lock held again
    | Rousing            // about to call wakeup(&log)
    | Waking             // in wakeup, or about to release log.lock

  datatype Log = Log(base: SW.State, committing: bool, n: nat, outstanding: int, code: seq<Code>)

  datatype Step =
    | CallBegin(p: nat) | TryBegin(p: nat) | LeaveBegin(p: nat)
    | CallLog(p: nat) | PutLog(p: nat, novel: bool) | LeaveLog(p: nat)
    | CallEnd(p: nat) | Drop(p: nat) | LeaveLast(p: nat) | Return(p: nat) | Finish(p: nat)
    | CallWakeup(p: nat) | Done(p: nat)
    | Inner(a: SW.Action)      // a step inside sleep or wakeup, or a kill

  /** The log lets another operation begin. */
  predicate Admitting(s: Log) {
    LogCode.Admits(s.committing, s.n, s.outstanding)
  }

  function Who(a: Step): nat {
    match a
    case Inner(b) => b.p
    case _ => a.p
  }

  /** The log's own variables after the step. */
  function Update(s: Log, a: Step): Log {
    match a
    case TryBegin(_) => if Admitting(s) then s.(outstanding := s.outstanding + 1) else s
    case PutLog(_, novel) => if novel then s.(n := s.n + 1) else s
    case Drop(_) =>
      var t := s.(outstanding := s.outstanding - 1);
      if t.outstanding == 0 then t.(committing := true) else t
    case Return(_) => s.(n := 0)
    case Finish(_) => s.(committing := false)
    case _ => s
  }

  function NextCode(s: Log, a: Step, c: Code): Code {
    match a
    case CallBegin(_) => Beginning
    case TryBegin(_) => if Admitting(s) then Began else c
    case LeaveBegin(_) => Away(true)
    case CallLog(_) => Logging
    case PutLog(_, _) => Logged
    case LeaveLog(_) => Away(true)
    case CallEnd(_) => Ending
    case Drop(_) => if s.outstanding == 1 then Last else Rousing
    case LeaveLast(_) => Committing
    case Return(_) => Finishing
    case Finish(_) => Rousing
    case CallWakeup(_) => Waking
    case Done(_) => Away(false)
    case Inner(_) => c
  }

  /** The step of the underlying machine. */
  function Under(s: Log, a: Step): SW.Action {
    match a
    case CallBegin(p) => SW.Acquire(p, LOG.lock)
    case TryBegin(p) => if Admitting(s) then SW.Change(p, LOG, Admitting(Update(s, a))) else SW.Sleep(p, LOG)
    case LeaveBegin(p) => SW.Release(p)
    case CallLog(p) => SW.Acquire(p, LOG.lock)
    case PutLog(p, _) => SW.Change(p, LOG, Admitting(Update(s, a)))
    case LeaveLog(p) => SW.Release(p)
    case CallEnd(p) => SW.Acquire(p, LOG.lock)
    case Drop(p) => SW.Change(p, LOG, Admitting(Update(s, a)))
    case LeaveLast(p) => SW.Release(p)
    case Return(p) => SW.Acquire(p, LOG.lock)
    case Finish(p) => SW.Change(p, LOG, Admitting(Update(s, a)))
    case CallWakeup(p) => SW.Wake(p, LOG)
    case Done(p) => SW.Release(p)
    case Inner(b) => b
  }

  /** end_op panics when it meets a commit; OnlyOperationsBlock shows that it never does. */
  predicate Enabled(s: Log, a: Step) {
    && |s.code| == |s.base.procs| && Who(a) < |s.code| && SW.Enabled(s.base, Under(s, a))
    && var c := s.code[Who(a)];
       match a
       case CallBegin(_) => c == Away(false)
       case TryBegin(p) => c == Beginning && s.base.procs[p].pc.Holding?
       case LeaveBegin(_) => c == Began
       case CallLog(_) => c == Away(true)
       case PutLog(_, _) => c == Logging
       case LeaveLog(_) => c == Logged
       case CallEnd(_) => c == Away(true)
       case Drop(_) => c == Ending && !s.committing
       case LeaveLast(_) => c == Last
       case Return(_) => c == Committing
       case Finish(_) => c == Finishing
       case CallWakeup(_) => c == Rousing
       case Done(_) => c == Waking
       case Inner(b) => InnerAction(b)
  }

  function Do(s: Log, a: Step): Log
    requires Enabled(s, a)
  {
    Update(s, a).(base := SW.Do(s.base, Under(s, a)), code := s.code[Who(a) := NextCode(s, a, s.code[Who(a)])])
  }

  // ---------- Invariant ----------

  predicate CodeOk(pc: Pc, code: Code) {
    match code
    case Away(_) => pc.Out?
    case Committing => pc.Out?
    case Beginning =>
      || pc == Holding(LOG.lock, {}, {}) || pc == Back(LOG.lock)
      || ((pc.Locked? || pc.Released? || pc.Down? || pc.Asleep? || pc.Up?) && pc.c == LOG)
    case Rousing => pc.Holding? && pc.k == LOG.lock && pc.waked == {} && pc.owed <= {LOG}
    case Waking =>
      || (pc.Scanning? && pc.k == LOG.lock && pc.waked == {} && pc.owed <= {LOG} && pc.c == LOG)
      || pc == Holding(LOG.lock, {LOG}, {})
    case _ => pc == Holding(LOG.lock, {}, {})
  }

  predicate Commits(c: Code) { c.Last? || c.Committing? || c.Finishing? }

  /** Between begin_op and the last lines of end_op. */
  predicate InOp(c: Code) { c == Away(true) || c.Began? || c.Logging? || c.Logged? || c.Ending? }

  function Ops(code: seq<Code>): (n: nat) {
    if code == [] then 0 else Ops(code[..|code| - 1]) + if InOp(code[|code| - 1]) then 1 else 0
  }

  /** outstanding counts the operations, none is active during a commit, and what they logged is
      gone after it. */
  ghost predicate CountsOk(s: Log) {
    && s.outstanding == Ops(s.code)
    && (s.committing ==> s.outstanding == 0 && exists p :: 0 <= p < |s.code| && Commits(s.code[p]))
    && (s.outstanding == 0 && s.n > 0 ==> exists p :: 0 <= p < |s.code| && (s.code[p].Last? || s.code[p].Committing?))
  }

  ghost predicate Inv(s: Log) {
    && SW.Inv(s.base) && CountsOk(s) && |s.code| == |s.base.procs|
    && (forall p :: 0 <= p < |s.code| ==> CodeOk(s.base.procs[p].pc, s.code[p]))
    && (LOG in s.base.cond <==> Admitting(s))
    && (forall p :: 0 <= p < |s.code| && Commits(s.code[p]) ==> s.committing)
    && (forall p, q :: 0 <= p < q < |s.code| && Commits(s.code[p]) ==> !Commits(s.code[q]))
  }

  /** The process that moves still fits its place in the code. */
  lemma CodeMoves(s: Log, a: Step)
    requires Inv(s) && Enabled(s, a)
    ensures var p := Who(a); p < |Do(s, a).base.procs| && CodeOk(Do(s, a).base.procs[p].pc, Do(s, a).code[p])
  {
    hide SW.Inv; hide SW.Do; hide SW.Enabled; hide CodeOk;
    if a.Inner? {
      InnerMoves(s, a.a);
    } else {
      OuterMoves(s, a);
    }
  }

  lemma OuterMoves(s: Log, a: Step)
    requires Enabled(s, a) && !a.Inner? && CodeOk(s.base.procs[Who(a)].pc, s.code[Who(a)])
    requires LOG in s.base.cond <==> Admitting(s)
    ensures var p := Who(a); p < |Do(s, a).base.procs| && CodeOk(Do(s, a).base.procs[p].pc, Do(s, a).code[p])
  {
    UnderWho(s, a);
    SW.ClientMoves(s.base, Under(s, a));
    Tightens(s, a);
    hide SW.Do; hide SW.Enabled; hide Admitting; hide Update;
  }

  /** Only the end of an operation or of a commit can let others begin. */
  lemma Tightens(s: Log, a: Step)
    ensures a.TryBegin? || a.PutLog? ==> Admitting(Update(s, a)) ==> Admitting(s)
    ensures a.Drop? && s.outstanding == 1 ==> !Admitting(Update(s, a))
  {
  }

  lemma InnerMoves(s: Log, b: SW.Action)
    requires Enabled(s, Inner(b)) && CodeOk(s.base.procs[b.p].pc, s.code[b.p])
    ensures b.p < |SW.Do(s.base, b).procs| && CodeOk(SW.Do(s.base, b).procs[b.p].pc, s.code[b.p])
  {
    hide LogCode.Admits;
  }

  lemma KeepsCodes(s: Log, a: Step)
    requires Inv(s) && Enabled(s, a)
    ensures |Do(s, a).code| == |Do(s, a).base.procs|
    ensures forall p :: 0 <= p < |s.code| ==> CodeOk(Do(s, a).base.procs[p].pc, Do(s, a).code[p])
  {
    SW.OneMoves(s.base, Under(s, a));
    CodeMoves(s, a);
    UnderWho(s, a);
    hide SW.Do; hide SW.Enabled; hide Enabled; hide CodeOk; hide Under; hide SW.Inv;
  }

  lemma UnderWho(s: Log, a: Step)
    ensures Under(s, a).p == Who(a)
  {
  }

  /** The condition of the channel is the log's. */
  lemma KeepsCond(s: Log, a: Step)
    requires Inv(s) && Enabled(s, a)
    ensures LOG in Do(s, a).base.cond <==> Admitting(Do(s, a))
  {
    assert Commits(s.code[Who(a)]) ==> s.committing;
    hide Inv; hide SW.Inv;
  }

  lemma KeepsCommitter(s: Log, a: Step)
    requires Inv(s) && Enabled(s, a)
    ensures forall p :: 0 <= p < |s.code| && Commits(Do(s, a).code[p]) ==> Do(s, a).committing
    ensures forall p, q :: 0 <= p < q < |s.code| && Commits(Do(s, a).code[p]) ==> !Commits(Do(s, a).code[q])
  {
    hide SW.Inv; hide SW.Do; hide SW.Enabled; hide CodeOk;
  }

  lemma {:induction false} OpsUpdate(code: seq<Code>, p: nat, c: Code)
    requires p < |code|
    ensures Ops(code[p := c]) == Ops(code) - (if InOp(code[p]) then 1 else 0) + if InOp(c) then 1 else 0
  {
    var last := |code| - 1;
    if p == last {
      assert code[p := c][..last] == code[..last];
    } else {
      assert code[p := c][..last] == code[..last][p := c];
      OpsUpdate(code[..last], p, c);
    }
  }

  lemma {:induction false} OpsSome(code: seq<Code>)
    ensures Ops(code) > 0 <==> exists p :: 0 <= p < |code| && InOp(code[p])
  {
    if code != [] {
      var last := |code| - 1;
      OpsSome(code[..last]);
      if InOp(code[last]) {
        assert 0 <= last < |code|;
      } else if Ops(code) > 0 {
        var p :| 0 <= p < last && InOp(code[..last][p]);
        assert InOp(code[p]);
      }
    }
  }

  lemma KeepsCounts(s: Log, a: Step)
    requires Inv(s) && Enabled(s, a)
    ensures CountsOk(Do(s, a))
  {
    hide SW.Inv; hide SW.Do; hide SW.Enabled; hide CodeOk; hide Ops; hide Under;
    var p, s' := Who(a), Do(s, a);
    OpsUpdate(s.code, p, NextCode(s, a, s.code[p]));
    OpsSome(s.code);
    OpsSome(s'.code);
    assert s'.code[p] == NextCode(s, a, s.code[p]);
    assert forall q :: 0 <= q < |s.code| && q != p ==> s'.code[q] == s.code[q];
  }

  lemma StepKeeps(s: Log, a: Step)
    requires Inv(s) && Enabled(s, a)
    ensures Inv(Do(s, a))
  {
    KeepsCounts(s, a);
    SW.StepKeeps(s.base, Under(s, a));
    KeepsCodes(s, a);
    KeepsCond(s, a);
    KeepsCommitter(s, a);
    hide SW.Inv; hide SW.Do; hide SW.Enabled; hide CodeOk; hide Under; hide Admitting; hide Commits; hide CountsOk;
  }

  // ---------- Every run ----------

  ghost predicate Init(s: Log) {
    && |s.code| == |s.base.procs| && SW.Init(s.base) && (LOG in s.base.cond <==> Admitting(s))
    && !s.committing && s.n == 0 && s.outstanding == 0 && forall p :: 0 <= p < |s.code| ==> s.code[p] == Away(false)
  }

  ghost predicate Run(states: seq<Log>, steps: seq<Step>) {
    && |states| == |steps| + 1 && Init(states[0])
    && forall i :: 0 <= i < |steps| ==> Enabled(states[i], steps[i]) && states[i + 1] == Do(states[i], steps[i])
  }

  lemma InitOk(s: Log)
    requires Init(s)
    ensures Inv(s)
  {
    SW.InitOk(s.base);
    OpsSome(s.code);
    hide SW.Inv;
  }

  lemma {:induction false} RunOk(states: seq<Log>, steps: seq<Step>, i: nat)
    requires Run(states, steps) && i < |states|
    ensures Inv(states[i])
  {
    hide Do; hide Enabled; hide Inv; hide Init;
    if i == 0 {
      InitOk(states[0]);
    } else {
      RunOk(states, steps, i - 1);
      StepKeeps(states[i - 1], steps[i - 1]);
    }
  }

  /** No process sleeps in begin_op while the log would admit it, unless a wakeup that has not
      passed it is coming. */
  lemma NoLostBegin(states: seq<Log>, steps: seq<Step>, i: nat, p: nat)
    requires Run(states, steps) && i < |states| && p < |states[i].base.procs|
    requires states[i].base.procs[p].asleep && states[i].base.procs[p].chan == Some(LOG) && Admitting(states[i])
    ensures SW.WakeupComing(states[i].base, LOG, p)
  {
    RunOk(states, steps, i);
    hide Run; hide CodeOk;
    SW.WakeupIsComing(states[i].base, p);
  }

  /** So while nobody holds log.lock, whoever sleeps in begin_op has to. */
  lemma BeginnersWait(states: seq<Log>, steps: seq<Step>, i: nat, p: nat)
    requires Run(states, steps) && i < |states| && p < |states[i].base.procs| && LOG.lock !in states[i].base.spin
    requires states[i].base.procs[p].asleep && states[i].base.procs[p].chan == Some(LOG)
    ensures !Admitting(states[i])
  {
    RunOk(states, steps, i);
    if Admitting(states[i]) {
      NoLostBegin(states, steps, i, p);
      hide Run; hide CodeOk;
    }
  }

  // ---------- No step is left ----------

  /** begin_op's loop decides: with log.lock held the test can be made, and it reserves the space
      exactly when the log admits the operation and goes to sleep otherwise. */
  lemma BeginDecides(states: seq<Log>, steps: seq<Step>, i: nat, p: nat)
    requires Run(states, steps) && i < |states| && p < |states[i].code| && p < |states[i].base.procs|
    requires states[i].code[p].Beginning? && states[i].base.procs[p].pc.Holding?
    ensures Enabled(states[i], TryBegin(p))
    ensures var s, s' := states[i], Do(states[i], TryBegin(p));
            if Admitting(s) then s'.outstanding == s.outstanding + 1 && s'.code[p] == Began
            else s'.outstanding == s.outstanding && p < |s'.base.procs| && s'.base.procs[p].pc == Locked(LOG)
  {
    RunOk(states, steps, i);
    hide Run; hide SW.Inv; hide CountsOk;
    assert CodeOk(states[i].base.procs[p].pc, states[i].code[p]);
  }

  /** Only new calls, and kills, are possible. */
  ghost predicate Idle(s: Log) {
    forall a :: Enabled(s, a) ==> a.CallBegin? || a.CallLog? || a.CallEnd? || (a.Inner? && a.a.Kill?)
  }

  /** In a run that cannot go on, everybody is outside log.c or asleep in begin_op, and then some
      operation has yet to call end_op: nothing else keeps an operation from beginning, and
      end_op never meets a commit. */
  lemma OnlyOperationsBlock(states: seq<Log>, steps: seq<Step>, i: nat, p: nat)
    requires Run(states, steps) && i < |states| && p < |states[i].code| && Idle(states[i])
    ensures var s := states[i];
            || s.code[p].Away?
            || (s.code[p].Beginning? && p < |s.base.procs| && s.base.procs[p].asleep && !Admitting(s)
                && exists q: nat :: q < |s.code| && s.code[q] == Away(true))
  {
    RunOk(states, steps, i);
    var s := states[i];
    hide Run; hide SW.Inv; hide CountsOk; hide Admitting;
    IdleIsStill(s);
    forall q: nat | q < |s.base.procs|
      ensures !s.base.procs[q].pc.Holding?
    {
      IdleHoldsNothing(s, q);
    }
    forall q: nat | q < |s.base.procs|
      ensures s.code[q].Away? || (s.code[q].Beginning? && s.base.procs[q].asleep && !Admitting(s))
    {
      SW.AllAtRest(s.base, q);
      IdleCommitsNothing(s, q);
      assert CodeOk(s.base.procs[q].pc, s.code[q]);
    }
    if s.code[p].Beginning? {
      SomeOperation(s);
    }
  }

  lemma IdleIsStill(s: Log)
    requires Inv(s) && Idle(s)
    ensures SW.Still(s.base)
  {
    hide SW.Inv; hide CountsOk;
    forall a | InnerAction(a) && !a.Kill?
      ensures !SW.Enabled(s.base, a)
    {
      assert !Enabled(s, Inner(a));
    }
  }

  lemma IdleHoldsNothing(s: Log, p: nat)
    requires Inv(s) && Idle(s) && p < |s.base.procs|
    ensures !s.base.procs[p].pc.Holding?
  {
    hide SW.Inv; hide SW.Enabled; hide Enabled; hide Admitting;
    assert CodeOk(s.base.procs[p].pc, s.code[p]);
    OpsSome(s.code);
    hide Ops;
    if s.base.procs[p].pc.Holding? {
      TurnEnabled(s, p);
    }
  }

  /** What a process that holds log.lock does next. */
  function Turn(c: Code, p: nat): Step {
    match c
    case Began => LeaveBegin(p)
    case Logging => PutLog(p, false)
    case Logged => LeaveLog(p)
    case Ending => Drop(p)
    case Last => LeaveLast(p)
    case Finishing => Finish(p)
    case Rousing => CallWakeup(p)
    case Waking => Done(p)
    case _ => TryBegin(p)
  }

  lemma TurnEnabled(s: Log, p: nat)
    requires |s.code| == |s.base.procs| && p < |s.code| && s.base.procs[p].pc.Holding?
    requires CodeOk(s.base.procs[p].pc, s.code[p]) && (LOG in s.base.cond <==> Admitting(s))
    requires s.code[p].Ending? ==> !s.committing
    ensures Enabled(s, Turn(s.code[p], p))
  {
    hide Admitting;
  }

  lemma IdleCommitsNothing(s: Log, p: nat)
    requires Inv(s) && Idle(s) && p < |s.code| && forall q :: 0 <= q < |s.base.procs| ==> !s.base.procs[q].pc.Holding?
    ensures !s.code[p].Committing?
  {
    hide CountsOk; hide SW.ProcOk; hide SW.NotLost; hide SW.Swept; hide Admitting;
    assert CodeOk(s.base.procs[p].pc, s.code[p]);
    hide CodeOk;
    if LOG.lock in s.base.spin {
      IdleIsStill(s);
      SW.AllAtRest(s.base, s.base.spin[LOG.lock]);
    }
    assert !Enabled(s, Return(p));
  }

  /** A log that admits nobody, with no commit under way, has operations. */
  lemma SomeOperation(s: Log)
    requires CountsOk(s) && !Admitting(s)
    requires forall q: nat :: q < |s.code| ==> s.code[q].Away? || s.code[q].Beginning?
    ensures exists q: nat :: q < |s.code| && s.code[q] == Away(true)
  {
    OpsSome(s.code);
    if s.outstanding > 0 {
      var q :| 0 <= q < |s.code| && InOp(s.code[q]);
      assert s.code[q] == Away(true);
    }
  }
}
