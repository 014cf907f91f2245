/** A thread on its own gets to the end of what it does: it comes back for a new task, or falls
    asleep on a condition variable. */
module Drive {
  import opened Base
  import opened MVHashMap
  import opened Machine
  import opened Invariant
  import opened Threads
  import opened NoPanic
  import opened Reachable
  import opened Progress
  import opened Stable

  predicate Sleeps(g: Shared, pc: Pc)
  {
    && pc.Task? && pc.w.Running? && pc.w.e.Wait?
    && pc.w.e.cond < |g.dep.condvars| && !g.dep.condvars[pc.w.e.cond]
  }

  ghost predicate RecordedValid(mem: Memory, j: nat)
  {
    j < |mem.inputs| && mem.inputs[j].Some? && AllValid(mem.data, j, mem.inputs[j].value)
  }

  /** The thread will not have to abort what it is about to validate. */
  ghost predicate NoAbortAhead(g: Shared, pc: Pc)
  {
    match pc
    case Guarded(h) => !h.ValidateFetchAdd? && !h.ValidateIsExecuted?
    case Task(ver, Checking(LoadReads)) => RecordedValid(g.mem, ver.txn)
    case Task(ver, Checking(Scan(log, _))) => AllValid(g.mem.data, ver.txn, log)
    case Task(_, Checking(TryAbort)) => false
    case Task(ver, Running(_, _)) => AllValid(g.mem.data, ver.txn, CurrentLog(g.mem, pc))
    case Task(ver, Closing(_, _)) => RecordedValid(g.mem, ver.txn)
    case _ => true
  }

  predicate IsExecuted(g: Shared, d: nat)
  {
    d < |g.txnStatus| && g.txnStatus[d].Executed?
  }

  function IdleStage(i: IdlePc): nat
  {
    match i
    case NextTask => 0
    case LoadValidationIdx => 299
    case LoadExecutionIdx(_) => 298
    case TryValidate => 297
    case TryExecute => 297
    case ValidateNewGuard => 296
    case ExecuteNewGuard => 296
    case CheckDone => 295
    case CheckValidationIdx(_) => 294
    case CheckExecutionIdx(_, _) => 293
    case CheckActiveTasks(_, _, _) => 292
    case CheckAgain(_) => 291
    case SetDone => 290
  }

  function RunStage(g: Shared, e: RunPc): nat
  {
    match e
    case Depend(dep) => if IsExecuted(g, dep) then 43 else 40
    case Wait(cond) => if cond < |g.dep.condvars| && g.dep.condvars[cond] then 42 else 37
    case Run => 41
    case Suspend(_) => 39
    case Push(_, _) => 38
    case Apply(_, _, _, _) => 36
    case Record(_, _) => 35
    case SetExecuted(_) => 34
  }

  function StageOf(g: Shared, pc: Pc): nat
  {
    match pc
    case Idle(i) => IdleStage(i)
    case Guarded(ValidateFetchAdd) => 70
    case Guarded(ValidateIsExecuted(_)) => 69
    case Guarded(ExecuteFetchAdd) => 65
    case Guarded(ExecuteIncarnate(_)) => 64
    case Guarded(DropGuard) => 1
    case Task(_, Undoing(u)) => if u.LoadKeys? then 55 else 54
    case Task(_, Redoing(r)) =>
      if r.LowerValidation? then 53 else if r.CountAbort? then 52 else if r.LoadExecution? then 51 else 50
    case Task(_, Waking(_)) => 45
    case Task(_, Running(_, e)) => RunStage(g, e)
    case Task(_, Closing(_, f)) =>
      if f.TakeDeps? then 30 else if f.Resume? then 29 else if f.DecExecution? then 28
      else if f.CountExecution? then 27 else if f.LoadValidation? then 26 else if f.DecValidation? then 25 else 24
    case Task(_, Checking(c)) => if c.LoadReads? then 20 else if c.Scan? then 19 else 18
    case Exited => 0
    case Panicked => 0
  }

  /** What the thread has left to do: an abort ahead counts as much as everything before it. */
  ghost function Work(g: Shared, pc: Pc): nat
  {
    StageOf(g, pc) + if NoAbortAhead(g, pc) then 0 else 100
  }

  function Inner(pc: Pc, bound: nat): nat
  {
    match pc
    case Task(_, Undoing(Mark(keys))) => |keys|
    case Task(_, Checking(Scan(log, pos))) => if pos < |log| then |log| - pos else 0
    case Task(_, Running(log, Run)) => if |log| < bound then bound - |log| else 0
    case Task(_, Running(_, Apply(_, todo, prev, _))) => |todo| + |prev|
    case Task(_, Closing(_, Resume(rest, _))) => |rest|
    case _ => 0
  }

  ghost predicate Less(g: Shared, pc: Pc, g': Shared, pc': Pc, bound: nat)
  {
    || Work(g', pc') < Work(g, pc)
    || (Work(g', pc') == Work(g, pc) && Inner(pc', bound) < Inner(pc, bound))
  }

  /******* Steps *******/

  lemma IdleLess(b: Block, g: Shared, i: IdlePc, g': Shared, pc': Pc, bound: nat)
    requires IdleStep(b, g, i, g', pc') && !i.NextTask?
    ensures Less(g, Idle(i), g', pc', bound)
  {
  }

  lemma GuardedLess(b: Block, g: Shared, t: nat, h: GuardPc, g': Shared, pc': Pc, bound: nat)
    requires Sized(b, g) && GuardedStep(b, g, t, h, g', pc') && !pc'.Panicked?
    ensures Less(g, Guarded(h), g', pc', bound)
  {
  }

  lemma CheckLess(b: Block, g: Shared, t: nat, ver: Version, c: CheckPc, g': Shared, pc': Pc, bound: nat)
    requires Sized(b, g) && ver.txn < |b.txns| && CheckStep(b, g, t, ver, c, g', pc') && !pc'.Panicked?
    requires ReadsPlainly(b, g, Task(ver, Checking(c)), pc')
    ensures Less(g, Task(ver, Checking(c)), g', pc', bound)
  {
    match c
    case Scan(log, pos) =>
      if pos < |log| && pc' == Task(ver, Checking(TryAbort)) { assert !StillValid(g.mem.data, ver.txn, log[pos]); }
    case _ =>
  }

  lemma UndoLess(b: Block, g: Shared, ver: Version, u: UndoPc, g': Shared, pc': Pc, bound: nat)
    requires Sized(b, g) && ver.txn < |b.txns| && UndoStep(b, g, ver, u, g', pc') && !pc'.Panicked?
    ensures Less(g, Task(ver, Undoing(u)), g', pc', bound)
  {
    match u
    case LoadKeys =>
    case Mark(keys) =>
      if keys != {} { var k :| k in keys && MarkOne(g, ver, keys, g', pc', k); }
  }

  lemma RedoLess(b: Block, g: Shared, t: nat, ver: Version, r: RedoPc, g': Shared, pc': Pc, bound: nat)
    requires Sized(b, g) && ver.txn < |b.txns| && RedoStep(b, g, t, ver, r, g', pc')
    ensures Less(g, Task(ver, Redoing(r)), g', pc', bound)
  {
  }

  lemma CloseLess(b: Block, g: Shared, t: nat, ver: Version, outside: bool, f: ClosePc, g': Shared, pc': Pc, bound: nat)
    requires CanMove(b, g, Task(ver, Closing(outside, f))) && CloseStep(b, g, t, ver, outside, f, g', pc')
    requires !pc'.Panicked?
    ensures Less(g, Task(ver, Closing(outside, f)), g', pc', bound)
  {
    assert g'.mem == g.mem;
  }

  /** No entry of an executed transaction is an estimate. */
  ghost predicate EstimatesAreOpen(g: Shared)
  {
    forall k, d: nat :: IsExecuted(g, d) && EntryAt(g.mem.data, k, d).Some? ==>
      !EntryAt(g.mem.data, k, d).value.estimate
  }

  lemma ReadLess(b: Block, g: Shared, t: nat, ver: Version, log: ReadSet, g': Shared, pc': Pc, bound: nat)
    requires CanMove(b, g, Task(ver, Running(log, Run))) && RunStep(b, g, t, ver, log, Run, g', pc')
    requires ReadsPlainly(b, g, Task(ver, Running(log, Run)), pc') && EstimatesAreOpen(g) && AllFinish(b, bound)
    ensures Less(g, Task(ver, Running(log, Run)), g', pc', bound)
  {
    assert Finishes(b, ver.txn, bound) && |SeenOf(log)| == |log|;
    match b.txns[ver.txn](SeenOf(log))
    case ReadKey(key) =>
      var r := Read(g.mem.data, key, ver.txn);
      if r.Dependency? {
        DependencyIsEstimate(TreeOf(g.mem.data, key), ver.txn, None);
        assert EntryAt(g.mem.data, key, r.dep).Some?;
      } else {
        var log' := pc'.w.log;
        assert log' == log + [log'[|log|]] && StillValid(g.mem.data, ver.txn, log'[|log|]);
        assert forall p :: 0 <= p < |log| ==> log'[p] == log[p];
        assert AllValid(g.mem.data, ver.txn, log') <==> AllValid(g.mem.data, ver.txn, log);
      }
    case Finish(_) =>
  }

  lemma CleanNotLost(b: Block, g: Shared, t: nat, ver: Version, log: ReadSet, e: RunPc, g': Shared, pc': Pc)
    requires CanMove(b, g, Task(ver, Running(log, e))) && RunStep(b, g, t, ver, log, e, g', pc')
    requires Sized(b, g') && !pc'.Panicked? && !e.Run?
    requires e.Record? ==> g.mem.inputs[ver.txn] == Some(log)
    requires e.SetExecuted? ==> g.mem.inputs[ver.txn].Some?
    ensures NoAbortAhead(g, Task(ver, Running(log, e))) ==> NoAbortAhead(g', pc')
  {
    if NoAbortAhead(g, Task(ver, Running(log, e))) { RunKeepsValid(b, g, t, ver, log, e, g', pc'); }
  }

  lemma ApplyOneShrinks(g: Shared, ver: Version, log: ReadSet, e: RunPc, g': Shared, pc': Pc, k: Key, bound: nat)
    requires e.Apply? && k in e.todo && e.todo <= UpdatesOf(e.out).Keys && ApplyOne(g, ver, log, e, g', pc', k)
    requires !pc'.Panicked?
    ensures StageOf(g', pc') == 36 && Inner(pc', bound) < |e.todo| + |e.prev|
  {
    RemovalShrinks(e.todo, e.prev, k);
  }

  lemma DeleteOneShrinks(g: Shared, ver: Version, log: ReadSet, e: RunPc, g': Shared, pc': Pc, k: Key, bound: nat)
    requires e.Apply? && k in e.prev && e.todo == {} && DeleteOne(g, ver, log, e, g', pc', k) && !pc'.Panicked?
    ensures StageOf(g', pc') == 36 && Inner(pc', bound) < |e.todo| + |e.prev|
  {
    RemovalShrinks(e.prev, {}, k);
  }

  lemma ApplyShrinks(b: Block, g: Shared, t: nat, ver: Version, log: ReadSet, e: RunPc, g': Shared, pc': Pc, bound: nat)
    requires CanMove(b, g, Task(ver, Running(log, e))) && RunStep(b, g, t, ver, log, e, g', pc')
    requires e.Apply? && !pc'.Panicked?
    ensures || StageOf(g', pc') < 36
            || (StageOf(g', pc') == 36 && Inner(pc', bound) < |e.todo| + |e.prev|)
  {
    if e.todo != {} {
      var k :| k in e.todo && ApplyOne(g, ver, log, e, g', pc', k);
      ApplyOneShrinks(g, ver, log, e, g', pc', k, bound);
    } else if e.prev != {} {
      var k :| k in e.prev && DeleteOne(g, ver, log, e, g', pc', k);
      DeleteOneShrinks(g, ver, log, e, g', pc', k, bound);
    }
  }

  lemma RemovalShrinks(todo: set<Key>, prev: set<Key>, k: Key)
    requires k in todo
    ensures |todo - {k}| < |todo| && |todo - {k}| + |prev - {k}| < |todo| + |prev|
  {
    if k !in prev { assert prev - {k} == prev; }
  }

  lemma RunStageShrinks(b: Block, g: Shared, t: nat, ver: Version, log: ReadSet, e: RunPc, g': Shared, pc': Pc)
    requires CanMove(b, g, Task(ver, Running(log, e))) && RunStep(b, g, t, ver, log, e, g', pc')
    requires !pc'.Panicked? && !e.Run? && !e.Apply? && (e.Push? ==> !g.dep.condvars[e.cond])
    ensures StageOf(g', pc') < RunStage(g, e)
  {
  }

  lemma RunLess(b: Block, g: Shared, t: nat, ver: Version, log: ReadSet, e: RunPc, g': Shared, pc': Pc, bound: nat)
    requires CanMove(b, g, Task(ver, Running(log, e))) && RunStep(b, g, t, ver, log, e, g', pc')
    requires Sized(b, g') && !pc'.Panicked? && !e.Run?
    requires e.Record? ==> g.mem.inputs[ver.txn] == Some(log)
    requires e.SetExecuted? ==> g.mem.inputs[ver.txn].Some?
    requires e.Push? ==> !g.dep.condvars[e.cond]
    ensures Less(g, Task(ver, Running(log, e)), g', pc', bound)
  {
    CleanNotLost(b, g, t, ver, log, e, g', pc');
    if e.Apply? {
      ApplyShrinks(b, g, t, ver, log, e, g', pc', bound);
    } else {
      RunStageShrinks(b, g, t, ver, log, e, g', pc');
    }
  }

  /** Every step of a thread that reads plainly brings it closer to the end of what it does. */
  lemma StepLess(b: Block, s: State, t: nat, s': State, bound: nat)
    requires Inv(b, s) && Next(b, s, t, s') && Sized(b, s'.g) && !s'.threads[t].Panicked? && AllFinish(b, bound)
    requires ReadsPlainly(b, s.g, s.threads[t], s'.threads[t]) && s.threads[t] != Idle(NextTask)
    ensures Less(s.g, s.threads[t], s'.g, s'.threads[t], bound)
  {
    assert LogOk(b, s.g.mem, s.threads[t]) && WakeOk(s, s.threads[t]);
    var g, g', pc' := s.g, s'.g, s'.threads[t];
    match s.threads[t]
    case Idle(i) => IdleLess(b, g, i, g', pc', bound);
    case Guarded(h) => GuardedLess(b, g, t, h, g', pc', bound);
    case Task(ver, Checking(c)) => CheckLess(b, g, t, ver, c, g', pc', bound);
    case Task(ver, Undoing(u)) => UndoLess(b, g, ver, u, g', pc', bound);
    case Task(ver, Redoing(r)) => RedoLess(b, g, t, ver, r, g', pc', bound);
    case Task(_, Waking(_)) =>
    case Task(ver, Running(log, e)) =>
      if e.Run? {
        OpenEstimates(b, s);
        ReadLess(b, g, t, ver, log, g', pc', bound);
      } else {
        RunLess(b, g, t, ver, log, e, g', pc', bound);
      }
    case Task(ver, Closing(outside, f)) => CloseLess(b, g, t, ver, outside, f, g', pc', bound);
  }

  lemma OpenEstimates(b: Block, s: State)
    requires Inv(b, s)
    ensures EstimatesAreOpen(s.g)
  {
    forall k, d: nat | IsExecuted(s.g, d) && EntryAt(s.g.mem.data, k, d).Some?
      ensures !EntryAt(s.g.mem.data, k, d).value.estimate
    {
      ExecutedIsDone(b, s, d, k);
    }
  }

  /******* Locks *******/

  /** The steps that the holder of the lock of list `d` has left before it releases it. */
  function LockWork(s: State, d: nat): nat
  {
    if d < |s.g.dep.locks| && s.g.dep.locks[d].Some? && s.g.dep.locks[d].value < |s.threads| then
      if IsSuspending(s.threads[s.g.dep.locks[d].value]) then 2 else 1
    else 0
  }

  /** The list whose lock the thread is about to take. */
  function LockOf(pc: Pc): Option<nat>
  {
    match pc
    case Task(_, Running(_, Depend(dep))) => Some(dep)
    case Task(ver, Closing(_, TakeDeps)) => Some(ver.txn)
    case _ => None
  }

  /** The holder of a lock moves: nothing changes for the thread that waits for the lock. */
  lemma HolderMoves(b: Block, s: State, d: nat, s': State)
    requires Inv(b, s) && d < |b.txns| && s.g.dep.locks[d].Some?
    requires Next(b, s, s.g.dep.locks[d].value, s') && Sized(b, s'.g) && !s'.threads[s.g.dep.locks[d].value].Panicked?
    ensures LockWork(s', d) < LockWork(s, d) && s'.g.mem == s.g.mem && s'.g.ctr == s.g.ctr
    ensures forall j :: 0 <= j < |b.txns| ==> (s'.g.txnStatus[j].Executed? <==> s.g.txnStatus[j].Executed?)
    ensures forall c :: 0 <= c < |s.g.dep.condvars| ==>
              c < |s'.g.dep.condvars| && s'.g.dep.condvars[c] == s.g.dep.condvars[c]
  {
    assert LockOk(s, d);
  }

  lemma HolderCanMove(b: Block, s: State, d: nat) returns (h: nat, s': State)
    requires Inv(b, s) && d < |b.txns| && s.g.dep.locks[d].Some?
    ensures h == s.g.dep.locks[d].value && Next(b, s, h, s') && Sized(b, s'.g) && Locks(s.threads[h], d)
    ensures LockWork(s', d) < LockWork(s, d) && s'.g.mem == s.g.mem && s'.g.ctr == s.g.ctr
    ensures forall j :: 0 <= j < |b.txns| ==> (s'.g.txnStatus[j].Executed? <==> s.g.txnStatus[j].Executed?)
  {
    assert LockOk(s, d);
    h := s.g.dep.locks[d].value;
    s' := CanStep(b, s, h);
    NeverPanics(b, s, h, s');
    StaysSized(b, s.g, h, s.threads[h], s'.g, s'.threads[h]);
    HolderMoves(b, s, d, s');
  }

  /******* Driving a thread *******/

  lemma CondvarsKept(b: Block, g: Shared, t: nat, pc: Pc, g': Shared, pc': Pc)
    requires Step(b, g, t, pc, g', pc') && !(pc.Task? && pc.w.Waking?)
    ensures |g.dep.condvars| <= |g'.dep.condvars|
    ensures forall c :: 0 <= c < |g.dep.condvars| ==> g'.dep.condvars[c] == g.dep.condvars[c]
  {
    if pc.Task? && pc.w.Running? { assert RunStep(b, g, t, pc.ver, pc.w.log, pc.w.e, g', pc'); }
  }

  /** Threads that sleep go on sleeping, unless somebody wakes them. */
  ghost predicate SleepersStay(s: State, s': State)
  {
    |s.threads| == |s'.threads| &&
    forall t :: 0 <= t < |s.threads| && Sleeps(s.g, s.threads[t]) ==> Sleeps(s'.g, s'.threads[t])
  }

  /** Threads between two tasks stay there. */
  ghost predicate IdlersStay(s: State, s': State)
  {
    |s.threads| == |s'.threads| &&
    forall t :: 0 <= t < |s.threads| && s.threads[t] == Idle(NextTask) ==> s'.threads[t] == Idle(NextTask)
  }

  lemma StepKeepsSleepers(b: Block, s: State, a: nat, s': State)
    requires Next(b, s, a, s') && !Sleeps(s.g, s.threads[a]) && !(s.threads[a].Task? && s.threads[a].w.Waking?)
    ensures SleepersStay(s, s')
  {
    CondvarsKept(b, s.g, a, s.threads[a], s'.g, s'.threads[a]);
  }

  /** The holder of the lock that thread `u` waits for has moved. */
  ghost predicate HolderMoved(s: State, u: nat, s': State)
    requires u < |s.threads|
  {
    var pc := s.threads[u];
    && IdlersStay(s, s') && SleepersStay(s, s') && s'.threads[u] == pc
    && LockOf(pc).Some? && LockWork(s', LockOf(pc).value) < LockWork(s, LockOf(pc).value)
    && s'.g.mem == s.g.mem && StageOf(s'.g, pc) == StageOf(s.g, pc)
  }

  lemma MoveHolder(b: Block, s: State, u: nat) returns (h: nat, s': State)
    requires Inv(b, s) && u < |s.threads| && Blocked(s.g, s.threads[u]) && !Sleeps(s.g, s.threads[u])
    ensures Next(b, s, h, s') && HolderMoved(s, u, s')
  {
    assert InBounds(b, s.g, s.threads[u]);
    h, s' := HolderCanMove(b, s, LockOf(s.threads[u]).value);
    StepKeepsSleepers(b, s, h, s');
  }

  lemma StepHolder(b: Block, run: seq<State>, u: nat) returns (run': seq<State>)
    requires IsRun(b, run) && u < |Last(run).threads| && Blocked(Last(run).g, Last(run).threads[u])
    requires !Sleeps(Last(run).g, Last(run).threads[u])
    ensures IsRun(b, run') && run <= run' && HolderMoved(Last(run), u, Last(run'))
  {
    RunInv(b, run, |run| - 1);
    var h, s' := MoveHolder(b, Last(run), u);
    run' := ExtendRun(b, run, h, s');
  }

  /** Thread `u` has moved. */
  ghost predicate ThreadMoved(s: State, u: nat, s': State, bound: nat)
    requires u < |s.threads|
  {
    && IdlersStay(s, s') && !s'.threads[u].Exited? && Less(s.g, s.threads[u], s'.g, s'.threads[u], bound)
    && (SleepersStay(s, s') || s'.threads[u] == DROP)
    && (s.threads[u] == DROP ==> s'.threads[u] == Idle(NextTask))
  }

  lemma MoveThread(b: Block, s: State, u: nat, bound: nat) returns (s': State)
    requires Inv(b, s) && AllFinish(b, bound) && u < |s.threads| && !s.threads[u].Exited?
    requires s.threads[u] != Idle(NextTask) && !Blocked(s.g, s.threads[u])
    ensures Next(b, s, u, s') && ThreadMoved(s, u, s', bound)
  {
    var pc := s.threads[u];
    s' := CanStep(b, s, u);
    NeverPanics(b, s, u, s');
    StaysSized(b, s.g, u, pc, s'.g, s'.threads[u]);
    StepLess(b, s, u, s', bound);
    if !(pc.Task? && pc.w.Waking?) { StepKeepsSleepers(b, s, u, s'); }
    NotLeaving(b, s.g, u, pc, s'.g, s'.threads[u]);
  }

  lemma StepThread(b: Block, run: seq<State>, u: nat, bound: nat) returns (run': seq<State>)
    requires IsRun(b, run) && AllFinish(b, bound) && u < |Last(run).threads| && !Last(run).threads[u].Exited?
    requires Last(run).threads[u] != Idle(NextTask) && !Blocked(Last(run).g, Last(run).threads[u])
    ensures IsRun(b, run') && run <= run' && ThreadMoved(Last(run), u, Last(run'), bound)
  {
    RunInv(b, run, |run| - 1);
    var s' := MoveThread(b, Last(run), u, bound);
    run' := ExtendRun(b, run, u, s');
  }

  lemma NotLeaving(b: Block, g: Shared, t: nat, pc: Pc, g': Shared, pc': Pc)
    requires Step(b, g, t, pc, g', pc') && !pc'.Panicked? && pc != Idle(NextTask)
    ensures !pc'.Exited? && (pc == DROP ==> pc' == Idle(NextTask)) && (pc.Task? && pc.w.Waking? ==> pc' == DROP)
  {
    if pc.Task? && pc.w.Running? { assert RunStep(b, g, t, pc.ver, pc.w.log, pc.w.e, g', pc'); }
  }

  lemma {:induction false} DriveOn(b: Block, run: seq<State>, u: nat, bound: nat) returns (run': seq<State>)
    requires IsRun(b, run) && AllFinish(b, bound) && u < |Last(run).threads| && !Last(run).threads[u].Exited?
    ensures IsRun(b, run') && run <= run' && |Last(run').threads| == |Last(run).threads|
    ensures Last(run').threads[u] == Idle(NextTask) || Sleeps(Last(run').g, Last(run').threads[u])
    ensures Last(run).threads[u] == Idle(NextTask) ==> run' == run
    ensures Last(run).threads[u] == DROP ==> Last(run').threads[u] == Idle(NextTask)
    ensures Last(run').threads[u] == Idle(NextTask) || SleepersStay(Last(run), Last(run'))
    ensures IdlersStay(Last(run), Last(run'))
    decreases Work(Last(run).g, Last(run).threads[u]), Inner(Last(run).threads[u], bound),
              if LockOf(Last(run).threads[u]).Some? then LockWork(Last(run), LockOf(Last(run).threads[u]).value) else 0
  {
    var g, pc := Last(run).g, Last(run).threads[u];
    if pc == Idle(NextTask) || Sleeps(g, pc) {
      run' := run;
    } else if Blocked(g, pc) {
      var run1 := StepHolder(b, run, u);
      assert Work(Last(run1).g, pc) == Work(g, pc);
      run' := DriveOn(b, run1, u, bound);
    } else {
      var run1 := StepThread(b, run, u, bound);
      run' := DriveOn(b, run1, u, bound);
    }
  }
}
