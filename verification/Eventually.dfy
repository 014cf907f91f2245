/** From every reachable state of a block whose transactions end, with any positive number of
    threads, some continuation reaches the done marker. */
module Eventually {
  import opened Base
  import opened MVHashMap
  import opened Machine
  import opened Invariant
  import opened Roles
  import opened Reachable
  import opened Theorems
  import opened Progress
  import opened Stable
  import opened Drive

  /******* Along a run *******/

  /** From `s` to `s'` the stable transactions stay stable and the debt of the next one has not
      grown; it has shrunk if its status has changed. */
  ghost predicate Approaches(b: Block, s: State, s': State, p: nat)
    requires Sized(b, s.g) && p <= |b.txns|
  {
    && Sized(b, s'.g) && StableBelow(b, s', p)
    && (p < |b.txns| ==>
          Debt(s', p) < Debt(s, p) || (Debt(s', p) == Debt(s, p) && s'.g.txnStatus[p] == s.g.txnStatus[p]))
  }

  lemma StepApproaches(b: Block, s: State, t: nat, s': State, p: nat)
    requires Inv(b, s) && Next(b, s, t, s') && p <= |b.txns| && StableBelow(b, s, p)
    ensures Approaches(b, s, s', p)
  {
    StepKeepsInv(b, s, t, s');
    StaysStable(b, s, t, s', p);
    if p < |b.txns| { DebtShrinks(b, s, t, s', p); }
  }

  lemma {:induction false} RunApproaches(b: Block, run: seq<State>, i: nat, k: nat, p: nat)
    requires IsRun(b, run) && i <= k < |run| && p <= |b.txns| && Sized(b, run[i].g) && StableBelow(b, run[i], p)
    ensures Approaches(b, run[i], run[k], p)
    decreases k
  {
    if i < k {
      RunApproaches(b, run, i, k - 1, p);
      RunInv(b, run, k - 1);
      var t := StepOf(b, run, k - 1);
      StepApproaches(b, run[k - 1], t, run[k], p);
    }
  }

  /******* All threads come to rest *******/

  predicate AtRest(g: Shared, pc: Pc)
  {
    pc == Idle(NextTask) || pc.Exited? || Sleeps(g, pc)
  }

  predicate AllAtRest(s: State)
  {
    forall t :: 0 <= t < |s.threads| ==> AtRest(s.g, s.threads[t])
  }

  function Busy(s: State): set<nat> { set t: nat | t < |s.threads| && s.threads[t] != Idle(NextTask) }

  function Awake(s: State): set<nat> { set t: nat | t < |s.threads| && !Sleeps(s.g, s.threads[t]) }

  lemma ProperSubset(a: set<nat>, c: set<nat>, u: nat)
    requires a <= c && u in c && u !in a
    ensures |a| < |c|
  {
    assert a <= c - {u};
    SubsetSize(a, c - {u});
  }

  lemma {:induction false} SubsetSize(a: set<nat>, c: set<nat>)
    requires a <= c
    ensures |a| <= |c|
  {
    if a == {} {
    } else {
      var x :| x in a;
      SubsetSize(a - {x}, c - {x});
    }
  }

  lemma {:induction false} ComeToRest(b: Block, run: seq<State>, bound: nat) returns (run': seq<State>)
    requires IsRun(b, run) && AllFinish(b, bound)
    ensures IsRun(b, run') && run <= run' && |Last(run').threads| == |Last(run).threads| && AllAtRest(Last(run'))
    decreases |Busy(Last(run))|, |Awake(Last(run))|
  {
    if AllAtRest(Last(run)) {
      run' := run;
    } else {
      var u :| 0 <= u < |Last(run).threads| && !AtRest(Last(run).g, Last(run).threads[u]);
      var run1 := DriveOn(b, run, u, bound);
      var s, s' := Last(run), Last(run1);
      SubsetSize(Busy(s'), Busy(s));
      if s'.threads[u] == Idle(NextTask) {
        ProperSubset(Busy(s'), Busy(s), u);
      } else {
        ProperSubset(Awake(s'), Awake(s), u);
      }
      run' := ComeToRest(b, run1, bound);
    }
  }

  /** The transaction is executed, with a read that is no longer valid. */
  ghost predicate IsStale(g: Shared, j: nat)
  {
    && j < |g.txnStatus| && g.txnStatus[j].Executed?
    && j < |g.mem.inputs| && g.mem.inputs[j].Some? && !AllValid(g.mem.data, j, g.mem.inputs[j].value)
  }

  /** The transaction is ready and will be fetched from the execution index, or has a stale read and
      will be fetched from the validation index. */
  ghost predicate Fetchable(g: Shared, p: nat)
    requires p < |g.txnStatus|
  {
    (g.txnStatus[p].Ready? && g.ctr.executionIdx <= p) || (IsStale(g, p) && g.ctr.validationIdx <= p)
  }

  /** With all threads at rest and the work below `p` done, transaction `p` waits for an index. */
  lemma AtRestWaits(b: Block, s: State, p: nat)
    requires Inv(b, s) && AllAtRest(s) && p < |b.txns| && StableBelow(b, s, p) && !IsStable(s, p)
    ensures Fetchable(s.g, p)
  {
    match s.g.txnStatus[p]
    case Ready(_, _) => ReadyWaits(b, s, p);
    case Executed(inc) => StaleWaits(b, s, p);
    case _ => var t := InHands(b, s, p);
  }

  lemma ReadyWaits(b: Block, s: State, p: nat)
    requires Sized(b, s.g) && ExecutionCovered(b, s) && AllAtRest(s) && p < |b.txns| && s.g.txnStatus[p].Ready?
    ensures s.g.ctr.executionIdx <= p
  {
    assert WillExecute(s, p);
  }

  lemma StaleWaits(b: Block, s: State, p: nat)
    requires Sized(b, s.g) && Bounded(b, s) && LogsOk(b, s) && ValidationCovered(b, s) && AllAtRest(s)
    requires p < |b.txns| && s.g.txnStatus[p].Executed? && !IsStable(s, p)
    ensures Fetchable(s.g, p)
  {
    var inc := s.g.txnStatus[p].inc;
    assert Recorded(b, s.g.mem, p);
    assert WillValidate(s, p, inc) || ReadsCovered(s, p, inc);
  }

  /** Some thread is not at rest while `p` is being executed or aborted, or waits for a lower
      transaction that is executed. */
  lemma InHands(b: Block, s: State, p: nat) returns (t: nat)
    requires Inv(b, s) && p < |b.txns| && StableBelow(b, s, p)
    requires !s.g.txnStatus[p].Ready? && !s.g.txnStatus[p].Executed?
    ensures t < |s.threads| && !AtRest(s.g, s.threads[t])
  {
    OwnerFits(b, s, p);
    t := s.g.owner[p].value;
    assert WakeOk(s, s.threads[t]);
    if s.g.txnStatus[p].Suspended? {
      assert PlaceOk(s, p);
      match s.g.dep.place[p]
      case Taken(u) => t := u;
      case Listed(d) => t := ListWaits(b, s, p, d);
      case _ =>
    } else if AtRest(s.g, s.threads[t]) {
      t :| 0 <= t < |s.threads| && Wakes(s.threads[t]) == Some(s.threads[s.g.owner[p].value].w.e.cond);
    }
  }

  lemma ListWaits(b: Block, s: State, p: nat, d: nat) returns (t: nat)
    requires Inv(b, s) && p < |b.txns| && StableBelow(b, s, p)
    requires d < |b.txns| && p in s.g.dep.txnDependency[d]
    ensures t < |s.threads| && Drains(s.threads[t], d)
  {
    assert ListOk(s, d) && WaitsAt(s.g, p, d, Listed(d)) && WillDrain(s, d);
    assert IsStable(s, d);
    t :| 0 <= t < |s.threads| && Drains(s.threads[t], d);
  }

  /** Some thread is awake. */
  lemma SomeoneIdle(b: Block, run: seq<State>) returns (u: nat)
    requires IsRun(b, run) && |Last(run).threads| > 0 && AllAtRest(Last(run)) && !Last(run).g.ctr.doneMarker
    ensures u < |Last(run).threads| && Last(run).threads[u] == Idle(NextTask)
  {
    var s := Last(run);
    if s.threads[0].Exited? { ExitedMeansDone(b, run, |run| - 1, 0); }
    var s';
    u, s' := NoDeadlock(b, run, |run| - 1, 0);
    assert AtRest(s.g, s.threads[u]);
  }

  /******* A thread on its own, from one task to the next *******/

  /** The state after thread `u` has moved. */
  function After(s: State, u: nat, g': Shared, pc': Pc): State
    requires u < |s.threads|
  {
    State(g', s.threads[u := pc'])
  }

  function Counted(g: Shared, ctr: Counters): Shared { g.(ctr := ctr) }

  lemma LastIsSized(b: Block, run: seq<State>)
    requires IsRun(b, run)
    ensures Sized(b, Last(run).g)
  {
    RunInv(b, run, |run| - 1);
  }

  /** The thread that has read both indices. */
  lemma LoadIndices(b: Block, run: seq<State>, u: nat) returns (run': seq<State>)
    requires IsRun(b, run) && u < |Last(run).threads| && Last(run).threads[u] == Idle(NextTask)
    requires !Last(run).g.ctr.doneMarker
    ensures IsRun(b, run') && run <= run'
    ensures var s, c := Last(run), Last(run).g.ctr;
            Last(run') == After(s, u, s.g, Idle(if c.validationIdx < c.executionIdx then TryValidate else TryExecute))
  {
    LastIsSized(b, run);
    var g, c := Last(run).g, Last(run).g.ctr;
    run' := Take(b, run, u, g, Idle(LoadValidationIdx));
    run' := Take(b, run', u, g, Idle(LoadExecutionIdx(c.validationIdx)));
    run' := Take(b, run', u, g, Idle(if c.validationIdx < c.executionIdx then TryValidate else TryExecute));
  }

  function Guard(c: Counters): Counters { c.(numActiveTasks := c.numActiveTasks + 1) }

  lemma FetchValidation(b: Block, run: seq<State>, u: nat) returns (run': seq<State>)
    requires IsRun(b, run) && u < |Last(run).threads| && Last(run).threads[u] == Idle(TryValidate)
    requires Last(run).g.ctr.validationIdx < |b.txns|
    ensures IsRun(b, run') && run <= run'
    ensures var s, v := Last(run), Last(run).g.ctr.validationIdx;
            Last(run') == After(s, u, Counted(s.g, Guard(s.g.ctr).(validationIdx := v + 1)),
                                Guarded(ValidateIsExecuted(v)))
  {
    LastIsSized(b, run);
    var g, c := Last(run).g, Last(run).g.ctr;
    run' := Take(b, run, u, g, Idle(ValidateNewGuard));
    run' := Take(b, run', u, Counted(g, Guard(c)), Guarded(ValidateFetchAdd));
    run' := Take(b, run', u, Counted(g, Guard(c).(validationIdx := c.validationIdx + 1)),
                 Guarded(ValidateIsExecuted(c.validationIdx)));
  }

  lemma FetchExecution(b: Block, run: seq<State>, u: nat) returns (run': seq<State>)
    requires IsRun(b, run) && u < |Last(run).threads| && Last(run).threads[u] == Idle(TryExecute)
    requires Last(run).g.ctr.executionIdx < |b.txns|
    ensures IsRun(b, run') && run <= run'
    ensures var s, e := Last(run), Last(run).g.ctr.executionIdx;
            Last(run') == After(s, u, Counted(s.g, Guard(s.g.ctr).(executionIdx := e + 1)),
                                Guarded(ExecuteIncarnate(e)))
  {
    LastIsSized(b, run);
    var g, c := Last(run).g, Last(run).g.ctr;
    run' := Take(b, run, u, g, Idle(ExecuteNewGuard));
    run' := Take(b, run', u, Counted(g, Guard(c)), Guarded(ExecuteFetchAdd));
    run' := Take(b, run', u, Counted(g, Guard(c).(executionIdx := c.executionIdx + 1)),
                 Guarded(ExecuteIncarnate(c.executionIdx)));
  }

  /** The index that the next task is fetched from. */
  function NextIndex(c: Counters): nat { Min(c.validationIdx, c.executionIdx) }

  function Fetched(c: Counters): Counters
  {
    if c.validationIdx < c.executionIdx then c.(validationIdx := c.validationIdx + 1)
    else c.(executionIdx := c.executionIdx + 1)
  }

  /** An idle thread takes the next index, to validate or to execute it. */
  lemma FetchTask(b: Block, run: seq<State>, u: nat) returns (run': seq<State>)
    requires IsRun(b, run) && u < |Last(run).threads| && Last(run).threads[u] == Idle(NextTask)
    requires !Last(run).g.ctr.doneMarker && NextIndex(Last(run).g.ctr) < |b.txns|
    ensures IsRun(b, run') && run <= run'
    ensures var s, c, j := Last(run), Last(run).g.ctr, NextIndex(Last(run).g.ctr);
            Last(run') == After(s, u, Counted(s.g, Guard(Fetched(c))),
                                Guarded(if c.validationIdx < c.executionIdx then ValidateIsExecuted(j)
                                        else ExecuteIncarnate(j)))
  {
    run' := LoadIndices(b, run, u);
    if Last(run).g.ctr.validationIdx < Last(run).g.ctr.executionIdx {
      run' := FetchValidation(b, run', u);
    } else {
      run' := FetchExecution(b, run', u);
    }
  }

  /** A validation goes through, or comes to the abort when some read is stale. */
  lemma {:induction false} ScanThrough(b: Block, run: seq<State>, u: nat, ver: Version, log: ReadSet, pos: nat)
    returns (run': seq<State>)
    requires IsRun(b, run) && u < |Last(run).threads|
    requires Last(run).threads[u] == Task(ver, Checking(Scan(log, pos))) && ver.txn < |b.txns|
    requires pos <= |log| && forall q :: 0 <= q < pos ==> StillValid(Last(run).g.mem.data, ver.txn, log[q])
    ensures IsRun(b, run') && run <= run'
    ensures var s := Last(run);
            Last(run') == After(s, u, s.g, if AllValid(s.g.mem.data, ver.txn, log) then DROP
                                           else Task(ver, Checking(TryAbort)))
    decreases |log| - pos
  {
    var s := Last(run);
    LastIsSized(b, run);
    if pos == |log| {
      run' := Take(b, run, u, s.g, DROP);
    } else {
      var r := Read(s.g.mem.data, log[pos].key, ver.txn);
      var pc' := Task(ver, Checking(if KindOf(r) == Some(log[pos].kind) then Scan(log, pos + 1) else TryAbort));
      assert ScanRead(s.g, ver, log, pos, pc', r);
      run' := Take(b, run, u, s.g, pc');
      if pc'.w.c.Scan? { run' := ScanThrough(b, run', u, ver, log, pos + 1); }
    }
  }

  /** The thread has dropped its guard. */
  function Dropped(s: State, u: nat): State
    requires u < |s.threads| && s.g.ctr.numActiveTasks > 0
  {
    After(s, u, Counted(s.g, s.g.ctr.(numActiveTasks := s.g.ctr.numActiveTasks - 1)), Idle(NextTask))
  }

  lemma Drop(b: Block, run: seq<State>, u: nat) returns (run': seq<State>)
    requires IsRun(b, run) && u < |Last(run).threads| && Last(run).threads[u] == DROP
    requires Last(run).g.ctr.numActiveTasks > 0
    ensures IsRun(b, run') && run <= run' && Last(run') == Dropped(Last(run), u)
  {
    LastIsSized(b, run);
    var s' := Dropped(Last(run), u);
    run' := Take(b, run, u, s'.g, Idle(NextTask));
  }

  /** The reads of `j` are checked. */
  lemma Recheck(b: Block, run: seq<State>, u: nat, j: nat) returns (run': seq<State>)
    requires IsRun(b, run) && u < |Last(run).threads| && j < |b.txns| && Sized(b, Last(run).g)
    requires Last(run).threads[u] == Guarded(ValidateIsExecuted(j)) && Last(run).g.txnStatus[j].Executed?
    ensures IsRun(b, run') && run <= run'
    ensures Last(run') ==
            After(Last(run), u, Last(run).g,
                  if IsStale(Last(run).g, j) then Task(Ver(j, Last(run).g.txnStatus[j].inc), Checking(TryAbort))
                  else DROP)
  {
    var s := Last(run);
    var ver := Ver(j, s.g.txnStatus[j].inc);
    ReadsRecorded(b, run, j);
    var log := s.g.mem.inputs[j].value;
    run' := Take(b, run, u, s.g, Task(ver, Checking(LoadReads)));
    run' := Take(b, run', u, s.g, Task(ver, Checking(Scan(log, 0))));
    run' := ScanThrough(b, run', u, ver, log, 0);
  }

  /** The thread that validates `j` comes back, or has decided to abort it. */
  lemma Validate(b: Block, run: seq<State>, u: nat, j: nat) returns (run': seq<State>)
    requires IsRun(b, run) && u < |Last(run).threads| && j < |b.txns|
    requires Last(run).threads[u] == Guarded(ValidateIsExecuted(j)) && Last(run).g.ctr.numActiveTasks > 0
    ensures IsRun(b, run') && run <= run' && Sized(b, Last(run).g)
    ensures Last(run') ==
            if IsStale(Last(run).g, j) then
              After(Last(run), u, Last(run).g, Task(Ver(j, Last(run).g.txnStatus[j].inc), Checking(TryAbort)))
            else Dropped(Last(run), u)
  {
    LastIsSized(b, run);
    if Last(run).g.txnStatus[j].Executed? {
      run' := Recheck(b, run, u, j);
    } else {
      run' := Take(b, run, u, Last(run).g, DROP);
    }
    if !IsStale(Last(run).g, j) { run' := Drop(b, run', u); }
  }

  lemma ReadsRecorded(b: Block, run: seq<State>, j: nat)
    requires IsRun(b, run) && j < |b.txns| && Sized(b, Last(run).g) && Last(run).g.txnStatus[j].Executed?
    ensures Last(run).g.mem.inputs[j].Some?
  {
    RunInv(b, run, |run| - 1);
    assert Recorded(b, Last(run).g.mem, j);
  }

  lemma StartAbort(b: Block, run: seq<State>, u: nat, j: nat) returns (run': seq<State>)
    requires IsRun(b, run) && u < |Last(run).threads| && j < |b.txns| && Sized(b, Last(run).g)
    requires Last(run).g.txnStatus[j].Executed?
    requires Last(run).threads[u] == Task(Ver(j, Last(run).g.txnStatus[j].inc), Checking(TryAbort))
    ensures IsRun(b, run') && run <= run' && |Last(run').threads| == |Last(run).threads|
    ensures j < |Last(run').g.txnStatus| && Last(run').g.txnStatus[j].Aborting?
  {
    var g, inc := Last(run).g, Last(run).g.txnStatus[j].inc;
    run' := Take(b, run, u, SetStatus(g, j, Status.Aborting(inc), Some(u)), Task(Ver(j, inc), Undoing(LoadKeys)));
  }

  /** The thread that has fetched `j` for execution begins it, or comes back. */
  lemma Execute(b: Block, run: seq<State>, u: nat, j: nat) returns (run': seq<State>)
    requires IsRun(b, run) && u < |Last(run).threads| && j < |b.txns|
    requires Last(run).threads[u] == Guarded(ExecuteIncarnate(j)) && Last(run).g.ctr.numActiveTasks > 0
    ensures IsRun(b, run') && run <= run' && Sized(b, Last(run).g) && |Last(run').threads| == |Last(run).threads|
    ensures if Last(run).g.txnStatus[j].Ready? then
              j < |Last(run').g.txnStatus| && Last(run').g.txnStatus[j].Executing?
            else Last(run') == Dropped(Last(run), u)
  {
    LastIsSized(b, run);
    var g', pc' := IncarnateMoves(b, Last(run).g, u, j);
    run' := Take(b, run, u, g', pc');
    if !Last(run).g.txnStatus[j].Ready? { run' := Drop(b, run', u); }
  }

  /** The next task has an effect: an execution to begin, or a validation that fails. */
  ghost predicate HasEffect(g: Shared)
  {
    var c := g.ctr;
    if c.validationIdx < c.executionIdx then IsStale(g, c.validationIdx)
    else c.executionIdx < |g.txnStatus| && g.txnStatus[c.executionIdx].Ready?
  }

  /** A whole task: the transaction that is fetched changes its status, or nothing but the index
      changes. */
  lemma DoTask(b: Block, run: seq<State>, u: nat) returns (run': seq<State>)
    requires IsRun(b, run) && u < |Last(run).threads| && Last(run).threads[u] == Idle(NextTask)
    requires !Last(run).g.ctr.doneMarker && NextIndex(Last(run).g.ctr) < |b.txns| && Sized(b, Last(run).g)
    ensures IsRun(b, run') && run <= run' && |Last(run').threads| == |Last(run).threads| && Sized(b, Last(run').g)
    ensures var s, s', j := Last(run), Last(run'), NextIndex(Last(run).g.ctr);
            if HasEffect(s.g) then s'.g.txnStatus[j] != s.g.txnStatus[j]
            else s' == s.(g := Counted(s.g, Fetched(s.g.ctr)))
  {
    var s, c := Last(run), Last(run).g.ctr;
    run' := FetchTask(b, run, u);
    if c.validationIdx < c.executionIdx {
      run' := Validate(b, run', u, c.validationIdx);
      if HasEffect(s.g) { run' := StartAbort(b, run', u, c.validationIdx); }
    } else {
      run' := Execute(b, run', u, c.executionIdx);
    }
    LastIsSized(b, run');
  }

  /******* To the end *******/

  function ToFetch(idx: nat, p: nat): nat { if idx <= p then p + 1 - idx else 0 }

  lemma OnlyCounters(b: Block, s: State, c: Counters, p: nat)
    requires Sized(b, s.g) && p <= |b.txns| && StableBelow(b, s, p)
    ensures StableBelow(b, s.(g := Counted(s.g, c)), p)
  {
    forall j | 0 <= j < p ensures IsStable(s.(g := Counted(s.g, c)), j) { assert IsStable(s, j); }
  }

  /** The thread fetches tasks until transaction `p` changes its status. */
  lemma {:induction false} FetchUpTo(b: Block, run: seq<State>, u: nat, p: nat) returns (run': seq<State>)
    requires IsRun(b, run) && u < |Last(run).threads| && Last(run).threads[u] == Idle(NextTask)
    requires !Last(run).g.ctr.doneMarker && Sized(b, Last(run).g)
    requires p < |b.txns| && StableBelow(b, Last(run), p) && Fetchable(Last(run).g, p)
    ensures IsRun(b, run') && run <= run' && |Last(run').threads| == |Last(run).threads|
    ensures Sized(b, Last(run').g) && Last(run').g.txnStatus[p] != Last(run).g.txnStatus[p]
    decreases ToFetch(Last(run).g.ctr.validationIdx, p) + ToFetch(Last(run).g.ctr.executionIdx, p)
  {
    var s := Last(run);
    run' := DoTask(b, run, u);
    if NextIndex(s.g.ctr) < p { assert IsStable(s, NextIndex(s.g.ctr)); }
    if !HasEffect(s.g) {
      OnlyCounters(b, s, Fetched(s.g.ctr), p);
      run' := FetchUpTo(b, run', u, p);
    }
  }

  /** With every transaction stable, the thread fetches tasks until none is left. */
  lemma {:induction false} FetchToEnd(b: Block, run: seq<State>, u: nat) returns (run': seq<State>)
    requires IsRun(b, run) && u < |Last(run).threads| && Last(run).threads[u] == Idle(NextTask)
    requires !Last(run).g.ctr.doneMarker && Sized(b, Last(run).g) && StableBelow(b, Last(run), |b.txns|)
    ensures IsRun(b, run') && run <= run' && Last(run').threads == Last(run).threads
    ensures !Last(run').g.ctr.doneMarker && NextIndex(Last(run').g.ctr) >= |b.txns|
    decreases ToFetch(Last(run).g.ctr.validationIdx, |b.txns|) + ToFetch(Last(run).g.ctr.executionIdx, |b.txns|)
  {
    var s, j := Last(run), NextIndex(Last(run).g.ctr);
    if j >= |b.txns| {
      run' := run;
    } else {
      run' := DoTask(b, run, u);
      assert IsStable(s, j);
      OnlyCounters(b, s, Fetched(s.g.ctr), |b.txns|);
      run' := FetchToEnd(b, run', u);
    }
  }

  lemma NoGuardsLeft(b: Block, run: seq<State>)
    requires IsRun(b, run) && forall t :: 0 <= t < |Last(run).threads| ==> Last(run).threads[t] == Idle(NextTask)
    ensures Last(run).g.ctr.numActiveTasks == 0
  {
    RunInv(b, run, |run| - 1);
    InitialGuards(Last(run).threads);
  }

  lemma CheckIndices(b: Block, run: seq<State>, u: nat) returns (run': seq<State>)
    requires IsRun(b, run) && u < |Last(run).threads| && Last(run).threads[u] == Idle(CheckDone)
    ensures IsRun(b, run') && run <= run'
    ensures var s, c := Last(run), Last(run).g.ctr;
            Last(run') == After(s, u, s.g, Idle(CheckActiveTasks(c.decreaseCnt, c.validationIdx, c.executionIdx)))
  {
    LastIsSized(b, run);
    var g, c := Last(run).g, Last(run).g.ctr;
    run' := Take(b, run, u, g, Idle(CheckValidationIdx(c.decreaseCnt)));
    run' := Take(b, run', u, g, Idle(CheckExecutionIdx(c.decreaseCnt, c.validationIdx)));
    run' := Take(b, run', u, g, Idle(CheckActiveTasks(c.decreaseCnt, c.validationIdx, c.executionIdx)));
  }

  lemma MarkDone(b: Block, run: seq<State>, u: nat) returns (run': seq<State>)
    requires IsRun(b, run) && u < |Last(run).threads| && Last(run).g.ctr.numActiveTasks == 0
    requires var c := Last(run).g.ctr;
             && Last(run).threads[u] == Idle(CheckActiveTasks(c.decreaseCnt, c.validationIdx, c.executionIdx))
             && NextIndex(c) >= |b.txns|
    ensures IsRun(b, run') && run <= run' && Last(run').g.ctr.doneMarker
  {
    LastIsSized(b, run);
    var g, c := Last(run).g, Last(run).g.ctr;
    run' := Take(b, run, u, g, Idle(CheckAgain(c.decreaseCnt)));
    run' := Take(b, run', u, g, Idle(SetDone));
    run' := Take(b, run', u, Counted(g, c.(doneMarker := true)), Idle(NextTask));
  }

  /** With no task left and all threads between two tasks, check_done sets the marker. */
  lemma SetMarker(b: Block, run: seq<State>, u: nat) returns (run': seq<State>)
    requires IsRun(b, run) && u < |Last(run).threads| && !Last(run).g.ctr.doneMarker
    requires forall t :: 0 <= t < |Last(run).threads| ==> Last(run).threads[t] == Idle(NextTask)
    requires NextIndex(Last(run).g.ctr) >= |b.txns|
    ensures IsRun(b, run') && run <= run' && Last(run').g.ctr.doneMarker
  {
    LastIsSized(b, run);
    NoGuardsLeft(b, run);
    run' := LoadIndices(b, run, u);
    run' := Take(b, run', u, Last(run).g, Idle(CheckDone));
    run' := CheckIndices(b, run', u);
    run' := MarkDone(b, run', u);
  }

  lemma NoRoleWhenStable(b: Block, s: State, t: nat)
    requires Sized(b, s.g) && RolesOk(b, s) && StableBelow(b, s, |b.txns|) && t < |s.threads|
    ensures !HasRole(s.threads[t])
  {
    assert RoleOk(s.g, t, s.threads[t]);
    forall j | 0 <= j < |b.txns| ensures s.g.txnStatus[j].Executed? { assert IsStable(s, j); }
  }

  lemma AllIdle(b: Block, run: seq<State>)
    requires IsRun(b, run) && AllAtRest(Last(run)) && !Last(run).g.ctr.doneMarker
    requires Sized(b, Last(run).g) && StableBelow(b, Last(run), |b.txns|)
    ensures forall t :: 0 <= t < |Last(run).threads| ==> Last(run).threads[t] == Idle(NextTask)
  {
    var s := Last(run);
    RunInv(b, run, |run| - 1);
    forall t | 0 <= t < |s.threads| ensures s.threads[t] == Idle(NextTask) {
      assert AtRest(s.g, s.threads[t]);
      if s.threads[t].Exited? { ExitedMeansDone(b, run, |run| - 1, t); }
      NoRoleWhenStable(b, s, t);
    }
  }

  lemma FinishUp(b: Block, run: seq<State>) returns (run': seq<State>)
    requires IsRun(b, run) && |Last(run).threads| > 0 && AllAtRest(Last(run)) && !Last(run).g.ctr.doneMarker
    requires Sized(b, Last(run).g) && StableBelow(b, Last(run), |b.txns|)
    ensures IsRun(b, run') && run <= run' && Last(run').g.ctr.doneMarker
  {
    AllIdle(b, run);
    run' := FetchToEnd(b, run, 0);
    run' := SetMarker(b, run', 0);
  }

  /** From rest, the next transaction gets closer to being stable. */
  lemma LeaveRest(b: Block, run: seq<State>, p: nat) returns (run': seq<State>)
    requires IsRun(b, run) && |Last(run).threads| > 0 && AllAtRest(Last(run)) && !Last(run).g.ctr.doneMarker
    requires Sized(b, Last(run).g) && p < |b.txns| && StableBelow(b, Last(run), p) && !IsStable(Last(run), p)
    ensures IsRun(b, run') && run <= run' && |Last(run').threads| == |Last(run).threads|
    ensures Sized(b, Last(run').g) && StableBelow(b, Last(run'), p) && Debt(Last(run'), p) < Debt(Last(run), p)
  {
    RunInv(b, run, |run| - 1);
    AtRestWaits(b, Last(run), p);
    var u := SomeoneIdle(b, run);
    run' := FetchUpTo(b, run, u, p);
    RunApproaches(b, run', |run| - 1, |run'| - 1, p);
  }

  lemma DebtIsNat(s: State, p: nat)
    requires p < |s.g.txnStatus| && p < |s.g.owner| && p < |s.g.mem.inputs|
    ensures Debt(s, p) >= 0
  {
  }

  lemma {:induction false} ReachDone(b: Block, run: seq<State>, p: nat, bound: nat) returns (run': seq<State>)
    requires IsRun(b, run) && AllFinish(b, bound) && |Last(run).threads| > 0
    requires Sized(b, Last(run).g) && p <= |b.txns| && StableBelow(b, Last(run), p)
    ensures IsRun(b, run') && run <= run' && Last(run').g.ctr.doneMarker
    decreases |b.txns| - p, if p < |b.txns| then Debt(Last(run), p) else 0
  {
    if p < |b.txns| && IsStable(Last(run), p) {
      run' := ReachDone(b, run, p + 1, bound);
    } else {
      run' := ComeToRest(b, run, bound);
      RunApproaches(b, run', |run| - 1, |run'| - 1, p);
      if Last(run').g.ctr.doneMarker {
      } else if p == |b.txns| {
        run' := FinishUp(b, run');
      } else if IsStable(Last(run'), p) {
        run' := ReachDone(b, run', p + 1, bound);
      } else {
        run' := LeaveRest(b, run', p);
        DebtIsNat(Last(run), p);
        run' := ReachDone(b, run', p, bound);
      }
    }
  }

  /** Whatever the threads have done so far, the block can still be finished. */
  lemma EveryRunCanFinish(b: Block, run: seq<State>, bound: nat) returns (run': seq<State>)
    requires IsRun(b, run) && AllFinish(b, bound) && |Last(run).threads| > 0
    ensures IsRun(b, run') && run <= run' && Last(run').g.ctr.doneMarker
  {
    LastIsSized(b, run);
    run' := ReachDone(b, run, 0, bound);
  }

  /** Every block whose transactions end can be executed to the end, by any number of threads. */
  lemma EveryBlockCanFinish(b: Block, threads: nat, bound: nat) returns (run: seq<State>)
    requires threads > 0 && AllFinish(b, bound)
    ensures IsRun(b, run) && |run[0].threads| == threads && Last(run).g.ctr.doneMarker
  {
    run := EveryRunCanFinish(b, [InitialState(b, threads)], bound);
  }
}
