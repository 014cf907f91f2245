/** A run in which a validation fails, a transaction reads an estimate and is suspended, and its
    version is given out a second time to wake it. */
module Witness {
  import opened Base
  import opened MVHashMap
  import opened Machine
  import opened Reachable
  import opened Versions
  import opened Eventually

  const K: Key := TableItem(0, 0)
  const M: Key := TableItem(0, 1)

  /** The first transaction writes `K`, the second reads `K` and writes `M`, the third reads `M`. */
  const WRITES_K: Outcome := Success(Output(map[K := Put(Modification(1))], 0))
  const WRITES_M: Outcome := Success(Output(map[M := Put(Modification(1))], 0))
  const NOTHING: Outcome := Success(Output(map[], 0))
  const FIRST: Txn := _ => Finish(WRITES_K)
  const SECOND: Txn := vals => if vals == [] then ReadKey(K) else Finish(WRITES_M)
  const THIRD: Txn := vals => if vals == [] then ReadKey(M) else Finish(NOTHING)
  const BLOCK: Block := Block([FIRST, SECOND, THIRD], _ => Some(0))

  /******* Extending a run *******/

  lemma ExtendRunning(run: seq<State>, t: nat, g': Shared, pc': Pc) returns (run': seq<State>)
    requires IsRun(BLOCK, run) && t < |Last(run).threads| && CanMove(BLOCK, Last(run).g, Last(run).threads[t])
    requires Last(run).threads[t].Task? && Last(run).threads[t].w.Running?
    requires var pc := Last(run).threads[t]; RunStep(BLOCK, Last(run).g, t, pc.ver, pc.w.log, pc.w.e, g', pc')
    ensures IsRun(BLOCK, run') && run' == run + [State(g', Last(run).threads[t := pc'])]
  {
    run' := Take(BLOCK, run, t, g', pc');
  }

  lemma ExtendClosing(run: seq<State>, t: nat, g': Shared, pc': Pc) returns (run': seq<State>)
    requires IsRun(BLOCK, run) && t < |Last(run).threads| && CanMove(BLOCK, Last(run).g, Last(run).threads[t])
    requires Last(run).threads[t].Task? && Last(run).threads[t].w.Closing?
    requires var pc := Last(run).threads[t]; CloseStep(BLOCK, Last(run).g, t, pc.ver, pc.w.outside, pc.w.f, g', pc')
    ensures IsRun(BLOCK, run') && run' == run + [State(g', Last(run).threads[t := pc'])]
  {
    run' := Take(BLOCK, run, t, g', pc');
  }

  lemma ExtendUndoing(run: seq<State>, t: nat, g': Shared, pc': Pc) returns (run': seq<State>)
    requires IsRun(BLOCK, run) && t < |Last(run).threads| && CanMove(BLOCK, Last(run).g, Last(run).threads[t])
    requires Last(run).threads[t].Task? && Last(run).threads[t].w.Undoing?
    requires var pc := Last(run).threads[t]; UndoStep(BLOCK, Last(run).g, pc.ver, pc.w.u, g', pc')
    ensures IsRun(BLOCK, run') && run' == run + [State(g', Last(run).threads[t := pc'])]
  {
    run' := Take(BLOCK, run, t, g', pc');
  }

  /******* The states on the way *******/

  const ONE: WriteOp := Modification(1)
  const NEW: Status := Ready(0, None)
  const REST: Pc := Idle(NextTask)

  const NO_WAIT: Waiting := Waiting([[], [], []], [None, None, None], [], [Nowhere, Nowhere, Nowhere])
  const ONE_WAITS: Waiting := Waiting([[], [2], []], [None, None, None], [false], [Nowhere, Nowhere, Listed(1)])
  const WAIT_OVER: Waiting := Waiting([[], [], []], [None, None, None], [false], [Nowhere, Nowhere, Nowhere])

  /** What the second transaction reads before and after the first one has written. */
  const READ_STORAGE: ReadSet := [ReadDescriptor(K, StorageKind, Bytes(Some(0)))]
  const READ_WRITE: ReadSet := [ReadDescriptor(K, VersionKind(0, 0), Bytes(Some(1)))]

  const DATA1: Data := Insert(map[], M, 1, Entry(false, Write(0, ONE)))
  const DATA2: Data := Insert(DATA1, K, 0, Entry(false, Write(0, ONE)))
  const DATA3: Data := Insert(DATA2, M, 1, Entry(true, Write(0, ONE)))
  const DATA4: Data := Insert(DATA3, M, 1, Entry(false, Write(1, ONE)))

  const MEM0: Memory := Memory(map[], [None, None, None], [None, None, None], map[])
  const MEM1: Memory := Memory(DATA1, [None, Some(READ_STORAGE), None], [None, Some(WRITES_M), None],
      map[(M, 1, 0) := ONE])
  const MEM2: Memory := MEM1.(data := DATA2, written := MEM1.written[(K, 0, 0) := ONE])
  const MEM3: Memory := MEM2.(data := DATA3)
  const MEM4: Memory := Memory(DATA4, [None, Some(READ_WRITE), None], [None, Some(WRITES_M), None],
      MEM2.written[(M, 1, 1) := ONE])

  function Ctr(e: nat, v: nat, active: nat): Counters { Counters(e, v, 0, active, false) }

  const FIRST_RUNS: Pc := Task(Ver(0, 0), Running([], Run))
  const FIRST_WROTE: Pc := Task(Ver(0, 0), Running([], Apply(WRITES_K, {}, {}, true)))
  const SECOND_WAITS: Pc := Task(Ver(1, 0), Redoing(Reincarnate))
  const THIRD_WAITS: Pc := Task(Ver(2, 0), Running([], Wait(0)))

  /** The first transaction runs. */
  const S1: State := State(Shared(Ctr(1, 0, 1), [Executing(0), NEW, NEW], [Some(0), None, None], NO_WAIT, MEM0),
                           [FIRST_RUNS, REST, REST, REST])
  /** The second one runs too. */
  const S2: State := State(Shared(Ctr(2, 1, 2), [Executing(0), Executing(0), NEW], [Some(0), Some(1), None], NO_WAIT,
      MEM0),
                           [FIRST_RUNS, Task(Ver(1, 0), Running([], Run)), REST, REST])
  /** The second one is executed, having read the storage. */
  const S3: State := State(Shared(Ctr(2, 1, 1), [Executing(0), Executed(0), NEW], [Some(0), None, None], NO_WAIT, MEM1),
                           [FIRST_RUNS, REST, REST, REST])
  /** The second one is about to be validated, and the first one has written. */
  const S4: State := State(Shared(Ctr(2, 2, 2), [Executing(0), Executed(0), NEW], [Some(0), None, None], NO_WAIT, MEM2),
                           [FIRST_WROTE, Task(Ver(1, 0), Checking(LoadReads)), REST, REST])
  /** The second one is aborted, its write is an estimate. */
  const S5: State := State(Shared(Ctr(2, 2, 2), [Executing(0), Ready(1, None), NEW], [Some(0), None, None], NO_WAIT,
      MEM3),
                           [FIRST_WROTE, SECOND_WAITS, REST, REST])
  /** The third one has read the estimate and waits. */
  const S6: State := State(Shared(Ctr(3, 2, 3), [Executing(0), Ready(1, None), Suspended(0, 0)],
      [Some(0), None, Some(2)], ONE_WAITS, MEM3),
                           [FIRST_WROTE, SECOND_WAITS, THIRD_WAITS, REST])
  /** The second one is executed again and has resumed the third one. */
  const S7: State := State(Shared(Ctr(2, 2, 3), [Executing(0), Executed(1), Ready(0, Some(0))],
      [Some(0), None, Some(2)], WAIT_OVER, MEM4),
                           [FIRST_WROTE, Task(Ver(1, 1), Closing(false, CountExecution)), THIRD_WAITS, REST])

  /******* The run, from state to state *******/

  lemma FirstRuns() returns (run: seq<State>)
    ensures IsRun(BLOCK, run) && Last(run) == S1
  {
    run := [InitialState(BLOCK, 4)];
    run := Begin(run, 0);
  }

  /** An idle thread takes the next index to execute, and the transaction is new. */
  lemma Begin(run: seq<State>, t: nat) returns (run': seq<State>)
    requires IsRun(BLOCK, run) && Sized(BLOCK, Last(run).g)
    requires t < |Last(run).threads| && Last(run).threads[t] == REST && !Last(run).g.ctr.doneMarker
    requires Last(run).g.ctr.executionIdx < 3 && Last(run).g.ctr.executionIdx <= Last(run).g.ctr.validationIdx
    requires Last(run).g.txnStatus[Last(run).g.ctr.executionIdx] == Ready(0, None)
    ensures IsRun(BLOCK, run')
    ensures var s, ctr, i := Last(run), Last(run).g.ctr, Last(run).g.ctr.executionIdx;
            Last(run') == State(SetStatus(s.g, i, Executing(0), Some(t))
                                .(ctr := ctr.(numActiveTasks := ctr.numActiveTasks + 1, executionIdx := i + 1)),
                                s.threads[t := Task(Ver(i, 0), Running([], Run))])
  {
    var i := Last(run).g.ctr.executionIdx;
    run' := FetchTask(BLOCK, run, t);
    run' := Take(BLOCK, run', t, SetStatus(Last(run').g, i, Executing(0), Some(t)), Task(Ver(i, 0), Running([], Run)));
  }

  /** The second thread finds nothing to validate yet, and begins the second transaction. */
  lemma SecondRuns() returns (run: seq<State>)
    ensures IsRun(BLOCK, run) && Last(run) == S2
  {
    run := FirstRuns();
    run := FetchTask(BLOCK, run, 1);
    var g := Last(run).g;
    run := Take(BLOCK, run, 1, g, DROP);
    run := Take(BLOCK, run, 1, g.(ctr := Ctr(1, 1, 1)), REST);
    run := Begin(run, 1);
  }

  lemma SecondReads() returns (run: seq<State>)
    ensures IsRun(BLOCK, run)
    ensures Last(run) == State(S2.g,
            S2.threads[1 := Task(Ver(1, 0), Running(READ_STORAGE, Apply(WRITES_M, {M}, {}, false)))])
  {
    run := SecondRuns();
    var g := S2.g;
    assert Read(g.mem.data, K, 1) == NotFound;
    assert [] + READ_STORAGE == READ_STORAGE;
    assert RunRead(BLOCK, g, Ver(1, 0), [], Task(Ver(1, 0), Running(READ_STORAGE, Run)), K, NotFound);
    run := ExtendRunning(run, 1, g, Task(Ver(1, 0), Running(READ_STORAGE, Run)));
    assert UpdatesOf(WRITES_M).Keys == {M};
    run := ExtendRunning(run, 1, g, Task(Ver(1, 0), Running(READ_STORAGE, Apply(WRITES_M, {M}, {}, false))));
  }

  lemma SecondApplies() returns (run: seq<State>)
    ensures IsRun(BLOCK, run)
    ensures Last(run) == State(S2.g.(mem := MEM0.(data := DATA1, written := MEM1.written)),
                               S2.threads[1 := Task(Ver(1, 0), Running(READ_STORAGE, Apply(WRITES_M, {}, {}, true)))])
  {
    run := SecondReads();
    var ver, g, e := Ver(1, 0), S2.g, Apply(WRITES_M, {M}, {}, false);
    var done := Apply(WRITES_M, {M} - {M}, {} - {M}, true);
    var g1 := g.(mem := MEM0.(data := DATA1, written := MEM1.written));
    assert EntryAt(g.mem.data, M, 1) == None && done.todo == {} && done.prev == {};
    assert ApplyOne(g, ver, READ_STORAGE, e, g1, Task(ver, Running(READ_STORAGE, done)), M);
    run := ExtendRunning(run, 1, g1, Task(ver, Running(READ_STORAGE, done)));
  }

  lemma SecondWrites() returns (run: seq<State>)
    ensures IsRun(BLOCK, run)
    ensures Last(run) == State(S3.g.(ctr := Ctr(2, 1, 2)), S2.threads[1 := Task(Ver(1, 0), Closing(true, TakeDeps))])
  {
    run := SecondApplies();
    var ver, g := Ver(1, 0), Last(run).g;
    var g1 := g.(mem := g.mem.(inputs := MEM1.inputs));
    run := ExtendRunning(run, 1, g1, Task(ver, Running(READ_STORAGE, Record(WRITES_M, true))));
    var g2 := g1.(mem := MEM1);
    run := ExtendRunning(run, 1, g2, Task(ver, Running(READ_STORAGE, SetExecuted(true))));
    run := ExtendRunning(run, 1, SetStatus(g2, 1, Executed(0), None), Task(ver, Closing(true, TakeDeps)));
  }

  lemma SecondEnds() returns (run: seq<State>)
    ensures IsRun(BLOCK, run) && Last(run) == S3
  {
    run := SecondWrites();
    var ver, g := Ver(1, 0), Last(run).g;
    assert TakeAll(g.dep.place, [], 1) == g.dep.place && g.dep.txnDependency[1 := []] == g.dep.txnDependency;
    run := ExtendClosing(run, 1, g, Task(ver, Closing(true, Resume([], None))));
    run := ExtendClosing(run, 1, g, Task(ver, Closing(true, LoadValidation)));
    run := ExtendClosing(run, 1, g, DROP);
    run := Take(BLOCK, run, 1, g.(ctr := Ctr(2, 1, 1)), REST);
  }

  /** The second thread is about to validate what it has executed, and the first thread writes. */
  lemma FirstWrites() returns (run: seq<State>)
    ensures IsRun(BLOCK, run) && Last(run) == S4
  {
    run := SecondEnds();
    run := FetchTask(BLOCK, run, 1);
    var ver, g := Ver(0, 0), Last(run).g;
    run := Take(BLOCK, run, 1, g, Task(Ver(1, 0), Checking(LoadReads)));
    var e, done := Apply(WRITES_K, {K}, {}, false), Apply(WRITES_K, {K} - {K}, {} - {K}, true);
    assert UpdatesOf(WRITES_K).Keys == {K};
    run := ExtendRunning(run, 0, g, Task(ver, Running([], e)));
    assert EntryAt(DATA1, K, 0) == None;
    var g1 := g.(mem := MEM2);
    assert ApplyOne(g, ver, [], e, g1, Task(ver, Running([], done)), K);
    run := ExtendRunning(run, 0, g1, Task(ver, Running([], done)));
    assert done == FIRST_WROTE.w.e;
  }

  /** The read of the second transaction is no longer what it was. */
  lemma SecondIsStale() returns (run: seq<State>)
    ensures IsRun(BLOCK, run) && Last(run) == State(S4.g, S4.threads[1 := Task(Ver(1, 0), Checking(TryAbort))])
  {
    run := FirstWrites();
    var ver, g := Ver(1, 0), S4.g;
    run := Take(BLOCK, run, 1, g, Task(ver, Checking(Scan(READ_STORAGE, 0))));
    var r := ReadOutcome.Version(0, 0, ONE);
    assert EntryAt(DATA2, K, 0) == Some(Entry(false, Write(0, ONE)));
    assert Read(DATA2, K, 1) == r;
    assert ScanRead(g, ver, READ_STORAGE, 0, Task(ver, Checking(TryAbort)), r);
    run := Take(BLOCK, run, 1, g, Task(ver, Checking(TryAbort)));
  }

  lemma SecondAborts() returns (run: seq<State>)
    ensures IsRun(BLOCK, run)
    ensures Last(run) == State(SetStatus(S4.g, 1, Aborting(0), Some(1)),
            S4.threads[1 := Task(Ver(1, 0), Undoing(Mark({M})))])
  {
    run := SecondIsStale();
    var ver, g := Ver(1, 0), SetStatus(S4.g, 1, Aborting(0), Some(1));
    run := Take(BLOCK, run, 1, g, Task(ver, Undoing(LoadKeys)));
    assert ModifiedKeys(Some(WRITES_M)) == {M};
    run := ExtendUndoing(run, 1, g, Task(ver, Undoing(Mark({M}))));
  }

  lemma SecondIsMarked() returns (run: seq<State>)
    ensures IsRun(BLOCK, run) && Last(run) == State(S5.g, S5.threads[1 := Task(Ver(1, 0), Redoing(LowerValidation))])
  {
    run := SecondAborts();
    var ver, g := Ver(1, 0), Last(run).g;
    assert EntryAt(DATA2, M, 1) == Some(Entry(false, Write(0, ONE)));
    var g1 := g.(mem := MEM3);
    assert MarkOne(g, ver, {M}, g1, Task(ver, Undoing(Mark({M} - {M}))), M);
    run := ExtendUndoing(run, 1, g1, Task(ver, Undoing(Mark({M} - {M}))));
    assert {M} - {M} == {};
    run := ExtendUndoing(run, 1, SetStatus(g1, 1, Ready(1, None), None), Task(ver, Redoing(LowerValidation)));
  }

  lemma SecondIsAborted() returns (run: seq<State>)
    ensures IsRun(BLOCK, run) && Last(run) == S5
  {
    run := SecondIsMarked();
    run := Take(BLOCK, run, 1, S5.g, Task(Ver(1, 0), Redoing(LoadExecution)));
    run := Take(BLOCK, run, 1, S5.g, SECOND_WAITS);
  }

  /** The third transaction reads the estimate. */
  lemma ThirdDepends() returns (run: seq<State>)
    ensures IsRun(BLOCK, run)
    ensures Last(run) == State(Shared(Ctr(3, 2, 3), [Executing(0), Ready(1, None), Executing(0)],
            [Some(0), None, Some(2)], NO_WAIT, MEM3),
                               [FIRST_WROTE, SECOND_WAITS, Task(Ver(2, 0), Running([], Depend(1))), REST])
  {
    run := SecondIsAborted();
    run := Begin(run, 2);
    var g := Last(run).g;
    assert EntryAt(DATA3, M, 1) == Some(Entry(true, Write(0, ONE)));
    assert Read(DATA3, M, 2) == Dependency(1);
    assert RunRead(BLOCK, g, Ver(2, 0), [], Task(Ver(2, 0), Running([], Depend(1))), M, Dependency(1));
    run := ExtendRunning(run, 2, g, Task(Ver(2, 0), Running([], Depend(1))));
  }

  lemma ThirdWaits() returns (run: seq<State>)
    ensures IsRun(BLOCK, run) && Last(run) == S6
  {
    run := ThirdDepends();
    var ver, g := Ver(2, 0), Last(run).g;
    var g1 := g.(dep := NO_WAIT.(locks := [None, Some(2), None]));
    run := ExtendRunning(run, 2, g1, Task(ver, Running([], Suspend(1))));
    var g2 := SetStatus(g1, 2, Suspended(0, 0),
        Some(2)).(dep := g1.dep.(condvars := [false], place := [Nowhere, Nowhere, Pushing]));
    assert [] + [false] == [false] && g1.dep.place[2 := Pushing] == [Nowhere, Nowhere, Pushing];
    run := ExtendRunning(run, 2, g2, Task(ver, Running([], Push(1, 0))));
    assert [] + [2] == [2];
    run := ExtendRunning(run, 2, g2.(dep := ONE_WAITS), THIRD_WAITS);
  }

  /** The second transaction is executed again. */
  lemma SecondRunsAgain() returns (run: seq<State>)
    ensures IsRun(BLOCK, run)
    ensures Last(run) == State(SetStatus(S6.g, 1, Executing(1), Some(1)),
            S6.threads[1 := Task(Ver(1, 1), Running([], Run))])
  {
    run := ThirdWaits();
    run := Take(BLOCK, run, 1, SetStatus(S6.g, 1, Executing(1), Some(1)), Task(Ver(1, 1), Running([], Run)));
  }

  lemma SecondReadsAgain() returns (run: seq<State>)
    ensures IsRun(BLOCK, run)
    ensures Last(run) == State(SetStatus(S6.g, 1, Executing(1), Some(1)),
                               S6.threads[1 := Task(Ver(1, 1), Running(READ_WRITE, Apply(WRITES_M, {M}, {M}, false)))])
  {
    run := SecondRunsAgain();
    var ver, g, r := Ver(1, 1), Last(run).g, ReadOutcome.Version(0, 0, ONE);
    assert EntryAt(DATA3, K, 0) == Some(Entry(false, Write(0, ONE)));
    assert Read(DATA3, K, 1) == r && [] + READ_WRITE == READ_WRITE;
    assert RunRead(BLOCK, g, ver, [], Task(ver, Running(READ_WRITE, Run)), K, r);
    run := ExtendRunning(run, 1, g, Task(ver, Running(READ_WRITE, Run)));
    assert UpdatesOf(WRITES_M).Keys == {M} && ModifiedKeys(Some(WRITES_M)) == {M};
    run := ExtendRunning(run, 1, g, Task(ver, Running(READ_WRITE, Apply(WRITES_M, {M}, {M}, false))));
  }

  lemma SecondAppliesAgain() returns (run: seq<State>)
    ensures IsRun(BLOCK, run)
    ensures Last(run) == State(SetStatus(S6.g, 1, Executing(1),
            Some(1)).(mem := MEM3.(data := DATA4, written := MEM4.written)),
                               S6.threads[1 := Task(Ver(1, 1), Running(READ_WRITE, Apply(WRITES_M, {}, {}, false)))])
  {
    run := SecondReadsAgain();
    var ver, g, e := Ver(1, 1), Last(run).g, Apply(WRITES_M, {M}, {M}, false);
    var done := Apply(WRITES_M, {M} - {M}, {M} - {M}, false);
    var g1 := g.(mem := MEM3.(data := DATA4, written := MEM4.written));
    assert EntryAt(DATA3, M, 1) == Some(Entry(true, Write(0, ONE))) && done.todo == {} && done.prev == {};
    assert ApplyOne(g, ver, READ_WRITE, e, g1, Task(ver, Running(READ_WRITE, done)), M);
    run := ExtendRunning(run, 1, g1, Task(ver, Running(READ_WRITE, done)));
  }

  lemma SecondWritesAgain() returns (run: seq<State>)
    ensures IsRun(BLOCK, run)
    ensures Last(run) == State(SetStatus(S6.g, 1, Executed(1), None).(mem := MEM4),
            S6.threads[1 := Task(Ver(1, 1), Closing(false, TakeDeps))])
  {
    run := SecondAppliesAgain();
    var ver, g := Ver(1, 1), Last(run).g;
    var g1 := g.(mem := g.mem.(inputs := MEM4.inputs));
    run := ExtendRunning(run, 1, g1, Task(ver, Running(READ_WRITE, Record(WRITES_M, false))));
    var g2 := g1.(mem := MEM4);
    run := ExtendRunning(run, 1, g2, Task(ver, Running(READ_WRITE, SetExecuted(false))));
    run := ExtendRunning(run, 1, SetStatus(g2, 1, Executed(1), None), Task(ver, Closing(false, TakeDeps)));
  }

  /** The second transaction resumes the third, and lowers the execution index. */
  lemma ThirdIsResumed() returns (run: seq<State>)
    ensures IsRun(BLOCK, run) && Last(run) == S7
  {
    run := SecondWritesAgain();
    var ver, g := Ver(1, 1), Last(run).g;
    var g1 := g.(dep := ONE_WAITS.(txnDependency := [[], [], []], place := [Nowhere, Nowhere, Taken(1)]));
    assert TakeAll(g.dep.place, [2], 1) == [Nowhere, Nowhere, Taken(1)];
    run := ExtendClosing(run, 1, g1, Task(ver, Closing(false, Resume([2], None))));
    var g2 := SetStatus(g1, 2, Ready(0, Some(0)), Some(2)).(dep := WAIT_OVER);
    assert [2][1..] == [];
    run := ExtendClosing(run, 1, g2, Task(ver, Closing(false, Resume([], Some(2)))));
    run := ExtendClosing(run, 1, g2, Task(ver, Closing(false, DecExecution(2))));
    run := ExtendClosing(run, 1, g2.(ctr := Ctr(2, 2, 3)), Task(ver, Closing(false, CountExecution)));
  }

  /** Version 0 of the third transaction, which has been given out and suspended, is given out once
      more: incarnating does succeed twice for it. */
  lemma RewakeHappens() returns (run: seq<State>)
    ensures IsRun(BLOCK, run) && |run| > 1
    ensures Rewakes(run[|run| - 2], run[|run| - 1], 3, Ver(2, 0), 0) && HasBegun(run, |run| - 2, Ver(2, 0))
  {
    run := ThirdIsResumed();
    run := FetchTask(BLOCK, run, 3);
    var g := Last(run).g;
    run := Take(BLOCK, run, 3, SetStatus(g, 2, Executing(0), Some(2)), Task(Ver(2, 0), Waking(0)));
    RewakeIsSecondIncarnation(BLOCK, run, |run| - 2, 3, Ver(2, 0), 0);
  }
}
