/** Parallel execution, from the first step of the threads to the returned outputs, gives what the
    sequential execution gives. */
module EndToEnd {
  import opened Base
  import opened Delta
  import opened MVHashMap
  import opened Machine
  import opened Invariant
  import opened Reachable
  import opened Replay
  import opened Sequential
  import opened Serializable
  import opened Resolver
  import opened Finish
  import opened Determinism
  import opened Eventually
  import opened SequentialLoop

  /** The deltas of a transaction that the sequential execution reaches resolve to its sequential
      writes. */
  lemma ReachedDelta(b: Block, s: State, limits: Key -> u128, outs: seq<Outcome>, caches: seq<Cache>, j: nat, k: Key)
    requires Inv(b, s) && Complete(b, s) && IsChain(b, outs, caches) && OneLimitPerKey(limits, outs) && j < |outs|
    ensures !DeltaFails(TreeOf(s.g.mem.data, k), b.storage(k), j)
    ensures k in UpdatesOf(outs[j]) ==>
              WriteOf(b, caches[j], k, UpdatesOf(outs[j])[k]) == Some(FinalWrite(b, s.g.mem.data, j, k,
                  UpdatesOf(outs[j])[k]))
  {
    CompleteIsSequential(b, s, limits, outs, caches, j);
    CompleteIsSequential(b, s, limits, outs, caches, |outs|);
    CompleteColumn(b, s, j, k);
    assert Executes(b, j, caches[j], outs[j]);
    assert Fold(TreeOf(s.g.mem.data, k), b.storage(k), j) == Val(StateValue(b, caches[j], k));
    assert j in TreeOf(s.g.mem.data, k) <==> EntryAt(s.g.mem.data, k, j).Some?;
    assert s.g.mem.outputs[j] == Some(outs[j]);
    assert k in UpdatesOf(outs[j]) ==> WriteOf(b, caches[j], k, UpdatesOf(outs[j])[k]).Some?;
  }

  lemma ReachedOutput(b: Block, s: State, limits: Key -> u128, outs: seq<Outcome>, caches: seq<Cache>, j: nat)
    requires Inv(b, s) && Complete(b, s) && IsChain(b, outs, caches) && OneLimitPerKey(limits, outs) && j < |outs| &&
             !outs[j].Abort?
    ensures FinalOutput(b, s.g.mem.data, Some(outs[j].output), j) == SequentialOutput(b, outs, caches, j)
  {
    assert Executes(b, j, caches[j], outs[j]);
    var updates := UpdatesOf(outs[j]);
    forall k | k in updates
      ensures Materialised(b, caches[j], updates)[k] == FinalWrite(b, s.g.mem.data, j, k, updates[k])
    {
      ReachedDelta(b, s, limits, outs, caches, j, k);
    }
    assert Materialised(b, caches[j], updates) == FinalOutput(b, s.g.mem.data, Some(outs[j].output), j).writes;
  }

  /** Where collecting stops is where the sequential execution stops. */
  lemma StopsAlike(b: Block, s: State, limits: Key -> u128, outs: seq<Outcome>, caches: seq<Cache>, j: nat)
    requires Inv(b, s) && Complete(b, s) && IsSequential(b, outs, caches) && OneLimitPerKey(limits, outs) &&
             j < |b.txns| && AllRecorded(s)
    ensures Reached(Outcomes(s), j) <==> j < |outs|
    ensures j < |outs| ==> Outcomes(s)[j] == outs[j]
  {
    CompleteIsSequential(b, s, limits, outs, caches, |outs|);
    var outcomes := Outcomes(s);
    assert forall i :: 0 <= i < |outs| ==> outcomes[i] == outs[i];
    if j >= |outs| { assert !outcomes[|outs| - 1].Success?; }
  }

  /** On a key with a delta of a transaction below `end`, a transaction at or above it has a delta
      that fails. */
  ghost predicate TailFails(b: Block, all: seq<Outcome>, end: nat, i: nat, k: Key, idx: nat)
  {
    && i < end <= idx < |all| && HasDelta(all[i], k)
    && DeltaFails(ColumnOf(all, k), b.storage(k), idx)
  }

  ghost predicate SomeTailFails(b: Block, all: seq<Outcome>, end: nat)
  {
    exists i: nat, k: Key, idx: nat :: TailFails(b, all, end, i, k, idx)
  }

  predicate EndsInError(outs: seq<Outcome>)
  {
    |outs| > 0 && outs[|outs| - 1].Abort?
  }

  lemma SameResult(b: Block, s: State, limits: Key -> u128, outs: seq<Outcome>, caches: seq<Cache>, c: Collected)
    requires Inv(b, s) && Complete(b, s) && IsSequential(b, outs, caches) && OneLimitPerKey(limits, outs)
    requires AllRecorded(s) && IsCollected(Outcomes(s), c)
    ensures FinishResult(b, s.g.mem.data, c) == SequentialResult(b, outs, caches)
  {
    var outcomes := Outcomes(s);
    forall j | 0 <= j < |b.txns| ensures Reached(outcomes, j) <==> j < |outs|
      ensures j < |outs| ==> outcomes[j] == outs[j]
    {
      StopsAlike(b, s, limits, outs, caches, j);
    }
    if c.Final? {
      forall j | 0 <= j < |b.txns|
        ensures FinalOutput(b, s.g.mem.data, c.outs[j], j) == SequentialOutput(b, outs, caches, j)
      {
        if j < |outs| { ReachedOutput(b, s, limits, outs, caches, j); }
      }
    }
  }

  /** Collecting fails exactly when the sequential execution ends in an error. */
  lemma SameError(b: Block, s: State, limits: Key -> u128, outs: seq<Outcome>, caches: seq<Cache>)
    requires Inv(b, s) && Complete(b, s) && IsSequential(b, outs, caches) && OneLimitPerKey(limits, outs)
    requires AllRecorded(s) && |Outcomes(s)| == |b.txns|
    ensures |outs| <= |Outcomes(s)| && forall i :: 0 <= i < |outs| ==> Outcomes(s)[i] == outs[i]
    ensures forall i :: 0 <= i < |b.txns| ==> (Reached(Outcomes(s), i) <==> i < |outs|)
  {
    forall i | 0 <= i < |b.txns|
      ensures Reached(Outcomes(s), i) <==> i < |outs|
      ensures i < |outs| ==> Outcomes(s)[i] == outs[i]
    {
      StopsAlike(b, s, limits, outs, caches, i);
    }
  }

  /** No delta that the sequential execution reaches fails in the columns. */
  lemma ReachedColumns(b: Block, s: State, limits: Key -> u128, outs: seq<Outcome>, caches: seq<Cache>, j: nat, k: Key)
    requires Inv(b, s) && Complete(b, s) && IsChain(b, outs, caches) && OneLimitPerKey(limits, outs) && j < |outs|
    requires AllRecorded(s) && |Outcomes(s)| == |b.txns| && MapHolds(s.g.mem.data, Outcomes(s))
    ensures !DeltaFails(ColumnOf(Outcomes(s), k), b.storage(k), j)
  {
    ReachedDelta(b, s, limits, outs, caches, j, k);
    MapIsColumns(s.g.mem.data, Outcomes(s), k);
    DeltasAlike(TreeOf(s.g.mem.data, k), ColumnOf(Outcomes(s), k), b.storage(k), |b.txns|, j);
  }

  /** Where the sequential execution ends, what is kept ends; only what is behind can fail. */
  lemma SamePanic(b: Block, outs: seq<Outcome>, all: seq<Outcome>)
    requires |outs| <= |all| && forall i :: 0 <= i < |outs| ==> all[i] == outs[i]
    requires forall i :: 0 <= i < |all| ==> (Reached(all, i) <==> i < |outs|)
    requires forall i :: 0 <= i < |outs| - 1 ==> outs[i].Success?
    requires forall j, k :: 0 <= j < |outs| ==> !DeltaFails(ColumnOf(all, k), b.storage(k), j)
    ensures BlockPanics(b, all) <==> !EndsInError(outs) && SomeTailFails(b, all, |outs|)
  {
    assert EndsInError(outs) ==> Reached(all, |outs| - 1) && all[|outs| - 1].Abort?;
    if i: nat, k: Key, idx: nat :| KeptFails(b, all, i, k, idx) {
      assert TailFails(b, all, |outs|, i, k, idx);
    }
    if i: nat, k: Key, idx: nat :| TailFails(b, all, |outs|, i, k, idx) {
      assert KeptFails(b, all, i, k, idx);
    }
  }

  /** The theorem about the whole engine: for every block whose deltas apply sequentially with one
      limit per key, every run that is done finishes with the sequential result, unless going through
      the block in order, past the end of the sequential execution, meets a failing delta on a key of
      a kept delta: then, and only then, resolving panics. */
  lemma ParallelIsSequential(b: Block, run: seq<State>, i: nat, limits: Key -> u128, outs: seq<Outcome>,
                             caches: seq<Cache>,
                             all: seq<Outcome>, c: Collected)
    requires IsRun(b, run) && i < |run| && run[i].g.ctr.doneMarker
    requires IsSequential(b, outs, caches) && OneLimitPerKey(limits, outs)
    requires InOrder(b, all) && |all| == |b.txns|
    requires AllRecorded(run[i]) && IsCollected(Outcomes(run[i]), c)
    ensures Outcomes(run[i]) == all && forall j :: 0 <= j < |outs| ==> all[j] == outs[j]
    ensures FinishResult(b, run[i].g.mem.data, c) == SequentialResult(b, outs, caches)
    ensures FinishPanics(b, run[i].g.mem.data, c) <==> !EndsInError(outs) && SomeTailFails(b, all, |outs|)
    ensures |outs| == |b.txns| ==> !FinishPanics(b, run[i].g.mem.data, c)
  {
    DoneIsInOrder(b, run, i);
    DonePanicsExactly(b, run, i, c, all);
    RunInv(b, run, i);
    SameError(b, run[i], limits, outs, caches);
    SameResult(b, run[i], limits, outs, caches, c);
    forall j, k | 0 <= j < |outs| ensures !DeltaFails(ColumnOf(all, k), b.storage(k), j) {
      ReachedColumns(b, run[i], limits, outs, caches, j, k);
    }
    SamePanic(b, outs, all);
  }

  /** The end of block execution, on the state in which the threads are done: after a possible race
      on modules the block is executed again sequentially, otherwise the outputs are collected and
      resolved. */
  method ExecuteBlockTail(b: Block, mayRace: bool, ghost bound: nat, ghost run: seq<State>, ghost i: nat,
                          ghost limits: Key -> u128, ghost outs: seq<Outcome>, ghost caches: seq<Cache>,
                          ghost all: seq<Outcome>,
                          data: Data, outcomes: seq<Outcome>)
    returns (r: Final)
    requires AllFinish(b, bound) && IsRun(b, run) && i < |run| && run[i].g.ctr.doneMarker
    requires IsSequential(b, outs, caches) && OneLimitPerKey(limits, outs)
    requires InOrder(b, all) && |all| == |b.txns|
    requires AllRecorded(run[i]) && data == run[i].g.mem.data && outcomes == Outcomes(run[i])
    ensures r == Panic <==> !mayRace && !EndsInError(outs) && SomeTailFails(b, all, |outs|)
    ensures r != Panic ==> r == Returned(SequentialResult(b, outs, caches))
  {
    if mayRace {
      var again := ExecuteBlock(b, bound);
      ghost var outs', caches' :| IsSequential(b, outs', caches') && again.value == SequentialResult(b, outs', caches');
      SequentialIsUnique(b, outs, caches, outs', caches');
      return Returned(again.value);
    }
    DoneIsInOrder(b, run, i);
    var c;
    c, r := FinishBlock(b, data, outcomes);
    ParallelIsSequential(b, run, i, limits, outs, caches, all, c);
  }

  /** A resolved delta is what the next transaction would read. */
  lemma ResolvedIsRead(tree: Tree, stored: Option<u128>, idx: nat, limit: u128)
    requires Clean(tree, idx + 1) && OneLimit(tree, idx + 1, limit) && DeltaWrite(tree, stored, idx).Some?
    ensures !ReadDown(tree, idx + 1, None).Dependency?
    ensures ViewOf(ReadDown(tree, idx + 1, None), stored) == Bytes(OpValue(DeltaWrite(tree, stored, idx).value))
  {
    ReadReplays(tree, stored, idx + 1, limit);
  }

  /******* When the sequential loop panics *******/

  /** A delta that does not apply on the cache fails in the map. */
  lemma NextDeltaFails(b: Block, s: State, limits: Key -> u128, outs: seq<Outcome>, caches: seq<Cache>, out: Outcome,
                       k: Key)
    requires Inv(b, s) && Complete(b, s) && IsChain(b, outs, caches) && OneLimitPerKey(limits, outs)
    requires NextFails(b, outs, caches, out, k)
    ensures OutcomesAgree(s, outs, |outs|) && s.g.mem.outputs[|outs|] == Some(out)
    ensures DeltaFails(TreeOf(s.g.mem.data, k), b.storage(k), |outs|)
  {
    var idx, tree := |outs|, TreeOf(s.g.mem.data, k);
    CompleteIsSequential(b, s, limits, outs, caches, idx);
    ReadsAreSequential(b, s, limits, outs, caches, idx, out);
    CompleteColumn(b, s, idx, k);
    assert EntryAt(s.g.mem.data, k, idx).Some?;
    assert Fold(tree, b.storage(k), idx) == Val(StateValue(b, caches[idx], k));
  }

  /** A failing delta behind successes is kept: it makes resolving panic, unless an error follows. */
  lemma FailureIsKept(b: Block, data: Data, all: seq<Outcome>, idx: nat, k: Key, c: Collected)
    requires idx < |all| && (forall j :: 0 <= j < idx ==> all[j].Success?) && HasDelta(all[idx], k)
    requires DeltaFails(TreeOf(data, k), b.storage(k), idx) && IsCollected(all, c)
    ensures match c
            case Final(_) => FinishPanics(b, data, c)
            case Failed(error) => exists j :: idx < j < |all| && Reached(all, j) && all[j] == Abort(error)
  {
    assert Reached(all, idx);
    if c.Final? {
      assert KeptKeyFails(b, data, c.outs, idx, k, idx);
    } else {
      var j :| 0 <= j < |all| && Reached(all, j) && all[j] == Abort(c.error);
      assert j != idx && !(j < idx);
    }
  }

  /** If the sequential loop panics at a delta, every finished run panics too, or returns the first
      error behind that delta. */
  lemma SequentialPanicIsParallel(b: Block, run: seq<State>, i: nat, limits: Key -> u128, outs: seq<Outcome>,
                                  caches: seq<Cache>, out: Outcome, k: Key, c: Collected)
    requires IsRun(b, run) && i < |run| && run[i].g.ctr.doneMarker
    requires FailsAfter(b, outs, caches, out, k) && OneLimitPerKey(limits, outs)
    requires AllRecorded(run[i]) && IsCollected(Outcomes(run[i]), c)
    ensures var all := Outcomes(run[i]);
            match c
            case Final(_) => FinishPanics(b, run[i].g.mem.data, c)
            case Failed(error) => exists j :: |outs| < j < |all| && Reached(all, j) && all[j] == Abort(error)
  {
    RunInv(b, run, i);
    NextDeltaFails(b, run[i], limits, outs, caches, out, k);
    FailureIsKept(b, run[i].g.mem.data, Outcomes(run[i]), |outs|, k, c);
  }

  /******* When resolving panics *******/

  /** If the transactions after the end of the sequential execution could go on without a failing
      delta, resolving does not panic. */
  lemma TailAppliesNoPanic(b: Block, run: seq<State>, i: nat, limits: Key -> u128, outs: seq<Outcome>,
                           caches: seq<Cache>, c: Collected)
    requires IsRun(b, run) && i < |run| && run[i].g.ctr.doneMarker
    requires IsChain(b, outs, caches) && OneLimitPerKey(limits, outs) && |outs| == |b.txns|
    requires AllRecorded(run[i]) && IsCollected(Outcomes(run[i]), c)
    ensures !FinishPanics(b, run[i].g.mem.data, c)
  {
    RunInv(b, run, i);
    if c.Final? {
      forall j: nat, k: Key, idx: nat ensures !KeptKeyFails(b, run[i].g.mem.data, c.outs, j, k, idx) {
        if idx < |outs| { ReachedDelta(b, run[i], limits, outs, caches, idx, k); }
      }
    }
  }

  /** If going on after the end of the sequential execution first meets a failing delta on a key on
      which a kept transaction has a delta, resolving panics. */
  lemma TailFailurePanics(b: Block, run: seq<State>, i: nat, limits: Key -> u128, outs: seq<Outcome>,
                          caches: seq<Cache>,
                          all: seq<Outcome>, caches': seq<Cache>, out: Outcome, j: nat, k: Key, c: Collected)
    requires IsRun(b, run) && i < |run| && run[i].g.ctr.doneMarker
    requires IsSequential(b, outs, caches) && OneLimitPerKey(limits, outs)
    requires IsChain(b, all, caches') && OneLimitPerKey(limits, all) && |outs| <= |all| &&
             NextFails(b, all, caches', out, k)
    requires j < |outs| && k in UpdatesOf(outs[j]) && UpdatesOf(outs[j])[k].Change?
    requires AllRecorded(run[i]) && IsCollected(Outcomes(run[i]), c) && c.Final?
    ensures FinishPanics(b, run[i].g.mem.data, c)
  {
    RunInv(b, run, i);
    NextDeltaFails(b, run[i], limits, all, caches', out, k);
    StopsAlike(b, run[i], limits, outs, caches, j);
    assert KeptKeyFails(b, run[i].g.mem.data, c.outs, j, k, |all|);
  }

  const COUNTER: Key := TableItem(0, 0)
  const INCREMENT: DeltaOp := DeltaOp(1, 0, 100, Plus(1))
  const DECREMENT: DeltaOp := DeltaOp(0, 10, 100, Minus(10))

  /** The first transaction reconfigures, the second would take more than there is. */
  const RECONFIGURES: Txn := _ => Finish(SkipRest(Output(map[COUNTER := Change(INCREMENT)], 0)))
  const OVERDRAWS: Txn := _ => Finish(Success(Output(map[COUNTER := Change(DECREMENT)], 0)))
  const OVERDRAWN_TAIL: Block := Block([RECONFIGURES, OVERDRAWS], _ => Some(3))

  const OVERDRAWN_OUTS: seq<Outcome> := [SkipRest(Output(map[COUNTER := Change(INCREMENT)], 0))]
  const OVERDRAWN_CACHES: seq<Cache> := [map[], map[COUNTER := Some(4)]]

  lemma OverdrawnIsSequential()
    ensures IsSequential(OVERDRAWN_TAIL, OVERDRAWN_OUTS, OVERDRAWN_CACHES) && OneLimitPerKey(_ => 100, OVERDRAWN_OUTS)
    ensures NextFails(OVERDRAWN_TAIL, OVERDRAWN_OUTS, OVERDRAWN_CACHES,
            Success(Output(map[COUNTER := Change(DECREMENT)], 0)), COUNTER)
  {
    var b, out := OVERDRAWN_TAIL, OVERDRAWN_OUTS[0];
    assert Runs(b, 0, CacheView(b, map[]), [], out);
    assert Runs(b, 1, CacheView(b, OVERDRAWN_CACHES[1]), [], Success(Output(map[COUNTER := Change(DECREMENT)], 0)));
    assert Executes(b, 0, map[], out);
    assert Materialised(b, map[], UpdatesOf(out)) == map[COUNTER := Modification(4)];
    assert Follows(b, [out], OVERDRAWN_CACHES, 0);
  }

  lemma OverdrawnIsFinal(run: seq<State>, i: nat, c: Collected)
    requires IsRun(OVERDRAWN_TAIL, run) && i < |run| && run[i].g.ctr.doneMarker
    requires AllRecorded(run[i]) && IsCollected(Outcomes(run[i]), c)
    ensures c.Final?
  {
    OverdrawnIsSequential();
    DoneIsInOrder(OVERDRAWN_TAIL, run, i);
    RunInv(OVERDRAWN_TAIL, run, i);
    SameError(OVERDRAWN_TAIL, run[i], _ => 100, OVERDRAWN_OUTS, OVERDRAWN_CACHES);
  }

  /** A block that executes sequentially and whose every finished parallel run panics. */
  lemma OverdrawnTailPanics(run: seq<State>, i: nat, c: Collected)
    requires IsRun(OVERDRAWN_TAIL, run) && i < |run| && run[i].g.ctr.doneMarker
    requires AllRecorded(run[i]) && IsCollected(Outcomes(run[i]), c)
    ensures IsSequential(OVERDRAWN_TAIL, OVERDRAWN_OUTS, OVERDRAWN_CACHES) && OneLimitPerKey(_ => 100, OVERDRAWN_OUTS)
    ensures FinishPanics(OVERDRAWN_TAIL, run[i].g.mem.data, c)
  {
    OverdrawnIsSequential();
    OverdrawnIsFinal(run, i, c);
    TailFailurePanics(OVERDRAWN_TAIL, run, i, _ => 100, OVERDRAWN_OUTS, OVERDRAWN_CACHES, OVERDRAWN_OUTS,
        OVERDRAWN_CACHES,
                      Success(Output(map[COUNTER := Change(DECREMENT)], 0)), 0, COUNTER, c);
  }

  const OVERDRAWN_COLLECTED: Collected := Collected.Final([Some(Output(map[COUNTER := Change(INCREMENT)], 0)), None])

  lemma OverdrawnCollects(run: seq<State>, i: nat)
    requires IsRun(OVERDRAWN_TAIL, run) && i < |run| && run[i].g.ctr.doneMarker && AllRecorded(run[i]) &&
             |Outcomes(run[i])| == 2
    ensures IsCollected(Outcomes(run[i]), OVERDRAWN_COLLECTED)
  {
    RunInv(OVERDRAWN_TAIL, run, i);
    OverdrawnIsSequential();
    StopsAlike(OVERDRAWN_TAIL, run[i], _ => 100, OVERDRAWN_OUTS, OVERDRAWN_CACHES, 0);
    StopsAlike(OVERDRAWN_TAIL, run[i], _ => 100, OVERDRAWN_OUTS, OVERDRAWN_CACHES, 1);
  }

  /** Such a run exists. */
  lemma OverdrawnTailRun() returns (run: seq<State>)
    ensures IsRun(OVERDRAWN_TAIL, run) && run[|run| - 1].g.ctr.doneMarker && AllRecorded(run[|run| - 1])
    ensures IsCollected(Outcomes(run[|run| - 1]), OVERDRAWN_COLLECTED)
    ensures FinishPanics(OVERDRAWN_TAIL, run[|run| - 1].g.mem.data, OVERDRAWN_COLLECTED)
  {
    assert forall i :: 0 <= i < 2 ==> Finishes(OVERDRAWN_TAIL, i, 0);
    run := EveryBlockCanFinish(OVERDRAWN_TAIL, 1, 0);
    DoneIsInOrder(OVERDRAWN_TAIL, run, |run| - 1);
    OverdrawnCollects(run, |run| - 1);
    OverdrawnTailPanics(run, |run| - 1, OVERDRAWN_COLLECTED);
  }
}
