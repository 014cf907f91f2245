/** What holds over whole runs: no panic, coverage, wake-ups, and the soundness and finality of the
    done marker. */
module Theorems {
  import opened Base
  import opened MVHashMap
  import opened Machine
  import opened Invariant
  import opened Threads
  import opened Roles
  import opened Completion
  import opened Reachable
  import opened Serializable

  /** The thread that takes step `i` of a run. */
  lemma StepOf(b: Block, run: seq<State>, i: nat) returns (t: nat)
    requires IsRun(b, run) && i + 1 < |run|
    ensures Next(b, run[i], t, run[i + 1])
  {
    assert StepAt(b, run, i);
    t :| Next(b, run[i], t, run[i + 1]);
  }

  /** No assertion, expectation or unreachable arm is ever hit. */
  lemma RunNeverPanics(b: Block, run: seq<State>, i: nat, t: nat)
    requires IsRun(b, run) && i < |run| && t < |run[i].threads|
    ensures !run[i].threads[t].Panicked?
  {
    RunInv(b, run, i);
  }

  /******* Coverage *******/

  lemma ExecutionCoverage(b: Block, run: seq<State>, i: nat, j: nat)
    requires IsRun(b, run) && i < |run| && j < |b.txns|
    ensures Sized(b, run[i].g)
    ensures run[i].g.txnStatus[j].Ready? ==>
              || run[i].g.ctr.executionIdx <= j
              || exists t :: && 0 <= t < |run[i].threads|
                             && HasGuard(run[i].threads[t]) && CoversExecution(run[i].threads[t], j)
  {
    RunInv(b, run, i);
    if run[i].g.txnStatus[j].Ready? { assert WillExecute(run[i], j); }
  }

  /** Some read of version `(j, inc)` has gone stale without any thread about to look at it again. */
  ghost predicate Unnoticed(s: State, j: nat, inc: nat, p: nat)
    requires j < |s.g.mem.inputs| && s.g.mem.inputs[j].Some? && p < |s.g.mem.inputs[j].value|
  {
    && s.g.ctr.validationIdx > j
    && !StillValid(s.g.mem.data, j, s.g.mem.inputs[j].value[p])
    && (forall t :: 0 <= t < |s.threads| ==> !CoversValidation(s.threads[t], j, inc) && !Scans(s.threads[t], j, inc, p))
  }

  lemma ValidationCoverage(b: Block, run: seq<State>, i: nat, j: nat, p: nat)
    requires IsRun(b, run) && i < |run| && j < |b.txns|
    ensures Sized(b, run[i].g)
    ensures run[i].g.txnStatus[j].Executed? ==> Recorded(b, run[i].g.mem, j)
    ensures run[i].g.txnStatus[j].Executed? && p < |run[i].g.mem.inputs[j].value| ==>
            !Unnoticed(run[i], j, run[i].g.txnStatus[j].inc, p)
  {
    RunInv(b, run, i);
    if run[i].g.txnStatus[j].Executed? {
      var inc := run[i].g.txnStatus[j].inc;
      assert Recorded(b, run[i].g.mem, j);
      assert WillValidate(run[i], j, inc) || ReadsCovered(run[i], j, inc);
    }
  }

  /** Once done, every recorded read re-reads to the same descriptor. */
  lemma DoneIsValid(b: Block, run: seq<State>, i: nat, j: nat, p: nat)
    requires IsRun(b, run) && i < |run| && run[i].g.ctr.doneMarker && j < |b.txns|
    ensures Sized(b, run[i].g) && run[i].g.mem.inputs[j].Some?
    ensures p < |run[i].g.mem.inputs[j].value| ==> StillValid(run[i].g.mem.data, j, run[i].g.mem.inputs[j].value[p])
  {
    RunInv(b, run, i);
    CompleteColumn(b, run[i], j, AccessPath(0, false));
    if p < |run[i].g.mem.inputs[j].value| { CompleteIsValid(b, run[i], j, p); }
  }

  /******* The map and the recorded outputs *******/

  /** Between executions and aborts, the entries of a transaction are those of its last output:
      done when it is executed, estimates when it is ready again. */
  lemma MapAgreesWithOutputs(b: Block, run: seq<State>, i: nat, j: nat, k: Key)
    requires IsRun(b, run) && i < |run| && j < |b.txns|
    ensures Sized(b, run[i].g)
    ensures var g, entry, last := run[i].g, EntryAt(run[i].g.mem.data, k, j), run[i].g.mem.outputs[j];
            match g.txnStatus[j]
            case Executed(inc) => last.Some? &&
              entry == if k in UpdatesOf(last.value) then Some(Entry(false, CellOf(UpdatesOf(last.value)[k], inc)))
                  else None
            case Ready(inc, None) =>
              && (entry.Some? <==> k in ModifiedKeys(last))
              && (entry.Some? ==> entry.value.estimate && (entry.value.cell.Write? ==> entry.value.cell.inc < inc))
            case _ => true
  {
    RunInv(b, run, i);
    OwnerFits(b, run[i], j);
    assert ColumnOk(run[i].g.mem, j, PhaseOf(run[i], j)) && CellOk(run[i].g.mem, j, PhaseOf(run[i], j), k);
    if run[i].g.txnStatus[j].Executed? { assert Recorded(b, run[i].g.mem, j); }
  }

  /** Once done, no estimate is left anywhere. */
  lemma DoneHasNoEstimate(b: Block, run: seq<State>, i: nat, j: nat, k: Key)
    requires IsRun(b, run) && i < |run| && run[i].g.ctr.doneMarker
    ensures EntryAt(run[i].g.mem.data, k, j).Some? ==> !EntryAt(run[i].g.mem.data, k, j).value.estimate
  {
    RunInv(b, run, i);
    if j < |b.txns| { CompleteColumn(b, run[i], j, k); }
  }

  /******* Suspended transactions *******/

  datatype Holder = ByList(dep: nat) | ByFinisher(thread: nat) | ByPusher(thread: nat)

  /** Where transaction `j` is kept until it is resumed. */
  predicate Keeps(s: State, h: Holder, j: nat)
  {
    match h
    case ByList(d) => d < |s.g.dep.txnDependency| && j in s.g.dep.txnDependency[d]
    case ByFinisher(t) => t < |s.threads| && HasTaken(s.threads[t], j)
    case ByPusher(t) => t < |s.threads| && IsPushing(s.threads[t]) && s.threads[t].ver.txn == j
  }

  /** The transaction whose end the holder waits for. */
  function WaitsFor(s: State, h: Holder): nat
    requires h.ByList? || h.thread < |s.threads|
    requires h.ByFinisher? ==> s.threads[h.thread].Task?
    requires h.ByPusher? ==> IsPushing(s.threads[h.thread])
  {
    match h
    case ByList(d) => d
    case ByFinisher(t) => s.threads[t].ver.txn
    case ByPusher(t) => s.threads[t].w.e.dep
  }

  function HolderFor(s: State, j: nat): Holder
    requires j < |s.g.dep.place| && j < |s.g.owner|
  {
    match s.g.dep.place[j]
    case Listed(d) => ByList(d)
    case Taken(t) => ByFinisher(t)
    case _ => ByPusher(if s.g.owner[j].Some? then s.g.owner[j].value else 0)
  }

  lemma KeptBy(b: Block, s: State, j: nat, h: Holder)
    requires Inv(b, s) && j < |b.txns| && Keeps(s, h, j)
    ensures s.g.txnStatus[j].Suspended? && h == HolderFor(s, j) && WaitsFor(s, h) < j
    ensures !h.ByFinisher? ==> WillDrain(s, WaitsFor(s, h))
  {
    match h
    case ByList(d) => assert ListOk(s, d) && WaitsAt(s.g, j, d, Listed(d));
    case ByFinisher(t) => assert HolderOk(s, t, s.threads[t]) && WaitsAt(s.g, j, s.threads[t].ver.txn, Taken(t));
    case ByPusher(t) => assert HolderOk(s, t, s.threads[t]) && RoleOk(s.g, t, s.threads[t]);
  }

  /** No lost wake-up: a transaction is suspended exactly when some list, finisher or thread about
      to push keeps it; there is one such holder, it waits for a lower transaction, and that
      transaction has yet to finish or has a finisher about to drain its list. */
  lemma NoLostWakeup(b: Block, run: seq<State>, i: nat, j: nat)
    requires IsRun(b, run) && i < |run| && j < |b.txns|
    ensures Sized(b, run[i].g)
    ensures run[i].g.txnStatus[j].Suspended? ==> Keeps(run[i], HolderFor(run[i], j), j)
    ensures forall h :: Keeps(run[i], h, j) ==>
              && run[i].g.txnStatus[j].Suspended?
              && h == HolderFor(run[i], j)
              && WaitsFor(run[i], h) < j
              && (!h.ByFinisher? ==> WillDrain(run[i], WaitsFor(run[i], h)))
  {
    RunInv(b, run, i);
    assert PlaceOk(run[i], j);
    OwnerFits(b, run[i], j);
    forall h | Keeps(run[i], h, j)
      ensures run[i].g.txnStatus[j].Suspended? && h == HolderFor(run[i], j) && WaitsFor(run[i], h) < j
      ensures !h.ByFinisher? ==> WillDrain(run[i], WaitsFor(run[i], h))
    {
      KeptBy(b, run[i], j, h);
    }
  }

  /** No list holds a transaction twice. */
  lemma ListsHaveNoDuplicates(b: Block, run: seq<State>, i: nat, d: nat, t: nat)
    requires IsRun(b, run) && i < |run|
    ensures d < |b.txns| ==> d < |run[i].g.dep.txnDependency| && NoDuplicates(run[i].g.dep.txnDependency[d])
    ensures t < |run[i].threads| && run[i].threads[t].Task? && run[i].threads[t].w.Closing? &&
            run[i].threads[t].w.f.Resume? ==>
              NoDuplicates(run[i].threads[t].w.f.rest)
  {
    RunInv(b, run, i);
    if d < |b.txns| { assert ListOk(run[i], d); }
    if t < |run[i].threads| { assert HolderOk(run[i], t, run[i].threads[t]); }
  }

  /******* The done marker *******/

  /** No task guard is live and every transaction is executed. */
  ghost predicate Quiet(b: Block, s: State)
    requires Sized(b, s.g)
  {
    && s.g.ctr.numActiveTasks == 0
    && (forall t :: 0 <= t < |s.threads| ==> !HasGuard(s.threads[t]))
    && s.g.ctr.validationIdx >= |b.txns| && s.g.ctr.executionIdx >= |b.txns|
    && (forall j :: 0 <= j < |b.txns| ==> s.g.txnStatus[j].Executed?)
  }

  /** In step `c` of the run, thread `t` reads that there is no active task, and goes on. */
  ghost predicate ReadsNoTasks(b: Block, run: seq<State>, c: nat, t: nat, observed: nat)
    requires c + 1 < |run|
  {
    && Sized(b, run[c].g) && Next(b, run[c], t, run[c + 1])
    && run[c].threads[t].Idle? && run[c].threads[t].i.CheckActiveTasks?
    && run[c + 1].threads[t] == Idle(CheckAgain(observed))
  }

  /** From after step `c` up to state `i`, thread `t` is in the rest of that call of check_done. */
  ghost predicate StaysInCheck(run: seq<State>, c: nat, i: nat, t: nat)
    requires i < |run|
  {
    forall k :: c < k <= i ==> InCheck(run[k], t)
  }

  predicate InCheck(s: State, t: nat)
  {
    t < |s.threads| && s.threads[t].Idle? && (s.threads[t].i.CheckAgain? || s.threads[t].i.SetDone?)
  }

  /** Thread `t`, now in state `i`, has read zero active tasks in step `c`. */
  ghost predicate Checked(b: Block, run: seq<State>, c: nat, i: nat, t: nat, observed: nat)
    requires i < |run|
  {
    && c < i && ReadsNoTasks(b, run, c, t, observed) && StaysInCheck(run, c, i, t)
    && run[c].g.ctr.decreaseCnt <= run[i].g.ctr.decreaseCnt
    && (run[c].g.ctr.decreaseCnt > observed || Quiet(b, run[c]))
  }

  /** Thread `t`, now in state `i`, has read zero active tasks in step `c`, and all was quiet then. */
  ghost predicate QuietChecked(b: Block, run: seq<State>, c: nat, i: nat, t: nat, observed: nat)
    requires i < |run|
  {
    && c < i && ReadsNoTasks(b, run, c, t, observed) && StaysInCheck(run, c, i, t)
    && Quiet(b, run[c])
  }

  ghost predicate CheckedBy(b: Block, run: seq<State>, i: nat, t: nat)
    requires i < |run| && t < |run[i].threads|
  {
    match run[i].threads[t]
    case Idle(CheckAgain(observed)) => exists c :: Checked(b, run, c, i, t, observed)
    case Idle(SetDone) => exists c, observed :: QuietChecked(b, run, c, i, t, observed)
    case _ => true
  }

  /** In step `d`, thread `t` sets the done marker, which was not set before. */
  ghost predicate SetsDone(b: Block, run: seq<State>, d: nat, t: nat)
    requires d + 1 < |run|
  {
    && Next(b, run[d], t, run[d + 1]) && run[d].threads[t] == Idle(SetDone)
    && !run[d].g.ctr.doneMarker && run[d + 1].g.ctr.doneMarker
  }

  ghost predicate WasSet(b: Block, run: seq<State>, i: nat)
    requires i < |run|
  {
    exists d, t, c, observed :: 0 <= d < i && SetAfter(b, run, d, t, c, observed)
  }

  ghost predicate SetAfter(b: Block, run: seq<State>, d: nat, t: nat, c: nat, observed: nat)
    requires d + 1 < |run|
  {
    SetsDone(b, run, d, t) && QuietChecked(b, run, c, d, t, observed)
  }

  lemma StaysChecked(b: Block, run: seq<State>, i: nat, t: nat)
    requires i + 1 < |run| && t < |run[i].threads| == |run[i + 1].threads| && CheckedBy(b, run, i, t)
    requires run[i + 1].threads[t] == run[i].threads[t]
    requires run[i].g.ctr.decreaseCnt <= run[i + 1].g.ctr.decreaseCnt
    ensures CheckedBy(b, run, i + 1, t)
  {
    var next := i + 1;
    match run[i].threads[t]
    case Idle(CheckAgain(observed)) =>
      var c :| Checked(b, run, c, i, t, observed);
      assert Checked(b, run, c, next, t, observed);
    case Idle(SetDone) =>
      var c, observed :| QuietChecked(b, run, c, i, t, observed);
      assert QuietChecked(b, run, c, next, t, observed);
    case _ =>
  }

  /** Reading no active task after both indices have been read past the end. */
  lemma QuietWhenChecked(b: Block, s: State, t: nat, s': State, observed: nat)
    requires Inv(b, s) && Next(b, s, t, s') && s.threads[t].Idle? && s.threads[t].i.CheckActiveTasks?
    requires s'.threads[t] == Idle(CheckAgain(observed))
    ensures s.g.ctr.decreaseCnt > observed || Quiet(b, s)
  {
    assert CheckOk(b, s, s.threads[t]);
    ActiveTasksChecked(b, s, observed, s.threads[t].i.valIdx, s.threads[t].i.execIdx);
    forall u | 0 <= u < |s.threads| ensures !HasGuard(s.threads[u]) {
      if HasGuard(s.threads[u]) { NoGuards(s.threads, u); }
    }
  }

  lemma OwnStepChecked(b: Block, run: seq<State>, i: nat, t: nat)
    requires i + 1 < |run| && Inv(b, run[i]) && Next(b, run[i], t, run[i + 1]) && CheckedBy(b, run, i, t)
    requires run[i].g.ctr.decreaseCnt <= run[i + 1].g.ctr.decreaseCnt
    ensures CheckedBy(b, run, i + 1, t)
    ensures run[i + 1].g.ctr.doneMarker && !run[i].g.ctr.doneMarker ==> WasSet(b, run, i + 1)
  {
    var pc, pc', next := run[i].threads[t], run[i + 1].threads[t], i + 1;
    if !IsCheck(pc) {
      NotACheck(b, run[i].g, t, pc, run[i + 1].g, pc');
    } else if pc.i.CheckActiveTasks? && pc'.i.CheckAgain? {
      QuietWhenChecked(b, run[i], t, run[i + 1], pc.i.observed);
      assert Checked(b, run, i, next, t, pc.i.observed);
    } else if pc.i.CheckAgain? && pc'.i.SetDone? {
      var c :| Checked(b, run, c, i, t, pc.i.observed);
      assert QuietChecked(b, run, c, next, t, pc.i.observed);
    } else if pc.i.SetDone? {
      var c, observed :| QuietChecked(b, run, c, i, t, observed);
      assert !run[i].g.ctr.doneMarker ==> SetAfter(b, run, i, t, c, observed);
    }
  }

  lemma {:induction false} ChecksHappened(b: Block, run: seq<State>, i: nat)
    requires IsRun(b, run) && i < |run|
    ensures run[i].g.ctr.doneMarker ==> WasSet(b, run, i)
    ensures forall t :: 0 <= t < |run[i].threads| ==> CheckedBy(b, run, i, t)
  {
    if i == 0 {
    } else {
      var before := i - 1;
      ChecksHappened(b, run, before);
      RunInv(b, run, before);
      var t := StepOf(b, run, before);
      var s, s' := run[before], run[i];
      IndexFootprint(b, s.g, t, s.threads[t], s'.g, s'.threads[t]);
      OwnStepChecked(b, run, before, t);
      forall u | 0 <= u < |s'.threads| ensures CheckedBy(b, run, i, u) {
        if u != t { StaysChecked(b, run, before, u); }
      }
      if s.g.ctr.doneMarker {
        var d, x, c, observed :| 0 <= d < before && SetAfter(b, run, d, x, c, observed);
        assert SetAfter(b, run, d, x, c, observed);
      }
    }
  }

  /** If the done marker is set, some thread has set it in a step `d`; in an earlier step `c` of the
      same call of check_done it read the number of active tasks, and then no guard was live, both
      indices were past the end and every transaction was executed. */
  lemma DoneIsSound(b: Block, run: seq<State>, i: nat) returns (t: nat, c: nat, d: nat)
    requires IsRun(b, run) && i < |run| && run[i].g.ctr.doneMarker
    ensures c < d < i && SetsDone(b, run, d, t) && StaysInCheck(run, c, d, t)
    ensures exists observed :: ReadsNoTasks(b, run, c, t, observed)
    ensures Quiet(b, run[c])
  {
    ChecksHappened(b, run, i);
    var e, u, f, observed :| 0 <= e < i && SetAfter(b, run, e, u, f, observed);
    t, c, d := u, f, e;
    assert ReadsNoTasks(b, run, c, t, observed);
  }

  lemma DoneStep(b: Block, s: State, t: nat, s': State)
    requires Sized(b, s.g) && CompletionOk(b, s) && s.g.ctr.doneMarker && Next(b, s, t, s')
    ensures s'.g == s.g.(ctr := s'.g.ctr) && s'.g.ctr.doneMarker
  {
    assert Harmless(s.threads[t], |b.txns|);
    HarmlessStep(b, s.g, t, s.threads[t], s'.g, s'.threads[t]);
  }

  /** Once done, only counters and program counters change. */
  lemma {:induction false} DoneIsFinal(b: Block, run: seq<State>, i: nat, k: nat)
    requires IsRun(b, run) && i <= k < |run| && run[i].g.ctr.doneMarker
    ensures run[k].g == run[i].g.(ctr := run[k].g.ctr) && run[k].g.ctr.doneMarker
    decreases k
  {
    if i < k {
      DoneIsFinal(b, run, i, k - 1);
      RunInv(b, run, k - 1);
      var t := StepOf(b, run, k - 1);
      DoneStep(b, run[k - 1], t, run[k]);
    }
  }

  /** Once done, every transaction is executed and no thread works on any. */
  lemma DoneIsComplete(b: Block, run: seq<State>, i: nat)
    requires IsRun(b, run) && i < |run| && run[i].g.ctr.doneMarker
    ensures Sized(b, run[i].g) && Complete(b, run[i])
  {
    RunInv(b, run, i);
  }

  /** Threads leave only once the marker is set. */
  lemma {:induction false} ExitedMeansDone(b: Block, run: seq<State>, i: nat, t: nat)
    requires IsRun(b, run) && i < |run| && t < |run[i].threads| && run[i].threads[t].Exited?
    ensures run[i].g.ctr.doneMarker
  {
    if i == 0 {
    } else {
      var u := StepOf(b, run, i - 1);
      if run[i - 1].threads[t].Exited? {
        ExitedMeansDone(b, run, i - 1, t);
        DoneIsFinal(b, run, i - 1, i);
      } else {
        ExitStep(b, run[i - 1].g, t, run[i - 1].threads[t], run[i].g, run[i].threads[t]);
      }
    }
  }

  lemma ExitStep(b: Block, g: Shared, t: nat, pc: Pc, g': Shared, pc': Pc)
    requires Step(b, g, t, pc, g', pc') && pc'.Exited?
    ensures g.ctr.doneMarker && g' == g
  {
  }
}
