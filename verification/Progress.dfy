/** No deadlock: as long as some thread has not left, some thread can take a step. */
module Progress {
  import opened Base
  import opened MVHashMap
  import opened Machine
  import opened Invariant
  import opened Roles
  import opened Reachable
  import opened Theorems

  /******* Only locks and condition variables block *******/

  /** The thread waits for a lock to be released or for a condition variable to be set. */
  predicate Blocked(g: Shared, pc: Pc)
  {
    pc.Task? &&
    match pc.w
    case Running(_, Depend(dep)) => dep < |g.dep.locks| && g.dep.locks[dep].Some?
    case Running(_, Wait(cond)) => cond < |g.dep.condvars| && !g.dep.condvars[cond]
    case Closing(_, TakeDeps) => pc.ver.txn < |g.dep.locks| && g.dep.locks[pc.ver.txn].Some?
    case _ => false
  }

  /** Where the step reads the map, it does not run into an estimate that is being marked. */
  ghost predicate ReadsPlainly(b: Block, g: Shared, pc: Pc, pc': Pc)
  {
    match pc
    case Task(ver, Checking(Scan(log, pos))) =>
      pos < |log| ==> ScanRead(g, ver, log, pos, pc', Read(g.mem.data, log[pos].key, ver.txn))
    case Task(ver, Running(log, Run)) => ver.txn < |b.txns| ==> RunsPlainly(b, g, ver, log, pc')
    case _ => true
  }

  ghost predicate RunsPlainly(b: Block, g: Shared, ver: Version, log: ReadSet, pc': Pc)
    requires ver.txn < |b.txns|
  {
    match b.txns[ver.txn](SeenOf(log))
    case ReadKey(key) => RunRead(b, g, ver, log, pc', key, Read(g.mem.data, key, ver.txn))
    case Finish(_) => true
  }

  lemma IdleMoves(b: Block, g: Shared, i: IdlePc) returns (g': Shared, pc': Pc)
    ensures IdleStep(b, g, i, g', pc')
  {
    var n, ctr := |b.txns|, g.ctr;
    g' := g;
    match i
    case NextTask => pc' := if ctr.doneMarker then Exited else Idle(LoadValidationIdx);
    case LoadValidationIdx => pc' := Idle(LoadExecutionIdx(ctr.validationIdx));
    case LoadExecutionIdx(v) => pc' := Idle(if v < ctr.executionIdx then TryValidate else TryExecute);
    case TryValidate => pc' := Idle(if ctr.validationIdx >= n then CheckDone else ValidateNewGuard);
    case ValidateNewGuard => g', pc' := g.(ctr := ctr.(numActiveTasks := ctr.numActiveTasks + 1)),
        Guarded(ValidateFetchAdd);
    case TryExecute => pc' := Idle(if ctr.executionIdx >= n then CheckDone else ExecuteNewGuard);
    case ExecuteNewGuard => g', pc' := g.(ctr := ctr.(numActiveTasks := ctr.numActiveTasks + 1)),
        Guarded(ExecuteFetchAdd);
    case CheckDone => pc' := Idle(CheckValidationIdx(ctr.decreaseCnt));
    case CheckValidationIdx(observed) => pc' := Idle(CheckExecutionIdx(observed, ctr.validationIdx));
    case CheckExecutionIdx(observed, v) => pc' := Idle(CheckActiveTasks(observed, v, ctr.executionIdx));
    case CheckActiveTasks(observed, v, e) =>
      pc' := Idle(if Min(e, v) < n || ctr.numActiveTasks > 0 then NextTask else CheckAgain(observed));
    case CheckAgain(observed) => pc' := Idle(if observed == ctr.decreaseCnt then SetDone else NextTask);
    case SetDone => g', pc' := g.(ctr := ctr.(doneMarker := true)), Idle(NextTask);
  }

  lemma IncarnateMoves(b: Block, g: Shared, t: nat, i: nat) returns (g': Shared, pc': Pc)
    requires Sized(b, g) && i < |b.txns|
    ensures TryIncarnate(b, g, t, i, g', pc')
  {
    match g.txnStatus[i]
    case Ready(inc, None) => g', pc' := SetStatus(g, i, Executing(inc), Some(t)), Task(Ver(i, inc), Running([], Run));
    case Ready(inc, Some(cond)) => g', pc' := SetStatus(g, i, Executing(inc), g.owner[i]),
        Task(Ver(i, inc), Waking(cond));
    case _ => g', pc' := g, DROP;
  }

  lemma GuardedMoves(b: Block, g: Shared, t: nat, h: GuardPc) returns (g': Shared, pc': Pc)
    requires Sized(b, g)
    ensures GuardedStep(b, g, t, h, g', pc')
  {
    var n, ctr := |b.txns|, g.ctr;
    g', pc' := g, DROP;
    match h
    case ValidateFetchAdd =>
      g', pc' := g.(ctr := ctr.(validationIdx := ctr.validationIdx + 1)),
          Guarded(ValidateIsExecuted(ctr.validationIdx));
    case ValidateIsExecuted(idx) =>
      if idx < n && g.txnStatus[idx].Executed? { pc' := Task(Ver(idx, g.txnStatus[idx].inc), Checking(LoadReads)); }
    case ExecuteFetchAdd =>
      g', pc' := g.(ctr := ctr.(executionIdx := ctr.executionIdx + 1)), Guarded(ExecuteIncarnate(ctr.executionIdx));
    case ExecuteIncarnate(idx) => if idx < n { g', pc' := IncarnateMoves(b, g, t, idx); }
    case DropGuard =>
      if ctr.numActiveTasks > 0 {
        g', pc' := g.(ctr := ctr.(numActiveTasks := ctr.numActiveTasks - 1)), Idle(NextTask);
      } else {
        pc' := Panicked;
      }
  }

  lemma CheckMoves(b: Block, g: Shared, t: nat, ver: Version, c: CheckPc) returns (g': Shared, pc': Pc)
    requires Sized(b, g) && ver.txn < |b.txns|
    ensures CheckStep(b, g, t, ver, c, g', pc') && ReadsPlainly(b, g, Task(ver, Checking(c)), pc')
  {
    g', pc' := g, DROP;
    match c
    case LoadReads =>
      pc' := if g.mem.inputs[ver.txn].Some? then Task(ver, Checking(Scan(g.mem.inputs[ver.txn].value, 0)))
          else Panicked;
    case Scan(log, pos) =>
      if pos < |log| {
        var r := Read(g.mem.data, log[pos].key, ver.txn);
        pc' := Task(ver, Checking(if KindOf(r) == Some(log[pos].kind) then Scan(log, pos + 1) else TryAbort));
        assert ScanRead(g, ver, log, pos, pc', r);
      }
    case TryAbort =>
      if g.txnStatus[ver.txn] == Executed(ver.inc) {
        g', pc' := SetStatus(g, ver.txn, Status.Aborting(ver.inc), Some(t)), Task(ver, Undoing(LoadKeys));
      }
  }

  lemma UndoMoves(b: Block, g: Shared, ver: Version, u: UndoPc) returns (g': Shared, pc': Pc)
    requires Sized(b, g) && ver.txn < |b.txns|
    ensures UndoStep(b, g, ver, u, g', pc')
  {
    g', pc' := g, Panicked;
    match u
    case LoadKeys => pc' := Task(ver, Undoing(Mark(ModifiedKeys(g.mem.outputs[ver.txn]))));
    case Mark(keys) =>
      if keys != {} {
        var k :| k in keys;
        if EntryAt(g.mem.data, k, ver.txn).Some? {
          g', pc' := g.(mem := g.mem.(data := Marked(g.mem.data, k, ver.txn))), Task(ver, Undoing(Mark(keys - {k})));
        }
        assert MarkOne(g, ver, keys, g', pc', k);
      } else if g.txnStatus[ver.txn] == Status.Aborting(ver.inc) {
        g', pc' := SetStatus(g, ver.txn, Ready(ver.inc + 1, None), None), Task(ver, Redoing(LowerValidation));
      }
  }

  lemma RedoMoves(b: Block, g: Shared, t: nat, ver: Version, r: RedoPc) returns (g': Shared, pc': Pc)
    requires Sized(b, g) && ver.txn < |b.txns|
    ensures RedoStep(b, g, t, ver, r, g', pc')
  {
    g', pc' := g, Task(ver, Redoing(LoadExecution));
    match r
    case LowerValidation =>
      if g.ctr.validationIdx > ver.txn + 1 {
        g', pc' := g.(ctr := g.ctr.(validationIdx := ver.txn + 1)), Task(ver, Redoing(CountAbort));
      }
    case CountAbort => g' := g.(ctr := g.ctr.(decreaseCnt := g.ctr.decreaseCnt + 1));
    case LoadExecution => pc' := if g.ctr.executionIdx > ver.txn then Task(ver, Redoing(Reincarnate)) else DROP;
    case Reincarnate => g', pc' := IncarnateMoves(b, g, t, ver.txn);
  }

  lemma ReadMoves(b: Block, g: Shared, ver: Version, log: ReadSet, key: Key) returns (pc': Pc)
    ensures RunRead(b, g, ver, log, pc', key, Read(g.mem.data, key, ver.txn))
  {
    var r := Read(g.mem.data, key, ver.txn);
    pc' := if r.Dependency? then Task(ver, Running(log, Depend(r.dep)))
    else Task(ver, Running(log + [ReadDescriptor(key, KindOf(r).value, ViewOf(r, b.storage(key)))], Run));
    assert RunRead(b, g, ver, log, pc', key, r);
  }

  lemma ApplyMoves(b: Block, g: Shared, t: nat, ver: Version, log: ReadSet, e: RunPc) returns (g': Shared, pc': Pc)
    requires CanMove(b, g, Task(ver, Running(log, e))) && e.Apply?
    ensures RunStep(b, g, t, ver, log, e, g', pc')
  {
    g', pc' := g, Panicked;
    if e.todo != {} {
      var k :| k in e.todo;
      var update, found := UpdatesOf(e.out)[k], EntryAt(g.mem.data, k, ver.txn);
      if !(update.Put? && found.Some? && found.value.cell.Write? && found.value.cell.inc >= ver.inc) {
        g' := g.(mem := g.mem.(
                   data := Insert(g.mem.data, k, ver.txn, Entry(false, CellOf(update, ver.inc))),
                   written := if update.Put? then g.mem.written[(k, ver.txn, ver.inc) := update.op]
                       else g.mem.written));
        pc' := Task(ver, Running(log, Apply(e.out, e.todo - {k}, e.prev - {k}, e.outside || k !in e.prev)));
      }
      assert ApplyOne(g, ver, log, e, g', pc', k);
    } else if e.prev != {} {
      var k :| k in e.prev;
      if k in g.mem.data {
        g' := g.(mem := g.mem.(data := Deleted(g.mem.data, k, ver.txn)));
        pc' := Task(ver, Running(log, Apply(e.out, e.todo, e.prev - {k}, e.outside)));
      }
      assert DeleteOne(g, ver, log, e, g', pc', k);
    } else {
      g' := g.(mem := g.mem.(inputs := g.mem.inputs[ver.txn := Some(log)]));
      pc' := Task(ver, Running(log, Record(e.out, e.outside)));
    }
  }

  lemma RunMoves(b: Block, g: Shared, t: nat, ver: Version, log: ReadSet, e: RunPc) returns (g': Shared, pc': Pc)
    requires CanMove(b, g, Task(ver, Running(log, e))) && !Blocked(g, Task(ver, Running(log, e)))
    ensures RunStep(b, g, t, ver, log, e, g', pc') && ReadsPlainly(b, g, Task(ver, Running(log, e)), pc')
  {
    g', pc' := g, Task(ver, Running(log, Run));
    match e
    case Run =>
      match b.txns[ver.txn](SeenOf(log)) {
        case ReadKey(key) => pc' := ReadMoves(b, g, ver, log, key);
        case Finish(out) =>
          pc' := Task(ver, Running(log, Apply(out, UpdatesOf(out).Keys, ModifiedKeys(g.mem.outputs[ver.txn]), false)));
      }
    case Depend(dep) =>
      if !g.txnStatus[dep].Executed? {
        g', pc' := g.(dep := g.dep.(locks := g.dep.locks[dep := Some(t)])), Task(ver, Running(log, Suspend(dep)));
      }
    case Suspend(dep) =>
      if g.txnStatus[ver.txn].Executing? {
        var cond := |g.dep.condvars|;
        g' := SetStatus(g, ver.txn, Suspended(g.txnStatus[ver.txn].inc, cond), g.owner[ver.txn])
        .(dep := g.dep.(condvars := g.dep.condvars + [false], place := g.dep.place[ver.txn := Pushing]));
        pc' := Task(ver, Running(log, Push(dep, cond)));
      } else {
        pc' := Panicked;
      }
    case Push(dep, cond) =>
      g' := g.(dep := g.dep.(txnDependency := g.dep.txnDependency[dep := g.dep.txnDependency[dep] + [ver.txn]],
                             locks := g.dep.locks[dep := None], place := g.dep.place[ver.txn := Listed(dep)]));
      pc' := Task(ver, Running(log, Wait(cond)));
    case Wait(_) =>
    case Apply(_, _, _, _) => g', pc' := ApplyMoves(b, g, t, ver, log, e);
    case Record(out, outside) =>
      g' := g.(mem := g.mem.(outputs := g.mem.outputs[ver.txn := Some(out)]));
      pc' := Task(ver, Running(log, SetExecuted(outside)));
    case SetExecuted(outside) =>
      if g.txnStatus[ver.txn] == Executing(ver.inc) {
        g', pc' := SetStatus(g, ver.txn, Executed(ver.inc), None), Task(ver, Closing(outside, TakeDeps));
      } else {
        pc' := Panicked;
      }
  }

  lemma CloseMoves(b: Block, g: Shared, t: nat, ver: Version, outside: bool, f: ClosePc) returns (g': Shared, pc': Pc)
    requires CanMove(b, g, Task(ver, Closing(outside, f))) && !Blocked(g, Task(ver, Closing(outside, f)))
    ensures CloseStep(b, g, t, ver, outside, f, g', pc')
  {
    g', pc' := g, Task(ver, Closing(outside, LoadValidation));
    match f
    case TakeDeps =>
      g' := g.(dep := g.dep.(txnDependency := g.dep.txnDependency[ver.txn := []],
                             place := TakeAll(g.dep.place, g.dep.txnDependency[ver.txn], t)));
      pc' := Task(ver, Closing(outside, Resume(g.dep.txnDependency[ver.txn], None)));
    case Resume(rest, low) =>
      if rest == [] {
        if low.Some? { pc' := Task(ver, Closing(outside, DecExecution(low.value))); }
      } else {
        var j := rest[0];
        match g.txnStatus[j] {
          case Suspended(inc, cond) =>
            g' := SetStatus(g, j, Ready(inc, Some(cond)),
                g.owner[j]).(dep := g.dep.(place := g.dep.place[j := Nowhere]));
            pc' := Task(ver, Closing(outside, Resume(rest[1..], Some(if low.Some? then Min(low.value, j) else j))));
          case _ => pc' := Panicked;
        }
      }
    case DecExecution(target) =>
      if g.ctr.executionIdx > target {
        g', pc' := g.(ctr := g.ctr.(executionIdx := target)), Task(ver, Closing(outside, CountExecution));
      }
    case CountExecution => g' := g.(ctr := g.ctr.(decreaseCnt := g.ctr.decreaseCnt + 1));
    case LoadValidation =>
      pc' := if g.ctr.validationIdx <= ver.txn then DROP
      else if outside then Task(ver, Closing(outside, DecValidation)) else Task(ver, Checking(LoadReads));
    case DecValidation =>
      if g.ctr.validationIdx > ver.txn {
        g', pc' := g.(ctr := g.ctr.(validationIdx := ver.txn)), Task(ver, Closing(outside, CountValidation));
      } else {
        pc' := DROP;
      }
    case CountValidation => g', pc' := g.(ctr := g.ctr.(decreaseCnt := g.ctr.decreaseCnt + 1)), DROP;
  }

  /** A thread that has not left and is not blocked can take a step. */
  lemma CanStep(b: Block, s: State, t: nat) returns (s': State)
    requires Sized(b, s.g) && Bounded(b, s) && t < |s.threads| && !s.threads[t].Exited? && !Blocked(s.g, s.threads[t])
    ensures Next(b, s, t, s') && ReadsPlainly(b, s.g, s.threads[t], s'.threads[t])
  {
    assert InBounds(b, s.g, s.threads[t]);
    var g', pc';
    match s.threads[t] {
      case Idle(i) => g', pc' := IdleMoves(b, s.g, i);
      case Guarded(h) => g', pc' := GuardedMoves(b, s.g, t, h);
      case Task(ver, Checking(c)) => g', pc' := CheckMoves(b, s.g, t, ver, c);
      case Task(ver, Undoing(u)) => g', pc' := UndoMoves(b, s.g, ver, u);
      case Task(ver, Redoing(r)) => g', pc' := RedoMoves(b, s.g, t, ver, r);
      case Task(_, Waking(cond)) => g', pc' := s.g.(dep := s.g.dep.(condvars := s.g.dep.condvars[cond := true])), DROP;
      case Task(ver, Running(log, e)) => g', pc' := RunMoves(b, s.g, t, ver, log, e);
      case Task(ver, Closing(outside, f)) => g', pc' := CloseMoves(b, s.g, t, ver, outside, f);
    }
    s' := State(g', s.threads[t := pc']);
  }

  /******* Some thread is not committed to a transaction beyond the execution index *******/

  /** The thread may come to wait for a transaction at or above `idx` without fetching an index. */
  predicate Committed(pc: Pc, idx: nat)
  {
    match pc
    case Guarded(ExecuteIncarnate(i)) => i >= idx
    case Task(ver, Redoing(r)) => r.Reincarnate? && ver.txn >= idx
    case Task(ver, Running(_, _)) => ver.txn >= idx
    case _ => false
  }

  /** Whoever lowers the execution index is free to execute from there. */
  ghost predicate SomeoneFree(s: State)
  {
    exists u :: 0 <= u < |s.threads| && !Committed(s.threads[u], s.g.ctr.executionIdx)
  }

  lemma CommitFootprint(b: Block, g: Shared, t: nat, pc: Pc, g': Shared, pc': Pc)
    requires Step(b, g, t, pc, g', pc')
    ensures g'.ctr.executionIdx < g.ctr.executionIdx ==> !Committed(pc', g'.ctr.executionIdx)
    ensures Committed(pc', g'.ctr.executionIdx) ==> Committed(pc, g.ctr.executionIdx)
  {
    if pc.Task? && pc.w.Running? { assert RunStep(b, g, t, pc.ver, pc.w.log, pc.w.e, g', pc'); }
  }

  lemma {:induction false} SomeoneIsFree(b: Block, run: seq<State>, i: nat)
    requires IsRun(b, run) && i < |run| && |run[i].threads| > 0
    ensures SomeoneFree(run[i])
  {
    if i == 0 {
      assert !Committed(run[0].threads[0], 0);
    } else {
      var s, s' := run[i - 1], run[i];
      var t := StepOf(b, run, i - 1);
      SomeoneIsFree(b, run, i - 1);
      CommitFootprint(b, s.g, t, s.threads[t], s'.g, s'.threads[t]);
      var u :| 0 <= u < |s.threads| && !Committed(s.threads[u], s.g.ctr.executionIdx);
      assert u != t ==> s'.threads[u] == s.threads[u];
      assert !Committed(s'.threads[t], s'.g.ctr.executionIdx) || !Committed(s'.threads[u], s'.g.ctr.executionIdx);
    }
  }

  /******* No deadlock *******/

  /** The thread works on transaction `j` or a lower one, is about to have one executed, or holds the
      lock of the dependency list of one. */
  ghost predicate WorksFor(pc: Pc, j: nat)
  {
    || (pc.Task? && pc.ver.txn <= j)
    || (exists d :: 0 <= d <= j && CoversExecution(pc, d))
    || (exists d :: 0 <= d <= j && Locks(pc, d))
  }

  /** Thread `v` has a live guard, is not blocked, and works towards the end of transaction `j`. */
  ghost predicate Serves(s: State, v: nat, j: nat)
  {
    && v < |s.threads| && HasGuard(s.threads[v]) && !Blocked(s.g, s.threads[v])
    && WorksFor(s.threads[v], j)
  }

  /** Transaction `j` or a lower one is ready and will be fetched from the execution index. */
  ghost predicate Unfetched(s: State, j: nat)
  {
    exists d :: 0 <= d <= j && IsUnfetched(s, d)
  }

  predicate IsUnfetched(s: State, d: nat)
  {
    d < |s.g.txnStatus| && s.g.txnStatus[d].Ready? && s.g.ctr.executionIdx <= d
  }

  ghost predicate Attended(s: State, j: nat)
  {
    (exists v :: Serves(s, v, j)) || Unfetched(s, j)
  }

  lemma AttendedAbove(s: State, d: nat, j: nat)
    requires Attended(s, d) && d <= j
    ensures Attended(s, j)
  {
    if v :| Serves(s, v, d) { assert Serves(s, v, j); }
    if e :| 0 <= e <= d && IsUnfetched(s, e) { assert IsUnfetched(s, e); }
  }

  /** The holder of a lock is never blocked. */
  lemma LockHolderServes(b: Block, s: State, d: nat, j: nat)
    requires Sized(b, s.g) && SuspensionOk(b, s) && d < |b.txns| && s.g.dep.locks[d].Some? && d <= j
    ensures Serves(s, s.g.dep.locks[d].value, j) && Locks(s.threads[s.g.dep.locks[d].value], d)
  {
    assert LockOk(s, d);
  }

  /** A ready transaction is ahead of the execution index, or some thread sees to it. */
  lemma ReadyIsAttended(b: Block, s: State, d: nat)
    requires Sized(b, s.g) && ExecutionCovered(b, s) && d < |b.txns| && s.g.txnStatus[d].Ready?
    ensures Attended(s, d)
  {
    assert WillExecute(s, d);
    if s.g.ctr.executionIdx <= d {
      assert IsUnfetched(s, d);
    } else {
      var v :| 0 <= v < |s.threads| && CoversExecution(s.threads[v], d);
      assert Serves(s, v, d);
    }
  }

  /** The thread that is about to wake a waiter has the waiter's transaction. */
  lemma WakerServes(b: Block, s: State, u: nat, v: nat, cond: nat)
    requires Inv(b, s) && u < |s.threads| && v < |s.threads|
    requires HasRole(s.threads[u]) && BlocksOn(s.threads[u]) == Some(cond) && Wakes(s.threads[v]) == Some(cond)
    ensures Serves(s, v, s.threads[u].ver.txn)
  {
    assert WakeOk(s, s.threads[v]);
    OwnerFits(b, s, s.threads[v].ver.txn);
  }

  /** Following waits downwards ends at a thread that works for the waiting transaction, or at a
      ready transaction that is yet to be fetched. */
  lemma {:induction false} WaitIsAttended(b: Block, s: State, u: nat)
    requires Inv(b, s) && u < |s.threads| && HasRole(s.threads[u])
    ensures Attended(s, s.threads[u].ver.txn)
    decreases s.threads[u].ver.txn
  {
    var pc := s.threads[u];
    var j := pc.ver.txn;
    assert RoleOk(s.g, u, pc) && HolderOk(s, u, pc) && WakeOk(s, pc) && InBounds(b, s.g, pc);
    if !Blocked(s.g, pc) {
      assert Serves(s, u, j);
    } else if pc.w.e.Depend? {
      LockHolderServes(b, s, pc.w.e.dep, j);
    } else if s.g.txnStatus[j].Ready? {
      ReadyIsAttended(b, s, j);
    } else if s.g.txnStatus[j].Executing? {
      var v :| 0 <= v < |s.threads| && Wakes(s.threads[v]) == Some(pc.w.e.cond);
      WakerServes(b, s, u, v, pc.w.e.cond);
    } else {
      assert PlaceOk(s, j);
      match s.g.dep.place[j]
      case Listed(d) => ListIsAttended(b, s, d, j);
      case Taken(v) =>
        assert HolderOk(s, v, s.threads[v]) && WaitsAt(s.g, j, s.threads[v].ver.txn, Taken(v));
        assert Serves(s, v, j);
      case _ =>
    }
  }

  lemma {:induction false} ListIsAttended(b: Block, s: State, d: nat, j: nat)
    requires Inv(b, s) && d < |b.txns| && j in s.g.dep.txnDependency[d]
    ensures d < j && Attended(s, j)
    decreases j, 0
  {
    assert ListOk(s, d) && WaitsAt(s.g, j, d, Listed(d)) && WillDrain(s, d);
    if s.g.txnStatus[d].Executed? {
      var v :| 0 <= v < |s.threads| && Drains(s.threads[v], d);
      if Blocked(s.g, s.threads[v]) { LockHolderServes(b, s, d, j); } else { assert Serves(s, v, j); }
    } else {
      OwnerFits(b, s, d);
      if s.g.owner[d].Some? { WaitIsAttended(b, s, s.g.owner[d].value); } else { ReadyIsAttended(b, s, d); }
      AttendedAbove(s, d, j);
    }
  }

  /** Thread `u` is free to fetch from the execution index, or holds the lock that such a thread
      waits for. */
  ghost predicate Fetches(s: State, u: nat)
  {
    && u < |s.threads| && !s.threads[u].Exited? && !Blocked(s.g, s.threads[u])
    && (|| !Committed(s.threads[u], s.g.ctr.executionIdx)
        || exists v, d :: FreeBehindLock(s, v, u, d))
  }

  predicate FreeBehindLock(s: State, v: int, u: nat, d: nat)
    requires u < |s.threads|
  {
    && 0 <= v < |s.threads| && !Committed(s.threads[v], s.g.ctr.executionIdx)
    && Drains(s.threads[v], d) && Locks(s.threads[u], d)
  }

  /** A thread that waits for transaction `j` is served, or some thread will fetch what it waits for. */
  lemma WaiterMoves(b: Block, run: seq<State>, i: nat, t: nat) returns (u: nat)
    requires IsRun(b, run) && i < |run| && t < |run[i].threads| && HasRole(run[i].threads[t])
    ensures var j := run[i].threads[t].ver.txn; Serves(run[i], u, j) || (Unfetched(run[i], j) && Fetches(run[i], u))
  {
    var s := run[i];
    var j := s.threads[t].ver.txn;
    RunInv(b, run, i);
    WaitIsAttended(b, s, t);
    if v :| Serves(s, v, j) {
      u := v;
    } else {
      var d :| 0 <= d <= j && IsUnfetched(s, d);
      SomeoneIsFree(b, run, i);
      var w :| 0 <= w < |s.threads| && !Committed(s.threads[w], s.g.ctr.executionIdx);
      NotExited(b, run, i, t, w);
      u := FreeMoves(b, s, w, d);
      if Serves(s, u, d) { assert Serves(s, u, j); }
    }
  }

  /** No thread has left while another has a transaction. */
  lemma NotExited(b: Block, run: seq<State>, i: nat, t: nat, w: nat)
    requires IsRun(b, run) && i < |run| && t < |run[i].threads| && w < |run[i].threads| && HasRole(run[i].threads[t])
    ensures !run[i].threads[w].Exited?
  {
    if run[i].threads[w].Exited? {
      ExitedMeansDone(b, run, i, w);
      DoneIsComplete(b, run, i);
      NoRoleWhenComplete(b, run[i], t);
    }
  }

  lemma NoRoleWhenComplete(b: Block, s: State, t: nat)
    requires Sized(b, s.g) && Complete(b, s) && t < |s.threads|
    ensures !HasRole(s.threads[t])
  {
    assert Harmless(s.threads[t], |b.txns|);
  }

  /** A thread that is not committed beyond the execution index, or one that it waits for, moves. */
  lemma FreeMoves(b: Block, s: State, w: nat, d: nat) returns (u: nat)
    requires Inv(b, s) && w < |s.threads| && !s.threads[w].Exited?
    requires !Committed(s.threads[w], s.g.ctr.executionIdx) && s.g.ctr.executionIdx <= d
    ensures Serves(s, u, d) || Fetches(s, u)
  {
    var pc := s.threads[w];
    if !Blocked(s.g, pc) {
      u := w;
    } else if pc.w.Closing? {
      u := s.g.dep.locks[pc.ver.txn].value;
      assert InBounds(b, s.g, pc);
      LockHolderServes(b, s, pc.ver.txn, pc.ver.txn);
      assert FreeBehindLock(s, w, u, pc.ver.txn);
    } else {
      WaitIsAttended(b, s, w);
      u :| Serves(s, u, pc.ver.txn);
      assert Serves(s, u, d);
    }
  }

  /** No deadlock: a thread that has not left can move or waits for one that can.  Behind a condition
      variable or a lock on the way to one, that thread works towards the end of the transaction that
      is waited for, or the transaction is ready and the thread will fetch it. */
  lemma NoDeadlock(b: Block, run: seq<State>, i: nat, t: nat) returns (u: nat, s': State)
    requires IsRun(b, run) && i < |run| && t < |run[i].threads| && !run[i].threads[t].Exited?
    ensures Next(b, run[i], u, s')
    ensures var s, pc := run[i], run[i].threads[t];
            if !Blocked(s.g, pc) then u == t
            else if pc.w.Closing? then Locks(s.threads[u], pc.ver.txn)
            else Serves(s, u, pc.ver.txn) || (Unfetched(s, pc.ver.txn) && Fetches(s, u))
  {
    var s, pc := run[i], run[i].threads[t];
    RunInv(b, run, i);
    if !Blocked(s.g, pc) {
      u := t;
    } else if pc.w.Closing? {
      assert InBounds(b, s.g, pc);
      LockHolderServes(b, s, pc.ver.txn, pc.ver.txn);
      u := s.g.dep.locks[pc.ver.txn].value;
    } else {
      u := WaiterMoves(b, run, i, t);
    }
    s' := CanStep(b, s, u);
  }
}
