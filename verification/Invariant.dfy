/** What holds in every reachable state of the machine. */
module Invariant {
  import opened Base
  import opened MVHashMap
  import opened Machine

  /******* Threads *******/

  ghost predicate Bounded(b: Block, s: State)
  {
    forall t :: 0 <= t < |s.threads| ==> InBounds(b, s.g, s.threads[t]) && !s.threads[t].Panicked?
  }

  /** The thread holds a task guard. */
  predicate HasGuard(pc: Pc)
  {
    pc.Guarded? || pc.Task?
  }

  function Guards(threads: seq<Pc>): nat
  {
    if threads == [] then 0
    else Guards(threads[..|threads| - 1]) + if HasGuard(threads[|threads| - 1]) then 1 else 0
  }

  predicate GuardsCounted(s: State)
  {
    s.g.ctr.numActiveTasks == Guards(s.threads)
  }

  /******* Who owns a transaction *******/

  /** The thread executes or aborts its transaction. */
  predicate HasRole(pc: Pc)
  {
    pc.Task? && (pc.w.Running? || pc.w.Undoing?)
  }

  predicate Fits(status: Status, pc: Pc)
    requires HasRole(pc)
  {
    match pc.w
    case Undoing(_) => status == Status.Aborting(pc.ver.inc)
    case Running(_, Push(_, cond)) => status == Suspended(pc.ver.inc, cond)
    case Running(_, Wait(cond)) =>
      status == Suspended(pc.ver.inc, cond) || status == Ready(pc.ver.inc, Some(cond)) ||
          status == Executing(pc.ver.inc)
    case Running(_, _) => status == Executing(pc.ver.inc)
  }

  /** A thread that executes or aborts a transaction is its owner, and the status agrees. */
  ghost predicate RoleOk(g: Shared, t: nat, pc: Pc)
  {
    HasRole(pc) ==>
      && pc.ver.txn < |g.owner| && pc.ver.txn < |g.txnStatus|
      && g.owner[pc.ver.txn] == Some(t)
      && Fits(g.txnStatus[pc.ver.txn], pc)
  }

  ghost predicate OwnerOk(s: State, i: nat)
    requires i < |s.g.owner| && i < |s.g.txnStatus|
  {
    match s.g.owner[i]
    case None => s.g.txnStatus[i].Executed? || (s.g.txnStatus[i].Ready? && s.g.txnStatus[i].cv.None?)
    case Some(t) => t < |s.threads| && HasRole(s.threads[t]) && s.threads[t].ver.txn == i
  }

  ghost predicate RolesOk(b: Block, s: State)
    requires Sized(b, s.g)
  {
    && (forall t :: 0 <= t < |s.threads| ==> RoleOk(s.g, t, s.threads[t]))
    && (forall i :: 0 <= i < |b.txns| ==> OwnerOk(s, i))
  }

  /******* Versions *******/

  /** How far a transaction has come: incarnations, and the stages of each. */
  function Rank(status: Status): nat
  {
    4 * status.inc +
    match status
    case Ready(_, cv) => if cv.None? then 0 else 1
    case Executing(_) => 1
    case Suspended(_, _) => 1
    case Executed(_) => 2
    case Aborting(_) => 3
  }

  /** A version that is being validated, or whose execution is being closed, has been executed. */
  ghost predicate VersionOk(g: Shared, pc: Pc)
  {
    pc.Task? && (pc.w.Checking? || pc.w.Closing?) ==>
        pc.ver.txn < |g.txnStatus| && Rank(g.txnStatus[pc.ver.txn]) >= 4 * pc.ver.inc + 2
  }

  ghost predicate VersionsOk(s: State)
  {
    forall t :: 0 <= t < |s.threads| ==> VersionOk(s.g, s.threads[t])
  }

  /******* Suspended transactions *******/

  predicate NoDuplicates(q: seq<nat>)
  {
    forall i, j :: 0 <= i < j < |q| ==> q[i] != q[j]
  }

  predicate Drains(pc: Pc, dep: nat)
  {
    pc.Task? && pc.ver.txn == dep && pc.w.Closing? && pc.w.f.TakeDeps?
  }

  /** The list of `dep` will be emptied: `dep` has yet to finish, or a finisher is on its way. */
  ghost predicate WillDrain(s: State, dep: nat)
  {
    && dep < |s.g.txnStatus|
    && (!s.g.txnStatus[dep].Executed? || exists t :: 0 <= t < |s.threads| && Drains(s.threads[t], dep))
  }

  ghost predicate WaitsAt(g: Shared, j: nat, low: nat, place: Place)
  {
    low < j < |g.txnStatus| && j < |g.dep.place| && g.txnStatus[j].Suspended? && g.dep.place[j] == place
  }

  ghost predicate ListOk(s: State, d: nat)
    requires d < |s.g.dep.txnDependency|
  {
    && NoDuplicates(s.g.dep.txnDependency[d])
    && (forall j :: j in s.g.dep.txnDependency[d] ==> WaitsAt(s.g, j, d, Listed(d)))
    && (s.g.dep.txnDependency[d] != [] ==> WillDrain(s, d))
  }

  ghost predicate HolderOk(s: State, t: nat, pc: Pc)
  {
    pc.Task? ==>
      match pc.w
      case Closing(_, Resume(rest, _)) => NoDuplicates(rest) && forall j :: j in rest ==>
          WaitsAt(s.g, j, pc.ver.txn, Taken(t))
      case Running(_, Depend(dep)) => dep < pc.ver.txn
      case Running(_, Suspend(dep)) => HoldsLock(s, t, pc.ver.txn, dep)
      case Running(_, Push(dep, _)) =>
        HoldsLock(s, t, pc.ver.txn, dep) && pc.ver.txn < |s.g.dep.place| && s.g.dep.place[pc.ver.txn] == Pushing
      case _ => true
  }

  ghost predicate HoldsLock(s: State, t: nat, txn: nat, dep: nat)
  {
    dep < txn && dep < |s.g.dep.locks| && s.g.dep.locks[dep] == Some(t) && WillDrain(s, dep)
  }

  predicate IsPushing(pc: Pc)
  {
    pc.Task? && pc.w.Running? && pc.w.e.Push?
  }

  predicate HasTaken(pc: Pc, j: nat)
  {
    pc.Task? && pc.w.Closing? && pc.w.f.Resume? && j in pc.w.f.rest
  }

  /** A suspended transaction is kept in the place that `place` says. */
  ghost predicate PlaceOk(s: State, j: nat)
    requires j < |s.g.dep.place| && j < |s.g.txnStatus| && j < |s.g.owner|
  {
    s.g.txnStatus[j].Suspended? ==>
      match s.g.dep.place[j]
      case Nowhere => false
      case Pushing => s.g.owner[j].Some? && s.g.owner[j].value < |s.threads| && IsPushing(s.threads[s.g.owner[j].value])
      case Listed(d) => d < |s.g.dep.txnDependency| && j in s.g.dep.txnDependency[d]
      case Taken(t) => t < |s.threads| && HasTaken(s.threads[t], j)
  }

  predicate Locks(pc: Pc, d: nat)
  {
    pc.Task? && pc.w.Running? && (pc.w.e.Suspend? || pc.w.e.Push?) && pc.w.e.dep == d
  }

  ghost predicate LockOk(s: State, d: nat)
    requires d < |s.g.dep.locks|
  {
    s.g.dep.locks[d].Some? ==> s.g.dep.locks[d].value < |s.threads| && Locks(s.threads[s.g.dep.locks[d].value], d)
  }

  ghost predicate SuspensionOk(b: Block, s: State)
    requires Sized(b, s.g)
  {
    && (forall d :: 0 <= d < |b.txns| ==> ListOk(s, d))
    && (forall d :: 0 <= d < |b.txns| ==> LockOk(s, d))
    && (forall j :: 0 <= j < |b.txns| ==> PlaceOk(s, j))
    && (forall t :: 0 <= t < |s.threads| ==> HolderOk(s, t, s.threads[t]))
  }

  /******* Condition variables *******/

  /** The condition variable the thread waits on, or is about to. */
  function BlocksOn(pc: Pc): Option<nat>
  {
    if !pc.Task? then None
    else match pc.w
         case Running(_, Push(_, cond)) => Some(cond)
         case Running(_, Wait(cond)) => Some(cond)
         case _ => None
  }

  function Wakes(pc: Pc): Option<nat>
  {
    if pc.Task? && pc.w.Waking? then Some(pc.w.cond) else None
  }

  ghost predicate WillWake(s: State, cond: nat)
  {
    exists t :: 0 <= t < |s.threads| && Wakes(s.threads[t]) == Some(cond)
  }

  ghost predicate WakeOk(s: State, pc: Pc)
  {
    pc.Task? ==>
      match pc.w
      case Running(_, Push(_, cond)) => cond < |s.g.dep.condvars| && !s.g.dep.condvars[cond]
      case Running(_, Wait(cond)) =>
        && cond < |s.g.dep.condvars| && pc.ver.txn < |s.g.txnStatus|
        && (s.g.dep.condvars[cond] ==> s.g.txnStatus[pc.ver.txn].Executing?)
        && (s.g.txnStatus[pc.ver.txn].Executing? ==> s.g.dep.condvars[cond] || WillWake(s, cond))
      case Waking(cond) =>
        && cond < |s.g.dep.condvars| && !s.g.dep.condvars[cond]
        && pc.ver.txn < |s.g.txnStatus| && pc.ver.txn < |s.g.owner|
        && s.g.txnStatus[pc.ver.txn] == Executing(pc.ver.inc)
        && s.g.owner[pc.ver.txn].Some? && s.g.owner[pc.ver.txn].value < |s.threads|
        && BlocksOn(s.threads[s.g.owner[pc.ver.txn].value]) == Some(cond)
      case _ => true
  }

  ghost predicate CondvarsOk(s: State)
  {
    && (forall t :: 0 <= t < |s.threads| ==> WakeOk(s, s.threads[t]))
    && (forall t, u :: 0 <= t < u < |s.threads| && Wakes(s.threads[t]).Some? ==>
       Wakes(s.threads[t]) != Wakes(s.threads[u]))
    && (forall t, u :: 0 <= t < u < |s.threads| && BlocksOn(s.threads[t]).Some? ==>
       BlocksOn(s.threads[t]) != BlocksOn(s.threads[u]))
  }

  /******* The multi-version map and the history of writes *******/

  /** How far a transaction has got with its entries in the map. */
  datatype Phase =
    | Pending(inc: nat, keys: set<Key>)
    | Applying(inc: nat, out: Outcome, todo: set<Key>, prev: set<Key>)
    | Settled(inc: nat, out: Outcome)
    | Marking(inc: nat, out: Outcome, keys: set<Key>)

  function LastOutcome(o: Option<Outcome>): Outcome
  {
    if o.Some? then o.value else Abort(0)
  }

  function PcPhase(pc: Pc, last: Option<Outcome>): Phase
    requires HasRole(pc)
  {
    match pc.w
    case Undoing(LoadKeys) => Settled(pc.ver.inc, LastOutcome(last))
    case Undoing(Mark(keys)) => Marking(pc.ver.inc, LastOutcome(last), keys)
    case Running(_, Apply(out, todo, prev, _)) => Applying(pc.ver.inc, out, todo, prev)
    case Running(_, Record(out, _)) => Settled(pc.ver.inc, out)
    case Running(_, SetExecuted(_)) => Settled(pc.ver.inc, LastOutcome(last))
    case Running(_, _) => Pending(pc.ver.inc, ModifiedKeys(last))
  }

  ghost function PhaseOf(s: State, i: nat): Phase
    requires i < |s.g.owner| && i < |s.g.txnStatus| && i < |s.g.mem.outputs|
    requires OwnerOk(s, i)
  {
    match s.g.owner[i]
    case Some(t) => PcPhase(s.threads[t], s.g.mem.outputs[i])
    case None =>
      if s.g.txnStatus[i].Executed? then Settled(s.g.txnStatus[i].inc, LastOutcome(s.g.mem.outputs[i]))
      else Pending(s.g.txnStatus[i].inc, ModifiedKeys(s.g.mem.outputs[i]))
  }

  predicate IsEstimate(e: Option<Entry>, below: nat)
  {
    e.Some? && e.value.estimate && (e.value.cell.Write? ==> e.value.cell.inc < below)
  }

  predicate IsDone(e: Option<Entry>, out: Outcome, k: Key, inc: nat)
    requires k in UpdatesOf(out)
  {
    e == Some(Entry(false, CellOf(UpdatesOf(out)[k], inc)))
  }

  predicate EntryFits(e: Option<Entry>, ph: Phase, k: Key)
  {
    match ph
    case Pending(inc, keys) => if k in keys then IsEstimate(e, inc) else e.None?
    case Applying(inc, out, todo, prev) =>
      if k in prev then IsEstimate(e, inc) && (k in UpdatesOf(out) ==> k in todo)
      else if k in UpdatesOf(out) && k !in todo then IsDone(e, out, k, inc)
      else e.None?
    case Settled(inc, out) => if k in UpdatesOf(out) then IsDone(e, out, k, inc) else e.None?
    case Marking(inc, out, keys) =>
      if k !in UpdatesOf(out) then e.None? && k !in keys
      else if k in keys then IsDone(e, out, k, inc)
      else IsEstimate(e, inc + 1)
  }

  /** The write that the phase has already made at `k`, if any. */
  function PutOf(ph: Phase, k: Key): Option<WriteOp>
  {
    if ph.Pending? || k !in UpdatesOf(ph.out) || (ph.Applying? && k in ph.todo) then None
    else match UpdatesOf(ph.out)[k]
         case Put(op) => Some(op)
         case Change(_) => None
  }

  ghost predicate WrittenFits(written: map<(Key, nat, nat), WriteOp>, i: nat, ph: Phase, k: Key)
  {
    && ((k, i, ph.inc) in written <==> PutOf(ph, k).Some?)
    && (PutOf(ph, k).Some? ==> written[(k, i, ph.inc)] == PutOf(ph, k).value)
    && (forall inc: nat :: inc > ph.inc ==> (k, i, inc) !in written)
  }

  ghost predicate CellOk(mem: Memory, i: nat, ph: Phase, k: Key)
  {
    EntryFits(EntryAt(mem.data, k, i), ph, k) && WrittenFits(mem.written, i, ph, k)
  }

  ghost predicate ColumnOk(mem: Memory, i: nat, ph: Phase)
  {
    forall k :: CellOk(mem, i, ph, k)
  }

  ghost predicate ColumnsOk(b: Block, s: State)
    requires Sized(b, s.g) && RolesOk(b, s)
  {
    && (forall i :: 0 <= i < |b.txns| ==> ColumnOk(s.g.mem, i, PhaseOf(s, i)))
    && (forall i: nat, k :: i >= |b.txns| ==> EntryAt(s.g.mem.data, k, i).None?)
  }

  /******* Read sets and outputs *******/

  ghost predicate RecordOk(b: Block, written: map<(Key, nat, nat), WriteOp>, d: ReadDescriptor)
  {
    match d.kind
    case VersionKind(txn, inc) => (d.key, txn, inc) in written && d.seen == Bytes(OpValue(written[(d.key, txn, inc)]))
    case ResolvedKind(value) => d.seen == Bytes(Some(value))
    case StorageKind => d.seen == Bytes(b.storage(d.key))
    case UnresolvedKind(delta) => d.seen == ViewOf(Unresolved(delta), b.storage(d.key))
    case FailureKind => d.seen == Bytes(Some(0))
  }

  /** The read set is that of an execution of transaction `i` so far. */
  ghost predicate TraceOk(b: Block, written: map<(Key, nat, nat), WriteOp>, i: nat, log: ReadSet)
    requires i < |b.txns|
  {
    forall p :: 0 <= p < |log| ==>
      RecordOk(b, written, log[p]) && b.txns[i](SeenOf(log[..p])) == ReadKey(log[p].key)
  }

  ghost predicate EndsWith(b: Block, i: nat, log: ReadSet, out: Outcome)
    requires i < |b.txns|
  {
    b.txns[i](SeenOf(log)) == Finish(out)
  }

  /** The recorded read set leads to the recorded output. */
  ghost predicate Recorded(b: Block, mem: Memory, i: nat)
    requires i < |b.txns| && i < |mem.inputs| && i < |mem.outputs|
  {
    mem.inputs[i].Some? && mem.outputs[i].Some? && EndsWith(b, i, mem.inputs[i].value, mem.outputs[i].value)
  }

  ghost predicate LogOk(b: Block, mem: Memory, pc: Pc)
    requires |mem.inputs| == |mem.outputs| == |b.txns|
    requires pc.Task? ==> pc.ver.txn < |b.txns|
  {
    pc.Task? ==>
      var i := pc.ver.txn;
      match pc.w
      case Running(log, e) =>
        && TraceOk(b, mem.written, i, log)
        && (match e
            case Apply(out, _, _, _) => EndsWith(b, i, log, out)
            case Record(out, _) => EndsWith(b, i, log, out) && mem.inputs[i] == Some(log)
            case SetExecuted(_) => Recorded(b, mem, i)
            case _ => true)
      case Waking(_) => true
      case Redoing(_) => true
      case _ => mem.inputs[i].Some?
  }

  ghost predicate LogsOk(b: Block, s: State)
    requires Sized(b, s.g) && Bounded(b, s)
  {
    && (forall i :: 0 <= i < |b.txns| && s.g.mem.inputs[i].Some? ==>
       TraceOk(b, s.g.mem.written, i, s.g.mem.inputs[i].value))
    && (forall i :: 0 <= i < |b.txns| && (s.g.txnStatus[i].Executed? || s.g.txnStatus[i].Aborting?) ==>
       Recorded(b, s.g.mem, i))
    && (forall t :: 0 <= t < |s.threads| ==> LogOk(b, s.g.mem, s.threads[t]))
  }

  /******* Execution coverage *******/

  predicate CoversExecution(pc: Pc, j: nat)
  {
    match pc
    case Guarded(ExecuteIncarnate(idx)) => idx == j
    case Task(ver, Redoing(_)) => ver.txn == j
    case Task(_, Closing(_, Resume(_, low))) => low.Some? && low.value <= j
    case Task(_, Closing(_, DecExecution(target))) => target <= j
    case _ => false
  }

  ghost predicate WillExecute(s: State, j: nat)
  {
    s.g.ctr.executionIdx <= j || exists t :: 0 <= t < |s.threads| && CoversExecution(s.threads[t], j)
  }

  ghost predicate ExecutionCovered(b: Block, s: State)
    requires Sized(b, s.g)
  {
    forall j :: 0 <= j < |b.txns| && s.g.txnStatus[j].Ready? ==> WillExecute(s, j)
  }

  /******* Validation coverage *******/

  /** The execution has written outside of the previous write set. */
  predicate WroteOutside(e: RunPc)
  {
    (e.Apply? || e.Record? || e.SetExecuted?) && e.outside
  }

  /** The thread is about to validate version `(j, inc)` from the start, to abort it, or to lower
      the validation index to `j` or below. */
  predicate CoversValidation(pc: Pc, j: nat, inc: nat)
  {
    match pc
    case Guarded(ValidateIsExecuted(idx)) => idx == j
    case Task(ver, Checking(c)) => !c.Scan? && ver == Ver(j, inc)
    case Task(ver, Undoing(_)) => ver.txn < j
    case Task(ver, Redoing(r)) => r.LowerValidation? && ver.txn < j
    case Task(ver, Running(_, e)) => WroteOutside(e) && ver.txn < j
    case Task(ver, Closing(outside, f)) => !f.CountValidation? && ((outside && ver.txn <= j) || ver == Ver(j, inc))
    case _ => false
  }

  ghost predicate WillValidate(s: State, j: nat, inc: nat)
  {
    s.g.ctr.validationIdx <= j || exists t :: 0 <= t < |s.threads| && CoversValidation(s.threads[t], j, inc)
  }

  predicate Scans(pc: Pc, j: nat, inc: nat, p: nat)
  {
    pc.Task? && pc.ver == Ver(j, inc) && pc.w.Checking? && pc.w.c.Scan? && pc.w.c.pos <= p
  }

  ghost predicate WillScan(s: State, j: nat, inc: nat, p: nat)
  {
    exists t :: 0 <= t < |s.threads| && Scans(s.threads[t], j, inc, p)
  }

  /** Every recorded read is still valid or about to be checked again. */
  ghost predicate ReadsCovered(s: State, j: nat, inc: nat)
    requires j < |s.g.mem.inputs|
  {
    s.g.mem.inputs[j].Some? &&
    forall p :: 0 <= p < |s.g.mem.inputs[j].value| ==>
      StillValid(s.g.mem.data, j, s.g.mem.inputs[j].value[p]) || WillScan(s, j, inc, p)
  }

  ghost predicate ScanOk(g: Shared, pc: Pc)
  {
    (pc.Task? && pc.w.Checking? && pc.w.c.Scan? && pc.ver.txn < |g.txnStatus| && pc.ver.txn < |g.mem.inputs|
     && g.txnStatus[pc.ver.txn] == Executed(pc.ver.inc))
    ==> g.mem.inputs[pc.ver.txn] == Some(pc.w.c.log)
  }

  ghost predicate ValidationCovered(b: Block, s: State)
    requires Sized(b, s.g)
  {
    && (forall j :: 0 <= j < |b.txns| && s.g.txnStatus[j].Executed? ==>
          WillValidate(s, j, s.g.txnStatus[j].inc) || ReadsCovered(s, j, s.g.txnStatus[j].inc))
    && (forall t :: 0 <= t < |s.threads| ==> ScanOk(s.g, s.threads[t]))
  }

  /******* Completion *******/

  /** Threads that can no longer touch any transaction of a block of `n`. */
  predicate Harmless(pc: Pc, n: nat)
  {
    match pc
    case Guarded(ValidateIsExecuted(idx)) => idx >= n
    case Guarded(ExecuteIncarnate(idx)) => idx >= n
    case Task(_, _) => false
    case _ => true
  }

  ghost predicate Complete(b: Block, s: State)
    requires Sized(b, s.g)
  {
    && s.g.ctr.validationIdx >= |b.txns| && s.g.ctr.executionIdx >= |b.txns|
    && (forall i :: 0 <= i < |b.txns| ==> s.g.txnStatus[i].Executed?)
    && (forall t :: 0 <= t < |s.threads| ==> Harmless(s.threads[t], |b.txns|))
  }

  predicate CountsDecrease(pc: Pc)
  {
    pc.Task? && ((pc.w.Redoing? && pc.w.r.CountAbort?) ||
        (pc.w.Closing? && (pc.w.f.CountExecution? || pc.w.f.CountValidation?)))
  }

  /** An index read as at least `n` still is, unless a decrease has been or is about to be counted. */
  ghost predicate NotLowered(s: State, n: nat, observed: nat, index: nat)
  {
    index >= n || s.g.ctr.decreaseCnt > observed || exists t :: 0 <= t < |s.threads| && CountsDecrease(s.threads[t])
  }

  ghost predicate CheckOk(b: Block, s: State, pc: Pc)
    requires Sized(b, s.g)
  {
    var n, ctr := |b.txns|, s.g.ctr;
    match pc
    case Idle(CheckValidationIdx(observed)) => observed <= ctr.decreaseCnt
    case Idle(CheckExecutionIdx(observed, v)) =>
      observed <= ctr.decreaseCnt && (v >= n ==> NotLowered(s, n, observed, ctr.validationIdx))
    case Idle(CheckActiveTasks(observed, v, e)) =>
      && observed <= ctr.decreaseCnt
      && (v >= n ==> NotLowered(s, n, observed, ctr.validationIdx))
      && (e >= n ==> NotLowered(s, n, observed, ctr.executionIdx))
    case Idle(CheckAgain(observed)) => observed < ctr.decreaseCnt || Complete(b, s)
    case Idle(SetDone) => Complete(b, s)
    case _ => true
  }

  ghost predicate CompletionOk(b: Block, s: State)
    requires Sized(b, s.g)
  {
    && (s.g.ctr.doneMarker ==> Complete(b, s))
    && (forall t :: 0 <= t < |s.threads| ==> CheckOk(b, s, s.threads[t]))
  }

  ghost predicate Inv(b: Block, s: State)
  {
    && Sized(b, s.g) && Bounded(b, s) && GuardsCounted(s)
    && RolesOk(b, s) && VersionsOk(s) && SuspensionOk(b, s) && CondvarsOk(s)
    && ColumnsOk(b, s) && LogsOk(b, s)
    && ExecutionCovered(b, s) && ValidationCovered(b, s) && CompletionOk(b, s)
  }

  /** Only thread `t` moves. */
  ghost predicate Moved(s: State, t: nat, s': State)
  {
    t < |s.threads| == |s'.threads| && s'.threads == s.threads[t := s'.threads[t]]
  }

  /** A step from a state that satisfies the invariant, and that does not panic. */
  ghost predicate GoodStep(b: Block, s: State, t: nat, s': State)
  {
    Inv(b, s) && Next(b, s, t, s') && !s'.threads[t].Panicked?
  }
}
