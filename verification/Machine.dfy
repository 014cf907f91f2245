/** Speculative parallel execution of a block, as a transition system.  Every thread has a program
    counter; one step is one atomic operation, one critical section or one call into the
    multi-version map.  Any number of threads interleave arbitrarily. */
module Machine {
  import opened Base
  import opened Delta
  import opened MVHashMap

  /******* Transactions *******/

  /** What the virtual machine gets back when it asks for a state value. */
  datatype Seen = Bytes(value: Option<u128>) | ReadError(code: nat)

  const STORAGE_ERROR: nat := 2001

  datatype Update = Put(op: WriteOp) | Change(delta: DeltaOp)

  /** The updates of a transaction; `rest` stands for events, gas and status. */
  datatype Output = Output(updates: map<Key, Update>, rest: nat)

  datatype Outcome = Success(output: Output) | SkipRest(output: Output) | Abort(error: nat)

  datatype Action = ReadKey(key: Key) | Finish(outcome: Outcome)

  /** A transaction is a deterministic strategy: from the values read so far to its next action. */
  type Txn = seq<Seen> -> Action

  datatype Block = Block(txns: seq<Txn>, storage: Key -> Option<u128>)

  /** Every transaction ends after at most `bound` reads, whatever it reads. */
  ghost predicate AllFinish(b: Block, bound: nat)
  {
    forall i :: 0 <= i < |b.txns| ==> Finishes(b, i, bound)
  }

  ghost predicate Finishes(b: Block, i: nat, bound: nat)
    requires i < |b.txns|
  {
    forall vals :: |vals| >= bound ==> b.txns[i](vals).Finish?
  }

  function UpdatesOf(o: Outcome): map<Key, Update>
  {
    if o.Abort? then map[] else o.output.updates
  }

  function ModifiedKeys(o: Option<Outcome>): set<Key>
  {
    if o.None? then {} else UpdatesOf(o.value).Keys
  }

  function CellOf(u: Update, inc: nat): EntryCell
  {
    match u
    case Put(op) => Write(inc, op)
    case Change(delta) => EntryCell.Delta(delta)
  }

  /******* Read sets *******/

  datatype ReadKind =
    | VersionKind(txn: nat, inc: nat)
    | ResolvedKind(value: u128)
    | UnresolvedKind(delta: DeltaOp)
    | StorageKind
    | FailureKind

  /** `kind` is what validation compares.  `seen` is what the virtual machine was given; it is kept
      here for the proof and no step looks at it once the read set is recorded. */
  datatype ReadDescriptor = ReadDescriptor(key: Key, kind: ReadKind, seen: Seen)

  type ReadSet = seq<ReadDescriptor>

  function KindOf(r: ReadOutcome): Option<ReadKind>
  {
    match r
    case Version(txn, inc, _) => Some(VersionKind(txn, inc))
    case Resolved(value) => Some(ResolvedKind(value))
    case NotFound => Some(StorageKind)
    case Unresolved(delta) => Some(UnresolvedKind(delta))
    case Dependency(_) => None
    case DeltaApplicationFailure => Some(FailureKind)
  }

  /** How a read outcome becomes a value, with `stored` the value in storage. */
  function ViewOf(r: ReadOutcome, stored: Option<u128>): Seen
    requires !r.Dependency?
  {
    match r
    case Version(_, _, op) => Bytes(OpValue(op))
    case Resolved(value) => Bytes(Some(value))
    case NotFound => Bytes(stored)
    case Unresolved(delta) =>
      (match stored
       case None => ReadError(STORAGE_ERROR)
       case Some(base) =>
         match ApplyTo(delta, base)
         case Ok(value) => Bytes(Some(value))
         case Err(code) => ReadError(code))
    case DeltaApplicationFailure => Bytes(Some(0))
  }

  function SeenOf(log: ReadSet): seq<Seen>
  {
    seq(|log|, i requires 0 <= i < |log| => log[i].seen)
  }

  /** Marking an entry only takes a shared lock on its key, so a walk that overlaps with marking may
      report any estimate below the reader, not only the topmost one. */
  predicate CanRead(data: Data, key: Key, txn: nat, r: ReadOutcome)
  {
    || r == Read(data, key, txn)
    || (r.Dependency? && r.dep < txn && EntryAt(data, key, r.dep).Some? && EntryAt(data, key, r.dep).value.estimate)
  }

  /** The descriptor re-reads to itself. */
  predicate StillValid(data: Data, txn: nat, d: ReadDescriptor)
  {
    KindOf(Read(data, d.key, txn)) == Some(d.kind)
  }

  /******* State *******/

  datatype Version = Ver(txn: nat, inc: nat)

  datatype Status =
    | Ready(inc: nat, cv: Option<nat>)
    | Executing(inc: nat)
    | Suspended(inc: nat, cond: nat)
    | Executed(inc: nat)
    | Aborting(inc: nat)

  /** A thread without a task guard, in next_task or check_done. */
  datatype IdlePc =
    | NextTask
    | LoadValidationIdx
    | LoadExecutionIdx(idxToValidate: nat)
    | TryValidate
    | ValidateNewGuard
    | TryExecute
    | ExecuteNewGuard
    | CheckDone
    | CheckValidationIdx(observed: nat)
    | CheckExecutionIdx(observed: nat, valIdx: nat)
    | CheckActiveTasks(observed: nat, valIdx: nat, execIdx: nat)
    | CheckAgain(observed: nat)
    | SetDone

  /** A thread with a task guard, but no task. */
  datatype GuardPc =
    | ValidateFetchAdd
    | ValidateIsExecuted(idx: nat)
    | ExecuteFetchAdd
    | ExecuteIncarnate(idx: nat)
    | DropGuard

  /** In `validate`, up to the abort. */
  datatype CheckPc = LoadReads | Scan(log: ReadSet, pos: nat) | TryAbort

  /** In `validate`, marking the entries of the aborted version. */
  datatype UndoPc = LoadKeys | Mark(keys: set<Key>)

  /** In `finish_abort`, the transaction being ready again. */
  datatype RedoPc = LowerValidation | CountAbort | LoadExecution | Reincarnate

  /** In `execute`. */
  datatype RunPc =
    | Run
    | Depend(dep: nat)
    | Suspend(dep: nat)
    | Push(dep: nat, cond: nat)
    | Wait(cond: nat)
    | Apply(out: Outcome, todo: set<Key>, prev: set<Key>, outside: bool)
    | Record(out: Outcome, outside: bool)
    | SetExecuted(outside: bool)

  /** In `finish_execution`, the transaction being executed. */
  datatype ClosePc =
    | TakeDeps
    | Resume(rest: seq<nat>, low: Option<nat>)
    | DecExecution(target: nat)
    | CountExecution
    | LoadValidation
    | DecValidation
    | CountValidation

  datatype Work =
    | Checking(c: CheckPc)
    | Undoing(u: UndoPc)
    | Redoing(r: RedoPc)
    | Waking(cond: nat)
    | Running(log: ReadSet, e: RunPc)
    | Closing(outside: bool, f: ClosePc)

  datatype Pc = Idle(i: IdlePc) | Guarded(h: GuardPc) | Task(ver: Version, w: Work) | Exited | Panicked

  /** Where a suspended transaction is waiting to be woken from. */
  datatype Place = Nowhere | Pushing | Listed(dep: nat) | Taken(thread: nat)

  datatype Counters = Counters(executionIdx: nat, validationIdx: nat, decreaseCnt: nat, numActiveTasks: nat,
                               doneMarker: bool)

  /** Dependency lists, who holds the lock of each, and the flags of the condition variables.
      `place` is a history variable: where each suspended transaction is kept. */
  datatype Waiting = Waiting(txnDependency: seq<seq<nat>>, locks: seq<Option<nat>>, condvars: seq<bool>,
                             place: seq<Place>)

  /** The multi-version map and the last recorded inputs and outputs.
      `written` is a history variable: every write ever made. */
  datatype Memory = Memory(data: Data, inputs: seq<Option<ReadSet>>, outputs: seq<Option<Outcome>>,
                           written: map<(Key, nat, nat), WriteOp>)

  /** Everything the threads share.
      `owner` is a history variable: the thread that executes or aborts each transaction. */
  datatype Shared = Shared(ctr: Counters, txnStatus: seq<Status>, owner: seq<Option<nat>>, dep: Waiting, mem: Memory)

  datatype State = State(g: Shared, threads: seq<Pc>)

  ghost predicate Sized(b: Block, g: Shared)
  {
    && |g.txnStatus| == |g.owner| == |b.txns|
    && |g.dep.txnDependency| == |g.dep.locks| == |g.dep.place| == |b.txns|
    && |g.mem.inputs| == |g.mem.outputs| == |b.txns|
  }

  /** The indices a thread carries are indices of the block. */
  ghost predicate InBounds(b: Block, g: Shared, pc: Pc)
  {
    pc.Task? ==>
      && pc.ver.txn < |b.txns|
      && match pc.w
         case Waking(cond) => cond < |g.dep.condvars|
         case Running(_, Depend(dep)) => dep < |b.txns|
         case Running(_, Suspend(dep)) => dep < |b.txns|
         case Running(_, Push(dep, cond)) => dep < |b.txns| && cond < |g.dep.condvars|
         case Running(_, Wait(cond)) => cond < |g.dep.condvars|
         case Running(_, Apply(out, todo, _, _)) => todo <= UpdatesOf(out).Keys
         case Closing(_, Resume(rest, _)) => forall p :: 0 <= p < |rest| ==> rest[p] < |b.txns|
         case _ => true
  }

  ghost predicate CanMove(b: Block, g: Shared, pc: Pc)
  {
    Sized(b, g) && InBounds(b, g, pc)
  }

  function SetStatus(g: Shared, i: nat, status: Status, owner: Option<nat>): Shared
    requires i < |g.txnStatus| && i < |g.owner|
  {
    g.(txnStatus := g.txnStatus[i := status], owner := g.owner[i := owner])
  }

  const DROP: Pc := Guarded(DropGuard)

  /******* next_task and check_done *******/

  ghost predicate IdleStep(b: Block, g: Shared, pc: IdlePc, g': Shared, pc': Pc)
  {
    var n, ctr := |b.txns|, g.ctr;
    match pc
    case NextTask => g' == g && pc' == if ctr.doneMarker then Exited else Idle(LoadValidationIdx)
    case LoadValidationIdx => g' == g && pc' == Idle(LoadExecutionIdx(ctr.validationIdx))
    case LoadExecutionIdx(v) => g' == g && pc' == Idle(if v < ctr.executionIdx then TryValidate else TryExecute)
    case TryValidate => g' == g && pc' == Idle(if ctr.validationIdx >= n then CheckDone else ValidateNewGuard)
    case ValidateNewGuard =>
      g' == g.(ctr := ctr.(numActiveTasks := ctr.numActiveTasks + 1)) && pc' == Guarded(ValidateFetchAdd)
    case TryExecute => g' == g && pc' == Idle(if ctr.executionIdx >= n then CheckDone else ExecuteNewGuard)
    case ExecuteNewGuard =>
      g' == g.(ctr := ctr.(numActiveTasks := ctr.numActiveTasks + 1)) && pc' == Guarded(ExecuteFetchAdd)
    case CheckDone => g' == g && pc' == Idle(CheckValidationIdx(ctr.decreaseCnt))
    case CheckValidationIdx(observed) => g' == g && pc' == Idle(CheckExecutionIdx(observed, ctr.validationIdx))
    case CheckExecutionIdx(observed, v) => g' == g && pc' == Idle(CheckActiveTasks(observed, v, ctr.executionIdx))
    case CheckActiveTasks(observed, v, e) =>
      g' == g && pc' == Idle(if Min(e, v) < n || ctr.numActiveTasks > 0 then NextTask else CheckAgain(observed))
    case CheckAgain(observed) => g' == g && pc' == Idle(if observed == ctr.decreaseCnt then SetDone else NextTask)
    case SetDone => g' == g.(ctr := ctr.(doneMarker := true)) && pc' == Idle(NextTask)
  }

  ghost predicate GuardedStep(b: Block, g: Shared, t: nat, pc: GuardPc, g': Shared, pc': Pc)
    requires Sized(b, g)
  {
    var n, ctr := |b.txns|, g.ctr;
    match pc
    case ValidateFetchAdd =>
      g' == g.(ctr := ctr.(validationIdx := ctr.validationIdx + 1)) &&
          pc' == Guarded(ValidateIsExecuted(ctr.validationIdx))
    case ValidateIsExecuted(idx) =>
      && g' == g
      && pc' == if idx < n && g.txnStatus[idx].Executed? then Task(Ver(idx, g.txnStatus[idx].inc), Checking(LoadReads))
         else DROP
    case ExecuteFetchAdd =>
      g' == g.(ctr := ctr.(executionIdx := ctr.executionIdx + 1)) && pc' == Guarded(ExecuteIncarnate(ctr.executionIdx))
    case ExecuteIncarnate(idx) =>
      if idx < n then TryIncarnate(b, g, t, idx, g', pc') else g' == g && pc' == DROP
    case DropGuard =>
      if ctr.numActiveTasks > 0 then g' == g.(ctr := ctr.(numActiveTasks := ctr.numActiveTasks - 1)) &&
          pc' == Idle(NextTask)
      else g' == g && pc' == Panicked
  }

  /** Ready becomes Executing.  With a condition variable, the task is only to wake its waiter. */
  ghost predicate TryIncarnate(b: Block, g: Shared, t: nat, i: nat, g': Shared, pc': Pc)
    requires Sized(b, g) && i < |b.txns|
  {
    match g.txnStatus[i]
    case Ready(inc, None) => g' == SetStatus(g, i, Executing(inc), Some(t)) &&
        pc' == Task(Ver(i, inc), Running([], Run))
    case Ready(inc, Some(cond)) => g' == SetStatus(g, i, Executing(inc), g.owner[i]) &&
        pc' == Task(Ver(i, inc), Waking(cond))
    case _ => g' == g && pc' == DROP
  }

  /******* Validation and abort *******/

  ghost predicate CheckStep(b: Block, g: Shared, t: nat, ver: Version, pc: CheckPc, g': Shared, pc': Pc)
    requires Sized(b, g) && ver.txn < |b.txns|
  {
    match pc
    case LoadReads =>
      && g' == g
      && pc' == if g.mem.inputs[ver.txn].Some? then Task(ver, Checking(Scan(g.mem.inputs[ver.txn].value, 0)))
         else Panicked
    case Scan(log, pos) =>
      && g' == g
      && if pos < |log| then exists r :: ScanRead(g, ver, log, pos, pc', r) else pc' == DROP
    case TryAbort =>
      if g.txnStatus[ver.txn] == Executed(ver.inc) then
        g' == SetStatus(g, ver.txn, Status.Aborting(ver.inc), Some(t)) && pc' == Task(ver, Undoing(LoadKeys))
      else g' == g && pc' == DROP
  }

  ghost predicate ScanRead(g: Shared, ver: Version, log: ReadSet, pos: nat, pc': Pc, r: ReadOutcome)
    requires pos < |log|
  {
    && CanRead(g.mem.data, log[pos].key, ver.txn, r)
    && pc' == Task(ver, Checking(if KindOf(r) == Some(log[pos].kind) then Scan(log, pos + 1) else TryAbort))
  }

  ghost predicate UndoStep(b: Block, g: Shared, ver: Version, pc: UndoPc, g': Shared, pc': Pc)
    requires Sized(b, g) && ver.txn < |b.txns|
  {
    match pc
    case LoadKeys => g' == g && pc' == Task(ver, Undoing(Mark(ModifiedKeys(g.mem.outputs[ver.txn]))))
    case Mark(keys) =>
      if keys != {} then exists k :: k in keys && MarkOne(g, ver, keys, g', pc', k)
      else if g.txnStatus[ver.txn] == Status.Aborting(ver.inc) then
        g' == SetStatus(g, ver.txn, Ready(ver.inc + 1, None), None) && pc' == Task(ver, Redoing(LowerValidation))
      else g' == g && pc' == Panicked
  }

  ghost predicate MarkOne(g: Shared, ver: Version, keys: set<Key>, g': Shared, pc': Pc, k: Key)
  {
    if EntryAt(g.mem.data, k, ver.txn).Some? then
      && g' == g.(mem := g.mem.(data := Marked(g.mem.data, k, ver.txn)))
      && pc' == Task(ver, Undoing(Mark(keys - {k})))
    else g' == g && pc' == Panicked
  }

  ghost predicate RedoStep(b: Block, g: Shared, t: nat, ver: Version, pc: RedoPc, g': Shared, pc': Pc)
    requires Sized(b, g) && ver.txn < |b.txns|
  {
    match pc
    case LowerValidation =>
      if g.ctr.validationIdx > ver.txn + 1 then
        g' == g.(ctr := g.ctr.(validationIdx := ver.txn + 1)) && pc' == Task(ver, Redoing(CountAbort))
      else g' == g && pc' == Task(ver, Redoing(LoadExecution))
    case CountAbort =>
      g' == g.(ctr := g.ctr.(decreaseCnt := g.ctr.decreaseCnt + 1)) && pc' == Task(ver, Redoing(LoadExecution))
    case LoadExecution => g' == g && pc' == if g.ctr.executionIdx > ver.txn then Task(ver, Redoing(Reincarnate))
        else DROP
    case Reincarnate => TryIncarnate(b, g, t, ver.txn, g', pc')
  }

  ghost predicate WakeStep(g: Shared, cond: nat, g': Shared, pc': Pc)
    requires cond < |g.dep.condvars|
  {
    g' == g.(dep := g.dep.(condvars := g.dep.condvars[cond := true])) && pc' == DROP
  }

  /******* Execution *******/

  ghost predicate RunStep(b: Block, g: Shared, t: nat, ver: Version, log: ReadSet, pc: RunPc, g': Shared, pc': Pc)
    requires CanMove(b, g, Task(ver, Running(log, pc)))
  {
    match pc
    case Run =>
      && g' == g
      && (match b.txns[ver.txn](SeenOf(log))
          case ReadKey(key) => exists r :: RunRead(b, g, ver, log, pc', key, r)
          case Finish(out) =>
            pc' == Task(ver, Running(log, Apply(out, UpdatesOf(out).Keys, ModifiedKeys(g.mem.outputs[ver.txn]),
                false))))
    case Depend(dep) =>
      && g.dep.locks[dep].None?
      && if g.txnStatus[dep].Executed? then g' == g && pc' == Task(ver, Running(log, Run))
         else
           && g' == g.(dep := g.dep.(locks := g.dep.locks[dep := Some(t)]))
           && pc' == Task(ver, Running(log, Suspend(dep)))
    case Suspend(dep) =>
      if g.txnStatus[ver.txn].Executing? then
        var cond := |g.dep.condvars|;
        && g' == SetStatus(g, ver.txn, Suspended(g.txnStatus[ver.txn].inc, cond), g.owner[ver.txn])
                 .(dep := g.dep.(condvars := g.dep.condvars + [false], place := g.dep.place[ver.txn := Pushing]))
        && pc' == Task(ver, Running(log, Push(dep, cond)))
      else g' == g && pc' == Panicked
    case Push(dep, cond) =>
      && g' == g.(dep := g.dep.(txnDependency := g.dep.txnDependency[dep := g.dep.txnDependency[dep] + [ver.txn]],
                                locks := g.dep.locks[dep := None], place := g.dep.place[ver.txn := Listed(dep)]))
      && pc' == Task(ver, Running(log, Wait(cond)))
    case Wait(cond) => g.dep.condvars[cond] && g' == g && pc' == Task(ver, Running(log, Run))
    case Apply(out, todo, prev, outside) =>
      if todo != {} then exists k :: k in todo && ApplyOne(g, ver, log, pc, g', pc', k)
      else if prev != {} then exists k :: k in prev && DeleteOne(g, ver, log, pc, g', pc', k)
      else
        && g' == g.(mem := g.mem.(inputs := g.mem.inputs[ver.txn := Some(log)]))
        && pc' == Task(ver, Running(log, Record(out, outside)))
    case Record(out, outside) =>
      && g' == g.(mem := g.mem.(outputs := g.mem.outputs[ver.txn := Some(out)]))
      && pc' == Task(ver, Running(log, SetExecuted(outside)))
    case SetExecuted(outside) =>
      if g.txnStatus[ver.txn] == Executing(ver.inc) then
        g' == SetStatus(g, ver.txn, Executed(ver.inc), None) && pc' == Task(ver, Closing(outside, TakeDeps))
      else g' == g && pc' == Panicked
  }

  ghost predicate RunRead(b: Block, g: Shared, ver: Version, log: ReadSet, pc': Pc, key: Key, r: ReadOutcome)
  {
    && CanRead(g.mem.data, key, ver.txn, r)
    && match KindOf(r)
       case None => r.Dependency? && pc' == Task(ver, Running(log, Depend(r.dep)))
       case Some(kind) =>
         !r.Dependency? && pc' == Task(ver, Running(log + [ReadDescriptor(key, kind, ViewOf(r, b.storage(key)))], Run))
  }

  ghost predicate ApplyOne(g: Shared, ver: Version, log: ReadSet, pc: RunPc, g': Shared, pc': Pc, k: Key)
    requires pc.Apply? && k in pc.todo && pc.todo <= UpdatesOf(pc.out).Keys
  {
    var update := UpdatesOf(pc.out)[k];
    var found := EntryAt(g.mem.data, k, ver.txn);
    if update.Put? && found.Some? && found.value.cell.Write? && found.value.cell.inc >= ver.inc then
      g' == g && pc' == Panicked
    else
      && g' == g.(mem := g.mem.(
                    data := Insert(g.mem.data, k, ver.txn, Entry(false, CellOf(update, ver.inc))),
                    written := if update.Put? then g.mem.written[(k, ver.txn, ver.inc) := update.op]
                        else g.mem.written))
      && pc' == Task(ver, Running(log, Apply(pc.out, pc.todo - {k}, pc.prev - {k}, pc.outside || k !in pc.prev)))
  }

  ghost predicate DeleteOne(g: Shared, ver: Version, log: ReadSet, pc: RunPc, g': Shared, pc': Pc, k: Key)
    requires pc.Apply?
  {
    if k in g.mem.data then
      && g' == g.(mem := g.mem.(data := Deleted(g.mem.data, k, ver.txn)))
      && pc' == Task(ver, Running(log, Apply(pc.out, pc.todo, pc.prev - {k}, pc.outside)))
    else g' == g && pc' == Panicked
  }

  /******* finish_execution, after the status is set *******/

  ghost predicate CloseStep(b: Block, g: Shared, t: nat, ver: Version, outside: bool, pc: ClosePc, g': Shared, pc': Pc)
    requires CanMove(b, g, Task(ver, Closing(outside, pc)))
  {
    match pc
    case TakeDeps =>
      && g.dep.locks[ver.txn].None?
      && g' == g.(dep := g.dep.(txnDependency := g.dep.txnDependency[ver.txn := []],
                                place := TakeAll(g.dep.place, g.dep.txnDependency[ver.txn], t)))
      && pc' == Task(ver, Closing(outside, Resume(g.dep.txnDependency[ver.txn], None)))
    case Resume(rest, low) =>
      if rest == [] then
        g' == g && pc' == Task(ver, Closing(outside, if low.Some? then DecExecution(low.value) else LoadValidation))
      else ResumeOne(b, g, ver, outside, rest, low, g', pc')
    case DecExecution(target) =>
      if g.ctr.executionIdx > target then
        g' == g.(ctr := g.ctr.(executionIdx := target)) && pc' == Task(ver, Closing(outside, CountExecution))
      else g' == g && pc' == Task(ver, Closing(outside, LoadValidation))
    case CountExecution =>
      g' == g.(ctr := g.ctr.(decreaseCnt := g.ctr.decreaseCnt + 1)) &&
          pc' == Task(ver, Closing(outside, LoadValidation))
    case LoadValidation =>
      && g' == g
      && pc' == if g.ctr.validationIdx <= ver.txn then DROP
                else if outside then Task(ver, Closing(outside, DecValidation)) else Task(ver, Checking(LoadReads))
    case DecValidation =>
      if g.ctr.validationIdx > ver.txn then
        g' == g.(ctr := g.ctr.(validationIdx := ver.txn)) && pc' == Task(ver, Closing(outside, CountValidation))
      else g' == g && pc' == DROP
    case CountValidation => g' == g.(ctr := g.ctr.(decreaseCnt := g.ctr.decreaseCnt + 1)) && pc' == DROP
  }

  function TakeAll(place: seq<Place>, taken: seq<nat>, t: nat): seq<Place>
  {
    seq(|place|, j requires 0 <= j < |place| => if j in taken then Taken(t) else place[j])
  }

  ghost predicate ResumeOne(b: Block, g: Shared, ver: Version, outside: bool, rest: seq<nat>, low: Option<nat>,
                            g': Shared, pc': Pc)
    requires Sized(b, g) && rest != [] && rest[0] < |b.txns|
  {
    var j := rest[0];
    match g.txnStatus[j]
    case Suspended(inc, cond) =>
      && g' == SetStatus(g, j, Ready(inc, Some(cond)), g.owner[j]).(dep := g.dep.(place := g.dep.place[j := Nowhere]))
      && pc' == Task(ver, Closing(outside, Resume(rest[1..], Some(if low.Some? then Min(low.value, j) else j))))
    case _ => g' == g && pc' == Panicked
  }

  /******* Runs *******/

  ghost predicate Step(b: Block, g: Shared, t: nat, pc: Pc, g': Shared, pc': Pc)
  {
    && CanMove(b, g, pc)
    && match pc
       case Idle(i) => IdleStep(b, g, i, g', pc')
       case Guarded(h) => GuardedStep(b, g, t, h, g', pc')
       case Task(ver, Checking(c)) => CheckStep(b, g, t, ver, c, g', pc')
       case Task(ver, Undoing(u)) => UndoStep(b, g, ver, u, g', pc')
       case Task(ver, Redoing(r)) => RedoStep(b, g, t, ver, r, g', pc')
       case Task(ver, Waking(cond)) => WakeStep(g, cond, g', pc')
       case Task(ver, Running(log, e)) => RunStep(b, g, t, ver, log, e, g', pc')
       case Task(ver, Closing(outside, f)) => CloseStep(b, g, t, ver, outside, f, g', pc')
       case Exited => false
       case Panicked => false
  }

  /** Thread `t` takes a step; all other threads stay where they are. */
  ghost predicate Next(b: Block, s: State, t: nat, s': State)
  {
    && t < |s.threads| == |s'.threads|
    && s'.threads == s.threads[t := s'.threads[t]]
    && Step(b, s.g, t, s.threads[t], s'.g, s'.threads[t])
  }

  /** Some thread takes a step. */
  ghost predicate SomeNext(b: Block, s: State, s': State)
  {
    exists t :: Next(b, s, t, s')
  }

  ghost predicate StepAt(b: Block, run: seq<State>, i: nat)
    requires i + 1 < |run|
  {
    SomeNext(b, run[i], run[i + 1])
  }

  ghost predicate Init(b: Block, s: State)
  {
    && Sized(b, s.g)
    && s.g.ctr == Counters(0, 0, 0, 0, false)
    && (forall i :: 0 <= i < |b.txns| ==> s.g.txnStatus[i] == Ready(0, None) && s.g.owner[i] == None)
    && (forall i :: 0 <= i < |b.txns| ==>
          s.g.dep.txnDependency[i] == [] && s.g.dep.locks[i] == None && s.g.dep.place[i] == Nowhere)
    && s.g.dep.condvars == []
    && s.g.mem.data == map[] && s.g.mem.written == map[]
    && (forall i :: 0 <= i < |b.txns| ==> s.g.mem.inputs[i] == None && s.g.mem.outputs[i] == None)
    && (forall t :: 0 <= t < |s.threads| ==> s.threads[t] == Idle(NextTask))
  }

  /** A run of any number of threads, in any interleaving. */
  ghost predicate IsRun(b: Block, run: seq<State>)
  {
    && |run| > 0
    && Init(b, run[0])
    && forall i :: 0 <= i < |run| - 1 ==> StepAt(b, run, i)
  }
}
