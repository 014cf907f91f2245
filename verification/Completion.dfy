/** When the done marker is set, every transaction is executed and nothing changes any more. */
module Completion {
  import opened Base
  import opened Machine
  import opened Invariant
  import opened Threads
  import opened Roles

  /** Steps of harmless threads change neither transactions nor memory. */
  lemma HarmlessStep(b: Block, g: Shared, t: nat, pc: Pc, g': Shared, pc': Pc)
    requires Step(b, g, t, pc, g', pc') && Harmless(pc, |b.txns|)
    requires g.ctr.validationIdx >= |b.txns| && g.ctr.executionIdx >= |b.txns|
    ensures g'.ctr.validationIdx >= |b.txns| && g'.ctr.executionIdx >= |b.txns|
    ensures g' == g.(ctr := g'.ctr) && Harmless(pc', |b.txns|)
    ensures g.ctr.doneMarker ==> g'.ctr.doneMarker
  {
  }

  /** Completion is final. */
  lemma CompleteStays(b: Block, s: State, t: nat, s': State)
    requires Sized(b, s.g) && Complete(b, s) && Next(b, s, t, s')
    ensures Sized(b, s'.g) && Complete(b, s')
    ensures s'.g == s.g.(ctr := s'.g.ctr)
  {
    assert Harmless(s.threads[t], |b.txns|);
    HarmlessStep(b, s.g, t, s.threads[t], s'.g, s'.threads[t]);
  }

  /** With no guard held and both indices past the end, everything has been executed. */
  lemma NoTasksLeft(b: Block, s: State)
    requires Sized(b, s.g) && RolesOk(b, s) && GuardsCounted(s) && ExecutionCovered(b, s)
    requires s.g.ctr.numActiveTasks == 0 && s.g.ctr.validationIdx >= |b.txns| && s.g.ctr.executionIdx >= |b.txns|
    ensures Complete(b, s)
  {
    forall t | 0 <= t < |s.threads| ensures !HasGuard(s.threads[t]) && Harmless(s.threads[t], |b.txns|) {
      if HasGuard(s.threads[t]) { NoGuards(s.threads, t); }
    }
    forall i | 0 <= i < |b.txns| ensures s.g.txnStatus[i].Executed? {
      OwnerFits(b, s, i);
      if s.g.txnStatus[i].Ready? { assert WillExecute(s, i); }
    }
  }

  lemma IndexFootprint(b: Block, g: Shared, t: nat, pc: Pc, g': Shared, pc': Pc)
    requires Step(b, g, t, pc, g', pc')
    ensures g'.ctr.validationIdx >= g.ctr.validationIdx || CountsDecrease(pc')
    ensures g'.ctr.executionIdx >= g.ctr.executionIdx || CountsDecrease(pc')
    ensures g'.ctr.decreaseCnt >= g.ctr.decreaseCnt
    ensures CountsDecrease(pc) ==> g'.ctr.decreaseCnt > g.ctr.decreaseCnt
  {
    if pc.Task? && pc.w.Running? { assert RunStep(b, g, t, pc.ver, pc.w.log, pc.w.e, g', pc'); }
  }

  /** The argument in the comment of check_done: a decrease is counted before its guard is dropped. */
  lemma NotLoweredStays(b: Block, s: State, t: nat, s': State, observed: nat)
    requires Next(b, s, t, s') && observed <= s.g.ctr.decreaseCnt
    ensures observed <= s'.g.ctr.decreaseCnt
    ensures NotLowered(s, |b.txns|, observed, s.g.ctr.validationIdx) ==>
            NotLowered(s', |b.txns|, observed, s'.g.ctr.validationIdx)
    ensures NotLowered(s, |b.txns|, observed, s.g.ctr.executionIdx) ==>
            NotLowered(s', |b.txns|, observed, s'.g.ctr.executionIdx)
  {
    IndexFootprint(b, s.g, t, s.threads[t], s'.g, s'.threads[t]);
    if CountsDecrease(s'.threads[t]) {
    } else if u :| 0 <= u < |s.threads| && CountsDecrease(s.threads[u]) {
      assert u != t ==> CountsDecrease(s'.threads[u]);
    }
  }

  lemma CheckStays(b: Block, s: State, t: nat, s': State, pc: Pc)
    requires Sized(b, s.g) && Next(b, s, t, s') && Sized(b, s'.g) && CheckOk(b, s, pc)
    ensures CheckOk(b, s', pc)
  {
    IndexFootprint(b, s.g, t, s.threads[t], s'.g, s'.threads[t]);
    match pc
    case Idle(CheckExecutionIdx(observed, _)) => NotLoweredStays(b, s, t, s', observed);
    case Idle(CheckActiveTasks(observed, _, _)) => NotLoweredStays(b, s, t, s', observed);
    case Idle(CheckAgain(_)) => if Complete(b, s) { CompleteStays(b, s, t, s'); }
    case Idle(SetDone) => CompleteStays(b, s, t, s');
    case _ =>
  }

  /** The step of check_done that finds no active task. */
  lemma ActiveTasksChecked(b: Block, s: State, observed: nat, v: nat, e: nat)
    requires Sized(b, s.g) && RolesOk(b, s) && GuardsCounted(s) && ExecutionCovered(b, s)
    requires CheckOk(b, s, Idle(CheckActiveTasks(observed, v, e)))
    requires v >= |b.txns| && e >= |b.txns| && s.g.ctr.numActiveTasks == 0
    ensures observed < s.g.ctr.decreaseCnt || Complete(b, s)
  {
    if observed == s.g.ctr.decreaseCnt {
      forall u | 0 <= u < |s.threads| ensures !HasGuard(s.threads[u]) {
        if HasGuard(s.threads[u]) { NoGuards(s.threads, u); }
      }
      NoTasksLeft(b, s);
    }
  }

  predicate IsCheck(pc: Pc)
  {
    pc.Idle? && (pc.i.CheckExecutionIdx? || pc.i.CheckActiveTasks? || pc.i.CheckAgain? || pc.i.SetDone?)
  }

  lemma OwnCheck(b: Block, s: State, t: nat, s': State)
    requires Sized(b, s.g) && RolesOk(b, s) && GuardsCounted(s) && ExecutionCovered(b, s) && CompletionOk(b, s)
    requires Next(b, s, t, s') && Sized(b, s'.g)
    ensures CheckOk(b, s', s'.threads[t])
    ensures s'.g.ctr.doneMarker && !s.g.ctr.doneMarker ==> Complete(b, s')
  {
    var pc, n := s.threads[t], |b.txns|;
    assert CheckOk(b, s, pc);
    if IsCheck(pc) {
      if pc.i.CheckExecutionIdx? {
        NotLoweredStays(b, s, t, s', pc.i.observed);
      } else {
        if pc.i.CheckActiveTasks? && Min(pc.i.execIdx, pc.i.valIdx) >= n && s.g.ctr.numActiveTasks == 0 {
          ActiveTasksChecked(b, s, pc.i.observed, pc.i.valIdx, pc.i.execIdx);
        }
        if Complete(b, s) { CompleteStays(b, s, t, s'); }
      }
    } else {
      NotACheck(b, s.g, t, pc, s'.g, s'.threads[t]);
    }
  }

  lemma NotACheck(b: Block, g: Shared, t: nat, pc: Pc, g': Shared, pc': Pc)
    requires Step(b, g, t, pc, g', pc')
    requires !IsCheck(pc)
    ensures g'.ctr.doneMarker == g.ctr.doneMarker
    ensures pc'.Idle? ==>
              match pc'.i
              case CheckValidationIdx(observed) => observed == g'.ctr.decreaseCnt
              case CheckExecutionIdx(observed, v) => pc == Idle(CheckValidationIdx(observed)) && g' == g &&
                  v == g.ctr.validationIdx
              case CheckActiveTasks(_, _, _) => false
              case CheckAgain(_) => false
              case SetDone => false
              case _ => true
  {
  }

  lemma KeepCompletion(b: Block, s: State, t: nat, s': State)
    requires Sized(b, s.g) && RolesOk(b, s) && GuardsCounted(s) && ExecutionCovered(b, s) && CompletionOk(b, s)
    requires Next(b, s, t, s') && Sized(b, s'.g)
    ensures CompletionOk(b, s')
  {
    OwnCheck(b, s, t, s');
    forall u | 0 <= u < |s'.threads| && u != t ensures CheckOk(b, s', s'.threads[u]) {
      assert CheckOk(b, s, s.threads[u]);
      CheckStays(b, s, t, s', s.threads[u]);
    }
    if s.g.ctr.doneMarker { CompleteStays(b, s, t, s'); }
  }
}
