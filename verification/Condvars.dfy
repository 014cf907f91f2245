/** A thread blocked on a condition variable is woken exactly when its transaction executes again. */
module Condvars {
  import opened Base
  import opened Machine
  import opened Invariant
  import opened Threads
  import opened Roles

  predicate IsWait(pc: Pc)
  {
    pc.Task? && pc.w.Running? && pc.w.e.Wait?
  }

  /** The steps that deal with condition variables. */
  predicate Signals(pc: Pc)
  {
    match pc
    case Task(_, Running(_, e)) => e.Suspend? || e.Wait?
    case Task(_, Waking(_)) => true
    case _ => false
  }

  lemma CondvarFootprint(b: Block, g: Shared, t: nat, pc: Pc, g': Shared, pc': Pc)
    requires Step(b, g, t, pc, g', pc') && !Signals(pc)
    ensures g'.dep.condvars == g.dep.condvars
    ensures BlocksOn(pc') == BlocksOn(pc) && Wakes(pc).None?
    ensures Wakes(pc').Some? ==> ChangesStatus(pc)
  {
  }

  /** A thread about to wake its waiter, or waiting, does not notice the step. */
  ghost predicate Undisturbed(s: State, s': State, pc: Pc)
    requires |s.g.txnStatus| == |s'.g.txnStatus| == |s.g.owner| == |s'.g.owner|
  {
    && (Wakes(pc).Some? && pc.ver.txn < |s.g.txnStatus| ==>
          s'.g.txnStatus[pc.ver.txn] == s.g.txnStatus[pc.ver.txn] && s'.g.owner[pc.ver.txn] == s.g.owner[pc.ver.txn])
    && (IsWait(pc) && pc.ver.txn < |s.g.txnStatus| ==>
          || s'.g.txnStatus[pc.ver.txn] == s.g.txnStatus[pc.ver.txn]
          || (!s.g.txnStatus[pc.ver.txn].Executing? && !s'.g.txnStatus[pc.ver.txn].Executing?))
  }

  /** No condition variable changes hands. */
  lemma CondvarsFrame(b: Block, s: State, t: nat, s': State)
    requires |s.g.txnStatus| == |s'.g.txnStatus| == |s.g.owner| == |s'.g.owner|
    requires CondvarsOk(s) && Moved(s, t, s') && s'.g.dep.condvars == s.g.dep.condvars
    requires BlocksOn(s'.threads[t]) == BlocksOn(s.threads[t]) && Wakes(s'.threads[t]) == Wakes(s.threads[t]) == None
    requires forall u :: 0 <= u < |s.threads| && u != t ==> Undisturbed(s, s', s.threads[u])
    requires WakeOk(s', s'.threads[t])
    ensures CondvarsOk(s')
  {
    forall u | 0 <= u < |s'.threads| && u != t ensures WakeOk(s', s'.threads[u]) {
      assert WakeOk(s, s.threads[u]) && Undisturbed(s, s', s.threads[u]);
      if IsWait(s.threads[u]) && WillWake(s, s.threads[u].w.e.cond) {
        var w :| 0 <= w < |s.threads| && Wakes(s.threads[w]) == Some(s.threads[u].w.e.cond);
        assert Wakes(s'.threads[w]) == Some(s.threads[u].w.e.cond);
      }
    }
  }

  /** The waiter of a condition variable is unique, and so is the transaction it waits for. */
  lemma OneWaiter(b: Block, s: State, t: nat, u: nat, cond: nat)
    requires CondvarsOk(s) && t < |s.threads| && u < |s.threads|
    requires BlocksOn(s.threads[t]) == BlocksOn(s.threads[u]) == Some(cond)
    ensures t == u
  {
  }

  lemma SuspendCondvars(b: Block, s: State, t: nat, s': State, ver: Version, log: ReadSet, dep: nat)
    requires Sized(b, s.g) && RolesOk(b, s) && CondvarsOk(s) && Moved(s, t, s')
    requires s.threads[t] == Task(ver, Running(log, Suspend(dep))) && ver.txn < |b.txns|
    requires var cond := |s.g.dep.condvars|;
             && s'.g == SetStatus(s.g, ver.txn, Suspended(ver.inc, cond), s.g.owner[ver.txn])
                        .(dep := s.g.dep.(condvars := s.g.dep.condvars + [false],
                            place := s.g.dep.place[ver.txn := Pushing]))
             && s'.threads[t] == Task(ver, Running(log, Push(dep, cond)))
    ensures CondvarsOk(s')
  {
    assert RoleOk(s.g, t, s.threads[t]);
    forall u | 0 <= u < |s'.threads| ensures WakeOk(s', s'.threads[u]) {
      assert WakeOk(s, s.threads[u]) && RoleOk(s.g, u, s.threads[u]);
      if IsWait(s.threads[u]) && WillWake(s, s.threads[u].w.e.cond) {
        var w :| 0 <= w < |s.threads| && Wakes(s.threads[w]) == Some(s.threads[u].w.e.cond);
        assert Wakes(s'.threads[w]) == Some(s.threads[u].w.e.cond);
      }
    }
  }

  /** The waiter goes on: its flag is set, so nobody is about to wake it again. */
  lemma WaitCondvars(b: Block, s: State, t: nat, s': State, ver: Version, log: ReadSet, cond: nat)
    requires CondvarsOk(s) && Moved(s, t, s') && s'.g == s.g
    requires s.threads[t] == Task(ver, Running(log, Wait(cond))) && s'.threads[t] == Task(ver, Running(log, Run))
    requires cond < |s.g.dep.condvars| && s.g.dep.condvars[cond]
    ensures CondvarsOk(s')
  {
    forall u | 0 <= u < |s'.threads| ensures WakeOk(s', s'.threads[u]) {
      assert WakeOk(s, s.threads[u]);
      if IsWait(s.threads[u]) && WillWake(s, s.threads[u].w.e.cond) {
        var w :| 0 <= w < |s.threads| && Wakes(s.threads[w]) == Some(s.threads[u].w.e.cond);
        assert Wakes(s'.threads[w]) == Some(s.threads[u].w.e.cond);
      }
    }
  }

  lemma NotifyCondvars(b: Block, s: State, t: nat, s': State, ver: Version, cond: nat)
    requires Sized(b, s.g) && RolesOk(b, s) && CondvarsOk(s) && Moved(s, t, s')
    requires s.threads[t] == Task(ver, Waking(cond)) && cond < |s.g.dep.condvars| &&
             WakeStep(s.g, cond, s'.g, s'.threads[t])
    ensures CondvarsOk(s')
  {
    assert WakeOk(s, s.threads[t]);
    var owner := s.g.owner[ver.txn].value;
    assert RoleOk(s.g, owner, s.threads[owner]) && OwnerOk(s, ver.txn);
    forall u | 0 <= u < |s'.threads| ensures WakeOk(s', s'.threads[u]) {
      assert WakeOk(s, s.threads[u]) && RoleOk(s.g, u, s.threads[u]);
      if BlocksOn(s.threads[u]) == Some(cond) { OneWaiter(b, s, u, owner, cond); }
      if IsWait(s.threads[u]) && WillWake(s, s.threads[u].w.e.cond) {
        var w :| 0 <= w < |s.threads| && Wakes(s.threads[w]) == Some(s.threads[u].w.e.cond);
        assert w != t ==> Wakes(s'.threads[w]) == Some(s.threads[u].w.e.cond);
      }
    }
  }

  /** Nobody is about to wake the waiter of a transaction that is ready. */
  lemma NoWakerYet(b: Block, s: State, i: nat, u: nat)
    requires Sized(b, s.g) && RolesOk(b, s) && CondvarsOk(s) && i < |b.txns| && u < |s.threads|
    requires s.g.txnStatus[i].Ready? && s.g.txnStatus[i].cv.Some? && Wakes(s.threads[u]).Some?
    ensures s.threads[u].ver.txn != i && s.threads[u].w.cond != s.g.txnStatus[i].cv.value
  {
    var cond := s.g.txnStatus[i].cv.value;
    OwnerFits(b, s, i);
    assert WakeOk(s, s.threads[s.g.owner[i].value]) && WakeOk(s, s.threads[u]);
    assert OwnerOk(s, s.threads[u].ver.txn);
    if s.threads[u].w.cond == cond { OneWaiter(b, s, s.g.owner[s.threads[u].ver.txn].value, s.g.owner[i].value, cond); }
  }

  lemma IncarnateWakeOk(b: Block, s: State, t: nat, s': State, i: nat, u: nat)
    requires Sized(b, s.g) && RolesOk(b, s) && CondvarsOk(s) && Moved(s, t, s') && i < |b.txns| && u < |s.threads|
    requires BlocksOn(s.threads[t]).None? && Wakes(s.threads[t]).None?
    requires s.g.txnStatus[i].Ready? && s.g.txnStatus[i].cv.Some?
    requires TryIncarnate(b, s.g, t, i, s'.g, s'.threads[t])
    ensures WakeOk(s', s'.threads[u])
  {
    OwnerFits(b, s, i);
    assert WakeOk(s, s.threads[s.g.owner[i].value]);
    assert WakeOk(s, s.threads[u]) && RoleOk(s.g, u, s.threads[u]);
    assert Wakes(s'.threads[t]) == s.g.txnStatus[i].cv;
    if Wakes(s.threads[u]).Some? { NoWakerYet(b, s, i, u); }
    if IsWait(s.threads[u]) && WillWake(s, s.threads[u].w.e.cond) {
      var w :| 0 <= w < |s.threads| && Wakes(s.threads[w]) == Some(s.threads[u].w.e.cond);
      assert Wakes(s'.threads[w]) == Some(s.threads[u].w.e.cond);
    }
  }

  /** A resumed transaction executes again: the thread that incarnated it becomes its waker. */
  lemma IncarnateCondvars(b: Block, s: State, t: nat, s': State, i: nat)
    requires Sized(b, s.g) && RolesOk(b, s) && CondvarsOk(s) && Moved(s, t, s') && i < |b.txns|
    requires BlocksOn(s.threads[t]).None? && Wakes(s.threads[t]).None?
    requires s.g.txnStatus[i].Ready? && s.g.txnStatus[i].cv.Some?
    requires TryIncarnate(b, s.g, t, i, s'.g, s'.threads[t])
    ensures CondvarsOk(s')
  {
    forall u | 0 <= u < |s.threads| && Wakes(s.threads[u]).Some?
      ensures s.threads[u].w.cond != s.g.txnStatus[i].cv.value
    {
      NoWakerYet(b, s, i, u);
    }
    forall u | 0 <= u < |s'.threads| ensures WakeOk(s', s'.threads[u]) { IncarnateWakeOk(b, s, t, s', i, u); }
  }

  /** The status of `i` changes; nobody else waits for `i` to execute, or is about to wake it. */
  lemma OtherStatus(b: Block, s: State, t: nat, s': State, i: nat)
    requires Sized(b, s.g) && Sized(b, s'.g) && RolesOk(b, s) && CondvarsOk(s) && t < |s.threads| && i < |b.txns|
    requires s'.g.txnStatus == s.g.txnStatus[i := s'.g.txnStatus[i]] && s'.g.owner == s.g.owner[i := s'.g.owner[i]]
    requires !s.g.txnStatus[i].Executing? || (s.g.owner[i] == Some(t) && BlocksOn(s.threads[t]).None?)
    requires s.g.txnStatus[i].Executing? || !s'.g.txnStatus[i].Executing? || s.g.owner[i].None?
    ensures forall u :: 0 <= u < |s.threads| && u != t ==> Undisturbed(s, s', s.threads[u])
  {
    forall u | 0 <= u < |s.threads| && u != t ensures Undisturbed(s, s', s.threads[u]) {
      assert WakeOk(s, s.threads[u]) && RoleOk(s.g, u, s.threads[u]);
    }
  }

  lemma KeepCondvars(b: Block, s: State, t: nat, s': State)
    requires Sized(b, s.g) && RolesOk(b, s) && CondvarsOk(s) && Next(b, s, t, s') && !s'.threads[t].Panicked?
    ensures CondvarsOk(s')
  {
    var pc := s.threads[t];
    StaysSized(b, s.g, t, pc, s'.g, s'.threads[t]);
    assert RoleOk(s.g, t, pc) && WakeOk(s, pc);
    if Signals(pc) {
      match pc
      case Task(ver, Running(log, Suspend(dep))) => SuspendCondvars(b, s, t, s', ver, log, dep);
      case Task(ver, Running(log, Wait(cond))) => WaitCondvars(b, s, t, s', ver, log, cond);
      case Task(ver, Waking(cond)) => NotifyCondvars(b, s, t, s', ver, cond);
    } else {
      CondvarFootprint(b, s.g, t, pc, s'.g, s'.threads[t]);
      if !ChangesStatus(pc) {
        StatusFootprint(b, s.g, t, pc, s'.g, s'.threads[t]);
        CondvarsFrame(b, s, t, s');
      } else {
        ChangedCondvars(b, s, t, s');
      }
    }
  }

  lemma ChangedCondvars(b: Block, s: State, t: nat, s': State)
    requires Sized(b, s.g) && Sized(b, s'.g) && RolesOk(b, s) && CondvarsOk(s) && Next(b, s, t, s') &&
             !s'.threads[t].Panicked?
    requires ChangesStatus(s.threads[t]) && !Signals(s.threads[t])
    requires s'.g.dep.condvars == s.g.dep.condvars && BlocksOn(s'.threads[t]) == BlocksOn(s.threads[t]) &&
             Wakes(s.threads[t]).None?
    ensures CondvarsOk(s')
  {
    var pc := s.threads[t];
    assert RoleOk(s.g, t, pc);
    var i :=
      match pc
      case Guarded(ExecuteIncarnate(idx)) => idx
      case Task(_, Closing(_, Resume(rest, _))) => rest[0]
      case Task(ver, _) => ver.txn;
    if i >= |b.txns| || s'.g == s.g {
      CondvarsFrame(b, s, t, s');
    } else {
      OwnerFits(b, s, i);
      if (pc.Guarded? || pc.w.Redoing?) && s.g.txnStatus[i].Ready? && s.g.txnStatus[i].cv.Some? {
        IncarnateCondvars(b, s, t, s', i);
      } else {
        OtherStatus(b, s, t, s', i);
        CondvarsFrame(b, s, t, s');
      }
    }
  }
}
