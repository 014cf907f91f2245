/** No wake-up is lost: a suspended transaction is in exactly one list, and that list will be
    drained. */
module Suspension {
  import opened Base
  import opened MVHashMap
  import opened Machine
  import opened Invariant
  import opened Threads

  /** The steps that deal with dependency lists. */
  predicate Involved(pc: Pc)
  {
    match pc
    case Task(_, Running(_, e)) => e.Depend? || e.Suspend? || e.Push?
    case Task(_, Closing(_, f)) => f.TakeDeps? || (f.Resume? && f.rest != [])
    case _ => false
  }

  /** The thread is on record as the holder of a lock or of a suspended transaction. */
  predicate OnRecord(pc: Pc)
  {
    match pc
    case Task(_, Running(_, e)) => e.Suspend? || e.Push?
    case Task(_, Closing(_, Resume(rest, _))) => rest != []
    case _ => false
  }

  /** The same transactions are suspended, and they have the same owners. */
  ghost predicate SameSuspended(g: Shared, g': Shared)
    requires |g.txnStatus| == |g'.txnStatus| == |g.owner| == |g'.owner|
  {
    forall j :: 0 <= j < |g.txnStatus| ==>
      && (g'.txnStatus[j].Suspended? <==> g.txnStatus[j].Suspended?)
      && (g.txnStatus[j].Suspended? ==> g'.owner[j] == g.owner[j])
  }

  predicate SameLists(g: Shared, g': Shared)
  {
    g'.dep.txnDependency == g.dep.txnDependency && g'.dep.locks == g.dep.locks && g'.dep.place == g.dep.place
  }

  lemma DependencyBelow(g: Shared, key: Key, txn: nat, r: ReadOutcome)
    requires CanRead(g.mem.data, key, txn, r) && r.Dependency?
    ensures r.dep < txn
  {
    DependencyIsEstimate(TreeOf(g.mem.data, key), txn, None);
  }

  lemma ListsFootprint(b: Block, g: Shared, t: nat, pc: Pc, g': Shared, pc': Pc)
    requires Step(b, g, t, pc, g', pc') && !Involved(pc)
    ensures SameLists(g, g') && !OnRecord(pc')
    ensures pc'.Task? && pc'.w.Running? && pc'.w.e.Depend? ==> pc'.w.e.dep < pc'.ver.txn
  {
    if pc.Task? && pc.w.Running? && pc.w.e.Run? {
      match b.txns[pc.ver.txn](SeenOf(pc.w.log))
      case ReadKey(key) =>
        var r :| RunRead(b, g, pc.ver, pc.w.log, pc', key, r);
        if r.Dependency? { DependencyBelow(g, key, pc.ver.txn, r); }
      case Finish(_) =>
    }
  }

  lemma SuspendedFootprint(b: Block, g: Shared, t: nat, pc: Pc, g': Shared, pc': Pc)
    requires Step(b, g, t, pc, g', pc') && Sized(b, g') && !Involved(pc)
    ensures SameSuspended(g, g')
  {
    if pc.Task? && pc.w.Running? { assert RunStep(b, g, t, pc.ver, pc.w.log, pc.w.e, g', pc'); }
  }

  lemma ExecutedFootprint(b: Block, g: Shared, t: nat, pc: Pc, g': Shared, pc': Pc, d: nat)
    requires Step(b, g, t, pc, g', pc') && Sized(b, g') && d < |b.txns|
    ensures g'.txnStatus[d].Executed? ==> g.txnStatus[d].Executed? || Drains(pc', d)
  {
  }

  lemma DrainStays(b: Block, s: State, t: nat, s': State, d: nat)
    requires Next(b, s, t, s') && Sized(b, s'.g) && WillDrain(s, d) && !Drains(s.threads[t], d)
    ensures WillDrain(s', d)
  {
    ExecutedFootprint(b, s.g, t, s.threads[t], s'.g, s'.threads[t], d);
    if s'.g.txnStatus[d].Executed? {
      if s.g.txnStatus[d].Executed? {
        var u :| 0 <= u < |s.threads| && Drains(s.threads[u], d);
        assert Drains(s'.threads[u], d);
      } else {
        assert Drains(s'.threads[t], d);
      }
    }
  }

  lemma HolderFrame(s: State, s': State, u: nat, pc: Pc)
    requires |s.g.txnStatus| == |s'.g.txnStatus| == |s.g.owner| == |s'.g.owner|
    requires HolderOk(s, u, pc)
    requires s'.g.dep.locks == s.g.dep.locks && s'.g.dep.place == s.g.dep.place
    requires SameSuspended(s.g, s'.g)
    requires forall d :: WillDrain(s, d) ==> WillDrain(s', d)
    ensures HolderOk(s', u, pc)
  {
    if pc.Task? && pc.w.Closing? && pc.w.f.Resume? {
      forall j | j in pc.w.f.rest ensures WaitsAt(s'.g, j, pc.ver.txn, Taken(u)) {
        assert WaitsAt(s.g, j, pc.ver.txn, Taken(u));
      }
    }
  }

  /** Nothing about lists changes, and the thread that moves is not on record. */
  lemma SuspensionFrame(b: Block, s: State, t: nat, s': State)
    requires Sized(b, s.g) && Sized(b, s'.g) && SuspensionOk(b, s) && Moved(s, t, s')
    requires SameLists(s.g, s'.g) && SameSuspended(s.g, s'.g)
    requires !OnRecord(s.threads[t]) && HolderOk(s', t, s'.threads[t])
    requires forall d :: WillDrain(s, d) ==> WillDrain(s', d)
    ensures SuspensionOk(b, s')
  {
    forall d | 0 <= d < |b.txns| ensures ListOk(s', d) && LockOk(s', d) && PlaceOk(s', d) {
      assert ListOk(s, d) && LockOk(s, d) && PlaceOk(s, d);
      forall j | j in s'.g.dep.txnDependency[d] ensures WaitsAt(s'.g, j, d, Listed(d)) {
        assert WaitsAt(s.g, j, d, Listed(d));
      }
    }
    forall u | 0 <= u < |s'.threads| && u != t ensures HolderOk(s', u, s'.threads[u]) {
      HolderFrame(s, s', u, s.threads[u]);
    }
  }

  /** wait_for_dependency: take the lock, the dependency not being executed. */
  lemma LockStep(b: Block, s: State, t: nat, s': State, log: ReadSet, dep: nat)
    requires Sized(b, s.g) && SuspensionOk(b, s) && Moved(s, t, s')
    requires s.threads[t].Task? && s.threads[t].w == Running(log, Depend(dep)) && dep < |b.txns|
    requires s.g.dep.locks[dep].None? && !s.g.txnStatus[dep].Executed?
    requires s'.g == s.g.(dep := s.g.dep.(locks := s.g.dep.locks[dep := Some(t)]))
    requires s'.threads[t] == Task(s.threads[t].ver, Running(log, Suspend(dep)))
    requires forall d :: WillDrain(s, d) ==> WillDrain(s', d)
    ensures SuspensionOk(b, s')
  {
    assert HolderOk(s, t, s.threads[t]);
    forall d | 0 <= d < |b.txns| ensures ListOk(s', d) && LockOk(s', d) && PlaceOk(s', d) {
      assert ListOk(s, d) && LockOk(s, d) && PlaceOk(s, d);
      forall j | j in s'.g.dep.txnDependency[d] ensures WaitsAt(s'.g, j, d, Listed(d)) {
        assert WaitsAt(s.g, j, d, Listed(d));
      }
    }
    forall u | 0 <= u < |s'.threads| && u != t ensures HolderOk(s', u, s'.threads[u]) {
      assert HolderOk(s, u, s.threads[u]);
      var pc := s.threads[u];
      if pc.Task? && pc.w.Closing? && pc.w.f.Resume? {
        forall j | j in pc.w.f.rest ensures WaitsAt(s'.g, j, pc.ver.txn, Taken(u)) {
          assert WaitsAt(s.g, j, pc.ver.txn, Taken(u));
        }
      }
    }
  }

  /** wait_for_dependency: suspend, still holding the lock. */
  lemma SuspendStep(b: Block, s: State, t: nat, s': State, ver: Version, log: ReadSet, dep: nat)
    requires Sized(b, s.g) && RolesOk(b, s) && SuspensionOk(b, s) && Moved(s, t, s')
    requires s.threads[t] == Task(ver, Running(log, Suspend(dep))) && ver.txn < |b.txns|
    requires var cond := |s.g.dep.condvars|;
             && s'.g == SetStatus(s.g, ver.txn, Suspended(ver.inc, cond), s.g.owner[ver.txn])
                        .(dep := s.g.dep.(condvars := s.g.dep.condvars + [false],
                            place := s.g.dep.place[ver.txn := Pushing]))
             && s'.threads[t] == Task(ver, Running(log, Push(dep, cond)))
    requires forall d :: WillDrain(s, d) ==> WillDrain(s', d)
    ensures SuspensionOk(b, s')
  {
    assert HolderOk(s, t, s.threads[t]) && RoleOk(s.g, t, s.threads[t]);
    forall d | 0 <= d < |b.txns| ensures ListOk(s', d) && LockOk(s', d) && PlaceOk(s', d) {
      assert ListOk(s, d) && LockOk(s, d) && PlaceOk(s, d);
      forall j | j in s'.g.dep.txnDependency[d] ensures WaitsAt(s'.g, j, d, Listed(d)) {
        assert WaitsAt(s.g, j, d, Listed(d));
      }
    }
    forall u | 0 <= u < |s'.threads| && u != t ensures HolderOk(s', u, s'.threads[u]) {
      assert HolderOk(s, u, s.threads[u]) && RoleOk(s.g, u, s.threads[u]);
      var pc := s.threads[u];
      if pc.Task? && pc.w.Closing? && pc.w.f.Resume? {
        forall j | j in pc.w.f.rest ensures WaitsAt(s'.g, j, pc.ver.txn, Taken(u)) {
          assert WaitsAt(s.g, j, pc.ver.txn, Taken(u));
        }
      }
    }
  }

  /** wait_for_dependency: enter the list and release the lock. */
  lemma PushStep(b: Block, s: State, t: nat, s': State, ver: Version, log: ReadSet, dep: nat, cond: nat)
    requires Sized(b, s.g) && RolesOk(b, s) && SuspensionOk(b, s) && Moved(s, t, s')
    requires s.threads[t] == Task(ver, Running(log, Push(dep, cond))) && ver.txn < |b.txns| && dep < |b.txns|
    requires s'.g == s.g.(dep :=
             s.g.dep.(txnDependency := s.g.dep.txnDependency[dep := s.g.dep.txnDependency[dep] + [ver.txn]],
                                          locks := s.g.dep.locks[dep := None],
                                              place := s.g.dep.place[ver.txn := Listed(dep)]))
    requires s'.threads[t] == Task(ver, Running(log, Wait(cond)))
    requires forall d :: WillDrain(s, d) ==> WillDrain(s', d)
    ensures SuspensionOk(b, s')
  {
    assert HolderOk(s, t, s.threads[t]) && RoleOk(s.g, t, s.threads[t]);
    assert ListOk(s, dep);
    assert ver.txn in s.g.dep.txnDependency[dep] ==> WaitsAt(s.g, ver.txn, dep, Listed(dep));
    forall d | 0 <= d < |b.txns| ensures ListOk(s', d) && LockOk(s', d) && PlaceOk(s', d) {
      assert ListOk(s, d) && LockOk(s, d) && PlaceOk(s, d) && OwnerOk(s, d);
      forall j | j in s'.g.dep.txnDependency[d] ensures WaitsAt(s'.g, j, d, Listed(d)) {
        assert j in s.g.dep.txnDependency[d] ==> WaitsAt(s.g, j, d, Listed(d));
      }
    }
    forall u | 0 <= u < |s'.threads| && u != t ensures HolderOk(s', u, s'.threads[u]) {
      assert HolderOk(s, u, s.threads[u]) && RoleOk(s.g, u, s.threads[u]);
      var pc := s.threads[u];
      if pc.Task? && pc.w.Closing? && pc.w.f.Resume? {
        forall j | j in pc.w.f.rest ensures WaitsAt(s'.g, j, pc.ver.txn, Taken(u)) {
          assert WaitsAt(s.g, j, pc.ver.txn, Taken(u));
        }
      }
    }
  }

  /** finish_execution: take the whole list. */
  lemma TakeStep(b: Block, s: State, t: nat, s': State, ver: Version, outside: bool)
    requires Sized(b, s.g) && SuspensionOk(b, s) && Moved(s, t, s')
    requires s.threads[t] == Task(ver, Closing(outside, TakeDeps)) && ver.txn < |b.txns| && s.g.dep.locks[ver.txn].None?
    requires s'.g == s.g.(dep := s.g.dep.(txnDependency := s.g.dep.txnDependency[ver.txn := []],
                                          place := TakeAll(s.g.dep.place, s.g.dep.txnDependency[ver.txn], t)))
    requires s'.threads[t] == Task(ver, Closing(outside, Resume(s.g.dep.txnDependency[ver.txn], None)))
    requires forall d :: d != ver.txn && WillDrain(s, d) ==> WillDrain(s', d)
    ensures SuspensionOk(b, s')
  {
    assert ListOk(s, ver.txn);
    var taken := s.g.dep.txnDependency[ver.txn];
    forall j | j in taken ensures WaitsAt(s'.g, j, ver.txn, Taken(t)) {
      assert WaitsAt(s.g, j, ver.txn, Listed(ver.txn));
    }
    forall d | 0 <= d < |b.txns| ensures ListOk(s', d) && LockOk(s', d) && PlaceOk(s', d) {
      assert ListOk(s, d) && LockOk(s, d) && PlaceOk(s, d);
      forall j | j in s'.g.dep.txnDependency[d] ensures WaitsAt(s'.g, j, d, Listed(d)) {
        assert WaitsAt(s.g, j, d, Listed(d));
        assert j in taken ==> WaitsAt(s.g, j, ver.txn, Listed(ver.txn));
      }
    }
    forall u | 0 <= u < |s'.threads| && u != t ensures HolderOk(s', u, s'.threads[u]) {
      assert HolderOk(s, u, s.threads[u]);
      var pc := s.threads[u];
      if pc.Task? {
        assert pc.ver.txn in taken ==> WaitsAt(s.g, pc.ver.txn, ver.txn, Listed(ver.txn));
        if pc.w.Closing? && pc.w.f.Resume? {
          forall j | j in pc.w.f.rest ensures WaitsAt(s'.g, j, pc.ver.txn, Taken(u)) {
            assert WaitsAt(s.g, j, pc.ver.txn, Taken(u));
            assert j in taken ==> WaitsAt(s.g, j, ver.txn, Listed(ver.txn));
          }
        }
      }
    }
  }

  /** finish_execution: resume one transaction of the taken list. */
  lemma ResumeStep(b: Block, s: State, t: nat, s': State, ver: Version, outside: bool, rest: seq<nat>, low: Option<nat>)
    requires Sized(b, s.g) && SuspensionOk(b, s) && Moved(s, t, s')
    requires s.threads[t] == Task(ver, Closing(outside, Resume(rest, low))) && rest != [] && rest[0] < |b.txns|
    requires ResumeOne(b, s.g, ver, outside, rest, low, s'.g, s'.threads[t]) && !s'.threads[t].Panicked?
    requires forall d :: WillDrain(s, d) ==> WillDrain(s', d)
    ensures SuspensionOk(b, s')
  {
    var j0 := rest[0];
    assert HolderOk(s, t, s.threads[t]) && WaitsAt(s.g, j0, ver.txn, Taken(t));
    assert rest == [j0] + rest[1..];
    forall j | j in rest[1..] ensures WaitsAt(s'.g, j, ver.txn, Taken(t)) { assert WaitsAt(s.g, j, ver.txn, Taken(t)); }
    forall d | 0 <= d < |b.txns| ensures ListOk(s', d) && LockOk(s', d) && PlaceOk(s', d) {
      assert ListOk(s, d) && LockOk(s, d) && PlaceOk(s, d);
      forall j | j in s'.g.dep.txnDependency[d] ensures WaitsAt(s'.g, j, d, Listed(d)) {
        assert WaitsAt(s.g, j, d, Listed(d));
      }
    }
    forall u | 0 <= u < |s'.threads| && u != t ensures HolderOk(s', u, s'.threads[u]) {
      assert HolderOk(s, u, s.threads[u]);
      var pc := s.threads[u];
      if pc.Task? && pc.w.Closing? && pc.w.f.Resume? {
        forall j | j in pc.w.f.rest ensures WaitsAt(s'.g, j, pc.ver.txn, Taken(u)) {
          assert WaitsAt(s.g, j, pc.ver.txn, Taken(u));
        }
      }
    }
  }

  lemma KeepSuspension(b: Block, s: State, t: nat, s': State)
    requires Sized(b, s.g) && RolesOk(b, s) && SuspensionOk(b, s) && Next(b, s, t, s') && !s'.threads[t].Panicked?
    ensures Sized(b, s'.g) && SuspensionOk(b, s')
  {
    var pc := s.threads[t];
    StaysSized(b, s.g, t, pc, s'.g, s'.threads[t]);
    forall d | WillDrain(s, d) && !Drains(pc, d) ensures WillDrain(s', d) { DrainStays(b, s, t, s', d); }
    assert HolderOk(s, t, pc) && RoleOk(s.g, t, pc);
    if !Involved(pc) {
      ListsFootprint(b, s.g, t, pc, s'.g, s'.threads[t]);
      SuspendedFootprint(b, s.g, t, pc, s'.g, s'.threads[t]);
      SuspensionFrame(b, s, t, s');
    } else {
      match pc
      case Task(ver, Running(log, Depend(dep))) =>
        if s.g.txnStatus[dep].Executed? { SuspensionFrame(b, s, t, s'); } else { LockStep(b, s, t, s', log, dep); }
      case Task(ver, Running(log, Suspend(dep))) => SuspendStep(b, s, t, s', ver, log, dep);
      case Task(ver, Running(log, Push(dep, cond))) => PushStep(b, s, t, s', ver, log, dep, cond);
      case Task(ver, Closing(outside, TakeDeps)) => TakeStep(b, s, t, s', ver, outside);
      case Task(ver, Closing(outside, Resume(rest, low))) => ResumeStep(b, s, t, s', ver, outside, rest, low);
    }
  }
}
