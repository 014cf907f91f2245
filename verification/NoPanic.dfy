/** No assertion, expectation or unreachable arm of the code is ever hit, and all indices are in
    range. */
module NoPanic {
  import opened Base
  import opened Machine
  import opened Invariant
  import opened Threads
  import opened Roles
  import opened Suspension

  lemma NeverPanics(b: Block, s: State, t: nat, s': State)
    requires Inv(b, s) && Next(b, s, t, s')
    ensures !s'.threads[t].Panicked?
  {
    var pc := s.threads[t];
    assert RoleOk(s.g, t, pc) && HolderOk(s, t, pc) && LogOk(b, s.g.mem, pc);
    match pc
    case Guarded(_) => NoGuards(s.threads, t);
    case Task(ver, Undoing(Mark(keys))) => MarkFindsEntry(b, s, t, s', ver, keys);
    case Task(ver, Running(log, Apply(_, _, _, _))) => ApplyFindsEntry(b, s, t, s', ver, log, pc.w.e);
    case Task(ver, Closing(_, Resume(rest, _))) =>
      if rest != [] { assert rest[0] in rest && WaitsAt(s.g, rest[0], ver.txn, Taken(t)); }
    case _ =>
  }

  lemma MarkFindsEntry(b: Block, s: State, t: nat, s': State, ver: Version, keys: set<Key>)
    requires Sized(b, s.g) && RolesOk(b, s) && ColumnsOk(b, s) && Next(b, s, t, s')
    requires s.threads[t] == Task(ver, Undoing(Mark(keys)))
    ensures !s'.threads[t].Panicked?
  {
    assert RoleOk(s.g, t, s.threads[t]) && OwnerOk(s, ver.txn);
    if keys != {} {
      var k :| k in keys && MarkOne(s.g, ver, keys, s'.g, s'.threads[t], k);
      assert ColumnOk(s.g.mem, ver.txn, PhaseOf(s, ver.txn)) && CellOk(s.g.mem, ver.txn, PhaseOf(s, ver.txn), k);
    }
  }

  lemma ApplyFindsEntry(b: Block, s: State, t: nat, s': State, ver: Version, log: ReadSet, e: RunPc)
    requires Sized(b, s.g) && RolesOk(b, s) && ColumnsOk(b, s) && Next(b, s, t, s')
    requires s.threads[t] == Task(ver, Running(log, e)) && e.Apply?
    ensures !s'.threads[t].Panicked?
  {
    assert RoleOk(s.g, t, s.threads[t]) && OwnerOk(s, ver.txn);
    assert ColumnOk(s.g.mem, ver.txn, PhaseOf(s, ver.txn));
    if e.todo != {} {
      var k :| k in e.todo && ApplyOne(s.g, ver, log, e, s'.g, s'.threads[t], k);
      assert CellOk(s.g.mem, ver.txn, PhaseOf(s, ver.txn), k);
    } else if e.prev != {} {
      var k :| k in e.prev && DeleteOne(s.g, ver, log, e, s'.g, s'.threads[t], k);
      assert CellOk(s.g.mem, ver.txn, PhaseOf(s, ver.txn), k);
    }
  }

  /** Indices that come from the shared state are indices of the block. */
  ghost predicate SharedInBounds(b: Block, g: Shared)
    requires Sized(b, g)
  {
    && (forall i :: 0 <= i < |b.txns| && g.txnStatus[i].Ready? && g.txnStatus[i].cv.Some? ==>
       g.txnStatus[i].cv.value < |g.dep.condvars|)
    && (forall d, p :: 0 <= d < |b.txns| && 0 <= p < |g.dep.txnDependency[d]| ==> g.dep.txnDependency[d][p] < |b.txns|)
  }

  lemma RunInBounds(b: Block, g: Shared, t: nat, ver: Version, log: ReadSet, e: RunPc, g': Shared, pc': Pc)
    requires CanMove(b, g, Task(ver, Running(log, e))) && RunStep(b, g, t, ver, log, e, g', pc')
    requires pc'.Task? && pc'.w.Running? && pc'.w.e.Depend? ==> pc'.w.e.dep < pc'.ver.txn
    ensures InBounds(b, g', pc')
  {
  }

  lemma CloseInBounds(b: Block, g: Shared, t: nat, ver: Version, outside: bool, f: ClosePc, g': Shared, pc': Pc)
    requires CanMove(b, g, Task(ver, Closing(outside, f))) && CloseStep(b, g, t, ver, outside, f, g', pc')
    requires SharedInBounds(b, g)
    ensures InBounds(b, g', pc')
  {
  }

  lemma StepInBounds(b: Block, g: Shared, t: nat, pc: Pc, g': Shared, pc': Pc)
    requires Step(b, g, t, pc, g', pc') && SharedInBounds(b, g)
    requires pc'.Task? && pc'.w.Running? && pc'.w.e.Depend? ==> pc'.w.e.dep < pc'.ver.txn
    ensures InBounds(b, g', pc')
  {
    if pc.Task? && pc.w.Running? { RunInBounds(b, g, t, pc.ver, pc.w.log, pc.w.e, g', pc'); }
    if pc.Task? && pc.w.Closing? { CloseInBounds(b, g, t, pc.ver, pc.w.outside, pc.w.f, g', pc'); }
  }

  lemma KeepBounded(b: Block, s: State, t: nat, s': State)
    requires Inv(b, s) && Next(b, s, t, s')
    ensures Bounded(b, s')
  {
    var pc, pc' := s.threads[t], s'.threads[t];
    NeverPanics(b, s, t, s');
    StaysSized(b, s.g, t, pc, s'.g, pc');
    forall i | 0 <= i < |b.txns| && s.g.txnStatus[i].Ready? && s.g.txnStatus[i].cv.Some?
      ensures s.g.txnStatus[i].cv.value < |s.g.dep.condvars|
    {
      OwnerFits(b, s, i);
      assert InBounds(b, s.g, s.threads[s.g.owner[i].value]);
    }
    forall d, p | 0 <= d < |b.txns| && 0 <= p < |s.g.dep.txnDependency[d]|
      ensures s.g.dep.txnDependency[d][p] < |b.txns|
    {
      assert ListOk(s, d);
      assert s.g.dep.txnDependency[d][p] in s.g.dep.txnDependency[d];
    }
    if !Involved(pc) { ListsFootprint(b, s.g, t, pc, s'.g, pc'); }
    StepInBounds(b, s.g, t, pc, s'.g, pc');
    forall u | 0 <= u < |s'.threads| ensures InBounds(b, s'.g, s'.threads[u]) && !s'.threads[u].Panicked? {
      if u != t { assert InBounds(b, s.g, s.threads[u]) && !s.threads[u].Panicked?; }
    }
  }
}
