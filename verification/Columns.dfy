/** The entries of a transaction in the multi-version map are those of its last recorded output,
    up to the execution or abort in progress. */
module Columns {
  import opened Base
  import opened MVHashMap
  import opened Machine
  import opened Invariant
  import opened Roles

  /** The thread works on transaction `j`, before or after the step. */
  predicate Touches(pc: Pc, pc': Pc, j: nat)
  {
    (HasRole(pc) && pc.ver.txn == j) || (HasRole(pc') && pc'.ver.txn == j)
  }

  lemma OutputFootprint(b: Block, g: Shared, t: nat, pc: Pc, g': Shared, pc': Pc, j: nat)
    requires Step(b, g, t, pc, g', pc') && Sized(b, g') && j < |b.txns| && !Touches(pc, pc', j)
    ensures g'.owner[j] == g.owner[j] && g'.mem.outputs[j] == g.mem.outputs[j]
  {
    if pc.Task? && pc.w.Running? { assert RunStep(b, g, t, pc.ver, pc.w.log, pc.w.e, g', pc'); }
  }

  lemma UnownedFootprint(b: Block, g: Shared, t: nat, pc: Pc, g': Shared, pc': Pc, j: nat)
    requires Step(b, g, t, pc, g', pc') && Sized(b, g') && j < |b.txns| && !Touches(pc, pc', j)
    requires g.txnStatus[j].Executed? || (g.txnStatus[j].Ready? && g.txnStatus[j].cv.None?)
    ensures g'.txnStatus[j] == g.txnStatus[j]
  {
    if pc.Task? && pc.w.Running? { assert RunStep(b, g, t, pc.ver, pc.w.log, pc.w.e, g', pc'); }
  }

  /** The steps that change the map. */
  predicate Writes(pc: Pc)
  {
    match pc
    case Task(_, Running(_, e)) => e.Apply?
    case Task(_, Undoing(u)) => u.Mark?
    case _ => false
  }

  lemma MapFootprint(b: Block, g: Shared, t: nat, pc: Pc, g': Shared, pc': Pc)
    requires Step(b, g, t, pc, g', pc') && !Writes(pc)
    ensures g'.mem.data == g.mem.data && g'.mem.written == g.mem.written
  {
  }

  lemma WriteFootprint(b: Block, g: Shared, t: nat, pc: Pc, g': Shared, pc': Pc, j: nat)
    requires Step(b, g, t, pc, g', pc') && Writes(pc) && pc.ver.txn != j
    ensures forall k :: EntryAt(g'.mem.data, k, j) == EntryAt(g.mem.data, k, j)
    ensures forall k, inc: nat :: (k, j, inc) in g'.mem.written <==> (k, j, inc) in g.mem.written
    ensures forall k, inc: nat :: (k, j, inc) in g.mem.written ==>
            g'.mem.written[(k, j, inc)] == g.mem.written[(k, j, inc)]
  {
  }

  lemma ColumnFrame(mem: Memory, mem': Memory, i: nat, ph: Phase)
    requires ColumnOk(mem, i, ph)
    requires forall k :: EntryAt(mem'.data, k, i) == EntryAt(mem.data, k, i)
    requires forall k, inc: nat :: (k, i, inc) in mem'.written <==> (k, i, inc) in mem.written
    requires forall k, inc: nat :: (k, i, inc) in mem.written ==> mem'.written[(k, i, inc)] == mem.written[(k, i, inc)]
    ensures ColumnOk(mem', i, ph)
  {
    forall k ensures CellOk(mem', i, ph, k) { assert CellOk(mem, i, ph, k); }
  }

  /** Phases that describe the same column. */
  lemma SamePhase(mem: Memory, i: nat, ph: Phase, ph': Phase)
    requires ColumnOk(mem, i, ph)
    requires match (ph, ph')
             case (Pending(inc, keys), Applying(inc', out, todo, prev)) => inc' == inc &&
                 todo == UpdatesOf(out).Keys && prev == keys
             case (Applying(inc, out, todo, prev), Settled(inc', out')) => todo == {} && prev == {} && inc' == inc &&
                 out' == out
             case (Settled(inc, out), Marking(inc', out', keys)) => inc' == inc && out' == out &&
                 keys == UpdatesOf(out).Keys
             case (Marking(inc, out, keys), Pending(inc', keys')) => keys == {} && inc' == inc + 1 &&
                 keys' == UpdatesOf(out).Keys
             case _ => ph == ph'
    ensures ColumnOk(mem, i, ph')
  {
    forall k ensures CellOk(mem, i, ph', k) { assert CellOk(mem, i, ph, k); }
  }

  lemma MarkColumn(mem: Memory, i: nat, inc: nat, out: Outcome, keys: set<Key>, k: Key)
    requires ColumnOk(mem, i, Marking(inc, out, keys)) && k in keys && EntryAt(mem.data, k, i).Some?
    ensures ColumnOk(mem.(data := Marked(mem.data, k, i)), i, Marking(inc, out, keys - {k}))
  {
    var mem' := mem.(data := Marked(mem.data, k, i));
    forall k' ensures CellOk(mem', i, Marking(inc, out, keys - {k}), k') {
      assert CellOk(mem, i, Marking(inc, out, keys), k');
    }
  }

  lemma ApplyColumn(mem: Memory, mem': Memory, ver: Version, out: Outcome, todo: set<Key>, prev: set<Key>, k: Key)
    requires ColumnOk(mem, ver.txn, Applying(ver.inc, out, todo, prev)) && k in todo && todo <= UpdatesOf(out).Keys
    requires var u := UpdatesOf(out)[k];
             mem' == mem.(data := Insert(mem.data, k, ver.txn, Entry(false, CellOf(u, ver.inc))),
                          written := if u.Put? then mem.written[(k, ver.txn, ver.inc) := u.op] else mem.written)
    ensures ColumnOk(mem', ver.txn, Applying(ver.inc, out, todo - {k}, prev - {k}))
  {
    var ph := Applying(ver.inc, out, todo - {k}, prev - {k});
    forall k' ensures CellOk(mem', ver.txn, ph, k') {
      assert CellOk(mem, ver.txn, Applying(ver.inc, out, todo, prev), k');
    }
  }

  lemma DeleteColumn(mem: Memory, i: nat, inc: nat, out: Outcome, prev: set<Key>, k: Key)
    requires ColumnOk(mem, i, Applying(inc, out, {}, prev)) && k in prev && k in mem.data
    ensures ColumnOk(mem.(data := Deleted(mem.data, k, i)), i, Applying(inc, out, {}, prev - {k}))
  {
    var mem' := mem.(data := Deleted(mem.data, k, i));
    forall k' ensures CellOk(mem', i, Applying(inc, out, {}, prev - {k}), k') {
      assert CellOk(mem, i, Applying(inc, out, {}, prev), k');
    }
  }

  lemma PhaseStays(b: Block, s: State, t: nat, s': State, j: nat)
    requires Sized(b, s.g) && RolesOk(b, s) && Next(b, s, t, s') && Sized(b, s'.g) && RolesOk(b, s')
    requires j < |b.txns| && !Touches(s.threads[t], s'.threads[t], j)
    ensures OwnerOk(s, j) && OwnerOk(s', j) && PhaseOf(s', j) == PhaseOf(s, j)
  {
    OwnerFits(b, s, j);
    OwnerFits(b, s', j);
    OutputFootprint(b, s.g, t, s.threads[t], s'.g, s'.threads[t], j);
    if s.g.owner[j].None? { UnownedFootprint(b, s.g, t, s.threads[t], s'.g, s'.threads[t], j); }
  }

  lemma RunColumn(b: Block, g: Shared, t: nat, ver: Version, log: ReadSet, e: RunPc, g': Shared, pc': Pc)
    requires CanMove(b, g, Task(ver, Running(log, e))) && Sized(b, g') && RunStep(b, g, t, ver, log, e, g', pc') &&
             HasRole(pc')
    requires ColumnOk(g.mem, ver.txn, PcPhase(Task(ver, Running(log, e)), g.mem.outputs[ver.txn]))
    ensures ColumnOk(g'.mem, ver.txn, PcPhase(pc', g'.mem.outputs[ver.txn]))
  {
    var ph, ph' := PcPhase(Task(ver, Running(log, e)), g.mem.outputs[ver.txn]), PcPhase(pc', g'.mem.outputs[ver.txn]);
    match e
    case Apply(out, todo, prev, outside) =>
      if todo != {} {
        var k :| k in todo && ApplyOne(g, ver, log, e, g', pc', k);
        ApplyColumn(g.mem, g'.mem, ver, out, todo, prev, k);
      } else if prev != {} {
        var k :| k in prev && DeleteOne(g, ver, log, e, g', pc', k);
        DeleteColumn(g.mem, ver.txn, ver.inc, out, prev, k);
      } else {
        SamePhase(g.mem, ver.txn, ph, ph');
        ColumnFrame(g.mem, g'.mem, ver.txn, ph');
      }
    case Record(_, _) => ColumnFrame(g.mem, g'.mem, ver.txn, ph');
    case _ => SamePhase(g.mem, ver.txn, ph, ph');
  }

  lemma UndoColumn(b: Block, g: Shared, ver: Version, u: UndoPc, g': Shared, pc': Pc)
    requires Sized(b, g) && Sized(b, g') && ver.txn < |b.txns| && UndoStep(b, g, ver, u, g', pc') && HasRole(pc')
    requires ColumnOk(g.mem, ver.txn, PcPhase(Task(ver, Undoing(u)), g.mem.outputs[ver.txn]))
    ensures ColumnOk(g'.mem, ver.txn, PcPhase(pc', g'.mem.outputs[ver.txn]))
  {
    var out := LastOutcome(g.mem.outputs[ver.txn]);
    match u
    case LoadKeys => SamePhase(g.mem, ver.txn, Settled(ver.inc, out), PcPhase(pc', g'.mem.outputs[ver.txn]));
    case Mark(keys) =>
      var k :| k in keys && MarkOne(g, ver, keys, g', pc', k);
      MarkColumn(g.mem, ver.txn, ver.inc, out, keys, k);
  }

  /** A thread takes charge of a transaction: its column stays as it is. */
  lemma ClaimedColumn(b: Block, s: State, t: nat, s': State, i: nat)
    requires Sized(b, s.g) && Next(b, s, t, s') && Sized(b, s'.g)
    requires i < |b.txns| && !HasRole(s.threads[t]) && HasRole(s'.threads[t]) && s'.threads[t].ver.txn == i
    requires OwnerOk(s, i) && OwnerOk(s', i) && s.g.owner[i].None? && s'.g.owner[i] == Some(t)
    ensures s'.g.mem == s.g.mem && PhaseOf(s', i) == PhaseOf(s, i)
  {
  }

  /** The column of the transaction that the moving thread works on. */
  lemma OwnColumn(b: Block, s: State, t: nat, s': State, i: nat)
    requires Sized(b, s.g) && RolesOk(b, s) && Next(b, s, t, s') && Sized(b, s'.g) && RolesOk(b, s')
    requires i < |b.txns| && Touches(s.threads[t], s'.threads[t], i)
    requires OwnerOk(s, i) && ColumnOk(s.g.mem, i, PhaseOf(s, i))
    ensures OwnerOk(s', i) && ColumnOk(s'.g.mem, i, PhaseOf(s', i))
  {
    var pc, pc' := s.threads[t], s'.threads[t];
    assert RoleOk(s.g, t, pc) && RoleOk(s'.g, t, pc') && OwnerOk(s', i);
    if !HasRole(pc) {
      ClaimTakesUnowned(b, s.g, t, pc, s'.g, pc');
      OwnerFits(b, s, i);
      ClaimedColumn(b, s, t, s', i);
    } else if HasRole(pc') {
      match pc.w
      case Running(log, e) => RunColumn(b, s.g, t, pc.ver, log, e, s'.g, pc');
      case Undoing(u) => UndoColumn(b, s.g, pc.ver, u, s'.g, pc');
    } else {
      SamePhase(s.g.mem, i, PhaseOf(s, i), PhaseOf(s', i));
    }
  }

  lemma ClaimTakesUnowned(b: Block, g: Shared, t: nat, pc: Pc, g': Shared, pc': Pc)
    requires Step(b, g, t, pc, g', pc') && !HasRole(pc) && HasRole(pc')
    ensures pc'.ver.txn < |b.txns|
    ensures var st := g.txnStatus[pc'.ver.txn]; st.Executed? || (st.Ready? && st.cv.None?)
  {
  }

  lemma KeepColumns(b: Block, s: State, t: nat, s': State)
    requires Sized(b, s.g) && RolesOk(b, s) && ColumnsOk(b, s) && Next(b, s, t, s') && !s'.threads[t].Panicked?
    requires Sized(b, s'.g) && RolesOk(b, s')
    ensures ColumnsOk(b, s')
  {
    var pc, pc' := s.threads[t], s'.threads[t];
    forall j: nat, k | j >= |b.txns| ensures EntryAt(s'.g.mem.data, k, j).None? {
      if Writes(pc) { WriteFootprint(b, s.g, t, pc, s'.g, pc', j); } else { MapFootprint(b, s.g, t, pc, s'.g, pc'); }
      assert EntryAt(s.g.mem.data, k, j).None?;
    }
    forall j | 0 <= j < |b.txns| ensures ColumnOk(s'.g.mem, j, PhaseOf(s', j)) {
      assert ColumnOk(s.g.mem, j, PhaseOf(s, j));
      if Touches(pc, pc', j) { OwnColumn(b, s, t, s', j); } else { OtherColumn(b, s, t, s', j); }
    }
  }

  lemma OtherColumn(b: Block, s: State, t: nat, s': State, j: nat)
    requires Sized(b, s.g) && RolesOk(b, s) && Next(b, s, t, s') && Sized(b, s'.g) && RolesOk(b, s')
    requires j < |b.txns| && !Touches(s.threads[t], s'.threads[t], j)
    requires OwnerOk(s, j) && ColumnOk(s.g.mem, j, PhaseOf(s, j))
    ensures OwnerOk(s', j) && ColumnOk(s'.g.mem, j, PhaseOf(s', j))
  {
    var pc, pc' := s.threads[t], s'.threads[t];
    PhaseStays(b, s, t, s', j);
    if Writes(pc) { WriteFootprint(b, s.g, t, pc, s'.g, pc', j); } else { MapFootprint(b, s.g, t, pc, s'.g, pc'); }
    ColumnFrame(s.g.mem, s'.g.mem, j, PhaseOf(s, j));
  }
}
