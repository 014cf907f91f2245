/** Read sets and outputs are those of real executions: each recorded value is one that some
    version wrote, and each output follows from the values read. */
module Logs {
  import opened Base
  import opened Delta
  import opened MVHashMap
  import opened Machine
  import opened Invariant
  import opened Columns

  ghost predicate Extends(w: map<(Key, nat, nat), WriteOp>, w': map<(Key, nat, nat), WriteOp>)
  {
    forall x :: x in w ==> x in w' && w'[x] == w[x]
  }

  /** A version is written at most once at any key. */
  lemma HistoryGrows(b: Block, s: State, t: nat, s': State)
    requires Sized(b, s.g) && RolesOk(b, s) && ColumnsOk(b, s) && Next(b, s, t, s')
    ensures Extends(s.g.mem.written, s'.g.mem.written)
  {
    var pc := s.threads[t];
    if Writes(pc) {
      assert RoleOk(s.g, t, pc) && OwnerOk(s, pc.ver.txn);
      if pc.w.Running? && pc.w.e.todo != {} {
        var k :| k in pc.w.e.todo && ApplyOne(s.g, pc.ver, pc.w.log, pc.w.e, s'.g, s'.threads[t], k);
        assert ColumnOk(s.g.mem, pc.ver.txn, PhaseOf(s, pc.ver.txn)) &&
               CellOk(s.g.mem, pc.ver.txn, PhaseOf(s, pc.ver.txn), k);
      }
    } else {
      MapFootprint(b, s.g, t, pc, s'.g, s'.threads[t]);
    }
  }

  lemma TraceMonotone(b: Block, w: map<(Key, nat, nat), WriteOp>, w': map<(Key, nat, nat), WriteOp>, i: nat,
                      log: ReadSet)
    requires i < |b.txns| && TraceOk(b, w, i, log) && Extends(w, w')
    ensures TraceOk(b, w', i, log)
  {
    forall p | 0 <= p < |log|
      ensures RecordOk(b, w', log[p]) && b.txns[i](SeenOf(log[..p])) == ReadKey(log[p].key)
    {
      assert RecordOk(b, w, log[p]);
    }
  }

  lemma TraceExtends(b: Block, w: map<(Key, nat, nat), WriteOp>, i: nat, log: ReadSet, d: ReadDescriptor)
    requires i < |b.txns| && TraceOk(b, w, i, log) && RecordOk(b, w, d) && b.txns[i](SeenOf(log)) == ReadKey(d.key)
    ensures TraceOk(b, w, i, log + [d])
  {
    var log' := log + [d];
    forall p | 0 <= p < |log'|
      ensures RecordOk(b, w, log'[p]) && b.txns[i](SeenOf(log'[..p])) == ReadKey(log'[p].key)
    {
      if p < |log| { assert log'[..p] == log[..p]; } else { assert log'[..p] == log; }
    }
  }

  /** A versioned read returns a finished write of a lower transaction. */
  lemma {:induction false} VersionIsWrite(t: Tree, i: nat, acc: Option<DeltaOp>)
    ensures var r := ReadDown(t, i, acc);
            r.Version? ==> r.txn < i && r.txn in t && t[r.txn] == Entry(false, Write(r.inc, r.op))
    decreases i
  {
    if i == 0 {
    } else {
      if i - 1 !in t {
        VersionIsWrite(t, i - 1, acc);
      } else if t[i - 1].cell.Delta? {
        var delta := t[i - 1].cell.delta;
        if acc.None? {
          VersionIsWrite(t, i - 1, Some(delta));
        } else if MergeOnto(acc.value, delta).Ok? {
          VersionIsWrite(t, i - 1, Some(MergeOnto(acc.value, delta).value));
        }
      }
    }
  }

  /** What a read gives to the virtual machine is determined by its descriptor. */
  lemma ReadIsRecorded(b: Block, s: State, key: Key, i: nat, r: ReadOutcome)
    requires Sized(b, s.g) && RolesOk(b, s) && ColumnsOk(b, s) && i < |b.txns|
    requires CanRead(s.g.mem.data, key, i, r) && !r.Dependency?
    ensures RecordOk(b, s.g.mem.written, ReadDescriptor(key, KindOf(r).value, ViewOf(r, b.storage(key))))
  {
    if r.Version? {
      VersionIsWrite(TreeOf(s.g.mem.data, key), i, None);
      assert OwnerOk(s, r.txn) && ColumnOk(s.g.mem, r.txn, PhaseOf(s, r.txn)) &&
             CellOk(s.g.mem, r.txn, PhaseOf(s, r.txn), key);
    }
  }

  lemma RecordFootprint(b: Block, g: Shared, t: nat, pc: Pc, g': Shared, pc': Pc, j: nat)
    requires Step(b, g, t, pc, g', pc') && Sized(b, g') && j < |b.txns|
    ensures g.mem.inputs[j].Some? ==> g'.mem.inputs[j].Some?
    ensures !(pc.Task? && pc.w.Running? && pc.ver.txn == j) ==>
              g'.mem.inputs[j] == g.mem.inputs[j] && g'.mem.outputs[j] == g.mem.outputs[j]
  {
  }

  /** The log of a running transaction, after a step of its execution. */
  lemma RunLog(b: Block, s: State, t: nat, s': State, ver: Version, log: ReadSet, e: RunPc)
    requires Sized(b, s.g) && RolesOk(b, s) && ColumnsOk(b, s) && Next(b, s, t, s') && Sized(b, s'.g)
    requires s.threads[t] == Task(ver, Running(log, e)) && !s'.threads[t].Panicked?
    requires LogOk(b, s.g.mem, s.threads[t]) && Extends(s.g.mem.written, s'.g.mem.written)
    ensures s'.threads[t].Task? && s'.threads[t].ver == ver && LogOk(b, s'.g.mem, s'.threads[t])
  {
    var pc' := s'.threads[t];
    TraceMonotone(b, s.g.mem.written, s'.g.mem.written, ver.txn, log);
    if e.Run? {
      match b.txns[ver.txn](SeenOf(log))
      case ReadKey(key) =>
        var r :| RunRead(b, s.g, ver, log, pc', key, r);
        if !r.Dependency? {
          ReadIsRecorded(b, s, key, ver.txn, r);
          TraceExtends(b, s.g.mem.written, ver.txn, log,
              ReadDescriptor(key, KindOf(r).value, ViewOf(r, b.storage(key))));
        }
      case Finish(_) =>
    }
  }

  /** A thread that gets a task starts with an empty log, or finds a recorded read set. */
  lemma TaskLog(b: Block, g: Shared, t: nat, pc: Pc, g': Shared, pc': Pc)
    requires Step(b, g, t, pc, g', pc') && Sized(b, g') && !pc'.Panicked?
    requires !(pc.Task? && pc.w.Running?) && LogOk(b, g.mem, pc)
    requires forall i :: 0 <= i < |b.txns| && g.txnStatus[i].Executed? ==> g.mem.inputs[i].Some?
    ensures g'.mem.inputs == g.mem.inputs && (pc'.Task? ==> pc'.ver.txn < |b.txns|)
    ensures LogOk(b, g'.mem, pc')
  {
  }

  lemma OtherLog(b: Block, s: State, t: nat, s': State, u: nat)
    requires Sized(b, s.g) && RolesOk(b, s) && Next(b, s, t, s') && Sized(b, s'.g)
    requires u < |s.threads| && u != t && InBounds(b, s.g, s.threads[u])
    requires LogOk(b, s.g.mem, s.threads[u]) && Extends(s.g.mem.written, s'.g.mem.written)
    ensures LogOk(b, s'.g.mem, s.threads[u])
  {
    var pc := s.threads[u];
    if pc.Task? {
      RecordFootprint(b, s.g, t, s.threads[t], s'.g, s'.threads[t], pc.ver.txn);
      assert RoleOk(s.g, u, pc) && RoleOk(s.g, t, s.threads[t]);
      if pc.w.Running? { TraceMonotone(b, s.g.mem.written, s'.g.mem.written, pc.ver.txn, pc.w.log); }
    }
  }

  lemma KeepRecorded(b: Block, s: State, t: nat, s': State, i: nat)
    requires Sized(b, s.g) && RolesOk(b, s) && Bounded(b, s) && LogsOk(b, s) && Next(b, s, t, s') && Sized(b, s'.g) &&
             i < |b.txns|
    requires s'.g.txnStatus[i].Executed? || s'.g.txnStatus[i].Aborting?
    ensures Recorded(b, s'.g.mem, i)
  {
    var pc := s.threads[t];
    assert RoleOk(s.g, t, pc) && LogOk(b, s.g.mem, pc);
    RecordFootprint(b, s.g, t, pc, s'.g, s'.threads[t], i);
    FinishedFootprint(b, s.g, t, pc, s'.g, s'.threads[t], i);
  }

  lemma FinishedFootprint(b: Block, g: Shared, t: nat, pc: Pc, g': Shared, pc': Pc, i: nat)
    requires Step(b, g, t, pc, g', pc') && Sized(b, g') && i < |b.txns|
    requires g'.txnStatus[i].Executed? || g'.txnStatus[i].Aborting?
    ensures || g.txnStatus[i].Executed? || g.txnStatus[i].Aborting?
            || (g'.mem == g.mem && pc.Task? && pc.ver.txn == i && pc.w.Running? && pc.w.e.SetExecuted?)
  {
  }

  lemma KeepLogs(b: Block, s: State, t: nat, s': State)
    requires Sized(b, s.g) && Bounded(b, s) && RolesOk(b, s) && ColumnsOk(b, s) && LogsOk(b, s)
    requires Next(b, s, t, s') && Sized(b, s'.g) && Bounded(b, s')
    ensures LogsOk(b, s')
  {
    var pc, pc' := s.threads[t], s'.threads[t];
    HistoryGrows(b, s, t, s');
    assert LogOk(b, s.g.mem, pc);
    forall u | 0 <= u < |s'.threads| ensures LogOk(b, s'.g.mem, s'.threads[u]) {
      if u != t {
        OtherLog(b, s, t, s', u);
      } else if pc.Task? && pc.w.Running? {
        RunLog(b, s, t, s', pc.ver, pc.w.log, pc.w.e);
      } else {
        TaskLog(b, s.g, t, pc, s'.g, pc');
      }
    }
    forall i | 0 <= i < |b.txns| && (s'.g.txnStatus[i].Executed? || s'.g.txnStatus[i].Aborting?)
      ensures Recorded(b, s'.g.mem, i)
    {
      KeepRecorded(b, s, t, s', i);
    }
    forall i | 0 <= i < |b.txns| && s'.g.mem.inputs[i].Some?
      ensures TraceOk(b, s'.g.mem.written, i, s'.g.mem.inputs[i].value)
    {
      InputIsLog(b, s.g, t, pc, s'.g, pc', i);
      TraceMonotone(b, s.g.mem.written, s'.g.mem.written, i, s'.g.mem.inputs[i].value);
    }
  }

  lemma InputIsLog(b: Block, g: Shared, t: nat, pc: Pc, g': Shared, pc': Pc, i: nat)
    requires Step(b, g, t, pc, g', pc') && Sized(b, g') && i < |b.txns| && LogOk(b, g.mem, pc) && g'.mem.inputs[i].Some?
    requires g.mem.inputs[i].Some? ==> TraceOk(b, g.mem.written, i, g.mem.inputs[i].value)
    ensures TraceOk(b, g.mem.written, i, g'.mem.inputs[i].value)
  {
  }
}
