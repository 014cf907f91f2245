/** Whatever has to be executed or validated is at or above the index that the threads fetch from,
    or some thread is about to see to it. */
module Coverage {
  import opened Base
  import opened MVHashMap
  import opened Machine
  import opened Invariant
  import opened Columns
  import opened Logs

  /******* Execution *******/

  lemma RunKeepsReady(b: Block, g: Shared, t: nat, ver: Version, log: ReadSet, e: RunPc, g': Shared, pc': Pc, j: nat)
    requires CanMove(b, g, Task(ver, Running(log, e))) && RunStep(b, g, t, ver, log, e, g', pc')
    requires Sized(b, g') && j < |b.txns| && g'.txnStatus[j].Ready?
    ensures g.txnStatus[j].Ready? && g'.ctr == g.ctr
  {
  }

  lemma ExecutionHandedOn(b: Block, g: Shared, t: nat, pc: Pc, g': Shared, pc': Pc, j: nat)
    requires Step(b, g, t, pc, g', pc') && Sized(b, g') && !pc'.Panicked? && j < |b.txns| && g'.txnStatus[j].Ready?
    requires g.txnStatus[j].Ready? ==> g.ctr.executionIdx <= j || CoversExecution(pc, j)
    ensures g'.ctr.executionIdx <= j || CoversExecution(pc', j)
  {
    if pc.Task? && pc.w.Running? { RunKeepsReady(b, g, t, pc.ver, pc.w.log, pc.w.e, g', pc', j); }
  }

  lemma KeepExecution(b: Block, s: State, t: nat, s': State)
    requires Sized(b, s.g) && ExecutionCovered(b, s) && Next(b, s, t, s') && Sized(b, s'.g) && !s'.threads[t].Panicked?
    ensures ExecutionCovered(b, s')
  {
    forall j | 0 <= j < |b.txns| && s'.g.txnStatus[j].Ready? ensures WillExecute(s', j) {
      if s.g.txnStatus[j].Ready? && s.g.ctr.executionIdx > j && !CoversExecution(s.threads[t], j) {
        assert WillExecute(s, j);
        var u :| 0 <= u < |s.threads| && CoversExecution(s.threads[u], j);
        assert CoversExecution(s'.threads[u], j);
      } else {
        ExecutionHandedOn(b, s.g, t, s.threads[t], s'.g, s'.threads[t], j);
        assert CoversExecution(s'.threads[t], j) ==> WillExecute(s', j);
      }
    }
  }

  /******* What a map change does to the reads of others *******/

  lemma ReadUnaffectedAbove(data: Data, data': Data, key: Key, j: nat, i: nat)
    requires forall k, x: nat :: x != i ==> EntryAt(data', k, x) == EntryAt(data, k, x)
    requires i >= j
    ensures Read(data', key, j) == Read(data, key, j)
  {
    var t, u := TreeOf(data, key), TreeOf(data', key);
    forall x: nat | x < j ensures (x in t <==> x in u) && (x in t ==> t[x] == u[x]) {
      assert EntryAt(data', key, x) == EntryAt(data, key, x);
    }
    ReadDownLocal(t, u, j, None);
  }

  /** Replacing or removing an estimate does not invalidate anything. */
  lemma ReadPastEstimate(data: Data, data': Data, key: Key, j: nat, i: nat, at: Key)
    requires EntryAt(data, at, i).Some? && EntryAt(data, at, i).value.estimate
    requires forall k, x: nat :: k != at || x != i ==> EntryAt(data', k, x) == EntryAt(data, k, x)
    requires !Read(data, key, j).Dependency?
    ensures Read(data', key, j) == Read(data, key, j)
  {
    var t, u := TreeOf(data, key), TreeOf(data', key);
    forall x: nat | key != at || x != i ensures (x in t <==> x in u) && (x in t ==> t[x] == u[x]) {
      assert EntryAt(data', key, x) == EntryAt(data, key, x);
    }
    if key == at { ReadDownPastEstimate(t, u, j, None, i); } else { ReadDownLocal(t, u, j, None); }
  }

  /** A step that invalidates a read of `j` is one of a thread that will have `j` validated. */
  lemma InvalidatingIsCovered(b: Block, s: State, t: nat, s': State, j: nat, inc: nat, d: ReadDescriptor)
    requires Sized(b, s.g) && RolesOk(b, s) && ColumnsOk(b, s) && Next(b, s, t, s') && !s'.threads[t].Panicked?
    requires StillValid(s.g.mem.data, j, d)
    ensures StillValid(s'.g.mem.data, j, d) || CoversValidation(s'.threads[t], j, inc)
  {
    var pc, pc' := s.threads[t], s'.threads[t];
    var data, data' := s.g.mem.data, s'.g.mem.data;
    if !Writes(pc) {
      MapFootprint(b, s.g, t, pc, s'.g, pc');
    } else if pc.ver.txn >= j {
      forall k, x: nat | x != pc.ver.txn ensures EntryAt(data', k, x) == EntryAt(data, k, x) {
        WriteFootprint(b, s.g, t, pc, s'.g, pc', x);
      }
      ReadUnaffectedAbove(data, data', d.key, j, pc.ver.txn);
    } else if pc.w.Running? {
      RunInvalidates(b, s, t, s', j, inc, d);
    }
  }

  lemma RunInvalidates(b: Block, s: State, t: nat, s': State, j: nat, inc: nat, d: ReadDescriptor)
    requires Sized(b, s.g) && RolesOk(b, s) && ColumnsOk(b, s) && Next(b, s, t, s') && !s'.threads[t].Panicked?
    requires s.threads[t].Task? && s.threads[t].w.Running? && s.threads[t].w.e.Apply? && s.threads[t].ver.txn < j
    requires StillValid(s.g.mem.data, j, d)
    ensures StillValid(s'.g.mem.data, j, d) || CoversValidation(s'.threads[t], j, inc)
  {
    var pc, pc' := s.threads[t], s'.threads[t];
    var data, data' := s.g.mem.data, s'.g.mem.data;
    var i, e := pc.ver.txn, pc.w.e;
    assert RoleOk(s.g, t, pc) && OwnerOk(s, i) && ColumnOk(s.g.mem, i, PhaseOf(s, i));
    if e.todo != {} {
      var k :| k in e.todo && ApplyOne(s.g, pc.ver, pc.w.log, e, s'.g, pc', k);
      if k in e.prev {
        assert CellOk(s.g.mem, i, PhaseOf(s, i), k);
        ReadPastEstimate(data, data', d.key, j, i, k);
      }
    } else if e.prev != {} {
      var k :| k in e.prev && DeleteOne(s.g, pc.ver, pc.w.log, e, s'.g, pc', k);
      assert CellOk(s.g.mem, i, PhaseOf(s, i), k);
      ReadPastEstimate(data, data', d.key, j, i, k);
    }
  }

  /******* Validation *******/

  /** Who was to validate `(j, inc)` still is, or now scans its reads from the start. */
  ghost predicate ValidationPassedOn(g': Shared, pc': Pc, j: nat, inc: nat)
    requires j < |g'.mem.inputs|
  {
    || g'.ctr.validationIdx <= j || CoversValidation(pc', j, inc)
    || (Scans(pc', j, inc, 0) && g'.mem.inputs[j].Some?)
  }

  lemma RunHandsOn(b: Block, g: Shared, t: nat, ver: Version, log: ReadSet, e: RunPc, g': Shared, pc': Pc, j: nat,
                   inc: nat)
    requires CanMove(b, g, Task(ver, Running(log, e))) && RunStep(b, g, t, ver, log, e, g', pc')
    requires Sized(b, g') && !pc'.Panicked? && j < |b.txns|
    requires g.ctr.validationIdx <= j || (WroteOutside(e) && ver.txn < j)
    ensures ValidationPassedOn(g', pc', j, inc)
  {
  }

  lemma ValidationHandedOn(b: Block, g: Shared, t: nat, pc: Pc, g': Shared, pc': Pc, j: nat, inc: nat)
    requires Step(b, g, t, pc, g', pc') && Sized(b, g') && !pc'.Panicked? && j < |b.txns|
    requires g.txnStatus[j] == Executed(inc) && g'.txnStatus[j] == Executed(inc)
    requires g.ctr.validationIdx <= j || CoversValidation(pc, j, inc)
    ensures ValidationPassedOn(g', pc', j, inc)
  {
    if pc.Task? && pc.w.Running? { RunHandsOn(b, g, t, pc.ver, pc.w.log, pc.w.e, g', pc', j, inc); }
  }

  lemma NewlyExecuted(b: Block, g: Shared, t: nat, pc: Pc, g': Shared, pc': Pc, j: nat, inc: nat)
    requires Step(b, g, t, pc, g', pc') && Sized(b, g') && j < |b.txns|
    requires g.txnStatus[j] != Executed(inc) && g'.txnStatus[j] == Executed(inc)
    ensures CoversValidation(pc', j, inc) && Rank(g.txnStatus[j]) < 4 * inc + 2
  {
    if pc.Task? && pc.w.Running? { assert RunStep(b, g, t, pc.ver, pc.w.log, pc.w.e, g', pc'); }
  }

  /** A scan that moves on has found the read valid; one that stops will abort. */
  lemma ScanMovesOn(b: Block, g: Shared, t: nat, pc: Pc, g': Shared, pc': Pc, j: nat, inc: nat, p: nat)
    requires Step(b, g, t, pc, g', pc') && Sized(b, g') && j < |b.txns|
    requires Scans(pc, j, inc, p) && ScanOk(g, pc) && g.txnStatus[j] == Executed(inc)
    requires g.mem.inputs[j].Some? && p < |g.mem.inputs[j].value|
    ensures g' == g
    ensures Scans(pc', j, inc, p) || CoversValidation(pc', j, inc) ||
            StillValid(g.mem.data, j, g.mem.inputs[j].value[p])
  {
    var log, pos := pc.w.c.log, pc.w.c.pos;
    var r :| ScanRead(g, pc.ver, log, pos, pc', r);
  }

  lemma StaysCovered(b: Block, s: State, t: nat, s': State, j: nat, inc: nat)
    requires Sized(b, s.g) && RolesOk(b, s) && ColumnsOk(b, s) && Next(b, s, t, s') && Sized(b, s'.g) &&
             !s'.threads[t].Panicked?
    requires j < |b.txns| && s.g.txnStatus[j] == Executed(inc) && s'.g.txnStatus[j] == Executed(inc)
    requires ScanOk(s.g, s.threads[t])
    requires WillValidate(s, j, inc) || ReadsCovered(s, j, inc)
    ensures WillValidate(s', j, inc) || ReadsCovered(s', j, inc)
  {
    var pc, pc' := s.threads[t], s'.threads[t];
    if CoversValidation(pc', j, inc) {
      assert WillValidate(s', j, inc);
    } else if s.g.ctr.validationIdx <= j || CoversValidation(pc, j, inc) {
      ValidationHandedOn(b, s.g, t, pc, s'.g, pc', j, inc);
      if Scans(pc', j, inc, 0) && s'.g.ctr.validationIdx > j {
        forall p | 0 <= p < |s'.g.mem.inputs[j].value| ensures WillScan(s', j, inc, p) {
          assert Scans(s'.threads[t], j, inc, p);
        }
      }
    } else if WillValidate(s, j, inc) {
      var u :| 0 <= u < |s.threads| && CoversValidation(s.threads[u], j, inc);
      assert CoversValidation(s'.threads[u], j, inc);
    } else {
      assert RoleOk(s.g, t, pc);
      RecordFootprint(b, s.g, t, pc, s'.g, pc', j);
      var log := s.g.mem.inputs[j].value;
      forall p | 0 <= p < |log| ensures StillValid(s'.g.mem.data, j, log[p]) || WillScan(s', j, inc, p) {
        if StillValid(s.g.mem.data, j, log[p]) {
          InvalidatingIsCovered(b, s, t, s', j, inc, log[p]);
        } else {
          var u :| 0 <= u < |s.threads| && Scans(s.threads[u], j, inc, p);
          if u == t { ScanMovesOn(b, s.g, t, pc, s'.g, pc', j, inc, p); }
          assert Scans(s'.threads[u], j, inc, p);
        }
      }
    }
  }

  lemma KeepScans(b: Block, s: State, t: nat, s': State, u: nat)
    requires Sized(b, s.g) && RolesOk(b, s) && VersionsOk(s) && Next(b, s, t, s') && Sized(b, s'.g)
    requires u < |s.threads| && ScanOk(s.g, s.threads[u])
    ensures ScanOk(s'.g, s'.threads[u])
  {
    var pc := s'.threads[u];
    if pc.Task? && pc.w.Checking? && pc.w.c.Scan? && pc.ver.txn < |b.txns| &&
        s'.g.txnStatus[pc.ver.txn] == Executed(pc.ver.inc) {
      assert VersionOk(s.g, s.threads[u]) && RoleOk(s.g, t, s.threads[t]);
      if s.g.txnStatus[pc.ver.txn] != Executed(pc.ver.inc) {
        NewlyExecuted(b, s.g, t, s.threads[t], s'.g, s'.threads[t], pc.ver.txn, pc.ver.inc);
      }
      RecordFootprint(b, s.g, t, s.threads[t], s'.g, s'.threads[t], pc.ver.txn);
    }
  }

  lemma KeepValidation(b: Block, s: State, t: nat, s': State)
    requires Sized(b, s.g) && RolesOk(b, s) && VersionsOk(s) && ColumnsOk(b, s) && ValidationCovered(b, s)
    requires Next(b, s, t, s') && Sized(b, s'.g) && !s'.threads[t].Panicked?
    ensures ValidationCovered(b, s')
  {
    assert ScanOk(s.g, s.threads[t]);
    forall j | 0 <= j < |b.txns| && s'.g.txnStatus[j].Executed?
      ensures WillValidate(s', j, s'.g.txnStatus[j].inc) || ReadsCovered(s', j, s'.g.txnStatus[j].inc)
    {
      var inc := s'.g.txnStatus[j].inc;
      if s.g.txnStatus[j] == Executed(inc) {
        StaysCovered(b, s, t, s', j, inc);
      } else {
        NewlyExecuted(b, s.g, t, s.threads[t], s'.g, s'.threads[t], j, inc);
        assert CoversValidation(s'.threads[t], j, inc);
      }
    }
    forall u | 0 <= u < |s'.threads| ensures ScanOk(s'.g, s'.threads[u]) {
      assert ScanOk(s.g, s.threads[u]);
      KeepScans(b, s, t, s', u);
    }
  }
}
