/** Transactions that are finished for good: executed, with all reads valid, nobody about to abort
    them, and the same below them.  And how far the next transaction is from that, which no step of
    any thread makes worse. */
module Stable {
  import opened Base
  import opened MVHashMap
  import opened Machine
  import opened Invariant
  import opened Roles
  import opened Columns
  import opened Logs

  /******* Reads *******/

  ghost predicate AllValid(data: Data, j: nat, log: ReadSet)
  {
    forall p :: 0 <= p < |log| ==> StillValid(data, j, log[p])
  }

  /** The maps have the same entries below `i`. */
  ghost predicate AgreeBelow(data: Data, data': Data, i: nat)
  {
    forall k, x: nat :: x < i ==> EntryAt(data', k, x) == EntryAt(data, k, x)
  }

  lemma ReadAgrees(data: Data, data': Data, k: Key, i: nat)
    requires AgreeBelow(data, data', i)
    ensures Read(data', k, i) == Read(data, k, i)
  {
    var t, u := TreeOf(data, k), TreeOf(data', k);
    forall x: nat | x < i ensures (x in t <==> x in u) && (x in t ==> t[x] == u[x]) {
      assert EntryAt(data', k, x) == EntryAt(data, k, x);
    }
    ReadDownLocal(t, u, i, None);
  }

  lemma ValidAgrees(data: Data, data': Data, j: nat, log: ReadSet)
    requires AgreeBelow(data, data', j) && AllValid(data, j, log)
    ensures AllValid(data', j, log)
  {
    forall p | 0 <= p < |log| ensures StillValid(data', j, log[p]) {
      assert StillValid(data, j, log[p]);
      ReadAgrees(data, data', log[p].key, j);
    }
  }

  /** Reads of transaction `i` meet no estimate. */
  ghost predicate ReadsSettled(data: Data, i: nat)
  {
    && (forall r: ReadOutcome, k :: CanRead(data, k, i, r) ==> r == Read(data, k, i))
    && (forall k :: !Read(data, k, i).Dependency?)
  }

  lemma ExecutedIsDone(b: Block, s: State, j: nat, k: Key)
    requires Inv(b, s) && j < |b.txns| && s.g.txnStatus[j].Executed?
    ensures EntryAt(s.g.mem.data, k, j).Some? ==> !EntryAt(s.g.mem.data, k, j).value.estimate
  {
    OwnerFits(b, s, j);
    assert ColumnOk(s.g.mem, j, PhaseOf(s, j)) && CellOk(s.g.mem, j, PhaseOf(s, j), k);
  }

  /** Below an index with only executed transactions, nothing is estimated. */
  lemma NoDependency(b: Block, s: State, i: nat, k: Key, r: ReadOutcome)
    requires Inv(b, s) && i <= |b.txns| && (forall j :: 0 <= j < i ==> s.g.txnStatus[j].Executed?)
    requires CanRead(s.g.mem.data, k, i, r)
    ensures !r.Dependency? && r == Read(s.g.mem.data, k, i)
  {
    DependencyIsEstimate(TreeOf(s.g.mem.data, k), i, None);
    forall j | 0 <= j < i ensures EntryAt(s.g.mem.data, k, j).Some? ==> !EntryAt(s.g.mem.data, k, j).value.estimate {
      ExecutedIsDone(b, s, j, k);
    }
    assert forall j :: 0 <= j < i && j in TreeOf(s.g.mem.data, k) ==> EntryAt(s.g.mem.data, k, j).Some?;
  }

  lemma SettledBelow(b: Block, s: State, i: nat)
    requires Inv(b, s) && i <= |b.txns| && (forall j :: 0 <= j < i ==> s.g.txnStatus[j].Executed?)
    ensures ReadsSettled(s.g.mem.data, i)
  {
    forall r: ReadOutcome, k | CanRead(s.g.mem.data, k, i, r) ensures r == Read(s.g.mem.data, k, i) {
      NoDependency(b, s, i, k, r);
    }
    forall k ensures !Read(s.g.mem.data, k, i).Dependency? { NoDependency(b, s, i, k, Read(s.g.mem.data, k, i)); }
  }

  /******* Stable transactions *******/

  predicate AbortsVersion(pc: Pc, ver: Version)
  {
    pc == Task(ver, Checking(TryAbort))
  }

  ghost predicate IsStable(s: State, j: nat)
    requires j < |s.g.txnStatus| && j < |s.g.mem.inputs|
  {
    && s.g.txnStatus[j].Executed? && s.g.mem.inputs[j].Some?
    && AllValid(s.g.mem.data, j, s.g.mem.inputs[j].value)
    && forall t :: 0 <= t < |s.threads| ==> !AbortsVersion(s.threads[t], Ver(j, s.g.txnStatus[j].inc))
  }

  ghost predicate StableBelow(b: Block, s: State, p: nat)
    requires Sized(b, s.g) && p <= |b.txns|
  {
    forall j :: 0 <= j < p ==> IsStable(s, j)
  }

  lemma ExecutedKept(b: Block, g: Shared, t: nat, pc: Pc, g': Shared, pc': Pc, j: nat)
    requires Step(b, g, t, pc, g', pc') && Sized(b, g') && j < |b.txns| && g.txnStatus[j].Executed?
    requires !AbortsVersion(pc, Ver(j, g.txnStatus[j].inc))
    ensures g'.txnStatus[j] == g.txnStatus[j]
  {
    if pc.Task? && pc.w.Running? { assert RunStep(b, g, t, pc.ver, pc.w.log, pc.w.e, g', pc'); }
  }

  /** The entries and the read set of an executed transaction stay as they are. */
  lemma ColumnKept(b: Block, s: State, t: nat, s': State, j: nat)
    requires Sized(b, s.g) && RolesOk(b, s) && Next(b, s, t, s') && Sized(b, s'.g)
    requires j < |b.txns| && s.g.txnStatus[j].Executed?
    ensures s'.g.mem.inputs[j] == s.g.mem.inputs[j]
    ensures forall k :: EntryAt(s'.g.mem.data, k, j) == EntryAt(s.g.mem.data, k, j)
  {
    var pc := s.threads[t];
    assert RoleOk(s.g, t, pc);
    RecordFootprint(b, s.g, t, pc, s'.g, s'.threads[t], j);
    if Writes(pc) {
      WriteFootprint(b, s.g, t, pc, s'.g, s'.threads[t], j);
    } else {
      MapFootprint(b, s.g, t, pc, s'.g, s'.threads[t]);
    }
  }

  lemma BelowKept(b: Block, s: State, t: nat, s': State, p: nat)
    requires Sized(b, s.g) && RolesOk(b, s) && Next(b, s, t, s') && Sized(b, s'.g)
    requires p <= |b.txns| && StableBelow(b, s, p)
    ensures AgreeBelow(s.g.mem.data, s'.g.mem.data, p)
  {
    forall k, x: nat | x < p ensures EntryAt(s'.g.mem.data, k, x) == EntryAt(s.g.mem.data, k, x) {
      assert IsStable(s, x);
      ColumnKept(b, s, t, s', x);
    }
  }

  /** A thread decides to abort when a read of its log does not re-read to itself. */
  lemma AbortComesFromScan(b: Block, g: Shared, t: nat, pc: Pc, g': Shared, pc': Pc, ver: Version)
    returns (r: ReadOutcome)
    requires Step(b, g, t, pc, g', pc') && AbortsVersion(pc', ver)
    ensures g' == g && pc.Task? && pc.ver == ver && pc.w.Checking? && pc.w.c.Scan? && pc.w.c.pos < |pc.w.c.log|
    ensures CanRead(g.mem.data, pc.w.c.log[pc.w.c.pos].key, ver.txn, r)
    ensures KindOf(r) != Some(pc.w.c.log[pc.w.c.pos].kind)
  {
    r :| ScanRead(g, pc.ver, pc.w.c.log, pc.w.c.pos, pc', r);
  }

  lemma NoNewAbort(b: Block, s: State, t: nat, s': State, j: nat)
    requires Inv(b, s) && Next(b, s, t, s') && Sized(b, s'.g) && j < |b.txns| && StableBelow(b, s, j) && IsStable(s, j)
    ensures !AbortsVersion(s'.threads[t], Ver(j, s.g.txnStatus[j].inc))
  {
    var ver := Ver(j, s.g.txnStatus[j].inc);
    if AbortsVersion(s'.threads[t], ver) {
      var r := AbortComesFromScan(b, s.g, t, s.threads[t], s'.g, s'.threads[t], ver);
      forall i | 0 <= i < j ensures s.g.txnStatus[i].Executed? { assert IsStable(s, i); }
      assert ScanOk(s.g, s.threads[t]);
      var c := s.threads[t].w.c;
      NoDependency(b, s, j, c.log[c.pos].key, r);
    }
  }

  lemma StaysStable(b: Block, s: State, t: nat, s': State, p: nat)
    requires Inv(b, s) && Next(b, s, t, s') && Sized(b, s'.g) && p <= |b.txns| && StableBelow(b, s, p)
    ensures StableBelow(b, s', p)
  {
    BelowKept(b, s, t, s', p);
    forall j | 0 <= j < p ensures IsStable(s', j) {
      assert IsStable(s, j);
      ColumnKept(b, s, t, s', j);
      ExecutedKept(b, s.g, t, s.threads[t], s'.g, s'.threads[t], j);
      ValidAgrees(s.g.mem.data, s'.g.mem.data, j, s.g.mem.inputs[j].value);
      NoNewAbort(b, s, t, s', j);
    }
  }

  /******* The next transaction *******/

  /** The reads that the execution in progress will have recorded. */
  function CurrentLog(mem: Memory, pc: Pc): ReadSet
    requires pc.Task? && pc.w.Running?
  {
    var i := pc.ver.txn;
    if pc.w.e.SetExecuted? && i < |mem.inputs| && mem.inputs[i].Some? then mem.inputs[i].value else pc.w.log
  }

  ghost predicate RunsClean(s: State, t: nat, p: nat)
  {
    && t < |s.threads| && s.threads[t].Task? && s.threads[t].w.Running?
    && AllValid(s.g.mem.data, p, CurrentLog(s.g.mem, s.threads[t]))
  }

  predicate InProgress(status: Status)
  {
    status.Executing? || status.Suspended? || (status.Ready? && status.cv.Some?)
  }

  /** The current incarnation of `p` has not read anything that is no longer valid. */
  ghost predicate IsClean(s: State, p: nat)
    requires p < |s.g.txnStatus| && p < |s.g.owner| && p < |s.g.mem.inputs|
  {
    match s.g.txnStatus[p]
    case Executed(_) => IsStable(s, p)
    case Aborting(_) => false
    case Ready(_, None) => true
    case _ => s.g.owner[p].Some? && RunsClean(s, s.g.owner[p].value, p)
  }

  predicate IsSuspending(pc: Pc)
  {
    pc.Task? && pc.w.Running? && pc.w.e.Suspend?
  }

  /** How far into a suspension the transaction is. */
  function Detour(s: State, p: nat): nat
    requires p < |s.g.txnStatus| && p < |s.g.owner|
  {
    match s.g.txnStatus[p]
    case Executing(_) =>
      var owner := s.g.owner[p];
      if owner.Some? && owner.value < |s.threads| && IsSuspending(s.threads[owner.value]) then 3 else 0
    case Suspended(_, _) => 2
    case Ready(_, Some(_)) => 1
    case _ => 0
  }

  /** The status changes that `p` has yet to go through, with another incarnation if this one is not
      clean, and the steps of a suspension. */
  ghost function Debt(s: State, p: nat): int
    requires p < |s.g.txnStatus| && p < |s.g.owner| && p < |s.g.mem.inputs|
  {
    var status := s.g.txnStatus[p];
    10 * (4 * (status.inc + if IsClean(s, p) then 0 else 1) + 2 - Rank(status)) + Detour(s, p)
  }

  /** How the status of a transaction may change in a step. */
  predicate Becomes(st: Status, st': Status)
  {
    match st
    case Ready(inc, _) => st' == Executing(inc)
    case Executing(inc) => st' == Executed(inc) || (st'.Suspended? && st'.inc == inc)
    case Suspended(inc, cond) => st' == Ready(inc, Some(cond))
    case Executed(inc) => st' == Aborting(inc)
    case Aborting(inc) => st' == Ready(inc + 1, None)
  }

  lemma StatusMoves(b: Block, g: Shared, t: nat, pc: Pc, g': Shared, pc': Pc, p: nat)
    requires Step(b, g, t, pc, g', pc') && Sized(b, g') && p < |b.txns| && RoleOk(g, t, pc)
    ensures g'.txnStatus[p] == g.txnStatus[p] || Becomes(g.txnStatus[p], g'.txnStatus[p])
  {
    if pc.Task? && pc.w.Running? { assert RunStep(b, g, t, pc.ver, pc.w.log, pc.w.e, g', pc'); }
  }

  /** Nobody but its owner has a say in the execution in progress. */
  lemma InProgressKept(b: Block, g: Shared, t: nat, pc: Pc, g': Shared, pc': Pc, p: nat, w: nat)
    requires Step(b, g, t, pc, g', pc') && Sized(b, g') && p < |b.txns| && RoleOk(g, t, pc) && !pc'.Panicked?
    requires InProgress(g.txnStatus[p]) && g.owner[p] == Some(w) && w != t
    ensures g'.owner[p] == Some(w) && InProgress(g'.txnStatus[p]) && g'.txnStatus[p].inc == g.txnStatus[p].inc
    ensures g'.txnStatus[p] == g.txnStatus[p] || !g.txnStatus[p].Executing?
    ensures g'.mem.inputs[p] == g.mem.inputs[p]
  {
    RecordFootprint(b, g, t, pc, g', pc', p);
    if !ChangesStatus(pc) {
      StatusFootprint(b, g, t, pc, g', pc');
    } else if pc.Task? && pc.w.Running? {
      assert RunStep(b, g, t, pc.ver, pc.w.log, pc.w.e, g', pc');
    }
  }

  /** A read that meets no estimate is valid when it is made. */
  lemma SettledRead(b: Block, g: Shared, t: nat, ver: Version, log: ReadSet, g': Shared, pc': Pc)
    requires CanMove(b, g, Task(ver, Running(log, Run))) && RunStep(b, g, t, ver, log, Run, g', pc')
    requires ReadsSettled(g.mem.data, ver.txn) && AllValid(g.mem.data, ver.txn, log)
    ensures pc'.Task? && pc'.w.Running? && !pc'.w.e.Depend? && AllValid(g.mem.data, ver.txn, pc'.w.log)
  {
    match b.txns[ver.txn](SeenOf(log))
    case ReadKey(key) =>
      var r :| RunRead(b, g, ver, log, pc', key, r);
    case Finish(_) =>
  }

  lemma WritesAgreeBelow(b: Block, g: Shared, t: nat, pc: Pc, g': Shared, pc': Pc)
    requires Step(b, g, t, pc, g', pc') && pc.Task? && pc.w.Running?
    ensures AgreeBelow(g.mem.data, g'.mem.data, pc.ver.txn)
  {
    if Writes(pc) {
      forall k, x: nat | x < pc.ver.txn ensures EntryAt(g'.mem.data, k, x) == EntryAt(g.mem.data, k, x) {
        WriteFootprint(b, g, t, pc, g', pc', x);
      }
    } else {
      MapFootprint(b, g, t, pc, g', pc');
    }
  }

  /** An execution whose reads are valid keeps them so, to the end. */
  lemma RunKeepsValid(b: Block, g: Shared, t: nat, ver: Version, log: ReadSet, e: RunPc, g': Shared, pc': Pc)
    requires CanMove(b, g, Task(ver, Running(log, e))) && RunStep(b, g, t, ver, log, e, g', pc')
    requires Sized(b, g') && !pc'.Panicked?
    requires AllValid(g.mem.data, ver.txn, CurrentLog(g.mem, Task(ver, Running(log, e))))
    requires e.Record? ==> g.mem.inputs[ver.txn] == Some(log)
    requires e.SetExecuted? ==> g.mem.inputs[ver.txn].Some?
    requires e.Run? && pc'.Task? && pc'.w.Running? && pc'.w.e.Run? ==> AllValid(g.mem.data, ver.txn, pc'.w.log)
    ensures pc'.Task? && pc'.ver == ver && (pc'.w.Running? || pc'.w.Closing?)
    ensures pc'.w.Running? ==> AllValid(g'.mem.data, ver.txn, CurrentLog(g'.mem, pc'))
    ensures pc'.w.Closing? ==>
              g'.mem.inputs[ver.txn].Some? && AllValid(g'.mem.data, ver.txn, g'.mem.inputs[ver.txn].value)
  {
    var now := CurrentLog(g.mem, Task(ver, Running(log, e)));
    WritesAgreeBelow(b, g, t, Task(ver, Running(log, e)), g', pc');
    ValidAgrees(g.mem.data, g'.mem.data, ver.txn, now);
    if e.Run? && pc'.Task? && pc'.w.Running? && pc'.w.e.Run? {
      ValidAgrees(g.mem.data, g'.mem.data, ver.txn, pc'.w.log);
    }
  }

  /** What is used here of the invariant after a step. */
  ghost predicate Kept(b: Block, s': State, t: nat)
  {
    Sized(b, s'.g) && RolesOk(b, s') && t < |s'.threads| && !s'.threads[t].Panicked?
  }

  lemma OwnerRuns(b: Block, s: State, p: nat)
    requires Sized(b, s.g) && RolesOk(b, s) && p < |b.txns| && InProgress(s.g.txnStatus[p])
    ensures s.g.owner[p].Some? && s.g.owner[p].value < |s.threads|
    ensures var pc := s.threads[s.g.owner[p].value];
            pc.Task? && pc.w.Running? && pc.ver == Ver(p, s.g.txnStatus[p].inc) && Fits(s.g.txnStatus[p], pc)
  {
    OwnerFits(b, s, p);
  }

  /** The execution of `p` in progress stays clean when its owner moves. */
  lemma OwnerStaysClean(b: Block, s: State, t: nat, s': State, p: nat)
    requires Inv(b, s) && Next(b, s, t, s') && Kept(b, s', t) && p < |b.txns| && StableBelow(b, s, p)
    requires InProgress(s.g.txnStatus[p]) && s.g.owner[p] == Some(t) && RunsClean(s, t, p)
    ensures IsClean(s', p)
  {
    var pc := s.threads[t];
    OwnerRuns(b, s, p);
    assert LogOk(b, s.g.mem, pc);
    forall j | 0 <= j < p ensures s.g.txnStatus[j].Executed? { assert IsStable(s, j); }
    if pc.w.e.Run? {
      SettledBelow(b, s, p);
      SettledRead(b, s.g, t, pc.ver, pc.w.log, s'.g, s'.threads[t]);
    }
    RunKeepsValid(b, s.g, t, pc.ver, pc.w.log, pc.w.e, s'.g, s'.threads[t]);
    OwnerOutcome(b, s, t, s', p);
  }

  /** What the owner's step makes of the status. */
  lemma OwnerOutcome(b: Block, s: State, t: nat, s': State, p: nat)
    requires Inv(b, s) && Next(b, s, t, s') && Kept(b, s', t) && p < |b.txns|
    requires InProgress(s.g.txnStatus[p]) && s.g.owner[p] == Some(t)
    requires s'.threads[t].Task? && s'.threads[t].ver.txn == p
    requires s'.threads[t].w.Running? ==> AllValid(s'.g.mem.data, p, CurrentLog(s'.g.mem, s'.threads[t]))
    requires s'.threads[t].w.Closing? ==>
               s'.g.mem.inputs[p].Some? && AllValid(s'.g.mem.data, p, s'.g.mem.inputs[p].value)
    requires s'.threads[t].w.Running? || s'.threads[t].w.Closing?
    ensures IsClean(s', p)
  {
    OwnerRuns(b, s, p);
    if s'.threads[t].w.Running? {
      assert RoleOk(s'.g, t, s'.threads[t]);
    } else {
      assert s'.g.txnStatus[p] == Executed(s.g.txnStatus[p].inc);
      forall u | 0 <= u < |s'.threads| ensures !AbortsVersion(s'.threads[u], Ver(p, s'.g.txnStatus[p].inc)) {
        assert VersionOk(s.g, s.threads[u]);
      }
    }
  }

  /** The execution of `p` in progress stays clean when another thread moves. */
  lemma OthersKeepClean(b: Block, s: State, t: nat, s': State, p: nat)
    requires Sized(b, s.g) && RolesOk(b, s) && Next(b, s, t, s') && Kept(b, s', t)
    requires p < |b.txns| && StableBelow(b, s, p)
    requires InProgress(s.g.txnStatus[p]) && s.g.owner[p] != Some(t) && IsClean(s, p)
    ensures IsClean(s', p)
  {
    var w := s.g.owner[p].value;
    assert RoleOk(s.g, t, s.threads[t]);
    InProgressKept(b, s.g, t, s.threads[t], s'.g, s'.threads[t], p, w);
    BelowKept(b, s, t, s', p);
    OwnerRuns(b, s', p);
    ValidAgrees(s.g.mem.data, s'.g.mem.data, p, CurrentLog(s.g.mem, s.threads[w]));
  }

  lemma CleanStays(b: Block, s: State, t: nat, s': State, p: nat)
    requires Inv(b, s) && Next(b, s, t, s') && Kept(b, s', t) && p < |b.txns| && StableBelow(b, s, p) && IsClean(s, p)
    ensures IsClean(s', p)
  {
    var pc := s.threads[t];
    if s.g.txnStatus[p].Executed? {
      assert StableBelow(b, s, p + 1);
      StaysStable(b, s, t, s', p + 1);
      ExecutedKept(b, s.g, t, pc, s'.g, s'.threads[t], p);
    } else if !InProgress(s.g.txnStatus[p]) {
      NewStaysClean(b, s, t, s', p);
    } else if s.g.owner[p] == Some(t) {
      OwnerStaysClean(b, s, t, s', p);
    } else {
      OthersKeepClean(b, s, t, s', p);
    }
  }

  lemma NewStaysClean(b: Block, s: State, t: nat, s': State, p: nat)
    requires Sized(b, s.g) && RolesOk(b, s) && Next(b, s, t, s') && Kept(b, s', t) && p < |b.txns|
    requires s.g.txnStatus[p].Ready? && s.g.txnStatus[p].cv.None?
    ensures IsClean(s', p)
  {
    assert RoleOk(s.g, t, s.threads[t]);
    BeginFromNew(b, s.g, t, s.threads[t], s'.g, s'.threads[t], p);
  }

  lemma BeginFromNew(b: Block, g: Shared, t: nat, pc: Pc, g': Shared, pc': Pc, p: nat)
    requires Step(b, g, t, pc, g', pc') && Sized(b, g') && p < |b.txns| && RoleOk(g, t, pc)
    requires g.txnStatus[p].Ready? && g.txnStatus[p].cv.None?
    ensures g'.txnStatus[p] != g.txnStatus[p] ==>
              g'.owner[p] == Some(t) && pc' == Task(Ver(p, g.txnStatus[p].inc), Running([], Run))
  {
    if pc.Task? && pc.w.Running? { assert RunStep(b, g, t, pc.ver, pc.w.log, pc.w.e, g', pc'); }
  }

  lemma OwnerLeavesDetour(b: Block, s: State, t: nat, s': State, p: nat)
    requires Inv(b, s) && Next(b, s, t, s') && Kept(b, s', t) && p < |b.txns| && StableBelow(b, s, p)
    requires InProgress(s.g.txnStatus[p]) && InProgress(s'.g.txnStatus[p]) && s.g.owner[p] == Some(t)
    ensures Detour(s', p) <= Detour(s, p)
    ensures s'.g.txnStatus[p] != s.g.txnStatus[p] ==> Detour(s', p) < Detour(s, p)
  {
    var pc := s.threads[t];
    assert HolderOk(s, t, pc);
    OwnerRuns(b, s, p);
    OwnerRuns(b, s', p);
    if pc.w.e.Depend? { assert IsStable(s, pc.w.e.dep); }
    SuspendComesFromDepend(b, s.g, t, pc, s'.g, s'.threads[t]);
  }

  /** A suspension is only ever got out of. */
  lemma DetourShrinks(b: Block, s: State, t: nat, s': State, p: nat)
    requires Inv(b, s) && Next(b, s, t, s') && Kept(b, s', t) && p < |b.txns| && StableBelow(b, s, p)
    requires InProgress(s.g.txnStatus[p]) && InProgress(s'.g.txnStatus[p])
    ensures Detour(s', p) <= Detour(s, p)
    ensures s'.g.txnStatus[p] != s.g.txnStatus[p] ==> Detour(s', p) < Detour(s, p)
  {
    OwnerRuns(b, s, p);
    var w := s.g.owner[p].value;
    if w == t {
      OwnerLeavesDetour(b, s, t, s', p);
    } else {
      assert RoleOk(s.g, t, s.threads[t]);
      StatusMoves(b, s.g, t, s.threads[t], s'.g, s'.threads[t], p);
      InProgressKept(b, s.g, t, s.threads[t], s'.g, s'.threads[t], p, w);
    }
  }

  lemma SuspendComesFromDepend(b: Block, g: Shared, t: nat, pc: Pc, g': Shared, pc': Pc)
    requires Step(b, g, t, pc, g', pc') && pc.Task? && pc.w.Running? && !pc'.Panicked?
    requires pc.w.e.Depend? ==> g.txnStatus[pc.w.e.dep].Executed?
    ensures !IsSuspending(pc')
    ensures HasRole(pc') ==> g'.txnStatus == g.txnStatus || IsSuspending(pc)
    ensures HasRole(pc') ==> g'.owner == g.owner && pc'.ver == pc.ver
  {
    assert RunStep(b, g, t, pc.ver, pc.w.log, pc.w.e, g', pc');
  }

  /** No step of any thread makes the debt of the next transaction larger. */
  lemma DebtShrinks(b: Block, s: State, t: nat, s': State, p: nat)
    requires Inv(b, s) && Next(b, s, t, s') && Kept(b, s', t) && p < |b.txns| && StableBelow(b, s, p)
    ensures Debt(s', p) <= Debt(s, p)
    ensures s'.g.txnStatus[p] != s.g.txnStatus[p] ==> Debt(s', p) < Debt(s, p)
  {
    assert RoleOk(s.g, t, s.threads[t]);
    StatusMoves(b, s.g, t, s.threads[t], s'.g, s'.threads[t], p);
    if IsClean(s, p) { CleanStays(b, s, t, s', p); }
    if InProgress(s.g.txnStatus[p]) && InProgress(s'.g.txnStatus[p]) { DetourShrinks(b, s, t, s', p); }
  }
}
