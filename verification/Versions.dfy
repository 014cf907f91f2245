/** Versions over whole runs: incarnations never decrease, and which tasks a version can give rise
    to. */
module Versions {
  import opened Base
  import opened Machine
  import opened Invariant
  import opened Threads
  import opened Roles
  import opened Reachable
  import opened Theorems

  lemma RankStep(b: Block, s: State, t: nat, s': State, j: nat)
    requires Sized(b, s.g) && RolesOk(b, s) && Next(b, s, t, s') && Sized(b, s'.g) && j < |b.txns|
    ensures Rank(s.g.txnStatus[j]) <= Rank(s'.g.txnStatus[j])
  {
    assert RoleOk(s.g, t, s.threads[t]);
    RankGrows(b, s.g, t, s.threads[t], s'.g, s'.threads[t], j);
  }

  lemma {:induction false} RankGrowsInRun(b: Block, run: seq<State>, i: nat, k: nat, j: nat)
    requires IsRun(b, run) && i <= k < |run| && j < |b.txns|
    ensures Sized(b, run[i].g) && Sized(b, run[k].g)
    ensures Rank(run[i].g.txnStatus[j]) <= Rank(run[k].g.txnStatus[j])
    decreases k
  {
    RunInv(b, run, k);
    if i < k {
      RankGrowsInRun(b, run, i, k - 1, j);
      RunInv(b, run, k - 1);
      var t := StepOf(b, run, k - 1);
      RankStep(b, run[k - 1], t, run[k], j);
    }
  }

  lemma IncarnationsNeverDecrease(b: Block, run: seq<State>, i: nat, k: nat, j: nat)
    requires IsRun(b, run) && i <= k < |run| && j < |b.txns|
    ensures Sized(b, run[i].g) && Sized(b, run[k].g)
    ensures run[i].g.txnStatus[j].inc <= run[k].g.txnStatus[j].inc
  {
    RankGrowsInRun(b, run, i, k, j);
  }

  /** Thread `t` is given version `ver` to execute, with no condition variable attached. */
  predicate Begins(s: State, s': State, t: nat, ver: Version)
  {
    && t < |s.threads| == |s'.threads|
    && !HasRole(s.threads[t]) && s'.threads[t] == Task(ver, Running([], Run))
  }

  /** Thread `t` wins the abort of version `ver`. */
  predicate Aborts(s: State, s': State, t: nat, ver: Version)
  {
    && t < |s.threads| == |s'.threads|
    && s.threads[t] == Task(ver, Checking(TryAbort)) && s'.threads[t] == Task(ver, Undoing(LoadKeys))
  }

  lemma BeginRank(b: Block, s: State, u: nat, s': State, t: nat, ver: Version)
    requires Next(b, s, u, s') && Begins(s, s', t, ver)
    ensures t == u && ver.txn < |b.txns| == |s'.g.txnStatus|
    ensures s.g.txnStatus[ver.txn] == Ready(ver.inc, None) && s'.g.txnStatus[ver.txn] == Executing(ver.inc)
  {
  }

  lemma AbortRank(b: Block, s: State, u: nat, s': State, t: nat, ver: Version)
    requires Next(b, s, u, s') && Aborts(s, s', t, ver)
    ensures t == u && ver.txn < |b.txns| == |s'.g.txnStatus|
    ensures s.g.txnStatus[ver.txn] == Executed(ver.inc) && s'.g.txnStatus[ver.txn] == Aborting(ver.inc)
  {
  }

  /** A version is given out for a fresh execution at most once in a run. */
  lemma BeginsOnce(b: Block, run: seq<State>, i: nat, t: nat, k: nat, u: nat, ver: Version)
    requires IsRun(b, run) && i + 1 < |run| && k + 1 < |run|
    requires Begins(run[i], run[i + 1], t, ver) && Begins(run[k], run[k + 1], u, ver)
    ensures i == k && t == u
  {
    var x := StepOf(b, run, i);
    var y := StepOf(b, run, k);
    BeginRank(b, run[i], x, run[i + 1], t, ver);
    BeginRank(b, run[k], y, run[k + 1], u, ver);
    if i < k { RankGrowsInRun(b, run, i + 1, k, ver.txn); }
    if k < i { RankGrowsInRun(b, run, k + 1, i, ver.txn); }
  }

  /** A version is aborted at most once in a run. */
  lemma AbortsOnce(b: Block, run: seq<State>, i: nat, t: nat, k: nat, u: nat, ver: Version)
    requires IsRun(b, run) && i + 1 < |run| && k + 1 < |run|
    requires Aborts(run[i], run[i + 1], t, ver) && Aborts(run[k], run[k + 1], u, ver)
    ensures i == k && t == u
  {
    var x := StepOf(b, run, i);
    var y := StepOf(b, run, k);
    AbortRank(b, run[i], x, run[i + 1], t, ver);
    AbortRank(b, run[k], y, run[k + 1], u, ver);
    if i < k { RankGrowsInRun(b, run, i + 1, k, ver.txn); }
    if k < i { RankGrowsInRun(b, run, k + 1, i, ver.txn); }
  }

  /** Thread `t` is given version `ver` again, only to wake the thread that waits on `cond`. */
  predicate Rewakes(s: State, s': State, t: nat, ver: Version, cond: nat)
  {
    && t < |s.threads| == |s'.threads|
    && Wakes(s.threads[t]).None? && s'.threads[t] == Task(ver, Waking(cond))
  }

  /** No transaction is or will again be waiting on `cond`. */
  predicate LetsGo(status: Status, cond: nat)
  {
    status != Suspended(status.inc, cond) && status != Ready(status.inc, Some(cond))
  }

  lemma LetsGoStays(b: Block, g: Shared, t: nat, pc: Pc, g': Shared, pc': Pc, j: nat, cond: nat)
    requires Step(b, g, t, pc, g', pc') && Sized(b, g') && j < |b.txns|
    requires cond < |g.dep.condvars| && LetsGo(g.txnStatus[j], cond)
    ensures LetsGo(g'.txnStatus[j], cond)
  {
    if pc.Task? && pc.w.Running? { assert RunStep(b, g, t, pc.ver, pc.w.log, pc.w.e, g', pc'); }
  }

  lemma RewakeStatus(b: Block, g: Shared, t: nat, pc: Pc, g': Shared, pc': Pc, ver: Version, cond: nat)
    requires Step(b, g, t, pc, g', pc') && Wakes(pc).None? && pc' == Task(ver, Waking(cond))
    ensures ver.txn < |b.txns| && g.txnStatus[ver.txn] == Ready(ver.inc, Some(cond))
    ensures g' == SetStatus(g, ver.txn, Executing(ver.inc), g.owner[ver.txn])
  {
  }

  /** A condition variable belongs to one transaction. */
  lemma OneWaits(b: Block, s: State, i: nat, j: nat, cond: nat)
    requires Inv(b, s) && i < |b.txns| && j < |b.txns|
    requires !LetsGo(s.g.txnStatus[i], cond) && !LetsGo(s.g.txnStatus[j], cond)
    ensures i == j && cond < |s.g.dep.condvars|
  {
    OwnerFits(b, s, i);
    OwnerFits(b, s, j);
    var u, v := s.g.owner[i].value, s.g.owner[j].value;
    assert BlocksOn(s.threads[u]) == Some(cond) && BlocksOn(s.threads[v]) == Some(cond);
    assert InBounds(b, s.g, s.threads[u]);
  }

  lemma SpentAfterRewake(b: Block, s: State, u: nat, s': State, t: nat, ver: Version, cond: nat)
    requires Inv(b, s) && Next(b, s, u, s') && Rewakes(s, s', t, ver, cond)
    ensures t == u && ver.txn < |b.txns| == |s'.g.txnStatus| && cond < |s'.g.dep.condvars|
    ensures forall j :: 0 <= j < |b.txns| ==> LetsGo(s'.g.txnStatus[j], cond)
  {
    RewakeStatus(b, s.g, t, s.threads[t], s'.g, s'.threads[t], ver, cond);
    OneWaits(b, s, ver.txn, ver.txn, cond);
    forall j | 0 <= j < |b.txns| ensures LetsGo(s'.g.txnStatus[j], cond) {
      if !LetsGo(s.g.txnStatus[j], cond) { OneWaits(b, s, ver.txn, j, cond); }
    }
  }

  lemma {:induction false} SpentStays(b: Block, run: seq<State>, i: nat, k: nat, j: nat, cond: nat)
    requires IsRun(b, run) && i <= k < |run| && j < |b.txns| <= |run[i].g.txnStatus|
    requires cond < |run[i].g.dep.condvars| && LetsGo(run[i].g.txnStatus[j], cond)
    ensures Sized(b, run[k].g) && cond < |run[k].g.dep.condvars| && LetsGo(run[k].g.txnStatus[j], cond)
    decreases k
  {
    RunInv(b, run, k);
    if i < k {
      SpentStays(b, run, i, k - 1, j, cond);
      var t := StepOf(b, run, k - 1);
      StaysSized(b, run[k - 1].g, t, run[k - 1].threads[t], run[k].g, run[k].threads[t]);
      LetsGoStays(b, run[k - 1].g, t, run[k - 1].threads[t], run[k].g, run[k].threads[t], j, cond);
    }
  }

  lemma SpentIsNotRewoken(b: Block, s: State, x: nat, s': State, t: nat, ver: Version, cond: nat)
    requires Next(b, s, x, s') && Sized(b, s.g) && (ver.txn < |b.txns| ==> LetsGo(s.g.txnStatus[ver.txn], cond))
    ensures !Rewakes(s, s', t, ver, cond)
  {
    if Rewakes(s, s', t, ver, cond) { RewakeStatus(b, s.g, t, s.threads[t], s'.g, s'.threads[t], ver, cond); }
  }

  lemma NotRewokenLater(b: Block, run: seq<State>, i: nat, t: nat, ver: Version, k: nat, u: nat, ver': Version,
                        cond: nat)
    requires IsRun(b, run) && i < k && k + 1 < |run| && Rewakes(run[i], run[i + 1], t, ver, cond)
    ensures !Rewakes(run[k], run[k + 1], u, ver', cond)
  {
    RunInv(b, run, i);
    var x := StepOf(b, run, i);
    SpentAfterRewake(b, run[i], x, run[i + 1], t, ver, cond);
    if ver'.txn < |b.txns| {
      SpentStays(b, run, i + 1, k, ver'.txn, cond);
    } else {
      SpentStays(b, run, i + 1, k, ver.txn, cond);
    }
    var y := StepOf(b, run, k);
    SpentIsNotRewoken(b, run[k], y, run[k + 1], u, ver', cond);
  }

  /** A version may be given out again after a suspension, but once per suspension. */
  lemma RewakesOnce(b: Block, run: seq<State>, i: nat, t: nat, ver: Version, k: nat, u: nat, ver': Version, cond: nat)
    requires IsRun(b, run) && i + 1 < |run| && k + 1 < |run|
    requires Rewakes(run[i], run[i + 1], t, ver, cond) && Rewakes(run[k], run[k + 1], u, ver', cond)
    ensures i == k && t == u && ver == ver'
  {
    if i < k { NotRewokenLater(b, run, i, t, ver, k, u, ver', cond); }
    if k < i { NotRewokenLater(b, run, k, u, ver', i, t, ver, cond); }
    var x := StepOf(b, run, i);
    assert t == x && u == x;
  }

  predicate IsNew(status: Status)
  {
    status.Ready? && status.cv.None?
  }

  ghost predicate HasBegun(run: seq<State>, i: nat, ver: Version)
    requires i < |run|
  {
    exists k, u :: 0 <= k < i && BeginsAt(run, k, u, ver)
  }

  predicate BeginsAt(run: seq<State>, k: nat, u: nat, ver: Version)
    requires k + 1 < |run|
  {
    Begins(run[k], run[k + 1], u, ver)
  }

  lemma BeginStep(b: Block, g: Shared, t: nat, pc: Pc, g': Shared, pc': Pc, j: nat)
    requires Step(b, g, t, pc, g', pc') && Sized(b, g') && j < |b.txns| && !IsNew(g'.txnStatus[j]) && RoleOk(g, t, pc)
    ensures || (!IsNew(g.txnStatus[j]) && g.txnStatus[j].inc == g'.txnStatus[j].inc)
            || (!HasRole(pc) && pc' == Task(Ver(j, g'.txnStatus[j].inc), Running([], Run)))
  {
    if pc.Task? && pc.w.Running? { assert RunStep(b, g, t, pc.ver, pc.w.log, pc.w.e, g', pc'); }
  }

  /** The step that takes transaction `j` out of its new status begins its version. */
  lemma BeginsNow(b: Block, s: State, t: nat, s': State, j: nat)
    requires Sized(b, s.g) && RolesOk(b, s) && Next(b, s, t, s') && Sized(b, s'.g) && j < |b.txns| &&
             !IsNew(s'.g.txnStatus[j])
    ensures (!IsNew(s.g.txnStatus[j]) && s.g.txnStatus[j].inc == s'.g.txnStatus[j].inc) ||
            Begins(s, s', t, Ver(j, s'.g.txnStatus[j].inc))
  {
    assert RoleOk(s.g, t, s.threads[t]);
    BeginStep(b, s.g, t, s.threads[t], s'.g, s'.threads[t], j);
  }

  lemma {:induction false} BegunBefore(b: Block, run: seq<State>, i: nat, j: nat)
    requires IsRun(b, run) && i < |run| && j < |b.txns|
    ensures Sized(b, run[i].g)
    ensures !IsNew(run[i].g.txnStatus[j]) ==> HasBegun(run, i, Ver(j, run[i].g.txnStatus[j].inc))
  {
    RunInv(b, run, i);
    if i > 0 && !IsNew(run[i].g.txnStatus[j]) {
      var before := i - 1;
      BegunBefore(b, run, before, j);
      RunInv(b, run, before);
      var t := StepOf(b, run, before);
      BeginsNow(b, run[before], t, run[i], j);
      var ver := Ver(j, run[i].g.txnStatus[j].inc);
      if HasBegun(run, before, ver) {
        var k, u :| 0 <= k < before && BeginsAt(run, k, u, ver);
        assert BeginsAt(run, k, u, ver);
      } else {
        assert BeginsAt(run, before, t, ver);
      }
    }
  }

  /** Giving out a version to wake its waiter is a second incarnation of that version, contrary to
      the comment on `try_incarnate`. */
  lemma RewakeIsSecondIncarnation(b: Block, run: seq<State>, i: nat, t: nat, ver: Version, cond: nat)
    requires IsRun(b, run) && i + 1 < |run| && Rewakes(run[i], run[i + 1], t, ver, cond)
    ensures HasBegun(run, i, ver)
  {
    var x := StepOf(b, run, i);
    RewakeStatus(b, run[i].g, t, run[i].threads[t], run[i + 1].g, run[i + 1].threads[t], ver, cond);
    BegunBefore(b, run, i, ver.txn);
  }
}
