/** What each kind of step leaves alone, and the counting of task guards. */
module Threads {
  import opened Machine
  import opened Invariant

  /** The number of guards a thread holds. */
  function Held(pc: Pc): nat { if HasGuard(pc) then 1 else 0 }

  lemma RunStaysSized(b: Block, g: Shared, t: nat, ver: Version, log: ReadSet, e: RunPc, g': Shared, pc': Pc)
    requires CanMove(b, g, Task(ver, Running(log, e))) && RunStep(b, g, t, ver, log, e, g', pc')
    ensures Sized(b, g') && |g.dep.condvars| <= |g'.dep.condvars|
  {
  }

  lemma StaysSized(b: Block, g: Shared, t: nat, pc: Pc, g': Shared, pc': Pc)
    requires Step(b, g, t, pc, g', pc')
    ensures Sized(b, g') && |g.dep.condvars| <= |g'.dep.condvars|
  {
    if pc.Task? && pc.w.Running? { RunStaysSized(b, g, t, pc.ver, pc.w.log, pc.w.e, g', pc'); }
  }

  lemma GuardBalance(b: Block, g: Shared, t: nat, pc: Pc, g': Shared, pc': Pc)
    requires Step(b, g, t, pc, g', pc') && !pc'.Panicked?
    ensures g'.ctr.numActiveTasks - Held(pc') == g.ctr.numActiveTasks - Held(pc)
  {
  }

  lemma {:induction false} GuardsUpdate(threads: seq<Pc>, t: nat, pc: Pc)
    requires t < |threads|
    ensures Guards(threads[t := pc]) - Held(pc) == Guards(threads) - Held(threads[t])
  {
    var last := |threads| - 1;
    if t == last {
      assert threads[t := pc][..last] == threads[..last];
    } else {
      GuardsUpdate(threads[..last], t, pc);
      assert threads[t := pc][..last] == threads[..last][t := pc];
    }
  }

  lemma {:induction false} NoGuards(threads: seq<Pc>, t: nat)
    requires t < |threads| && HasGuard(threads[t])
    ensures Guards(threads) > 0
  {
    if t < |threads| - 1 { NoGuards(threads[..|threads| - 1], t); }
  }

  lemma KeepGuards(b: Block, s: State, t: nat, s': State)
    requires GoodStep(b, s, t, s')
    ensures GuardsCounted(s')
  {
    GuardBalance(b, s.g, t, s.threads[t], s'.g, s'.threads[t]);
    GuardsUpdate(s.threads, t, s'.threads[t]);
  }
}
