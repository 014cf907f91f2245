/** The invariant holds in every state of every run, and what follows for whole runs. */
module Reachable {
  import opened Base
  import opened Machine
  import opened Invariant
  import opened Threads
  import opened Roles
  import opened Suspension
  import opened Condvars
  import opened Columns
  import opened Logs
  import opened NoPanic
  import opened Coverage
  import opened Completion

  lemma InitialInv(b: Block, s: State)
    requires Init(b, s)
    ensures Inv(b, s)
  {
    InitialGuards(s.threads);
    forall i | 0 <= i < |b.txns| ensures ColumnOk(s.g.mem, i, PhaseOf(s, i)) {
      forall k ensures CellOk(s.g.mem, i, PhaseOf(s, i), k) {}
    }
  }

  lemma {:induction false} InitialGuards(threads: seq<Pc>)
    requires forall t :: 0 <= t < |threads| ==> threads[t] == Idle(NextTask)
    ensures Guards(threads) == 0
  {
    if threads == [] {
    } else {
      InitialGuards(threads[..|threads| - 1]);
    }
  }

  lemma StepKeepsInv(b: Block, s: State, t: nat, s': State)
    requires Inv(b, s) && Next(b, s, t, s')
    ensures Inv(b, s')
  {
    KeepBounded(b, s, t, s');
    assert WakeOk(s, s.threads[t]);
    KeepRoles(b, s, t, s');
    KeepGuards(b, s, t, s');
    KeepVersions(b, s, t, s');
    KeepSuspension(b, s, t, s');
    KeepCondvars(b, s, t, s');
    KeepColumns(b, s, t, s');
    KeepLogs(b, s, t, s');
    KeepExecution(b, s, t, s');
    KeepValidation(b, s, t, s');
    KeepCompletion(b, s, t, s');
  }

  lemma {:induction false} RunInv(b: Block, run: seq<State>, i: nat)
    requires IsRun(b, run) && i < |run|
    ensures Inv(b, run[i])
  {
    if i == 0 {
      InitialInv(b, run[0]);
    } else {
      RunInv(b, run, i - 1);
      assert StepAt(b, run, i - 1);
      var t :| Next(b, run[i - 1], t, run[i]);
      StepKeepsInv(b, run[i - 1], t, run[i]);
    }
  }

  function Last(run: seq<State>): State
    requires run != []
  {
    run[|run| - 1]
  }

  /** A run goes on with any step from its last state. */
  lemma ExtendRun(b: Block, run: seq<State>, t: nat, s': State) returns (run': seq<State>)
    requires IsRun(b, run) && Next(b, Last(run), t, s')
    ensures run' == run + [s'] && IsRun(b, run')
  {
    run' := run + [s'];
    forall i | 0 <= i < |run'| - 1 ensures StepAt(b, run', i) {
      if i < |run| - 1 { assert StepAt(b, run, i); } else { assert SomeNext(b, Last(run), s'); }
    }
  }

  /** Thread `t` takes a step at the end of the run. */
  lemma Take(b: Block, run: seq<State>, t: nat, g': Shared, pc': Pc) returns (run': seq<State>)
    requires IsRun(b, run) && t < |Last(run).threads| && Step(b, Last(run).g, t, Last(run).threads[t], g', pc')
    ensures IsRun(b, run') && run' == run + [State(g', Last(run).threads[t := pc'])]
  {
    run' := ExtendRun(b, run, t, State(g', Last(run).threads[t := pc']));
  }

  function InitialState(b: Block, threads: nat): (s: State)
    ensures Init(b, s) && |s.threads| == threads
  {
    var n := |b.txns|;
    State(Shared(Counters(0, 0, 0, 0, false),
                 seq(n, _ => Ready(0, None)), seq(n, _ => None),
                 Waiting(seq(n, _ => []), seq(n, _ => None), [], seq(n, _ => Nowhere)),
                 Memory(map[], seq(n, _ => None), seq(n, _ => None), map[])),
          seq(threads, _ => Idle(NextTask)))
  }
}
