/** Detecting that a module was read by one execution and published by one: threads record the
    module paths of their executions in two shared sets, interleaving path by path. */
module ModuleRace {

  /** The module paths that an execution has read and written. */
  datatype Recording = Recording(readPaths: seq<nat>, writtenPaths: seq<nat>)

  datatype Side = Reads | Writes

  /** Where a thread is in `record`; `call` is the index of the call in the log. */
  datatype Pc =
    | Resting
    | LoadFlag(call: nat)
    | Insert(call: nat, side: Side, pos: nat)
    | Check(call: nat, side: Side, pos: nat)
    | StoreFlag(call: nat)

  /** The two sets and the flag.  `log` is a history variable: all calls so far. */
  datatype State = State(flag: bool, moduleReads: set<nat>, moduleWrites: set<nat>, log: seq<Recording>,
                         threads: seq<Pc>)

  function PathsOf(r: Recording, side: Side): seq<nat>
  {
    if side.Reads? then r.readPaths else r.writtenPaths
  }

  /** What comes after the paths of a side: those of the other side, or the end of the call. */
  function NextSide(call: nat, side: Side): Pc
  {
    if side.Reads? then Insert(call, Writes, 0) else Resting
  }

  ghost predicate Next(s: State, t: nat, s': State)
  {
    && t < |s.threads| == |s'.threads|
    && s'.threads == s.threads[t := s'.threads[t]]
    && Step(s, s.threads[t], s', s'.threads[t])
  }

  /** One access to the shared state. */
  ghost predicate Step(s: State, pc: Pc, s': State, pc': Pc)
  {
    match pc
    case Resting =>
      (exists r :: s'.log == s.log + [r]) && s' == s.(log := s'.log, threads := s'.threads) && pc' == LoadFlag(|s.log|)
    case LoadFlag(call) => s' == s.(threads := s'.threads) && pc' == if s.flag then Resting else Insert(call, Reads, 0)
    case Insert(call, side, pos) =>
      && call < |s.log|
      && var paths := PathsOf(s.log[call], side);
         if pos >= |paths| then s' == s.(threads := s'.threads) && pc' == NextSide(call, side)
         else
           && s' == (if side.Reads? then s.(moduleReads := s.moduleReads + {paths[pos]})
              else s.(moduleWrites := s.moduleWrites + {paths[pos]})).(threads := s'.threads)
           && pc' == Check(call, side, pos)
    case Check(call, side, pos) =>
      && call < |s.log| && pos < |PathsOf(s.log[call], side)|
      && s' == s.(threads := s'.threads)
      && pc' == if PathsOf(s.log[call], side)[pos] in (if side.Reads? then s.moduleWrites else s.moduleReads) then
         StoreFlag(call)
                else Insert(call, side, pos + 1)
    case StoreFlag(_) => s' == s.(flag := true, threads := s'.threads) && pc' == Resting
  }

  ghost predicate Init(s: State)
  {
    !s.flag && s.moduleReads == {} && s.moduleWrites == {} && s.log == [] && forall t :: 0 <= t < |s.threads| ==>
        s.threads[t] == Resting
  }

  ghost predicate StepAt(run: seq<State>, i: nat)
    requires i + 1 < |run|
  {
    SomeNext(run[i], run[i + 1])
  }

  ghost predicate SomeNext(s: State, s': State)
  {
    exists t :: Next(s, t, s')
  }

  ghost predicate IsRun(run: seq<State>)
  {
    |run| > 0 && Init(run[0]) && forall i :: 0 <= i < |run| - 1 ==> StepAt(run, i)
  }

  /******* What the flag is to mean *******/

  predicate ReadIn(log: seq<Recording>, p: nat)
  {
    exists c :: 0 <= c < |log| && p in log[c].readPaths
  }

  predicate WrittenIn(log: seq<Recording>, p: nat)
  {
    exists c :: 0 <= c < |log| && p in log[c].writtenPaths
  }

  /** Some path was read in one execution and written in one. */
  ghost predicate Race(log: seq<Recording>)
  {
    exists p :: ReadIn(log, p) && WrittenIn(log, p)
  }

  /******* Invariant *******/

  predicate Holds(pc: Pc, call: nat)
  {
    !pc.Resting? && pc.call == call
  }

  ghost predicate InProgress(s: State, call: nat)
  {
    exists t :: 0 <= t < |s.threads| && Holds(s.threads[t], call)
  }

  /** The first `n` paths are in the set. */
  predicate Shown(paths: seq<nat>, n: nat, shown: set<nat>)
    requires n <= |paths|
  {
    forall i :: 0 <= i < n ==> paths[i] in shown
  }

  predicate AllShown(s: State, r: Recording)
  {
    Shown(r.readPaths, |r.readPaths|, s.moduleReads) && Shown(r.writtenPaths, |r.writtenPaths|, s.moduleWrites)
  }

  predicate PcOk(s: State, pc: Pc)
  {
    match pc
    case Resting => true
    case LoadFlag(call) => call < |s.log|
    case Insert(call, side, pos) => call < |s.log| && Upto(s, s.log[call], side, pos)
    case Check(call, side, pos) => call < |s.log| && pos < |PathsOf(s.log[call], side)| &&
        Upto(s, s.log[call], side, pos + 1)
    case StoreFlag(call) => call < |s.log|
  }

  predicate Upto(s: State, r: Recording, side: Side, pos: nat)
  {
    if side.Reads? then pos <= |r.readPaths| && Shown(r.readPaths, pos, s.moduleReads)
    else
      && pos <= |r.writtenPaths|
      && Shown(r.readPaths, |r.readPaths|, s.moduleReads) && Shown(r.writtenPaths, pos, s.moduleWrites)
  }

  /** The thread is about to find path `p`. */
  predicate Looks(s: State, pc: Pc, p: nat)
  {
    pc.Check? && pc.call < |s.log| && pc.pos < |PathsOf(s.log[pc.call], pc.side)| &&
        PathsOf(s.log[pc.call], pc.side)[pc.pos] == p
  }

  /** First show, then look: a path that is in both sets has been found or is about to be. */
  ghost predicate Noticed(s: State, p: nat)
  {
    s.flag || exists t :: 0 <= t < |s.threads| && (s.threads[t].StoreFlag? || Looks(s, s.threads[t], p))
  }

  ghost predicate CallOk(s: State, call: nat)
    requires call < |s.log|
  {
    s.flag || InProgress(s, call) || AllShown(s, s.log[call])
  }

  ghost predicate Inv(s: State)
  {
    && (forall t :: 0 <= t < |s.threads| ==> PcOk(s, s.threads[t]))
    && (forall c :: 0 <= c < |s.log| ==> CallOk(s, c))
    && (forall p :: p in s.moduleReads && p in s.moduleWrites ==> Noticed(s, p))
    && (forall p :: p in s.moduleReads ==> ReadIn(s.log, p))
    && (forall p :: p in s.moduleWrites ==> WrittenIn(s.log, p))
    && (s.flag || (exists t :: 0 <= t < |s.threads| && s.threads[t].StoreFlag?) ==> Race(s.log))
  }

  lemma LogGrows(log: seq<Recording>, r: Recording, p: nat)
    ensures ReadIn(log, p) ==> ReadIn(log + [r], p)
    ensures WrittenIn(log, p) ==> WrittenIn(log + [r], p)
  {
    if c :| 0 <= c < |log| && p in log[c].readPaths { assert p in (log + [r])[c].readPaths; }
    if c :| 0 <= c < |log| && p in log[c].writtenPaths { assert p in (log + [r])[c].writtenPaths; }
  }

  lemma RaceGrows(log: seq<Recording>, r: Recording)
    requires Race(log)
    ensures Race(log + [r])
  {
    var p :| ReadIn(log, p) && WrittenIn(log, p);
    LogGrows(log, r, p);
  }

  /** Nothing is lost by a step. */
  ghost predicate Grows(s: State, s': State)
  {
    && (s.flag ==> s'.flag) && s.moduleReads <= s'.moduleReads && s.moduleWrites <= s'.moduleWrites
    && |s.log| <= |s'.log| && s'.log[..|s.log|] == s.log
  }

  lemma StepGrows(s: State, t: nat, s': State)
    requires Next(s, t, s')
    ensures Grows(s, s')
  {
    if s.threads[t].Resting? {
      var r :| s'.log == s.log + [r];
    }
    assert s.log[..|s.log|] == s.log;
  }

  lemma PcStays(s: State, s': State, pc: Pc)
    requires PcOk(s, pc) && Grows(s, s')
    ensures PcOk(s', pc)
  {
    if !pc.Resting? { assert s'.log[..|s.log|][pc.call] == s'.log[pc.call]; }
  }

  lemma KeepPcs(s: State, t: nat, s': State)
    requires Inv(s) && Next(s, t, s') && Grows(s, s')
    ensures forall u :: 0 <= u < |s'.threads| ==> PcOk(s', s'.threads[u])
  {
    forall u | 0 <= u < |s'.threads| ensures PcOk(s', s'.threads[u]) {
      assert PcOk(s, s.threads[u]);
      PcStays(s, s', s.threads[u]);
    }
  }

  lemma KeepCall(s: State, t: nat, s': State, c: nat)
    requires Inv(s) && Next(s, t, s') && Grows(s, s') && c < |s'.log|
    ensures CallOk(s', c)
  {
    assert PcOk(s, s.threads[t]);
    if c == |s.log| {
      assert Holds(s'.threads[t], c);
    } else {
      assert CallOk(s, c) && s'.log[..|s.log|][c] == s'.log[c];
      if InProgress(s, c) {
        var u :| 0 <= u < |s.threads| && Holds(s.threads[u], c);
        assert u != t ==> Holds(s'.threads[u], c);
        assert u == t ==> Holds(s'.threads[t], c) || s'.flag || AllShown(s', s'.log[c]);
      }
    }
  }

  lemma KeepNoticed(s: State, t: nat, s': State, p: nat)
    requires Inv(s) && Next(s, t, s') && Grows(s, s') && p in s'.moduleReads && p in s'.moduleWrites
    ensures Noticed(s', p)
  {
    var pc, pc' := s.threads[t], s'.threads[t];
    assert PcOk(s, pc);
    if p in s.moduleReads && p in s.moduleWrites {
      assert Noticed(s, p);
      if !s.flag {
        var u :| 0 <= u < |s.threads| && (s.threads[u].StoreFlag? || Looks(s, s.threads[u], p));
        if u != t {
          assert s.threads[u].Check? ==> s'.log[..|s.log|][s.threads[u].call] == s'.log[s.threads[u].call];
          assert s'.threads[u].StoreFlag? || Looks(s', s'.threads[u], p);
        } else {
          assert s'.flag || pc'.StoreFlag?;
        }
      }
    } else {
      assert Looks(s', pc', p);
    }
  }

  lemma KeepSound(s: State, t: nat, s': State)
    requires Inv(s) && Next(s, t, s')
    ensures forall p :: p in s'.moduleReads ==> ReadIn(s'.log, p)
    ensures forall p :: p in s'.moduleWrites ==> WrittenIn(s'.log, p)
    ensures s'.flag || (exists u :: 0 <= u < |s'.threads| && s'.threads[u].StoreFlag?) ==> Race(s'.log)
  {
    var pc := s.threads[t];
    assert PcOk(s, pc);
    if pc.Resting? {
      var r :| s'.log == s.log + [r];
      forall p ensures p in s'.moduleReads ==> ReadIn(s'.log, p)
        ensures p in s'.moduleWrites ==> WrittenIn(s'.log, p)
      {
        LogGrows(s.log, r, p);
      }
      if Race(s.log) { RaceGrows(s.log, r); }
      assert forall u :: 0 <= u < |s'.threads| && s'.threads[u].StoreFlag? ==> s.threads[u].StoreFlag?;
    } else {
      if pc.Insert? && pc.pos < |PathsOf(s.log[pc.call], pc.side)| {
        assert PathsOf(s.log[pc.call], pc.side)[pc.pos] in PathsOf(s.log[pc.call], pc.side);
      }
      if u :| 0 <= u < |s'.threads| && s'.threads[u].StoreFlag? && !s.threads[u].StoreFlag? {
        var p := PathsOf(s.log[pc.call], pc.side)[pc.pos];
        assert p in s.moduleReads || p in s.moduleWrites;
        assert p in PathsOf(s.log[pc.call], pc.side);
        assert ReadIn(s.log, p) && WrittenIn(s.log, p);
      }
    }
  }

  lemma StepKeepsInv(s: State, t: nat, s': State)
    requires Inv(s) && Next(s, t, s')
    ensures Inv(s')
  {
    StepGrows(s, t, s');
    KeepPcs(s, t, s');
    forall c | 0 <= c < |s'.log| ensures CallOk(s', c) { KeepCall(s, t, s', c); }
    forall p | p in s'.moduleReads && p in s'.moduleWrites ensures Noticed(s', p) { KeepNoticed(s, t, s', p); }
    KeepSound(s, t, s');
  }

  lemma {:induction false} RunInv(run: seq<State>, i: nat)
    requires IsRun(run) && i < |run|
    ensures Inv(run[i])
  {
    if i == 0 {
    } else {
      RunInv(run, i - 1);
      assert StepAt(run, i - 1);
      var t :| Next(run[i - 1], t, run[i]);
      StepKeepsInv(run[i - 1], t, run[i]);
    }
  }

  /** After any interleaving of calls, once all of them have returned the flag is set exactly when
      some path was read in one recorded execution and written in one, although calls return early
      and skip paths. */
  lemma FlagIsExact(run: seq<State>, i: nat)
    requires IsRun(run) && i < |run|
    requires forall t :: 0 <= t < |run[i].threads| ==> run[i].threads[t].Resting?
    ensures run[i].flag <==> Race(run[i].log)
  {
    var s := run[i];
    RunInv(run, i);
    if Race(s.log) {
      var p :| ReadIn(s.log, p) && WrittenIn(s.log, p);
      var c :| 0 <= c < |s.log| && p in s.log[c].readPaths;
      var d :| 0 <= d < |s.log| && p in s.log[d].writtenPaths;
      assert CallOk(s, c) && CallOk(s, d);
      assert s.flag || (p in s.moduleReads && p in s.moduleWrites && Noticed(s, p));
    }
  }

  /** The flag is never set without reason, even while calls are in progress. */
  lemma FlagIsSound(run: seq<State>, i: nat)
    requires IsRun(run) && i < |run| && run[i].flag
    ensures Race(run[i].log)
  {
    RunInv(run, i);
  }
}
