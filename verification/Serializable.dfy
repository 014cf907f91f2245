/** Serializability: in any run of any number of threads, once the done marker is set the recorded
    outcomes are those of executing the transactions one at a time. */
module Serializable {
  import opened Base
  import opened MVHashMap
  import opened Machine
  import opened Invariant
  import opened Roles
  import opened Logs
  import opened Reachable
  import opened Replay
  import opened Sequential

  /** In a complete state, the entries of a transaction are its recorded updates, all done. */
  lemma CompleteColumn(b: Block, s: State, i: nat, k: Key)
    requires Inv(b, s) && Complete(b, s) && i < |b.txns|
    ensures Recorded(b, s.g.mem, i) && TraceOk(b, s.g.mem.written, i, s.g.mem.inputs[i].value)
    ensures var updates := UpdatesOf(s.g.mem.outputs[i].value);
            EntryAt(s.g.mem.data, k, i) == if k in updates then
                Some(Entry(false, CellOf(updates[k], s.g.txnStatus[i].inc))) else None
  {
    assert s.g.txnStatus[i].Executed? && Recorded(b, s.g.mem, i);
    OwnerFits(b, s, i);
    assert ColumnOk(s.g.mem, i, PhaseOf(s, i)) && CellOk(s.g.mem, i, PhaseOf(s, i), k);
  }

  /** In a complete state, every recorded read is still valid. */
  lemma CompleteIsValid(b: Block, s: State, j: nat, p: nat)
    requires Inv(b, s) && Complete(b, s) && j < |b.txns|
    requires s.g.mem.inputs[j].Some? && p < |s.g.mem.inputs[j].value|
    ensures StillValid(s.g.mem.data, j, s.g.mem.inputs[j].value[p])
  {
    var inc := s.g.txnStatus[j].inc;
    assert s.g.txnStatus[j].Executed?;
    forall t | 0 <= t < |s.threads| ensures !CoversValidation(s.threads[t], j, inc) && !Scans(s.threads[t], j, inc, p) {
      assert Harmless(s.threads[t], |b.txns|);
    }
    assert WillValidate(s, j, inc) || ReadsCovered(s, j, inc);
  }

  /** A valid descriptor stands for the value that reading again would give. */
  lemma ValidReadAgain(b: Block, s: State, j: nat, d: ReadDescriptor)
    requires Inv(b, s) && j < |b.txns|
    requires RecordOk(b, s.g.mem.written, d) && StillValid(s.g.mem.data, j, d)
    ensures !Read(s.g.mem.data, d.key, j).Dependency?
    ensures d.seen == ViewOf(Read(s.g.mem.data, d.key, j), b.storage(d.key))
  {
    ReadIsRecorded(b, s, d.key, j, Read(s.g.mem.data, d.key, j));
  }

  /** The state that the map describes below `j` is the sequential state before `j`. */
  ghost predicate StateAgrees(b: Block, data: Data, j: nat, cache: Cache)
  {
    forall k :: Fold(TreeOf(data, k), b.storage(k), j) == Val(StateValue(b, cache, k))
  }

  ghost predicate OutcomesAgree(s: State, outs: seq<Outcome>, j: nat)
    requires j <= |outs| <= |s.g.mem.outputs|
  {
    forall i :: 0 <= i < j ==> s.g.mem.outputs[i] == Some(outs[i])
  }

  lemma CompleteColumnsBelow(b: Block, s: State, limits: Key -> u128, outs: seq<Outcome>, caches: seq<Cache>, j: nat,
                             k: Key)
    requires Inv(b, s) && Complete(b, s) && IsChain(b, outs, caches) && OneLimitPerKey(limits, outs) && j <= |outs|
    requires OutcomesAgree(s, outs, j)
    ensures Clean(TreeOf(s.g.mem.data, k), j) && OneLimit(TreeOf(s.g.mem.data, k), j, limits(k))
  {
    forall i | 0 <= i < j && i in TreeOf(s.g.mem.data, k)
      ensures !TreeOf(s.g.mem.data, k)[i].estimate
      ensures TreeOf(s.g.mem.data, k)[i].cell.Delta? ==> TreeOf(s.g.mem.data, k)[i].cell.delta.limit == limits(k)
    {
      CompleteColumn(b, s, i, k);
      assert EntryAt(s.g.mem.data, k, i).Some? && LimitsAgree(limits, UpdatesOf(outs[i]));
    }
  }

  /** The recorded execution of `j` is a sequential one. */
  lemma ReadsAreSequential(b: Block, s: State, limits: Key -> u128, outs: seq<Outcome>, caches: seq<Cache>, j: nat,
                           out: Outcome)
    requires Inv(b, s) && Complete(b, s) && IsChain(b, outs, caches) && OneLimitPerKey(limits, outs) && j <= |outs| &&
             j < |b.txns|
    requires OutcomesAgree(s, outs, j) && StateAgrees(b, s.g.mem.data, j, caches[j])
    requires EndsIn(b, j, CacheView(b, caches[j]), out)
    ensures s.g.mem.outputs[j] == Some(out)
  {
    CompleteColumn(b, s, j, AccessPath(0, false));
    var log := s.g.mem.inputs[j].value;
    var vals := SeenOf(log);
    forall p | 0 <= p < |vals| ensures ReadsAt(b, j, CacheView(b, caches[j]), vals, p) {
      var d := log[p];
      assert vals[..p] == SeenOf(log[..p]);
      assert RecordOk(b, s.g.mem.written, d);
      CompleteIsValid(b, s, j, p);
      ValidReadAgain(b, s, j, d);
      CompleteColumnsBelow(b, s, limits, outs, caches, j, d.key);
      ReadReplays(TreeOf(s.g.mem.data, d.key), b.storage(d.key), j, limits(d.key));
    }
    assert Runs(b, j, CacheView(b, caches[j]), vals, s.g.mem.outputs[j].value);
    EndsAlike(b, j, CacheView(b, caches[j]), s.g.mem.outputs[j].value, CacheView(b, caches[j]), out);
  }

  lemma StateAdvances(b: Block, s: State, limits: Key -> u128, outs: seq<Outcome>, caches: seq<Cache>, j: nat)
    requires Inv(b, s) && Complete(b, s) && IsChain(b, outs, caches) && OneLimitPerKey(limits, outs) && j < |outs|
    requires s.g.mem.outputs[j] == Some(outs[j]) && StateAgrees(b, s.g.mem.data, j, caches[j])
    ensures StateAgrees(b, s.g.mem.data, j + 1, caches[j + 1])
  {
    assert Executes(b, j, caches[j], outs[j]) && Follows(b, outs, caches, j);
    forall k ensures Fold(TreeOf(s.g.mem.data, k), b.storage(k), j + 1) == Val(StateValue(b, caches[j + 1], k)) {
      CompleteColumn(b, s, j, k);
      assert Fold(TreeOf(s.g.mem.data, k), b.storage(k), j) == Val(StateValue(b, caches[j], k));
      assert j in TreeOf(s.g.mem.data, k) <==> EntryAt(s.g.mem.data, k, j).Some?;
      assert k in UpdatesOf(outs[j]) ==> WriteOf(b, caches[j], k, UpdatesOf(outs[j])[k]).Some?;
    }
  }

  lemma {:induction false} CompleteIsSequential(b: Block, s: State, limits: Key -> u128, outs: seq<Outcome>,
                                                caches: seq<Cache>, j: nat)
    requires Inv(b, s) && Complete(b, s) && IsChain(b, outs, caches) && OneLimitPerKey(limits, outs) && j <= |outs|
    ensures OutcomesAgree(s, outs, j) && StateAgrees(b, s.g.mem.data, j, caches[j])
  {
    if j == 0 {
    } else {
      CompleteIsSequential(b, s, limits, outs, caches, j - 1);
      assert Executes(b, j - 1, caches[j - 1], outs[j - 1]);
      ReadsAreSequential(b, s, limits, outs, caches, j - 1, outs[j - 1]);
      StateAdvances(b, s, limits, outs, caches, j - 1);
    }
  }

  /** Serializability, over whole runs: whenever the done marker is set, recorded outcomes are
      those of executing the transactions one after the other, and what the map says below any
      transaction is the state that it runs on. */
  lemma Serializability(b: Block, run: seq<State>, i: nat, limits: Key -> u128, outs: seq<Outcome>, caches: seq<Cache>,
                        j: nat)
    requires IsRun(b, run) && i < |run| && run[i].g.ctr.doneMarker
    requires IsChain(b, outs, caches) && OneLimitPerKey(limits, outs) && j <= |outs|
    ensures Sized(b, run[i].g) && OutcomesAgree(run[i], outs, |outs|)
    ensures StateAgrees(b, run[i].g.mem.data, j, caches[j])
  {
    RunInv(b, run, i);
    CompleteIsSequential(b, run[i], limits, outs, caches, |outs|);
    CompleteIsSequential(b, run[i], limits, outs, caches, j);
  }
}
