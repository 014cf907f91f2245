/** Going through a block in order, whatever its transactions return and whether or not their deltas
    apply: each transaction reads what the outcomes below it have left.  There is one way of doing
    so, and every finished run of any number of threads has done just that. */
module Determinism {
  import opened Base
  import opened Delta
  import opened MVHashMap
  import opened Machine
  import opened Invariant
  import opened Reachable
  import opened Replay
  import opened Sequential
  import opened Serializable
  import opened Resolver
  import opened Finish

  /******* The outcomes of a block *******/

  /** The column that outcomes leave at a key. */
  function ColumnOf(outs: seq<Outcome>, k: Key): Tree
  {
    map i: nat | i < |outs| && k in UpdatesOf(outs[i]) :: Entry(false, CellOf(UpdatesOf(outs[i])[k], 0))
  }

  /** What transaction `i` reads, the outcomes below it being those of `outs`. */
  function ViewBelow(b: Block, outs: seq<Outcome>, i: nat): Key -> Seen
  {
    k => var r := ReadDown(ColumnOf(outs, k), i, None);
      if r.Dependency? then ReadError(STORAGE_ERROR) else ViewOf(r, b.storage(k))
  }

  /** Each outcome is that of its transaction on what the outcomes below have left. */
  ghost predicate InOrder(b: Block, outs: seq<Outcome>)
  {
    && |outs| <= |b.txns|
    && forall i :: 0 <= i < |outs| ==> EndsIn(b, i, ViewBelow(b, outs, i), outs[i])
  }

  /******* Columns that differ in incarnations only *******/

  predicate SameEntry(e: Entry, f: Entry)
  {
    e.estimate == f.estimate &&
    match (e.cell, f.cell)
    case (Write(_, op), Write(_, op')) => op == op'
    case (Delta(delta), Delta(delta')) => delta == delta'
    case _ => false
  }

  ghost predicate SameBelow(t: Tree, u: Tree, i: nat)
  {
    forall j: nat :: j < i ==> (j in t <==> j in u) && (j in t ==> SameEntry(t[j], u[j]))
  }

  /** The outcomes are the same but for an incarnation. */
  predicate Alike(r: ReadOutcome, q: ReadOutcome)
  {
    if r.Version? && q.Version? then r.txn == q.txn && r.op == q.op else r == q
  }

  lemma {:induction false} ReadsAlike(t: Tree, u: Tree, i: nat, acc: Option<DeltaOp>)
    requires SameBelow(t, u, i)
    ensures Alike(ReadDown(t, i, acc), ReadDown(u, i, acc))
    decreases i
  {
    if i == 0 {
    } else if i - 1 !in t {
      ReadsAlike(t, u, i - 1, acc);
    } else {
      assert SameEntry(t[i - 1], u[i - 1]);
      if t[i - 1].cell.Delta? {
        var delta := t[i - 1].cell.delta;
        if acc.None? {
          ReadsAlike(t, u, i - 1, Some(delta));
        } else if MergeOnto(acc.value, delta).Ok? {
          ReadsAlike(t, u, i - 1, Some(MergeOnto(acc.value, delta).value));
        }
      }
    }
  }

  lemma {:induction false} FoldsAlike(t: Tree, u: Tree, stored: Option<u128>, i: nat)
    requires SameBelow(t, u, i)
    ensures Fold(t, stored, i) == Fold(u, stored, i)
  {
    if i == 0 {
    } else {
      FoldsAlike(t, u, stored, i - 1);
      assert i - 1 in t ==> SameEntry(t[i - 1], u[i - 1]);
    }
  }

  /** Deltas fail, and resolve, alike. */
  lemma DeltasAlike(t: Tree, u: Tree, stored: Option<u128>, n: nat, idx: nat)
    requires SameBelow(t, u, n) && idx < n
    ensures DeltaFails(t, stored, idx) == DeltaFails(u, stored, idx)
    ensures DeltaWrite(t, stored, idx) == DeltaWrite(u, stored, idx)
  {
    FoldsAlike(t, u, stored, idx + 1);
    assert idx in t ==> SameEntry(t[idx], u[idx]);
  }

  /** A map that holds the outcomes has their columns. */
  lemma MapIsColumns(data: Data, outs: seq<Outcome>, k: Key)
    requires MapHolds(data, outs)
    ensures SameBelow(TreeOf(data, k), ColumnOf(outs, k), |outs|)
  {
    forall j: nat | j < |outs|
      ensures j in TreeOf(data, k) <==> j in ColumnOf(outs, k)
      ensures j in TreeOf(data, k) ==> SameEntry(TreeOf(data, k)[j], ColumnOf(outs, k)[j])
    {
      assert HoldsUpdate(data, outs[j], j, k);
      assert EntryAt(data, k, j).Some? <==> j in TreeOf(data, k);
    }
  }

  /******* There is one way of going through a block *******/

  lemma ViewsAlike(b: Block, outs: seq<Outcome>, outs': seq<Outcome>, i: nat, k: Key)
    requires i <= |outs| && i <= |outs'| && forall j :: 0 <= j < i ==> outs[j] == outs'[j]
    ensures ViewBelow(b, outs, i)(k) == ViewBelow(b, outs', i)(k)
  {
    ReadsAlike(ColumnOf(outs, k), ColumnOf(outs', k), i, None);
  }

  lemma {:induction false} InOrderAgrees(b: Block, outs: seq<Outcome>, outs': seq<Outcome>, j: nat)
    requires InOrder(b, outs) && InOrder(b, outs') && j <= |outs| && j <= |outs'|
    ensures forall i :: 0 <= i < j ==> outs[i] == outs'[i]
  {
    if j == 0 {
    } else {
      var i := j - 1;
      InOrderAgrees(b, outs, outs', i);
      forall k ensures ViewBelow(b, outs, i)(k) == ViewBelow(b, outs', i)(k) { ViewsAlike(b, outs, outs', i, k); }
      EndsAlike(b, i, ViewBelow(b, outs, i), outs[i], ViewBelow(b, outs', i), outs'[i]);
    }
  }

  lemma InOrderIsUnique(b: Block, outs: seq<Outcome>, outs': seq<Outcome>)
    requires InOrder(b, outs) && InOrder(b, outs') && |outs| == |outs'|
    ensures outs == outs'
  {
    InOrderAgrees(b, outs, outs', |outs|);
  }

  /******* Finished runs *******/

  ghost predicate AllRecorded(s: State)
  {
    forall i :: 0 <= i < |s.g.mem.outputs| ==> s.g.mem.outputs[i].Some?
  }

  ghost function Outcomes(s: State): seq<Outcome>
    requires AllRecorded(s)
  {
    seq(|s.g.mem.outputs|, i requires 0 <= i < |s.g.mem.outputs| => s.g.mem.outputs[i].value)
  }

  lemma CompleteMapHolds(b: Block, s: State)
    requires Inv(b, s) && Complete(b, s)
    ensures AllRecorded(s) && |Outcomes(s)| == |b.txns| && MapHolds(s.g.mem.data, Outcomes(s))
  {
    forall j | 0 <= j < |b.txns| ensures s.g.mem.outputs[j].Some? { CompleteColumn(b, s, j, AccessPath(0, false)); }
    forall j, k | 0 <= j < |b.txns| ensures HoldsUpdate(s.g.mem.data, Outcomes(s)[j], j, k) {
      CompleteColumn(b, s, j, k);
    }
  }

  /** Reading the final map is reading the columns of the recorded outcomes. */
  lemma FinalReads(b: Block, data: Data, outs: seq<Outcome>, j: nat, k: Key)
    requires MapHolds(data, outs) && j <= |outs| && !Read(data, k, j).Dependency?
    ensures ViewBelow(b, outs, j)(k) == ViewOf(Read(data, k, j), b.storage(k))
  {
    MapIsColumns(data, outs, k);
    ReadsAlike(TreeOf(data, k), ColumnOf(outs, k), j, None);
  }

  lemma CompleteIsInOrder(b: Block, s: State, j: nat)
    requires Inv(b, s) && Complete(b, s) && j < |b.txns|
    requires AllRecorded(s) && |Outcomes(s)| == |b.txns| && MapHolds(s.g.mem.data, Outcomes(s))
    ensures EndsIn(b, j, ViewBelow(b, Outcomes(s), j), Outcomes(s)[j])
  {
    CompleteColumn(b, s, j, AccessPath(0, false));
    var log, view := s.g.mem.inputs[j].value, ViewBelow(b, Outcomes(s), j);
    var vals := SeenOf(log);
    forall p | 0 <= p < |vals| ensures ReadsAt(b, j, view, vals, p) {
      assert vals[..p] == SeenOf(log[..p]);
      assert RecordOk(b, s.g.mem.written, log[p]);
      CompleteIsValid(b, s, j, p);
      ValidReadAgain(b, s, j, log[p]);
      FinalReads(b, s.g.mem.data, Outcomes(s), j, log[p].key);
    }
    assert Runs(b, j, view, vals, Outcomes(s)[j]);
  }

  /** When the threads are done, every outcome is recorded, the map holds them, and they are those
      of going through the block in order. */
  lemma DoneIsInOrder(b: Block, run: seq<State>, i: nat)
    requires IsRun(b, run) && i < |run| && run[i].g.ctr.doneMarker
    ensures AllRecorded(run[i]) && |Outcomes(run[i])| == |b.txns|
    ensures MapHolds(run[i].g.mem.data, Outcomes(run[i])) && InOrder(b, Outcomes(run[i]))
  {
    RunInv(b, run, i);
    CompleteMapHolds(b, run[i]);
    forall j | 0 <= j < |b.txns| ensures EndsIn(b, j, ViewBelow(b, Outcomes(run[i]), j), Outcomes(run[i])[j]) {
      CompleteIsInOrder(b, run[i], j);
    }
  }

  /******* How a block finishes *******/

  /** On a key with a delta of a transaction that is kept, transaction `idx` has a delta that fails. */
  ghost predicate KeptFails(b: Block, outs: seq<Outcome>, i: nat, k: Key, idx: nat)
  {
    && i < |outs| && Reached(outs, i) && HasDelta(outs[i], k)
    && idx < |outs| && DeltaFails(ColumnOf(outs, k), b.storage(k), idx)
  }

  /** No kept transaction aborts, and some delta on the key of a kept delta fails. */
  ghost predicate BlockPanics(b: Block, outs: seq<Outcome>)
  {
    && (forall i :: 0 <= i < |outs| && Reached(outs, i) ==> !outs[i].Abort?)
    && exists i: nat, k: Key, idx: nat :: KeptFails(b, outs, i, k, idx)
  }

  lemma PanicsInOrder(b: Block, data: Data, outs: seq<Outcome>, c: Collected)
    requires MapHolds(data, outs) && IsCollected(outs, c)
    ensures FinishPanics(b, data, c) <==> BlockPanics(b, outs)
  {
    forall i: nat, k: Key, idx: nat | c.Final?
      ensures KeptKeyFails(b, data, c.outs, i, k, idx) <==> KeptFails(b, outs, i, k, idx)
    {
      if idx < |outs| {
        MapIsColumns(data, outs, k);
        DeltasAlike(TreeOf(data, k), ColumnOf(outs, k), b.storage(k), |outs|, idx);
      }
    }
    if c.Final? && BlockPanics(b, outs) {
      var i: nat, k: Key, idx: nat :| KeptFails(b, outs, i, k, idx);
      assert KeptKeyFails(b, data, c.outs, i, k, idx);
    }
    if FinishPanics(b, data, c) {
      var i: nat, k: Key, idx: nat :| KeptKeyFails(b, data, c.outs, i, k, idx);
      assert KeptFails(b, outs, i, k, idx);
    }
  }

  lemma CollectedOnce(outs: seq<Outcome>, c: Collected, c': Collected)
    requires IsCollected(outs, c) && IsCollected(outs, c')
    ensures c == c'
  {
    if c.Failed? && c'.Failed? {
      var i :| 0 <= i < |outs| && Reached(outs, i) && outs[i] == Abort(c.error);
      var j :| 0 <= j < |outs| && Reached(outs, j) && outs[j] == Abort(c'.error);
      assert i == j;
    }
  }

  lemma OutputsAlike(b: Block, data: Data, data': Data, outs: seq<Outcome>, o: Option<Output>, i: nat)
    requires MapHolds(data, outs) && MapHolds(data', outs) && i < |outs|
    ensures FinalOutput(b, data, o, i) == FinalOutput(b, data', o, i)
  {
    if o.Some? {
      forall k | k in o.value.updates
        ensures FinalWrite(b, data, i, k, o.value.updates[k]) == FinalWrite(b, data', i, k, o.value.updates[k])
      {
        MapIsColumns(data, outs, k);
        MapIsColumns(data', outs, k);
        DeltasAlike(TreeOf(data, k), ColumnOf(outs, k), b.storage(k), |outs|, i);
        DeltasAlike(TreeOf(data', k), ColumnOf(outs, k), b.storage(k), |outs|, i);
      }
    }
  }

  /** Maps that hold the same outcomes lead to the same result. */
  lemma ResultsAlike(b: Block, data: Data, data': Data, outs: seq<Outcome>, c: Collected)
    requires MapHolds(data, outs) && MapHolds(data', outs) && IsCollected(outs, c)
    ensures FinishResult(b, data, c) == FinishResult(b, data', c)
  {
    if c.Final? {
      forall i | 0 <= i < |outs| ensures FinalOutput(b, data, c.outs[i], i) == FinalOutput(b, data', c.outs[i], i) {
        OutputsAlike(b, data, data', outs, c.outs[i], i);
      }
    }
  }

  /** Parallel execution is deterministic: any two finished runs of a block, of any numbers of
      threads, record the same outcomes, return the same result, and panic alike. */
  lemma FinishedRunsAgree(b: Block, run: seq<State>, i: nat, c: Collected, run': seq<State>, i': nat, c': Collected)
    requires IsRun(b, run) && i < |run| && run[i].g.ctr.doneMarker
    requires IsRun(b, run') && i' < |run'| && run'[i'].g.ctr.doneMarker
    requires AllRecorded(run[i]) && AllRecorded(run'[i'])
    requires IsCollected(Outcomes(run[i]), c) && IsCollected(Outcomes(run'[i']), c')
    ensures Outcomes(run[i]) == Outcomes(run'[i'])
    ensures FinishResult(b, run[i].g.mem.data, c) == FinishResult(b, run'[i'].g.mem.data, c')
    ensures FinishPanics(b, run[i].g.mem.data, c) <==> FinishPanics(b, run'[i'].g.mem.data, c')
  {
    DoneIsInOrder(b, run, i);
    DoneIsInOrder(b, run', i');
    var outs := Outcomes(run[i]);
    InOrderIsUnique(b, outs, Outcomes(run'[i']));
    CollectedOnce(outs, c, c');
    ResultsAlike(b, run[i].g.mem.data, run'[i'].g.mem.data, outs, c);
    PanicsInOrder(b, run[i].g.mem.data, outs, c);
    PanicsInOrder(b, run'[i'].g.mem.data, outs, c);
  }

  /** Finishing a block panics exactly when going through it in order meets a failing delta on the
      key of a kept delta. */
  lemma DonePanicsExactly(b: Block, run: seq<State>, i: nat, c: Collected, outs: seq<Outcome>)
    requires IsRun(b, run) && i < |run| && run[i].g.ctr.doneMarker
    requires AllRecorded(run[i]) && IsCollected(Outcomes(run[i]), c)
    requires InOrder(b, outs) && |outs| == |b.txns|
    ensures Outcomes(run[i]) == outs
    ensures FinishPanics(b, run[i].g.mem.data, c) <==> BlockPanics(b, outs)
  {
    DoneIsInOrder(b, run, i);
    InOrderIsUnique(b, outs, Outcomes(run[i]));
    PanicsInOrder(b, run[i].g.mem.data, outs, c);
  }
}
