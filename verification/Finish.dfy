/** From the joined threads to the outputs of the block: collect, find the keys with deltas, resolve
    them, and attach the resolved writes.  The result is that of the sequential execution. */
module Finish {
  import opened Base
  import opened MVHashMap
  import opened Machine
  import opened Replay
  import opened Sequential
  import opened Resolver

  /******* What the result is *******/

  function DeltaKeys(o: Option<Output>): set<Key>
  {
    if o.None? then {} else set k | k in o.value.updates && o.value.updates[k].Change?
  }

  function PutsOf(o: Output): map<Key, WriteOp>
  {
    map k | k in o.updates && o.updates[k].Put? :: o.updates[k].op
  }

  /** The write of transaction `i` at key `k`, its delta being resolved against the final map. */
  function FinalWrite(b: Block, data: Data, i: nat, k: Key, u: Update): WriteOp
  {
    match u
    case Put(op) => op
    case Change(_) =>
      var write := DeltaWrite(TreeOf(data, k), b.storage(k), i);
      if write.None? then Deletion else write.value
  }

  function FinalOutput(b: Block, data: Data, o: Option<Output>, i: nat): TxnOutput
  {
    match o
    case None => Retry
    case Some(out) => Kept(map k | k in out.updates :: FinalWrite(b, data, i, k, out.updates[k]), out.rest)
  }

  /** Some delta fails on a key on which a kept transaction has a delta. */
  ghost predicate KeptKeyFails(b: Block, data: Data, outs: seq<Option<Output>>, i: nat, k: Key, idx: nat)
  {
    && i < |outs| && k in DeltaKeys(outs[i])
    && idx < |outs| && DeltaFails(TreeOf(data, k), b.storage(k), idx)
  }

  ghost predicate ResolvePanics(b: Block, data: Data, outs: seq<Option<Output>>)
  {
    exists i: nat, k: Key, idx: nat :: KeptKeyFails(b, data, outs, i, k, idx)
  }

  /******* The loops around the resolver *******/

  predicate NoRepeats(keys: seq<(Key, Option<u128>)>)
  {
    forall l, m :: 0 <= l < m < |keys| ==> keys[l].0 != keys[m].0
  }

  ghost predicate Lists(b: Block, keys: seq<(Key, Option<u128>)>, outs: seq<Option<Output>>, upTo: nat)
    requires upTo <= |outs|
  {
    && NoRepeats(keys)
    && (forall m :: 0 <= m < |keys| ==>
          && keys[m].1 == b.storage(keys[m].0)
          && exists i :: 0 <= i < upTo && keys[m].0 in DeltaKeys(outs[i]))
    && (forall i, k :: 0 <= i < upTo && k in DeltaKeys(outs[i]) ==> Listed(keys, k))
  }

  predicate Listed(keys: seq<(Key, Option<u128>)>, k: Key)
  {
    exists m :: 0 <= m < |keys| && keys[m].0 == k
  }

  method AggregatorKeys(b: Block, outs: seq<Option<Output>>) returns (keys: seq<(Key, Option<u128>)>)
    ensures Lists(b, keys, outs, |outs|)
  {
    keys := [];
    for i := 0 to |outs|
      invariant Lists(b, keys, outs, i)
    {
      var todo := DeltaKeys(outs[i]);
      while todo != {}
        invariant todo <= DeltaKeys(outs[i])
        invariant NoRepeats(keys)
        invariant forall m :: 0 <= m < |keys| ==>
                    keys[m].1 == b.storage(keys[m].0) && exists j :: 0 <= j < i + 1 && keys[m].0 in DeltaKeys(outs[j])
        invariant forall j, k :: 0 <= j < i && k in DeltaKeys(outs[j]) ==> Listed(keys, k)
        invariant forall k :: k in DeltaKeys(outs[i]) && k !in todo ==> Listed(keys, k)
        decreases |todo|
      {
        var k :| k in todo;
        if !Listed(keys, k) {
          var keys' := keys + [(k, b.storage(k))];
          assert forall k' :: Listed(keys, k') ==> Listed(keys', k') by {
            forall k' | Listed(keys, k') ensures Listed(keys', k') {
              var m :| 0 <= m < |keys| && keys[m].0 == k';
              assert keys'[m].0 == k';
            }
          }
          assert keys'[|keys|].0 == k;
          keys := keys';
        }
        todo := todo - {k};
      }
    }
  }

  /** The writes of a row added one after the other. */
  function AddRow(writes: map<Key, WriteOp>, row: seq<(Key, WriteOp)>): map<Key, WriteOp>
  {
    if row == [] then writes
    else AddRow(writes, row[..|row| - 1])[row[|row| - 1].0 := row[|row| - 1].1]
  }

  /** `None` stands for the failure of the assertion on the number of delta writes. */
  method WithDeltaWrites(o: Output, row: seq<(Key, WriteOp)>) returns (r: Option<TxnOutput>)
    ensures r.None? <==> DeltaKeys(Some(o)) != {} && |row| != |DeltaKeys(Some(o))|
    ensures r.Some? ==> r.value == Kept(if DeltaKeys(Some(o)) == {} then PutsOf(o) else AddRow(PutsOf(o), row), o.rest)
  {
    var deltas := DeltaKeys(Some(o));
    if deltas == {} { return Some(Kept(PutsOf(o), o.rest)); }
    if |row| != |deltas| { return None; }
    var writes := PutsOf(o);
    for m := 0 to |row|
      invariant writes == AddRow(PutsOf(o), row[..m])
    {
      assert row[..m + 1][..m] == row[..m];
      writes := writes[row[m].0 := row[m].1];
    }
    assert row[..|row|] == row;
    r := Some(Kept(writes, o.rest));
  }

  /******* Rows *******/

  /** The keys of a row with what each contributes to it. */
  type Parts = seq<(Key, Option<WriteOp>)>

  function PartsOf(data: Data, keys: seq<(Key, Option<u128>)>, i: nat): Parts
  {
    seq(|keys|, l requires 0 <= l < |keys| => (keys[l].0, DeltaWrite(TreeOf(data, keys[l].0), keys[l].1, i)))
  }

  /** The row of the first `m` parts. */
  function Flat(parts: Parts, m: nat): seq<(Key, WriteOp)>
    requires m <= |parts|
  {
    if m == 0 then [] else Flat(parts, m - 1) + RowPart(parts[m - 1].0, parts[m - 1].1)
  }

  lemma {:induction false} RowIsFlat(data: Data, keys: seq<(Key, Option<u128>)>, m: nat, i: nat)
    requires m <= |keys|
    ensures Row(data, keys, m, i) == Flat(PartsOf(data, keys, i), m)
  {
    if m == 0 {
    } else {
      RowIsFlat(data, keys, m - 1, i);
    }
  }

  predicate Distinct(parts: Parts)
  {
    forall l, m :: 0 <= l < m < |parts| ==> parts[l].0 != parts[m].0
  }

  /** The keys among the first `m` that contribute a write. */
  function KeysOf(parts: Parts, m: nat): set<Key>
    requires m <= |parts|
  {
    if m == 0 then {}
    else if parts[m - 1].1.Some? then KeysOf(parts, m - 1) + {parts[m - 1].0}
    else KeysOf(parts, m - 1)
  }

  predicate Contributes(parts: Parts, m: nat, l: int, k: Key)
  {
    0 <= l < m && l < |parts| && parts[l].0 == k && parts[l].1.Some?
  }

  lemma {:induction false} KeysOfMember(parts: Parts, m: nat, k: Key)
    requires m <= |parts|
    ensures k in KeysOf(parts, m) <==> exists l :: Contributes(parts, m, l, k)
  {
    if m == 0 {
    } else {
      var n := m - 1;
      KeysOfMember(parts, n, k);
      if l :| Contributes(parts, n, l, k) { assert Contributes(parts, m, l, k); }
      assert parts[n].0 == k && parts[n].1.Some? ==> Contributes(parts, m, n, k);
      assert forall l :: Contributes(parts, m, l, k) ==> l == n || Contributes(parts, n, l, k);
    }
  }

  lemma LaterKeyIsNew(parts: Parts, m: nat)
    requires Distinct(parts) && m < |parts|
    ensures parts[m].0 !in KeysOf(parts, m)
  {
    KeysOfMember(parts, m, parts[m].0);
  }

  lemma LengthStep(parts: Parts, m: nat)
    requires m < |parts| && parts[m].0 !in KeysOf(parts, m) && |Flat(parts, m)| == |KeysOf(parts, m)|
    ensures |Flat(parts, m + 1)| == |KeysOf(parts, m + 1)|
  {
  }

  /** A row has one write for each key that contributes one. */
  lemma {:induction false} FlatLength(parts: Parts, m: nat)
    requires Distinct(parts) && m <= |parts|
    ensures |Flat(parts, m)| == |KeysOf(parts, m)|
  {
    if m == 0 {
    } else {
      FlatLength(parts, m - 1);
      LaterKeyIsNew(parts, m - 1);
      LengthStep(parts, m - 1);
    }
  }

  lemma AddPart(writes: map<Key, WriteOp>, row: seq<(Key, WriteOp)>, key: Key, write: Option<WriteOp>)
    ensures AddRow(writes, row + RowPart(key, write)) ==
            if write.None? then AddRow(writes, row) else AddRow(writes, row)[key := write.value]
  {
    var longer := row + RowPart(key, write);
    if write.None? { assert longer == row; } else { assert longer[..|longer| - 1] == row; }
  }

  /** Adding a row leaves all keys alone that do not contribute to it. */
  lemma {:induction false} FlatKeeps(parts: Parts, m: nat, writes: map<Key, WriteOp>, k: Key)
    requires m <= |parts| && k !in KeysOf(parts, m)
    ensures k in AddRow(writes, Flat(parts, m)) <==> k in writes
    ensures k in writes ==> AddRow(writes, Flat(parts, m))[k] == writes[k]
  {
    if m == 0 {
    } else {
      FlatKeeps(parts, m - 1, writes, k);
      AddPart(writes, Flat(parts, m - 1), parts[m - 1].0, parts[m - 1].1);
    }
  }

  /** Adding a row puts its writes in place. */
  lemma {:induction false} FlatPuts(parts: Parts, m: nat, writes: map<Key, WriteOp>, l: nat)
    requires Distinct(parts) && l < m <= |parts| && parts[l].1.Some?
    ensures parts[l].0 in AddRow(writes, Flat(parts, m)) &&
            AddRow(writes, Flat(parts, m))[parts[l].0] == parts[l].1.value
  {
    AddPart(writes, Flat(parts, m - 1), parts[m - 1].0, parts[m - 1].1);
    if l < m - 1 { FlatPuts(parts, m - 1, writes, l); }
  }

  /******* The end of a block *******/

  /** The map holds exactly the recorded updates, none of them an estimate. */
  ghost predicate MapHolds(data: Data, outcomes: seq<Outcome>)
  {
    && Within(data, |outcomes|)
    && forall i, k :: 0 <= i < |outcomes| ==> HoldsUpdate(data, outcomes[i], i, k)
  }

  ghost predicate HoldsUpdate(data: Data, out: Outcome, i: nat, k: Key)
  {
    var entry, updates := EntryAt(data, k, i), UpdatesOf(out);
    if k in updates then entry.Some? && !entry.value.estimate &&
        entry.value.cell == CellOf(updates[k], CellInc(entry.value.cell))
    else entry.None?
  }

  function CellInc(cell: EntryCell): nat { if cell.Write? then cell.inc else 0 }

  /** A transaction has a resolved write where it has a delta that does not fail. */
  lemma WriteOfDelta(data: Data, out: Outcome, i: nat, k: Key, stored: Option<u128>)
    requires HoldsUpdate(data, out, i, k)
    ensures DeltaWrite(TreeOf(data, k), stored, i).Some? <==>
            k in UpdatesOf(out) && UpdatesOf(out)[k].Change? && !DeltaFails(TreeOf(data, k), stored, i)
  {
  }

  predicate HasDelta(out: Outcome, k: Key)
  {
    k in UpdatesOf(out) && UpdatesOf(out)[k].Change?
  }

  /** A listed key contributes exactly if the transaction has a delta there. */
  lemma PartFor(data: Data, keys: seq<(Key, Option<u128>)>, out: Outcome, i: nat, k: Key, stored: Option<u128>)
    requires HoldsUpdate(data, out, i, k) && (HasDelta(out, k) ==>
             Listed(keys, k) && !DeltaFails(TreeOf(data, k), stored, i))
    requires forall l :: 0 <= l < |keys| && keys[l].0 == k ==> keys[l].1 == stored
    ensures k in KeysOf(PartsOf(data, keys, i), |keys|) <==> HasDelta(out, k)
    ensures HasDelta(out, k) ==> exists l :: Contributes(PartsOf(data, keys, i), |keys|, l, k)
  {
    var parts := PartsOf(data, keys, i);
    WriteOfDelta(data, out, i, k, stored);
    KeysOfMember(parts, |keys|, k);
    if HasDelta(out, k) {
      var l :| 0 <= l < |keys| && keys[l].0 == k;
      assert Contributes(parts, |keys|, l, k);
    }
  }

  /** Without failures, the resolved row of a kept transaction has exactly its deltas. */
  lemma RowHasDeltas(b: Block, data: Data, outcomes: seq<Outcome>, outs: seq<Option<Output>>,
                     keys: seq<(Key, Option<u128>)>, i: nat, k: Key)
    requires MapHolds(data, outcomes) && |outs| == |outcomes| && i < |outs|
    requires !outcomes[i].Abort? && outs[i] == Some(outcomes[i].output)
    requires Lists(b, keys, outs, |outs|) && !ResolvePanics(b, data, outs)
    ensures k in KeysOf(PartsOf(data, keys, i), |keys|) <==> k in DeltaKeys(outs[i])
    ensures k in DeltaKeys(outs[i]) ==>
              exists l :: Contributes(PartsOf(data, keys, i), |keys|, l, k)
  {
    assert HoldsUpdate(data, outcomes[i], i, k);
    assert HasDelta(outcomes[i], k) <==> k in DeltaKeys(outs[i]);
    assert k in DeltaKeys(outs[i]) ==> Listed(keys, k) && !KeptKeyFails(b, data, outs, i, k, i);
    PartFor(data, keys, outcomes[i], i, k, b.storage(k));
  }

  lemma RowIsComplete(b: Block, data: Data, outcomes: seq<Outcome>, outs: seq<Option<Output>>,
                      keys: seq<(Key, Option<u128>)>, i: nat)
    requires MapHolds(data, outcomes) && |outs| == |outcomes| && i < |outs|
    requires !outcomes[i].Abort? && outs[i] == Some(outcomes[i].output)
    requires Lists(b, keys, outs, |outs|) && !ResolvePanics(b, data, outs)
    ensures |Row(data, keys, |keys|, i)| == |DeltaKeys(outs[i])|
    ensures FinalOutput(b, data, outs[i], i) ==
            Kept(AddRow(PutsOf(outs[i].value), Row(data, keys, |keys|, i)), outs[i].value.rest)
  {
    var o, parts := outs[i].value, PartsOf(data, keys, i);
    RowIsFlat(data, keys, |keys|, i);
    forall k ensures k in KeysOf(parts, |keys|) <==> k in DeltaKeys(outs[i]) {
      RowHasDeltas(b, data, outcomes, outs, keys, i, k);
    }
    assert KeysOf(parts, |keys|) == DeltaKeys(outs[i]);
    FlatLength(parts, |keys|);
    var added, final := AddRow(PutsOf(o), Flat(parts, |keys|)), FinalOutput(b, data, outs[i], i).writes;
    forall k ensures k in added <==> k in final
      ensures k in final ==> added[k] == final[k]
    {
      RowHasDeltas(b, data, outcomes, outs, keys, i, k);
      if k in DeltaKeys(outs[i]) {
        var l :| Contributes(parts, |keys|, l, k);
        FlatPuts(parts, |keys|, PutsOf(o), l);
      } else {
        FlatKeeps(parts, |keys|, PutsOf(o), k);
      }
    }
    assert added == final;
  }

  /** The outputs with the resolved rows attached. */
  method Attach(b: Block, data: Data, ghost outcomes: seq<Outcome>, outs: seq<Option<Output>>,
                ghost keys: seq<(Key, Option<u128>)>, rows: seq<seq<(Key, WriteOp)>>)
    returns (r: seq<TxnOutput>)
    requires MapHolds(data, outcomes) && IsCollected(outcomes, Collected.Final(outs))
    requires Lists(b, keys, outs, |outs|) && !ResolvePanics(b, data, outs)
    requires |rows| == |outs| && forall i :: 0 <= i < |rows| ==> rows[i] == Row(data, keys, |keys|, i)
    ensures |r| == |outs| && forall i :: 0 <= i < |r| ==> r[i] == FinalOutput(b, data, outs[i], i)
  {
    r := [];
    for i := 0 to |outs|
      invariant |r| == i && forall j :: 0 <= j < i ==> r[j] == FinalOutput(b, data, outs[j], j)
    {
      if outs[i].None? {
        r := r + [Retry];
      } else {
        RowIsComplete(b, data, outcomes, outs, keys, i);
        var output := WithDeltaWrites(outs[i].value, rows[i]);
        assert |Row(data, keys, |keys|, i)| == 0 ==> rows[i] == [];
        r := r + [output.value];
      }
    }
  }

  datatype Final = Panic | Returned(result: BlockResult)

  /** What is returned when nothing panics. */
  ghost function FinishResult(b: Block, data: Data, c: Collected): BlockResult
  {
    match c
    case Failed(error) => UserError(error)
    case Final(outs) => Outputs(seq(|outs|, i requires 0 <= i < |outs| => FinalOutput(b, data, outs[i], i)))
  }

  ghost predicate FinishPanics(b: Block, data: Data, c: Collected)
  {
    c.Final? && ResolvePanics(b, data, c.outs)
  }

  /** What a kept transaction returns when nothing panics: all its writes, its deltas as modifications
      of the value that the replay of the column has below it, and whatever else it outputs. */
  lemma FinalOutputMeaning(b: Block, data: Data, outcomes: seq<Outcome>, outs: seq<Option<Output>>, i: nat, k: Key,
                           vals: seq<Folded>)
    requires MapHolds(data, outcomes) && IsCollected(outcomes, Collected.Final(outs)) && !ResolvePanics(b, data, outs)
    requires i < |outs| && IsReplay(TreeOf(data, k), b.storage(k), vals, |outs|)
    ensures var result := FinalOutput(b, data, outs[i], i);
            match outs[i]
            case None => result == Retry
            case Some(out) =>
              && result.Kept? && result.rest == out.rest && result.writes.Keys == out.updates.Keys
              && (k in out.updates ==>
                    (vals[i].Val? || out.updates[k].Put?) &&
                    IsWrite(out.updates[k], if vals[i].Val? then vals[i].value else None, result.writes[k]))
  {
    if outs[i].Some? && k in outs[i].value.updates && outs[i].value.updates[k].Change? {
      assert outs[i] == Some(outcomes[i].output) && !outcomes[i].Abort?;
      assert HoldsUpdate(data, outcomes[i], i, k);
      DeltaMeaning(TreeOf(data, k), b.storage(k), vals, |outs|, i);
      assert k in DeltaKeys(outs[i]);
      assert !KeptKeyFails(b, data, outs, i, k, i);
    }
  }

  lemma PanicsExactly(b: Block, data: Data, outcomes: seq<Outcome>, outs: seq<Option<Output>>,
                      keys: seq<(Key, Option<u128>)>)
    requires MapHolds(data, outcomes) && IsCollected(outcomes, Collected.Final(outs)) && Lists(b, keys, outs, |outs|)
    ensures ResolvePanics(b, data, outs) <==> exists m :: 0 <= m < |keys| && KeyPanics(data, keys, m, |outs|)
  {
    if m :| 0 <= m < |keys| && KeyPanics(data, keys, m, |outs|) {
      var i :| 0 <= i < |outs| && keys[m].0 in DeltaKeys(outs[i]);
      assert HoldsUpdate(data, outcomes[i], i, keys[m].0);
      var idx :| 0 <= idx < |outs| && DeltaFails(TreeOf(data, keys[m].0), keys[m].1, idx);
      assert KeptKeyFails(b, data, outs, i, keys[m].0, idx);
    }
    if i: nat, k: Key, idx: nat :| KeptKeyFails(b, data, outs, i, k, idx) {
      assert Listed(keys, k);
      var m :| 0 <= m < |keys| && keys[m].0 == k;
      assert KeyPanics(data, keys, m, |outs|);
    }
  }

  method FinishBlock(b: Block, data: Data, outcomes: seq<Outcome>) returns (c: Collected, r: Final)
    requires MapHolds(data, outcomes)
    ensures IsCollected(outcomes, c)
    ensures r.Panic? <==> FinishPanics(b, data, c)
    ensures r.Returned? ==> r.result == FinishResult(b, data, c)
  {
    c := Collect(outcomes);
    if c.Failed? { return c, Returned(UserError(c.error)); }
    var outs := c.outs;
    var keys := AggregatorKeys(b, outs);
    var resolved := Resolve(data, keys, |outs|);
    PanicsExactly(b, data, outcomes, outs, keys);
    if resolved.Panics? { return c, Panic; }
    var result := Attach(b, data, outcomes, outs, keys, resolved.rows);
    assert result == seq(|outs|, i requires 0 <= i < |outs| => FinalOutput(b, data, outs[i], i));
    r := Returned(Outputs(result));
  }
}
