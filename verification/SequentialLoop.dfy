/** The sequential executor as it is written: a loop over the transactions that updates a state view
    cache in place.  It computes the reference semantics. */
module SequentialLoop {
  import opened Base
  import opened Delta
  import opened MVHashMap
  import opened Machine
  import opened Sequential

  class StateViewCache {
    const block: Block
    var dataMap: Cache

    constructor (block: Block)
      ensures this.block == block && dataMap == map[]
    {
      this.block := block;
      dataMap := map[];
    }

    method GetStateValue(key: Key) returns (r: Option<u128>)
      ensures r == StateValue(block, dataMap, key)
    {
      r := if key in dataMap then dataMap[key] else block.storage(key);
    }

    method PushWriteSet(writes: map<Key, WriteOp>)
      modifies this
      ensures dataMap == Pushed(old(dataMap), writes)
      ensures dataMap.Keys == old(dataMap).Keys + writes.Keys
      ensures forall k :: k in dataMap ==>
                dataMap[k] == if k !in writes then old(dataMap)[k]
                              else match writes[k]
                                   case Creation(d) => Some(d)
                                   case Modification(d) => Some(d)
                                   case Deletion => None
    {
      var todo := writes.Keys;
      while todo != {}
        invariant todo <= writes.Keys
        invariant forall k :: k in dataMap <==> k in old(dataMap) || (k in writes && k !in todo)
        invariant forall k :: k in dataMap ==>
                    dataMap[k] == if k in writes && k !in todo then OpValue(writes[k]) else old(dataMap)[k]
        decreases |todo|
      {
        var k :| k in todo;
        dataMap := dataMap[k := if writes[k].Deletion? then None else Some(writes[k].data)];
        todo := todo - {k};
      }
      assert dataMap == Pushed(old(dataMap), writes);
    }

    /** The write set with the deltas applied to the view; `None` is the failure to apply one. */
    method ApplyDeltas(updates: map<Key, Update>) returns (r: Option<map<Key, WriteOp>>)
      ensures r.Some? <==> Applies(block, dataMap, updates)
      ensures r.Some? ==> r.value == Materialised(block, dataMap, updates)
    {
      var writes: map<Key, WriteOp> := map[];
      var todo := updates.Keys;
      while todo != {}
        invariant todo <= updates.Keys && writes.Keys == updates.Keys - todo
        invariant forall k :: k in writes ==> WriteOf(block, dataMap, k, updates[k]) == Some(writes[k])
        decreases |todo|
      {
        var k :| k in todo;
        match updates[k] {
          case Put(op) => writes := writes[k := op];
          case Change(delta) =>
            var base := GetStateValue(k);
            if base.None? { return None; }
            var applied := ApplyTo(delta, base.value);
            if applied.Err? { return None; }
            writes := writes[k := Modification(applied.value)];
        }
        todo := todo - {k};
      }
      assert forall k :: k in updates ==> k in writes && WriteOf(block, dataMap, k, updates[k]) == Some(writes[k]);
      assert writes == Materialised(block, dataMap, updates);
      r := Some(writes);
    }

    /** Runs a transaction on the view. */
    method ExecuteSingle(i: nat, ghost bound: nat) returns (out: Outcome)
      requires i < |block.txns| && Finishes(block, i, bound)
      ensures EndsIn(block, i, CacheView(block, dataMap), out)
    {
      var seen: seq<Seen> := [];
      var action := block.txns[i](seen);
      while action.ReadKey?
        invariant action == block.txns[i](seen)
        invariant forall p :: 0 <= p < |seen| ==> ReadsAt(block, i, CacheView(block, dataMap), seen, p)
        decreases bound - |seen|
      {
        var value := GetStateValue(action.key);
        var longer := seen + [Bytes(value)];
        forall p | 0 <= p < |longer| ensures ReadsAt(block, i, CacheView(block, dataMap), longer, p) {
          if p < |seen| {
            assert ReadsAt(block, i, CacheView(block, dataMap), seen, p) && longer[..p] == seen[..p];
          } else {
            assert longer[..p] == seen;
          }
        }
        seen := longer;
        action := block.txns[i](seen);
      }
      out := action.outcome;
      assert Runs(block, i, CacheView(block, dataMap), seen, out);
    }
  }

  /** The next transaction of a chain. */
  lemma ChainExtends(b: Block, outs: seq<Outcome>, caches: seq<Cache>, out: Outcome)
    requires IsChain(b, outs, caches) && |outs| < |b.txns| && Executes(b, |outs|, caches[|outs|], out)
    ensures IsChain(b, outs + [out], caches + [CacheAfter(b, caches[|outs|], UpdatesOf(out))])
  {
    var outs', caches' := outs + [out], caches + [CacheAfter(b, caches[|outs|], UpdatesOf(out))];
    forall i | 0 <= i < |outs'| ensures Executes(b, i, caches'[i], outs'[i]) && Follows(b, outs', caches', i) {
      if i < |outs| { assert Executes(b, i, caches[i], outs[i]) && Follows(b, outs, caches, i); }
    }
  }

  /** What was returned for earlier transactions stays. */
  lemma OutputsStay(b: Block, outs: seq<Outcome>, caches: seq<Cache>, out: Outcome)
    requires |caches| == |outs| + 1
    ensures forall i :: 0 <= i < |outs| ==>
              SequentialOutput(b, outs + [out], caches + [CacheAfter(b, caches[|outs|], UpdatesOf(out))], i) ==
              SequentialOutput(b, outs, caches, i)
  {
  }

  /** After successes only, the next transaction has a delta that does not apply. */
  ghost predicate FailsAfter(b: Block, outs: seq<Outcome>, caches: seq<Cache>, out: Outcome, k: Key)
  {
    && IsChain(b, outs, caches) && (forall i :: 0 <= i < |outs| ==> outs[i].Success?)
    && NextFails(b, outs, caches, out, k)
  }

  /** The sequential loop.  It returns what the reference says, and panics exactly at a transaction
      with a delta that does not apply. */
  method ExecuteBlock(b: Block, ghost bound: nat) returns (r: Option<BlockResult>)
    requires AllFinish(b, bound)
    ensures r.Some? ==>
              exists outs, caches :: IsSequential(b, outs, caches) && r.value == SequentialResult(b, outs, caches)
    ensures r.None? ==> exists outs, caches, out, k :: FailsAfter(b, outs, caches, out, k)
    ensures r.Some? <==> exists outs, caches :: IsSequential(b, outs, caches)
  {
    var cache := new StateViewCache(b);
    var result: seq<TxnOutput> := [];
    var shouldRestart := false;
    ghost var outs: seq<Outcome>, caches: seq<Cache> := [], [map[]];
    for idx := 0 to |b.txns|
      invariant |result| == idx && cache.block == b && fresh(cache)
      invariant IsChain(b, outs, caches) && cache.dataMap == caches[|outs|]
      invariant forall i :: 0 <= i < |outs| - 1 ==> outs[i].Success?
      invariant forall i :: 0 <= i < |outs| ==> !outs[i].Abort?
      invariant if shouldRestart then 0 < |outs| <= idx && !outs[|outs| - 1].Success?
                else |outs| == idx && forall i :: 0 <= i < |outs| ==> outs[i].Success?
      invariant forall i :: 0 <= i < idx ==> result[i] == SequentialOutput(b, outs, caches, i)
    {
      if shouldRestart {
        result := result + [Retry];
        continue;
      }
      var out := cache.ExecuteSingle(idx, bound);
      if out.Abort? {
        ChainExtends(b, outs, caches, out);
        caches := caches + [CacheAfter(b, caches[|outs|], UpdatesOf(out))];
        outs := outs + [out];
        assert IsSequential(b, outs, caches);
        return Some(UserError(out.error));
      }
      var writes := cache.ApplyDeltas(out.output.updates);
      if writes.None? {
        ghost var k :| k in out.output.updates && WriteOf(b, cache.dataMap, k, out.output.updates[k]).None?;
        assert FailsAfter(b, outs, caches, out, k);
        forall outs', caches' ensures !IsSequential(b, outs', caches') {
          FailureIsFinal(b, outs, caches, out, k, outs', caches');
        }
        return None;
      }
      cache.PushWriteSet(writes.value);
      shouldRestart := out.SkipRest?;
      ghost var outs', caches' := outs + [out], caches + [CacheAfter(b, caches[|outs|], UpdatesOf(out))];
      ChainExtends(b, outs, caches, out);
      OutputsStay(b, outs, caches, out);
      result := result + [Kept(writes.value, out.output.rest)];
      outs, caches := outs', caches';
    }
    assert IsSequential(b, outs, caches);
    r := Some(Outputs(result));
  }
}
