/** The reference: executing the transactions of a block one after the other on a cached view of
    the storage. */
module Sequential {
  import opened Base
  import opened Delta
  import opened MVHashMap
  import opened Machine

  /** The overlay of a state view cache; an absent value is a deletion. */
  type Cache = map<Key, Option<u128>>

  function StateValue(b: Block, cache: Cache, key: Key): Option<u128>
  {
    if key in cache then cache[key] else b.storage(key)
  }

  /** What reading through the cache returns. */
  function CacheView(b: Block, cache: Cache): Key -> Seen
  {
    key => Bytes(StateValue(b, cache, key))
  }

  /** Transaction `i`, reading through `view`, reads `vals` and ends with `out`. */
  ghost predicate Runs(b: Block, i: nat, view: Key -> Seen, vals: seq<Seen>, out: Outcome)
    requires i < |b.txns|
  {
    && (forall p :: 0 <= p < |vals| ==> ReadsAt(b, i, view, vals, p))
    && b.txns[i](vals) == Finish(out)
  }

  ghost predicate ReadsAt(b: Block, i: nat, view: Key -> Seen, vals: seq<Seen>, p: nat)
    requires i < |b.txns| && p < |vals|
  {
    var action := b.txns[i](vals[..p]);
    action.ReadKey? && vals[p] == view(action.key)
  }

  /** Transaction `i` ends with `out` when it reads through `view`. */
  ghost predicate EndsIn(b: Block, i: nat, view: Key -> Seen, out: Outcome)
    requires i < |b.txns|
  {
    exists vals :: Runs(b, i, view, vals, out)
  }

  /** The write that an update amounts to on the cached view, if it can be applied. */
  function WriteOf(b: Block, cache: Cache, key: Key, u: Update): Option<WriteOp>
  {
    match u
    case Put(op) => Some(op)
    case Change(delta) =>
      match StateValue(b, cache, key)
      case None => None
      case Some(base) =>
        match ApplyTo(delta, base)
        case Ok(value) => Some(Modification(value))
        case Err(_) => None
  }

  ghost predicate Applies(b: Block, cache: Cache, updates: map<Key, Update>)
  {
    forall k :: k in updates ==> WriteOf(b, cache, k, updates[k]).Some?
  }

  ghost function Materialised(b: Block, cache: Cache, updates: map<Key, Update>): map<Key, WriteOp>
    requires Applies(b, cache, updates)
  {
    map k | k in updates :: WriteOf(b, cache, k, updates[k]).value
  }

  /** The cache after a write set is pushed. */
  function Pushed(cache: Cache, writes: map<Key, WriteOp>): Cache
  {
    map k | k in cache.Keys + writes.Keys :: if k in writes then OpValue(writes[k]) else cache[k]
  }

  /** The cache after a transaction whose deltas apply. */
  ghost function CacheAfter(b: Block, cache: Cache, updates: map<Key, Update>): Cache
  {
    if Applies(b, cache, updates) then Pushed(cache, Materialised(b, cache, updates)) else cache
  }

  /** The outcome of transaction `i` on its cache, its deltas applying. */
  ghost predicate Executes(b: Block, i: nat, cache: Cache, out: Outcome)
    requires i < |b.txns|
  {
    EndsIn(b, i, CacheView(b, cache), out) && Applies(b, cache, UpdatesOf(out))
  }

  /** Executing the first transactions one after the other, whatever they return: their outcomes,
      the cache that each of them runs on, and the cache that is left. */
  ghost predicate IsChain(b: Block, outs: seq<Outcome>, caches: seq<Cache>)
  {
    && |outs| <= |b.txns| && |caches| == |outs| + 1
    && caches[0] == map[]
    && (forall i :: 0 <= i < |outs| ==> Executes(b, i, caches[i], outs[i]))
    && (forall i :: 0 <= i < |outs| ==> Follows(b, outs, caches, i))
  }

  ghost predicate Follows(b: Block, outs: seq<Outcome>, caches: seq<Cache>, i: nat)
    requires |caches| == |outs| + 1 && i < |outs|
  {
    caches[i + 1] == CacheAfter(b, caches[i], UpdatesOf(outs[i]))
  }

  /** A sequential execution of the block, up to its end, the first reconfiguration or the first
      error. */
  ghost predicate IsSequential(b: Block, outs: seq<Outcome>, caches: seq<Cache>)
  {
    && IsChain(b, outs, caches)
    && (forall i :: 0 <= i < |outs| - 1 ==> outs[i].Success?)
    && (|outs| < |b.txns| ==> |outs| > 0 && !outs[|outs| - 1].Success?)
  }

  /** All deltas on a key have the limit of the key. */
  ghost predicate OneLimitPerKey(limits: Key -> u128, outs: seq<Outcome>)
  {
    forall i :: 0 <= i < |outs| ==> LimitsAgree(limits, UpdatesOf(outs[i]))
  }

  ghost predicate LimitsAgree(limits: Key -> u128, updates: map<Key, Update>)
  {
    forall k :: k in updates && updates[k].Change? ==> updates[k].delta.limit == limits(k)
  }

  /** The transaction after a chain has a delta on `k` that does not apply. */
  ghost predicate NextFails(b: Block, outs: seq<Outcome>, caches: seq<Cache>, out: Outcome, k: Key)
    requires |outs| < |caches|
  {
    var j := |outs|;
    && j < |b.txns|
    && EndsIn(b, j, CacheView(b, caches[j]), out)
    && k in UpdatesOf(out) && UpdatesOf(out)[k].Change?
    && WriteOf(b, caches[j], k, UpdatesOf(out)[k]).None?
  }

  /** The final output of a transaction; those after a reconfiguration are to be retried. */
  datatype TxnOutput = Kept(writes: map<Key, WriteOp>, rest: nat) | Retry

  datatype BlockResult = Outputs(outs: seq<TxnOutput>) | UserError(code: nat)

  ghost function SequentialOutput(b: Block, outs: seq<Outcome>, caches: seq<Cache>, i: nat): TxnOutput
    requires |outs| < |caches|
  {
    if i < |outs| && !outs[i].Abort? && Applies(b, caches[i], UpdatesOf(outs[i])) then
      Kept(Materialised(b, caches[i], UpdatesOf(outs[i])), outs[i].output.rest)
    else Retry
  }

  /** What the sequential loop returns. */
  ghost function SequentialResult(b: Block, outs: seq<Outcome>, caches: seq<Cache>): BlockResult
    requires |outs| < |caches|
  {
    if |outs| > 0 && outs[|outs| - 1].Abort? then UserError(outs[|outs| - 1].error)
    else Outputs(seq(|b.txns|, i requires 0 <= i < |b.txns| => SequentialOutput(b, outs, caches, i)))
  }

  /** What the reference returns: the error of the last transaction if that aborts, and otherwise for
      each executed transaction all its writes, its deltas as modifications of the value it runs on,
      and whatever else it outputs; the rest is to be retried. */
  lemma ResultMeaning(b: Block, outs: seq<Outcome>, caches: seq<Cache>)
    requires IsSequential(b, outs, caches)
    ensures match SequentialResult(b, outs, caches)
            case UserError(code) => |outs| > 0 && outs[|outs| - 1] == Abort(code)
            case Outputs(results) =>
              && |results| == |b.txns|
              && (forall i :: |outs| <= i < |b.txns| ==> results[i] == Retry)
              && forall i :: 0 <= i < |outs| ==>
                   !outs[i].Abort? && IsOutput(b, caches[i], outs[i].output, results[i])
  {
    forall i | 0 <= i < |outs| && !outs[i].Abort?
      ensures IsOutput(b, caches[i], outs[i].output, SequentialOutput(b, outs, caches, i))
    {
      assert Executes(b, i, caches[i], outs[i]);
      var updates := outs[i].output.updates;
      forall k | k in updates
        ensures IsWrite(updates[k], StateValue(b, caches[i], k), Materialised(b, caches[i], updates)[k])
      {
        assert WriteOf(b, caches[i], k, updates[k]).Some?;
        WriteOfMeaning(b, caches[i], k, updates[k]);
      }
    }
  }

  ghost predicate IsOutput(b: Block, cache: Cache, out: Output, result: TxnOutput)
  {
    && result.Kept? && result.rest == out.rest && result.writes.Keys == out.updates.Keys
    && forall k :: k in out.updates ==> IsWrite(out.updates[k], StateValue(b, cache, k), result.writes[k])
  }

  /** The update, on a given value, amounts to the write. */
  predicate IsWrite(u: Update, value: Option<u128>, write: WriteOp)
  {
    match u
    case Put(op) => write == op
    case Change(delta) =>
      && value.Some? && Admits(delta, value.value)
      && write.Modification? && write.data == value.value + Net(delta)
  }

  /** A transaction that reads the same has one run. */
  lemma {:induction false} RunsAgree(b: Block, i: nat, view: Key -> Seen, vals: seq<Seen>, out: Outcome,
                                     view': Key -> Seen, vals': seq<Seen>, out': Outcome, p: nat)
    requires i < |b.txns| && Runs(b, i, view, vals, out) && Runs(b, i, view', vals', out')
    requires forall k :: view(k) == view'(k)
    requires p <= |vals| && p <= |vals'| && vals[..p] == vals'[..p]
    ensures vals == vals' && out == out'
    decreases |vals| - p
  {
    assert p < |vals| ==> ReadsAt(b, i, view, vals, p);
    assert p < |vals'| ==> ReadsAt(b, i, view', vals', p);
    assert p == |vals| ==> vals[..p] == vals;
    assert p == |vals'| ==> vals'[..p] == vals';
    if p < |vals| && p < |vals'| {
      assert vals[..p + 1] == vals[..p] + [vals[p]] && vals'[..p + 1] == vals'[..p] + [vals'[p]];
      RunsAgree(b, i, view, vals, out, view', vals', out', p + 1);
    }
  }

  lemma EndsAlike(b: Block, i: nat, view: Key -> Seen, out: Outcome, view': Key -> Seen, out': Outcome)
    requires i < |b.txns| && EndsIn(b, i, view, out) && EndsIn(b, i, view', out') && forall k :: view(k) == view'(k)
    ensures out == out'
  {
    var vals :| Runs(b, i, view, vals, out);
    var vals' :| Runs(b, i, view', vals', out');
    RunsAgree(b, i, view, vals, out, view', vals', out', 0);
  }

  /** What is pushed is what later reads see: created and modified values, no value after a
      deletion, and otherwise what was there before. */
  lemma ReadAfterPush(b: Block, cache: Cache, writes: map<Key, WriteOp>, key: Key)
    ensures var seen, before := StateValue(b, Pushed(cache, writes), key), StateValue(b, cache, key);
            if key !in writes then seen == before
            else
              match writes[key]
              case Creation(d) => seen == Some(d)
              case Modification(d) => seen == Some(d)
              case Deletion => seen == None
    ensures key in writes ==> CacheView(b, Pushed(cache, writes))(key) ==
                              Bytes(if writes[key].Deletion? then None else Some(writes[key].data))
  {
  }

  /** The write of a delta is a modification by its net effect, and there is none exactly if there
      is no value to change or the history or the result does not fit. */
  lemma WriteOfMeaning(b: Block, cache: Cache, key: Key, u: Update)
    ensures var write, value := WriteOf(b, cache, key, u), StateValue(b, cache, key);
            match u
            case Put(op) => write == Some(op)
            case Change(delta) =>
              match value
              case Some(x) => write == if Admits(delta, x) then Some(Modification(x + Net(delta))) else None
              case None => write == None
  {
    if u.Change? && StateValue(b, cache, key).Some? { ApplyToMeaning(u.delta, StateValue(b, cache, key).value); }
  }

  /** What a transaction leaves at a key: its write, or the value shifted by its delta. */
  lemma CacheAfterMeaning(b: Block, cache: Cache, updates: map<Key, Update>, key: Key)
    requires Applies(b, cache, updates)
    ensures var after, before := StateValue(b, CacheAfter(b, cache, updates), key), StateValue(b, cache, key);
            if key !in updates then after == before
            else
              match updates[key]
              case Put(Creation(d)) => after == Some(d)
              case Put(Modification(d)) => after == Some(d)
              case Put(Deletion) => after == None
              case Change(delta) =>
                && before.Some? && Admits(delta, before.value)
                && after.Some? && after.value == before.value + Net(delta)
  {
    if key in updates {
      assert WriteOf(b, cache, key, updates[key]).Some?;
      WriteOfMeaning(b, cache, key, updates[key]);
    }
    ReadAfterPush(b, cache, Materialised(b, cache, updates), key);
  }

  /** Executing one after the other has one outcome: chains agree as far as both go. */
  lemma {:induction false} ChainsAgree(b: Block, outs: seq<Outcome>, caches: seq<Cache>,
                                       outs': seq<Outcome>, caches': seq<Cache>, j: nat)
    requires IsChain(b, outs, caches) && IsChain(b, outs', caches') && j <= |outs| && j <= |outs'|
    ensures caches[j] == caches'[j] && forall i :: 0 <= i < j ==> outs[i] == outs'[i]
  {
    if j == 0 {
    } else {
      var i := j - 1;
      ChainsAgree(b, outs, caches, outs', caches', i);
      assert Executes(b, i, caches[i], outs[i]) && Executes(b, i, caches'[i], outs'[i]);
      EndsAlike(b, i, CacheView(b, caches[i]), outs[i], CacheView(b, caches'[i]), outs'[i]);
      assert Follows(b, outs, caches, i) && Follows(b, outs', caches', i);
    }
  }

  /** A block has one sequential execution. */
  lemma SequentialIsUnique(b: Block, outs: seq<Outcome>, caches: seq<Cache>, outs': seq<Outcome>, caches': seq<Cache>)
    requires IsSequential(b, outs, caches) && IsSequential(b, outs', caches')
    ensures outs == outs' && caches == caches'
  {
    var j := if |outs| < |outs'| then |outs| else |outs'|;
    forall i | 0 <= i <= j ensures caches[i] == caches'[i] { ChainsAgree(b, outs, caches, outs', caches', i); }
    ChainsAgree(b, outs, caches, outs', caches', j);
  }

  /** A chain of successes that meets a delta that does not apply excludes a sequential execution. */
  lemma FailureIsFinal(b: Block, outs: seq<Outcome>, caches: seq<Cache>, out: Outcome, k: Key,
                       outs': seq<Outcome>, caches': seq<Cache>)
    requires IsChain(b, outs, caches) && (forall i :: 0 <= i < |outs| ==> outs[i].Success?)
    requires NextFails(b, outs, caches, out, k)
    ensures !IsSequential(b, outs', caches')
  {
    if IsSequential(b, outs', caches') {
      var j := |outs|;
      if |outs'| <= j {
        ChainsAgree(b, outs, caches, outs', caches', |outs'|);
      } else {
        ChainsAgree(b, outs, caches, outs', caches', j);
        assert Executes(b, j, caches'[j], outs'[j]);
        EndsAlike(b, j, CacheView(b, caches[j]), out, CacheView(b, caches'[j]), outs'[j]);
      }
    }
  }
}
