/** After the threads are done: collecting the outputs, and turning the deltas among them into
    writes. */
module Resolver {
  import opened Base
  import opened Delta
  import opened MVHashMap
  import opened Machine
  import opened Replay

  /******* Collecting outputs *******/

  /** The outputs of a block, `None` being the output of a skipped transaction, or its error. */
  datatype Collected = Final(outs: seq<Option<Output>>) | Failed(error: nat)

  /** No transaction before `i` skips the rest or aborts. */
  predicate Reached(outcomes: seq<Outcome>, i: nat)
  {
    forall j :: 0 <= j < i && j < |outcomes| ==> outcomes[j].Success?
  }

  /** The outputs up to the first reconfiguration, or the first error before any. */
  ghost predicate IsCollected(outcomes: seq<Outcome>, c: Collected)
  {
    match c
    case Failed(error) => exists i :: 0 <= i < |outcomes| && Reached(outcomes, i) && outcomes[i] == Abort(error)
    case Final(outs) =>
      && (forall i :: 0 <= i < |outcomes| && Reached(outcomes, i) ==> !outcomes[i].Abort?)
      && |outs| == |outcomes|
      && forall i :: 0 <= i < |outcomes| ==> outs[i] == if Reached(outcomes, i) then Some(outcomes[i].output) else None
  }

  method Collect(outcomes: seq<Outcome>) returns (r: Collected)
    ensures IsCollected(outcomes, r)
  {
    var outs: seq<Option<Output>> := [];
    var idx := 0;
    while idx < |outcomes|
      invariant 0 <= idx <= |outcomes| && |outs| == idx && Reached(outcomes, idx)
      invariant forall i :: 0 <= i < idx ==> outs[i] == Some(outcomes[i].output)
    {
      match outcomes[idx] {
        case Success(t) => outs := outs + [Some(t)];
        case SkipRest(t) =>
          outs := outs + [Some(t)];
          break;
        case Abort(error) => return Failed(error);
      }
      idx := idx + 1;
    }
    assert forall i :: idx < i < |outcomes| ==> !Reached(outcomes, i);
    while |outs| < |outcomes|
      invariant idx <= |outs| <= |outcomes| && (idx < |outcomes| ==> idx < |outs|)
      invariant forall i :: 0 <= i < |outs| ==>
                  (Reached(outcomes, i) ==> !outcomes[i].Abort?) &&
                  outs[i] == if Reached(outcomes, i) then Some(outcomes[i].output) else None
    {
      outs := outs + [None];
    }
    r := Final(outs);
  }

  /******* Resolving deltas *******/

  datatype Resolved = Panics | Rows(rows: seq<seq<(Key, WriteOp)>>)

  /** The write that the delta of transaction `idx`, if any, amounts to. */
  function DeltaWrite(tree: Tree, stored: Option<u128>, idx: nat): Option<WriteOp>
  {
    if idx in tree && tree[idx].cell.Delta? then
      match Fold(tree, stored, idx + 1)
      case Val(Some(value)) => Some(Modification(value))
      case _ => None
    else None
  }

  /** A write as a row of its own. */
  function RowPart(key: Key, write: Option<WriteOp>): seq<(Key, WriteOp)>
  {
    if write.None? then [] else [(key, write.value)]
  }

  /** The writes of transaction `idx` for the first `m` keys. */
  function Row(data: Data, keys: seq<(Key, Option<u128>)>, m: nat, idx: nat): seq<(Key, WriteOp)>
    requires m <= |keys|
  {
    if m == 0 then []
    else Row(data, keys, m - 1, idx) + RowPart(keys[m - 1].0,
        DeltaWrite(TreeOf(data, keys[m - 1].0), keys[m - 1].1, idx))
  }

  /** Some delta of the key fails to apply, whether or not its transaction is kept. */
  ghost predicate SomeDeltaFails(tree: Tree, stored: Option<u128>, n: nat)
  {
    exists idx :: 0 <= idx < n && DeltaFails(tree, stored, idx)
  }

  predicate DeltaFails(tree: Tree, stored: Option<u128>, idx: nat)
  {
    idx in tree && tree[idx].cell.Delta? && Fold(tree, stored, idx + 1).Fail?
  }

  /** In the replay of the column, a delta fails exactly if there is no value for it, or one that it
      does not fit; and otherwise its write is a modification to the value shifted by it. */
  lemma DeltaMeaning(tree: Tree, stored: Option<u128>, vals: seq<Folded>, n: nat, idx: nat)
    requires IsReplay(tree, stored, vals, n) && idx < n && idx in tree && tree[idx].cell.Delta?
    ensures var delta := tree[idx].cell.delta;
            match vals[idx]
            case Val(Some(x)) =>
              && (DeltaFails(tree, stored, idx) <==> !Admits(delta, x))
              && (Admits(delta, x) ==> DeltaWrite(tree, stored, idx) == Some(Modification(x + Net(delta))))
            case _ => DeltaFails(tree, stored, idx)
  {
    ReplayIsFold(tree, stored, vals, n, idx);
    ReplayIsFold(tree, stored, vals, n, idx + 1);
    assert Continues(tree, vals, idx);
  }

  predicate Repeats(keys: seq<(Key, Option<u128>)>, m: nat)
    requires m < |keys|
  {
    exists l :: 0 <= l < m && keys[l].0 == keys[m].0
  }

  ghost predicate KeyPanics(data: Data, keys: seq<(Key, Option<u128>)>, m: nat, n: nat)
    requires m < |keys|
  {
    keys[m].0 !in data || Repeats(keys, m) || SomeDeltaFails(TreeOf(data, keys[m].0), keys[m].1, n)
  }

  /** Entries are below the block size. */
  ghost predicate Within(data: Data, n: nat)
  {
    forall k, i: nat :: i >= n ==> EntryAt(data, k, i).None?
  }

  /** The loop over the entries of one key. */
  method ResolveKey(key: Key, tree: Tree, stored: Option<u128>, n: nat,
                    rows: seq<seq<(Key, WriteOp)>>) returns (r: Resolved)
    requires |rows| == n
    ensures r.Panics? <==> SomeDeltaFails(tree, stored, n)
    ensures r.Rows? ==> |r.rows| == n && forall idx :: 0 <= idx < n ==>
            r.rows[idx] == rows[idx] + RowPart(key, DeltaWrite(tree, stored, idx))
  {
    var ret := rows;
    var latest := stored;
    for i := 0 to n
      invariant |ret| == n && Fold(tree, stored, i) == Val(latest)
      invariant forall idx :: 0 <= idx < i ==> !DeltaFails(tree, stored, idx)
      invariant forall idx :: 0 <= idx < i ==> ret[idx] == rows[idx] + RowPart(key, DeltaWrite(tree, stored, idx))
      invariant forall idx :: i <= idx < n ==> ret[idx] == rows[idx]
    {
      if i in tree {
        match tree[i].cell {
          case Write(_, op) => latest := OpValue(op);
          case Delta(delta) =>
            if latest.None? || ApplyTo(delta, latest.value).Err? {
              assert DeltaFails(tree, stored, i);
              return Panics;
            }
            latest := Some(ApplyTo(delta, latest.value).value);
            ret := ret[i := ret[i] + [(key, Modification(latest.value))]];
        }
      }
    }
    r := Rows(ret);
  }

  method Resolve(data: Data, keys: seq<(Key, Option<u128>)>, n: nat) returns (r: Resolved)
    requires Within(data, n)
    ensures r.Panics? <==> exists m :: 0 <= m < |keys| && KeyPanics(data, keys, m, n)
    ensures r.Rows? ==> |r.rows| == n && forall idx :: 0 <= idx < n ==> r.rows[idx] == Row(data, keys, |keys|, idx)
  {
    var ret: seq<seq<(Key, WriteOp)>> := seq(n, _ => []);
    var rest := data;
    for m := 0 to |keys|
      invariant |ret| == n && forall idx :: 0 <= idx < n ==> ret[idx] == Row(data, keys, m, idx)
      invariant forall l :: 0 <= l < m ==> !KeyPanics(data, keys, l, n)
      invariant forall k :: k in rest <==> k in data && forall l :: 0 <= l < m ==> keys[l].0 != k
      invariant forall k :: k in rest ==> rest[k] == data[k]
    {
      var (key, stored) := keys[m];
      if key !in rest {
        assert KeyPanics(data, keys, m, n);
        return Panics;
      }
      var tree := rest[key];
      rest := rest - {key};
      var resolved := ResolveKey(key, tree, stored, n, ret);
      if resolved.Panics? {
        assert KeyPanics(data, keys, m, n);
        return Panics;
      }
      ret := resolved.rows;
    }
    r := Rows(ret);
  }
}
