/** The multi-version data structure: per key, the entries that transactions have written, by
    transaction index.  The first part is the specification on values, the class at the end
    changes such a value in place. */
module MVHashMap {
  import opened Base
  import opened Delta

  /** Payloads are modelled as 128-bit integers. */
  datatype WriteOp = Creation(data: u128) | Modification(data: u128) | Deletion

  function OpValue(op: WriteOp): Option<u128>
  {
    if op.Deletion? then None else Some(op.data)
  }

  datatype EntryCell = Write(inc: nat, op: WriteOp) | Delta(delta: DeltaOp)

  /** `estimate` is the flag of the entry: ESTIMATE when set, DONE otherwise. */
  datatype Entry = Entry(estimate: bool, cell: EntryCell)

  type Tree = map<nat, Entry>
  type Data = map<Key, Tree>

  datatype ReadOutcome =
    | Version(txn: nat, inc: nat, op: WriteOp)
    | Resolved(value: u128)
    | NotFound
    | Unresolved(delta: DeltaOp)
    | Dependency(dep: nat)
    | DeltaApplicationFailure

  function TreeOf(data: Data, key: Key): Tree
  {
    if key in data then data[key] else map[]
  }

  function EntryAt(data: Data, key: Key, txn: nat): Option<Entry>
  {
    if txn in TreeOf(data, key) then Some(TreeOf(data, key)[txn]) else None
  }

  function Insert(data: Data, key: Key, txn: nat, entry: Entry): (r: Data)
    ensures forall k, i :: EntryAt(r, k, i) == if k == key && i == txn then Some(entry) else EntryAt(data, k, i)
  {
    data[key := TreeOf(data, key)[txn := entry]]
  }

  /** What `mark_estimate` does to an entry that is there. */
  function Marked(data: Data, key: Key, txn: nat): (r: Data)
    requires EntryAt(data, key, txn).Some?
    ensures forall k, i :: EntryAt(r, k, i) ==
                           if k == key && i == txn then Some(EntryAt(data, k, i).value.(estimate := true))
                               else EntryAt(data, k, i)
  {
    Insert(data, key, txn, EntryAt(data, key, txn).value.(estimate := true))
  }

  function Deleted(data: Data, key: Key, txn: nat): (r: Data)
    requires key in data
    ensures forall k, i :: EntryAt(r, k, i) == if k == key && i == txn then None else EntryAt(data, k, i)
  {
    data[key := data[key] - {txn}]
  }

  /** The downward walk over the entries below `i`, with the deltas met so far merged in `acc`. */
  function ReadDown(tree: Tree, i: nat, acc: Option<DeltaOp>): ReadOutcome
    decreases i
  {
    if i == 0 then
      if acc.None? then NotFound else Unresolved(acc.value)
    else if i - 1 !in tree then
      ReadDown(tree, i - 1, acc)
    else if tree[i - 1].estimate then
      Dependency(i - 1)
    else
      match (tree[i - 1].cell, acc)
      case (Write(inc, op), None) => Version(i - 1, inc, op)
      case (Write(inc, op), Some(d)) =>
        (match OpValue(op)
         case None => Version(i - 1, inc, op)
         case Some(value) =>
           match ApplyTo(d, value)
           case Ok(result) => Resolved(result)
           case Err(_) => DeltaApplicationFailure)
      case (Delta(delta), Some(d)) =>
        (match MergeOnto(d, delta)
         case Ok(merged) => ReadDown(tree, i - 1, Some(merged))
         case Err(_) => DeltaApplicationFailure)
      case (Delta(delta), None) => ReadDown(tree, i - 1, Some(delta))
  }

  /** What transaction `txn` reads at `key`. */
  function Read(data: Data, key: Key, txn: nat): ReadOutcome
  {
    ReadDown(TreeOf(data, key), txn, None)
  }

  /******* What a read depends on *******/

  lemma {:induction false} ReadDownLocal(t: Tree, u: Tree, i: nat, acc: Option<DeltaOp>)
    requires forall j: nat :: j < i ==> (j in t <==> j in u) && (j in t ==> t[j] == u[j])
    ensures ReadDown(t, i, acc) == ReadDown(u, i, acc)
    decreases i
  {
    if i == 0 {
    } else {
      if i - 1 !in t {
        ReadDownLocal(t, u, i - 1, acc);
      } else if t[i - 1].cell.Delta? {
        var delta := t[i - 1].cell.delta;
        if acc.None? {
          ReadDownLocal(t, u, i - 1, Some(delta));
        } else if MergeOnto(acc.value, delta).Ok? {
          ReadDownLocal(t, u, i - 1, Some(MergeOnto(acc.value, delta).value));
        }
      }
    }
  }

  /** A walk that meets no estimate does not depend on what an estimate stands for. */
  lemma {:induction false} ReadDownPastEstimate(t: Tree, u: Tree, i: nat, acc: Option<DeltaOp>, x: nat)
    requires x in t && t[x].estimate
    requires forall j: nat :: j != x ==> (j in t <==> j in u) && (j in t ==> t[j] == u[j])
    requires !ReadDown(t, i, acc).Dependency?
    ensures ReadDown(t, i, acc) == ReadDown(u, i, acc)
    decreases i
  {
    if i == 0 {
    } else {
      if i - 1 !in t {
        ReadDownPastEstimate(t, u, i - 1, acc, x);
      } else if t[i - 1].cell.Delta? {
        var delta := t[i - 1].cell.delta;
        if acc.None? {
          ReadDownPastEstimate(t, u, i - 1, Some(delta), x);
        } else if MergeOnto(acc.value, delta).Ok? {
          ReadDownPastEstimate(t, u, i - 1, Some(MergeOnto(acc.value, delta).value), x);
        }
      }
    }
  }

  /** A dependency is an estimate of a lower transaction. */
  lemma {:induction false} DependencyIsEstimate(t: Tree, i: nat, acc: Option<DeltaOp>)
    ensures var r := ReadDown(t, i, acc);
            r.Dependency? ==> r.dep < i && r.dep in t && t[r.dep].estimate
    decreases i
  {
    if i == 0 {
    } else {
      if i - 1 !in t {
        DependencyIsEstimate(t, i - 1, acc);
      } else if t[i - 1].cell.Delta? {
        var delta := t[i - 1].cell.delta;
        if acc.None? {
          DependencyIsEstimate(t, i - 1, Some(delta));
        } else if MergeOnto(acc.value, delta).Ok? {
          DependencyIsEstimate(t, i - 1, Some(MergeOnto(acc.value, delta).value));
        }
      }
    }
  }

  /******* What a read finds *******/

  /** Between `j` and `i` the column has no entry. */
  predicate NoneBetween(tree: Tree, j: nat, i: nat)
  {
    forall x :: j < x < i ==> x !in tree
  }

  /** The walk goes down to the nearest entry. */
  lemma {:induction false} WalkSkips(tree: Tree, j: nat, i: nat, acc: Option<DeltaOp>)
    requires j < i && NoneBetween(tree, j, i)
    ensures ReadDown(tree, i, acc) == ReadDown(tree, j + 1, acc)
    decreases i
  {
    if i == j + 1 {
    } else {
      WalkSkips(tree, j, i - 1, acc);
    }
  }

  lemma {:induction false} WalkToBottom(tree: Tree, i: nat, acc: Option<DeltaOp>)
    requires forall x :: 0 <= x < i ==> x !in tree
    ensures ReadDown(tree, i, acc) == if acc.None? then NotFound else Unresolved(acc.value)
    decreases i
  {
    if i == 0 {
    } else {
      WalkToBottom(tree, i - 1, acc);
    }
  }

  /** A nearest entry that is an estimate is a dependency. */
  lemma EstimateIsDependency(tree: Tree, j: nat, i: nat)
    requires j < i && NoneBetween(tree, j, i) && j in tree && tree[j].estimate
    ensures ReadDown(tree, i, None) == Dependency(j)
  {
    WalkSkips(tree, j, i, None);
  }

  /** A nearest entry that is a write is read with its version. */
  lemma NearestWriteIsRead(tree: Tree, j: nat, i: nat)
    requires j < i && NoneBetween(tree, j, i) && j in tree && !tree[j].estimate && tree[j].cell.Write?
    ensures ReadDown(tree, i, None) == Version(j, tree[j].cell.inc, tree[j].cell.op)
  {
    WalkSkips(tree, j, i, None);
  }

  /** A delta over a created or modified value resolves to the shifted value exactly if its history
      and the result fit; over a deletion, the deletion is read. */
  lemma DeltaOverWrite(tree: Tree, w: nat, j: nat, i: nat)
    requires w < j < i && NoneBetween(tree, w, j) && NoneBetween(tree, j, i) && w in tree && j in tree
    requires !tree[w].estimate && !tree[j].estimate && tree[w].cell.Write? && tree[j].cell.Delta?
    ensures var r, delta := ReadDown(tree, i, None), tree[j].cell.delta;
            match tree[w].cell.op
            case Creation(d) =>
              r == if Admits(delta, d) then Resolved(d + Net(delta)) else DeltaApplicationFailure
            case Modification(d) =>
              r == if Admits(delta, d) then Resolved(d + Net(delta)) else DeltaApplicationFailure
            case Deletion => r == Version(w, tree[w].cell.inc, Deletion)
  {
    var delta := tree[j].cell.delta;
    WalkSkips(tree, j, i, None);
    assert ReadDown(tree, j + 1, None) == ReadDown(tree, j, Some(delta));
    WalkSkips(tree, w, j, Some(delta));
    match tree[w].cell.op
    case Creation(d) => ApplyToMeaning(delta, d);
    case Modification(d) => ApplyToMeaning(delta, d);
    case Deletion =>
  }

  /** The walk on top of a delta: a failure exactly if the deltas met so far cannot be merged onto
      it, and otherwise the walk below it with their merge. */
  lemma WalkOverDelta(tree: Tree, j: nat, i: nat, acc: DeltaOp)
    requires j < i && NoneBetween(tree, j, i) && j in tree && !tree[j].estimate && tree[j].cell.Delta?
    ensures var r, delta := ReadDown(tree, i, Some(acc)), tree[j].cell.delta;
            if CannotMerge(acc, delta) then r == DeltaApplicationFailure
            else exists m :: IsMerge(m, delta, acc) && r == ReadDown(tree, j, Some(m))
  {
    WalkSkips(tree, j, i, Some(acc));
    MergeFailure(acc, tree[j].cell.delta);
    if MergeOnto(acc, tree[j].cell.delta).Ok? { MergeMeaning(acc, tree[j].cell.delta); }
  }

  /** Two deltas and no write: a failure exactly if they cannot be merged, and otherwise their
      merge, to be applied to what is stored. */
  lemma TwoDeltas(tree: Tree, x: nat, j: nat, i: nat)
    requires x < j < i && NoneBetween(tree, x, j) && NoneBetween(tree, j, i) && x in tree && j in tree
    requires !tree[x].estimate && !tree[j].estimate && tree[x].cell.Delta? && tree[j].cell.Delta?
    requires forall y :: 0 <= y < x ==> y !in tree
    ensures var r, earlier, later := ReadDown(tree, i, None), tree[x].cell.delta, tree[j].cell.delta;
            if CannotMerge(later, earlier) then r == DeltaApplicationFailure
            else r.Unresolved? && IsMerge(r.delta, earlier, later)
  {
    var later := tree[j].cell.delta;
    WalkSkips(tree, j, i, None);
    assert ReadDown(tree, j + 1, None) == ReadDown(tree, j, Some(later));
    WalkOverDelta(tree, x, j, later);
    if !CannotMerge(later, tree[x].cell.delta) {
      var m :| IsMerge(m, tree[x].cell.delta, later) && ReadDown(tree, j, Some(later)) == ReadDown(tree, x, Some(m));
      WalkToBottom(tree, x, Some(m));
    }
  }

  /******* The map, changed in place *******/

  class MVHashMap {
    var data: Data

    constructor ()
      ensures data == map[]
    {
      data := map[];
    }

    /** Fails its assertion when the entry already holds a write of this or a later incarnation. */
    method AddWrite(key: Key, txn: nat, inc: nat, op: WriteOp) returns (asserted: bool)
      modifies this
      ensures data == Insert(old(data), key, txn, Entry(false, Write(inc, op)))
      ensures asserted <==> var previous := EntryAt(old(data), key, txn);
                            previous.Some? && previous.value.cell.Write? ==> previous.value.cell.inc < inc
    {
      if key !in data { data := data[key := map[]]; }
      var tree := data[key];
      asserted := !(txn in tree && tree[txn].cell.Write? && tree[txn].cell.inc >= inc);
      data := data[key := tree[txn := Entry(false, Write(inc, op))]];
    }

    method AddDelta(key: Key, txn: nat, delta: DeltaOp)
      modifies this
      ensures data == Insert(old(data), key, txn, Entry(false, EntryCell.Delta(delta)))
    {
      if key !in data { data := data[key := map[]]; }
      var tree := data[key];
      data := data[key := tree[txn := Entry(false, EntryCell.Delta(delta))]];
    }

    /** Fails its expectation when there is no such entry. */
    method MarkEstimate(key: Key, txn: nat) returns (found: bool)
      modifies this
      ensures found <==> EntryAt(old(data), key, txn).Some?
      ensures data == if found then Marked(old(data), key, txn) else old(data)
    {
      found := key in data && txn in data[key];
      if found {
        var tree := data[key];
        data := data[key := tree[txn := tree[txn].(estimate := true)]];
      }
    }

    /** Fails its expectation when nothing has ever been written at the key. */
    method Delete(key: Key, txn: nat) returns (found: bool)
      modifies this
      ensures found <==> key in old(data)
      ensures data == if found then Deleted(old(data), key, txn) else old(data)
    {
      found := key in data;
      if found { data := data[key := data[key] - {txn}]; }
    }

    /** The downward traversal with its accumulator. */
    method ReadAt(key: Key, txn: nat) returns (r: ReadOutcome)
      ensures r == Read(data, key, txn)
    {
      if key !in data {
        EmptyColumn(txn);
        return NotFound;
      }
      var tree := data[key];
      var accumulator: Option<DeltaOp> := None;
      var i := txn;
      while i > 0
        invariant 0 <= i <= txn
        invariant ReadDown(tree, txn, None) == ReadDown(tree, i, accumulator)
      {
        i := i - 1;
        if i in tree {
          if tree[i].estimate { return Dependency(i); }
          match (tree[i].cell, accumulator) {
            case (Write(inc, op), None) => return Version(i, inc, op);
            case (Write(inc, op), Some(acc)) =>
              if op.Deletion? { return Version(i, inc, op); }
              var applied := ApplyTo(acc, op.data);
              return if applied.Ok? then Resolved(applied.value) else DeltaApplicationFailure;
            case (Delta(delta), Some(acc)) =>
              var merged := MergeOnto(acc, delta);
              if merged.Err? { return DeltaApplicationFailure; }
              accumulator := Some(merged.value);
            case (Delta(delta), None) => accumulator := Some(delta);
          }
        }
      }
      r := if accumulator.Some? then Unresolved(accumulator.value) else NotFound;
    }
  }

  lemma {:induction false} EmptyColumn(i: nat)
    ensures ReadDown(map[], i, None) == NotFound
  {
    if i == 0 {
    } else {
      EmptyColumn(i - 1);
    }
  }
}
