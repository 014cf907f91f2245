/** The plain meaning of a key's entries: replay them from the bottom up.  Reading the
    multi-version map downwards, merging deltas on the way, agrees with it. */
module Replay {
  import opened Base
  import opened Delta
  import opened MVHashMap
  import opened Machine

  datatype Folded = Val(value: Option<u128>) | Fail

  /** One entry replayed on top of what is below it. */
  function ReplayCell(below: Folded, cell: EntryCell): Folded
  {
    match cell
    case Write(_, op) => Val(OpValue(op))
    case Delta(delta) => ReplayDelta(below, delta)
  }

  function ReplayDelta(below: Folded, delta: DeltaOp): Folded
  {
    if below.Fail? || below.value.None? then Fail
    else match ApplyTo(delta, below.value.value)
         case Ok(value) => Val(Some(value))
         case Err(_) => Fail
  }

  /** The value at a key after all transactions below `i`, from the value in storage. */
  function Fold(tree: Tree, stored: Option<u128>, i: nat): Folded
  {
    if i == 0 then Val(stored)
    else if i - 1 !in tree then Fold(tree, stored, i - 1)
    else ReplayCell(Fold(tree, stored, i - 1), tree[i - 1].cell)
  }

  /******* The replay, entry by entry *******/

  /** What comes of one more entry: the written value, none after a deletion, and after a delta the
      shifted value, if there is one to shift and the history and the result fit. */
  ghost predicate Continues(tree: Tree, vals: seq<Folded>, j: nat)
    requires j + 1 < |vals|
  {
    if j !in tree then vals[j + 1] == vals[j]
    else
      match tree[j].cell
      case Write(_, Creation(d)) => vals[j + 1] == Val(Some(d))
      case Write(_, Modification(d)) => vals[j + 1] == Val(Some(d))
      case Write(_, Deletion) => vals[j + 1] == Val(None)
      case Delta(delta) =>
        match vals[j]
        case Val(Some(x)) => vals[j + 1] == if Admits(delta, x) then Val(Some(x + Net(delta))) else Fail
        case _ => vals[j + 1] == Fail
  }

  /** `vals[j]` is what the entries below `j` make of the stored value. */
  ghost predicate IsReplay(tree: Tree, stored: Option<u128>, vals: seq<Folded>, i: nat)
  {
    |vals| == i + 1 && vals[0] == Val(stored) && forall j :: 0 <= j < i ==> Continues(tree, vals, j)
  }

  lemma {:induction false} ReplayIsFold(tree: Tree, stored: Option<u128>, vals: seq<Folded>, i: nat, j: nat)
    requires IsReplay(tree, stored, vals, i) && j <= i
    ensures vals[j] == Fold(tree, stored, j)
  {
    if j == 0 {
    } else {
      ReplayIsFold(tree, stored, vals, i, j - 1);
      assert Continues(tree, vals, j - 1);
      if j - 1 in tree && tree[j - 1].cell.Delta? && vals[j - 1].Val? && vals[j - 1].value.Some? {
        ApplyToMeaning(tree[j - 1].cell.delta, vals[j - 1].value.value);
      }
    }
  }

  /** Every column has one replay. */
  lemma ReplayExists(tree: Tree, stored: Option<u128>, i: nat) returns (vals: seq<Folded>)
    ensures IsReplay(tree, stored, vals, i)
    ensures forall vals' :: IsReplay(tree, stored, vals', i) ==> vals' == vals
  {
    vals := seq(i + 1, j requires 0 <= j <= i => Fold(tree, stored, j));
    forall j | 0 <= j < i ensures Continues(tree, vals, j) {
      if j in tree && tree[j].cell.Delta? && vals[j].Val? && vals[j].value.Some? {
        ApplyToMeaning(tree[j].cell.delta, vals[j].value.value);
      }
    }
    forall vals' | IsReplay(tree, stored, vals', i) ensures vals' == vals {
      forall j | 0 <= j <= i ensures vals'[j] == vals[j] { ReplayIsFold(tree, stored, vals', i, j); }
    }
  }

  /** What a transaction sees of a read. */
  lemma ViewMeaning(r: ReadOutcome, stored: Option<u128>)
    requires !r.Dependency?
    ensures var seen := ViewOf(r, stored);
            match r
            case Version(_, _, Creation(d)) => seen == Bytes(Some(d))
            case Version(_, _, Modification(d)) => seen == Bytes(Some(d))
            case Version(_, _, Deletion) => seen == Bytes(None)
            case Resolved(value) => seen == Bytes(Some(value))
            case NotFound => seen == Bytes(stored)
            case Unresolved(delta) => (
              match stored
              case Some(x) =>
                if Admits(delta, x) then seen == Bytes(Some(x + Net(delta)))
                else seen == ReadError(0x02_0001) || seen == ReadError(0x02_0002)
              case None => seen == ReadError(STORAGE_ERROR))
            case DeltaApplicationFailure => seen == Bytes(Some(0))
  {
    if r.Unresolved? && stored.Some? {
      ApplyToMeaning(r.delta, stored.value);
      ApplyToError(r.delta, stored.value);
    }
  }

  /** A transaction above a write sees what was written, a created value included. */
  lemma WriteIsSeen(tree: Tree, stored: Option<u128>, j: nat, i: nat)
    requires j < i && NoneBetween(tree, j, i) && j in tree && !tree[j].estimate && tree[j].cell.Write?
    ensures !ReadDown(tree, i, None).Dependency?
    ensures var seen := ViewOf(ReadDown(tree, i, None), stored);
            match tree[j].cell.op
            case Creation(d) => seen == Bytes(Some(d))
            case Modification(d) => seen == Bytes(Some(d))
            case Deletion => seen == Bytes(None)
  {
    NearestWriteIsRead(tree, j, i);
  }

  ghost predicate Clean(tree: Tree, i: nat)
  {
    forall j :: 0 <= j < i && j in tree ==> !tree[j].estimate
  }

  ghost predicate OneLimit(tree: Tree, i: nat, limit: u128)
  {
    forall j :: 0 <= j < i && j in tree && tree[j].cell.Delta? ==> tree[j].cell.delta.limit == limit
  }

  /** Replaying a merged delta is replaying the two deltas; a failed merge fails everywhere. */
  lemma ReplayMerged(below: Folded, earlier: DeltaOp, later: DeltaOp)
    requires earlier.limit == later.limit
    ensures match MergeOnto(later, earlier)
            case Ok(merged) => ReplayDelta(ReplayDelta(below, earlier), later) == ReplayDelta(below, merged)
            case Err(_) => ReplayDelta(ReplayDelta(below, earlier), later) == Fail
  {
    if below.Val? && below.value.Some? { ExactComposition(earlier, later, below.value.value); }
  }

  /** What a walk that has merged the deltas above `i` into `acc` says about the replay. */
  ghost predicate WalkMeans(r: ReadOutcome, stored: Option<u128>, replayed: Folded)
  {
    match r
    case Resolved(value) => replayed == Val(Some(value))
    case DeltaApplicationFailure => replayed == Fail
    case Version(_, _, op) => op.Deletion? && replayed == Fail
    case Unresolved(delta) => replayed == ReplayDelta(Val(stored), delta)
    case NotFound => false
    case Dependency(_) => false
  }

  lemma {:induction false} WalkReplays(tree: Tree, stored: Option<u128>, i: nat, acc: DeltaOp)
    requires Clean(tree, i) && OneLimit(tree, i, acc.limit)
    ensures WalkMeans(ReadDown(tree, i, Some(acc)), stored, ReplayDelta(Fold(tree, stored, i), acc))
    decreases i
  {
    if i == 0 {
    } else {
      if i - 1 !in tree {
        WalkReplays(tree, stored, i - 1, acc);
      } else if tree[i - 1].cell.Delta? {
        var delta := tree[i - 1].cell.delta;
        ReplayMerged(Fold(tree, stored, i - 1), delta, acc);
        if MergeOnto(acc, delta).Ok? {
          MergeMeaning(acc, delta);
          WalkReplays(tree, stored, i - 1, MergeOnto(acc, delta).value);
        }
      }
    }
  }

  /** The entry closest below `i`, if any. */
  function Top(tree: Tree, i: nat): (r: Option<nat>)
    ensures r.Some? ==> r.value < i && r.value in tree && forall j :: r.value < j < i ==> j !in tree
    ensures r.None? ==> forall j :: 0 <= j < i ==> j !in tree
  {
    if i == 0 then None else if i - 1 in tree then Some(i - 1) else Top(tree, i - 1)
  }

  /** The write closest below `i`, if any. */
  function NearestWrite(tree: Tree, i: nat): Option<WriteOp>
  {
    if i == 0 then None
    else if i - 1 in tree && tree[i - 1].cell.Write? then Some(tree[i - 1].cell.op)
    else NearestWrite(tree, i - 1)
  }

  /** Reading agrees with replaying, on every base: a value where the replay has one, and where the
      replay fails an application failure, an error at the base, or the deletion underneath. */
  lemma {:induction false} ReadReplays(tree: Tree, stored: Option<u128>, i: nat, limit: u128)
    requires Clean(tree, i) && OneLimit(tree, i, limit)
    ensures var r, replayed := ReadDown(tree, i, None), Fold(tree, stored, i);
            && !r.Dependency?
            && (replayed.Val? ==> ViewOf(r, stored) == Bytes(replayed.value))
            && (replayed.Fail? ==>
                  || r.DeltaApplicationFailure?
                  || (r.Unresolved? && ViewOf(r, stored).ReadError?)
                  || (r.Version? && r.op.Deletion?))
    decreases i
  {
    if i == 0 {
    } else {
      if i - 1 !in tree {
        ReadReplays(tree, stored, i - 1, limit);
      } else if tree[i - 1].cell.Delta? {
        WalkReplays(tree, stored, i - 1, tree[i - 1].cell.delta);
      }
    }
  }

  /** The same against the replay entry by entry. */
  lemma ReadIsReplay(tree: Tree, stored: Option<u128>, vals: seq<Folded>, i: nat, limit: u128)
    requires Clean(tree, i) && OneLimit(tree, i, limit) && IsReplay(tree, stored, vals, i)
    ensures var r := ReadDown(tree, i, None);
            && !r.Dependency?
            && match vals[i]
               case Val(value) => ViewOf(r, stored) == Bytes(value)
               case Fail =>
                 || r.DeltaApplicationFailure?
                 || (r.Unresolved? && ViewOf(r, stored).ReadError?)
                 || (r.Version? && r.op == Deletion)
  {
    ReplayIsFold(tree, stored, vals, i, i);
    ReadReplays(tree, stored, i, limit);
  }

  /** With deltas on top of a written value, a read resolves exactly when the replay succeeds. */
  lemma {:induction false} ReadOfDeltas(tree: Tree, stored: Option<u128>, i: nat, limit: u128)
    requires Clean(tree, i) && OneLimit(tree, i, limit)
    requires Top(tree, i).Some? && tree[Top(tree, i).value].cell.Delta?
    requires NearestWrite(tree, i).Some? && !NearestWrite(tree, i).value.Deletion?
    ensures var r, replayed := ReadDown(tree, i, None), Fold(tree, stored, i);
            && (forall x :: r == Resolved(x) <==> replayed == Val(Some(x)))
            && (r == DeltaApplicationFailure <==> replayed == Fail)
    decreases i
  {
    if i - 1 !in tree {
      ReadOfDeltas(tree, stored, i - 1, limit);
    } else {
      WalkReplays(tree, stored, i - 1, tree[i - 1].cell.delta);
      WalkMeetsWrite(tree, i - 1, tree[i - 1].cell.delta);
    }
  }

  lemma {:induction false} WalkMeetsWrite(tree: Tree, i: nat, acc: DeltaOp)
    requires Clean(tree, i)
    requires NearestWrite(tree, i).Some? && !NearestWrite(tree, i).value.Deletion?
    ensures ReadDown(tree, i, Some(acc)).Resolved? || ReadDown(tree, i, Some(acc)).DeltaApplicationFailure?
    decreases i
  {
    if i - 1 !in tree {
      WalkMeetsWrite(tree, i - 1, acc);
    } else if tree[i - 1].cell.Delta? && MergeOnto(acc, tree[i - 1].cell.delta).Ok? {
      WalkMeetsWrite(tree, i - 1, MergeOnto(acc, tree[i - 1].cell.delta).value);
    }
  }

  /** With deltas and no write, a read that does not fail is one delta that replays the column on
      any stored value; one that fails does so because the replay fails on every stored value. */
  lemma {:induction false} ReadWithoutWrite(tree: Tree, stored: Option<u128>, i: nat, limit: u128)
    requires Clean(tree, i) && OneLimit(tree, i, limit)
    requires Top(tree, i).Some? && NearestWrite(tree, i).None?
    ensures match ReadDown(tree, i, None)
            case Unresolved(delta) => Fold(tree, stored, i) == ReplayDelta(Val(stored), delta)
            case DeltaApplicationFailure => Fold(tree, stored, i) == Fail
            case _ => false
    decreases i
  {
    if i - 1 !in tree {
      ReadWithoutWrite(tree, stored, i - 1, limit);
    } else {
      WalkReplays(tree, stored, i - 1, tree[i - 1].cell.delta);
      WalkMeetsNoWrite(tree, i - 1, tree[i - 1].cell.delta);
    }
  }

  lemma {:induction false} WalkMeetsNoWrite(tree: Tree, i: nat, acc: DeltaOp)
    requires Clean(tree, i) && NearestWrite(tree, i).None?
    ensures ReadDown(tree, i, Some(acc)).Unresolved? || ReadDown(tree, i, Some(acc)).DeltaApplicationFailure?
    decreases i
  {
    if i == 0 {
    } else {
      if i - 1 !in tree {
        WalkMeetsNoWrite(tree, i - 1, acc);
      } else if MergeOnto(acc, tree[i - 1].cell.delta).Ok? {
        WalkMeetsNoWrite(tree, i - 1, MergeOnto(acc, tree[i - 1].cell.delta).value);
      }
    }
  }
}
