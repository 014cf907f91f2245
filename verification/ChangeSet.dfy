/** Change sets with writes and deltas, and squashing two of them into one. */
module ChangeSet {
  import opened Base
  import opened Delta
  import opened MVHashMap

  datatype ChangeSetExt = ChangeSetExt(deltas: map<Key, DeltaOp>, writes: map<Key, WriteOp>)

  /** No key has both a write and a delta. */
  predicate Separate(c: ChangeSetExt)
  {
    c.deltas.Keys !! c.writes.Keys
  }

  const ENOT_SQUASHABLE: nat := 1
  const EALREADY_DELETED: nat := 2

  /** What a change set has for one key. */
  datatype Slot = Empty | Written(op: WriteOp) | Changed(delta: DeltaOp)

  function SlotOf(c: ChangeSetExt, k: Key): Slot
  {
    if k in c.writes then Written(c.writes[k]) else if k in c.deltas then Changed(c.deltas[k]) else Empty
  }

  /******* Squashing, key by key *******/

  function SquashWrite(a: Slot, op: WriteOp): Result<Slot>
  {
    if !a.Written? then Ok(Written(op))
    else match (a.op, op)
         case (Modification(_), Modification(data)) => Ok(Written(Modification(data)))
         case (Creation(_), Modification(data)) => Ok(Written(Creation(data)))
         case (Modification(_), Deletion) => Ok(Written(Deletion))
         case (Deletion, Creation(data)) => Ok(Written(Modification(data)))
         case (Creation(_), Deletion) => Ok(Empty)
         case _ => Err(ENOT_SQUASHABLE)
  }

  function SquashDelta(a: Slot, delta: DeltaOp): Result<Slot>
  {
    match a
    case Empty => Ok(Changed(delta))
    case Changed(earlier) => (var merged :- MergeOnto(delta, earlier); Ok(Changed(merged)))
    case Written(Creation(data)) => (var value :- ApplyTo(delta, data); Ok(Written(Creation(value))))
    case Written(Modification(data)) => (var value :- ApplyTo(delta, data); Ok(Written(Modification(value))))
    case Written(Deletion) => Err(EALREADY_DELETED)
  }

  function SquashSlot(a: Slot, b: Slot): Result<Slot>
  {
    match b
    case Empty => Ok(a)
    case Written(op) => SquashWrite(a, op)
    case Changed(delta) => SquashDelta(a, delta)
  }

  /** Which slots cannot be squashed: what is there already created again, what is deleted modified
      or deleted again, a delta on a deleted key or on a value that it does not fit, and two deltas
      that cannot be merged. */
  predicate CannotSquash(a: Slot, b: Slot)
  {
    match (a, b)
    case (Written(first), Written(op)) => if first.Deletion? then !op.Creation? else op.Creation?
    case (Written(Deletion), Changed(_)) => true
    case (Written(first), Changed(delta)) => !Admits(delta, first.data)
    case (Changed(earlier), Changed(later)) => CannotMerge(later, earlier)
    case _ => false
  }

  lemma SlotFailure(a: Slot, b: Slot)
    ensures SquashSlot(a, b).Err? <==> CannotSquash(a, b)
  {
    if b.Changed? {
      match a
      case Written(Creation(data)) => ApplyToMeaning(b.delta, data);
      case Written(Modification(data)) => ApplyToMeaning(b.delta, data);
      case Changed(earlier) => MergeFailure(b.delta, earlier);
      case _ =>
    }
  }

  /** What a key comes to otherwise: the only change there is, a delta giving way to a write, writes
      that stay a creation or a modification for whoever sees only the squash, values shifted by a
      delta, and deltas merged. */
  lemma SlotResult(a: Slot, b: Slot)
    requires !CannotSquash(a, b)
    ensures SquashSlot(a, b).Ok?
    ensures var c := SquashSlot(a, b).value;
            match (a, b)
            case (_, Empty) => c == a
            case (Empty, _) => c == b
            case (Changed(_), Written(_)) => c == b
            case (Changed(earlier), Changed(later)) => c.Changed? && IsMerge(c.delta, earlier, later)
            case (Written(Creation(x)), Changed(delta)) => c == Written(Creation(x + Net(delta)))
            case (Written(Modification(x)), Changed(delta)) => c == Written(Modification(x + Net(delta)))
            case (Written(Creation(_)), Written(Modification(x))) => c == Written(Creation(x))
            case (Written(Creation(_)), Written(_)) => c == Empty
            case (Written(Modification(_)), Written(_)) => c == b
            case (Written(Deletion), Written(op)) => op.Creation? && c == Written(Modification(op.data))
            case (Written(Deletion), _) => false
  {
    SlotFailure(a, b);
    if b.Changed? {
      match a
      case Written(Creation(x)) => ApplyToMeaning(b.delta, x);
      case Written(Modification(x)) => ApplyToMeaning(b.delta, x);
      case Changed(earlier) => MergeMeaning(b.delta, earlier);
      case _ =>
    }
  }

  /******* The loops *******/

  /** With the keys in `todo` left, key `k` has been squashed or is as it was. */
  ghost predicate WrittenSoFar(c: ChangeSetExt, other: map<Key, WriteOp>, todo: set<Key>, now: ChangeSetExt, k: Key)
  {
    if k in other && k !in todo then SquashWrite(SlotOf(c, k), other[k]) == Ok(SlotOf(now, k))
        else SlotOf(now, k) == SlotOf(c, k)
  }

  ghost predicate ChangedSoFar(c: ChangeSetExt, other: map<Key, DeltaOp>, todo: set<Key>, now: ChangeSetExt, k: Key)
  {
    if k in other && k !in todo then SquashDelta(SlotOf(c, k), other[k]) == Ok(SlotOf(now, k))
        else SlotOf(now, k) == SlotOf(c, k)
  }

  method SquashChangeSet(c: ChangeSetExt, other: map<Key, WriteOp>) returns (r: Result<ChangeSetExt>)
    requires Separate(c)
    ensures r.Ok? <==> forall k :: k in other ==> SquashWrite(SlotOf(c, k), other[k]).Ok?
    ensures r.Ok? ==> Separate(r.value)
    ensures r.Ok? ==> forall k :: SlotOf(r.value, k) == if k in other then SquashWrite(SlotOf(c, k), other[k]).value
            else SlotOf(c, k)
  {
    var deltas, writes := c.deltas, c.writes;
    var todo := other.Keys;
    while todo != {}
      invariant todo <= other.Keys && Separate(ChangeSetExt(deltas, writes))
      invariant forall k :: WrittenSoFar(c, other, todo, ChangeSetExt(deltas, writes), k)
      decreases |todo|
    {
      var k :| k in todo;
      ghost var before := ChangeSetExt(deltas, writes);
      assert WrittenSoFar(c, other, todo, before, k);
      var op := other[k];
      if k in writes {
        match (writes[k], op) {
          case (Modification(_), Modification(data)) => writes := writes[k := Modification(data)];
          case (Creation(_), Modification(data)) => writes := writes[k := Creation(data)];
          case (Modification(_), Deletion) => writes := writes[k := Deletion];
          case (Deletion, Creation(data)) => writes := writes[k := Modification(data)];
          case (Creation(_), Deletion) => writes := writes - {k};
          case _ => return Err(ENOT_SQUASHABLE);
        }
      } else {
        deltas := deltas - {k};
        writes := writes[k := op];
      }
      ghost var rest := todo;
      todo := todo - {k};
      forall k' ensures WrittenSoFar(c, other, todo, ChangeSetExt(deltas, writes), k') {
        assert WrittenSoFar(c, other, rest, before, k');
      }
    }
    r := Ok(ChangeSetExt(deltas, writes));
    forall k ensures k in other ==> SquashWrite(SlotOf(c, k), other[k]) == Ok(SlotOf(r.value, k))
      ensures k !in other ==> SlotOf(r.value, k) == SlotOf(c, k)
    {
      assert WrittenSoFar(c, other, {}, r.value, k);
    }
  }

  method SquashDeltaChangeSet(c: ChangeSetExt, other: map<Key, DeltaOp>) returns (r: Result<ChangeSetExt>)
    requires Separate(c)
    ensures r.Ok? <==> forall k :: k in other ==> SquashDelta(SlotOf(c, k), other[k]).Ok?
    ensures r.Ok? ==> Separate(r.value)
    ensures r.Ok? ==> forall k :: SlotOf(r.value, k) == if k in other then SquashDelta(SlotOf(c, k), other[k]).value
            else SlotOf(c, k)
  {
    var deltas, writes := c.deltas, c.writes;
    var todo := other.Keys;
    while todo != {}
      invariant todo <= other.Keys && Separate(ChangeSetExt(deltas, writes))
      invariant forall k :: ChangedSoFar(c, other, todo, ChangeSetExt(deltas, writes), k)
      decreases |todo|
    {
      var k :| k in todo;
      ghost var before := ChangeSetExt(deltas, writes);
      assert ChangedSoFar(c, other, todo, before, k);
      var op := other[k];
      if k in writes {
        match writes[k] {
          case Creation(data) =>
            var value :- ApplyTo(op, data);
            writes := writes[k := Creation(value)];
          case Modification(data) =>
            var value :- ApplyTo(op, data);
            writes := writes[k := Modification(value)];
          case Deletion => return Err(EALREADY_DELETED);
        }
      } else if k in deltas {
        var merged :- MergeOnto(op, deltas[k]);
        deltas := deltas[k := merged];
      } else {
        deltas := deltas[k := op];
      }
      ghost var rest := todo;
      todo := todo - {k};
      forall k' ensures ChangedSoFar(c, other, todo, ChangeSetExt(deltas, writes), k') {
        assert ChangedSoFar(c, other, rest, before, k');
      }
    }
    r := Ok(ChangeSetExt(deltas, writes));
    forall k ensures k in other ==> SquashDelta(SlotOf(c, k), other[k]) == Ok(SlotOf(r.value, k))
      ensures k !in other ==> SlotOf(r.value, k) == SlotOf(c, k)
    {
      assert ChangedSoFar(c, other, {}, r.value, k);
    }
  }

  /** Squashing works exactly when it works for every key, and keeps writes and deltas apart. */
  method Squash(a: ChangeSetExt, b: ChangeSetExt) returns (r: Result<ChangeSetExt>)
    requires Separate(a) && Separate(b)
    ensures r.Ok? <==> Squashable(a, b)
    ensures r.Ok? <==> forall k :: !CannotSquash(SlotOf(a, k), SlotOf(b, k))
    ensures r.Ok? ==> Separate(r.value) && IsSquash(a, b, r.value)
  {
    forall k ensures SquashSlot(SlotOf(a, k), SlotOf(b, k)).Err? <==> CannotSquash(SlotOf(a, k), SlotOf(b, k)) {
      SlotFailure(SlotOf(a, k), SlotOf(b, k));
    }
    var squashed := SquashChangeSet(a, b.writes);
    if squashed.Err? {
      var k :| k in b.writes && SquashWrite(SlotOf(a, k), b.writes[k]).Err?;
      assert SlotOf(b, k) == Written(b.writes[k]) && SquashSlot(SlotOf(a, k), SlotOf(b, k)).Err?;
      return Err(squashed.code);
    }
    assert forall k :: k in b.deltas ==>
        SlotOf(squashed.value, k) == SlotOf(a, k) && SlotOf(b, k) == Changed(b.deltas[k]);
    r := SquashDeltaChangeSet(squashed.value, b.deltas);
  }

  ghost predicate Squashable(a: ChangeSetExt, b: ChangeSetExt)
  {
    forall k :: SquashSlot(SlotOf(a, k), SlotOf(b, k)).Ok?
  }

  ghost predicate IsSquash(a: ChangeSetExt, b: ChangeSetExt, c: ChangeSetExt)
  {
    forall k :: SquashSlot(SlotOf(a, k), SlotOf(b, k)) == Ok(SlotOf(c, k))
  }

  /******* Meaning *******/

  type Store = Key -> Option<u128>

  /** What a slot makes of the value at its key; `None` if it does not apply.  Creations need the
      key to be absent and deltas need it to be present; with `strict`, so do modifications and
      deletions. */
  function ApplySlot(strict: bool, slot: Slot, value: Option<u128>): Option<Option<u128>>
  {
    match slot
    case Empty => Some(value)
    case Written(Creation(data)) => if value.None? then Some(Some(data)) else None
    case Written(Modification(data)) => if strict && value.None? then None else Some(Some(data))
    case Written(Deletion) => if strict && value.None? then None else Some(None)
    case Changed(delta) =>
      if value.None? then None
      else match ApplyTo(delta, value.value)
           case Ok(result) => Some(Some(result))
           case Err(_) => None
  }

  function ApplyTwo(strict: bool, a: Slot, b: Slot, value: Option<u128>): Option<Option<u128>>
  {
    var middle := ApplySlot(strict, a, value);
    if middle.None? then None else ApplySlot(strict, b, middle.value)
  }

  ghost predicate AppliesTo(strict: bool, c: ChangeSetExt, base: Store)
  {
    forall k :: ApplySlot(strict, SlotOf(c, k), base(k)).Some?
  }

  ghost predicate BothApply(strict: bool, a: ChangeSetExt, b: ChangeSetExt, base: Store)
  {
    forall k :: ApplyTwo(strict, SlotOf(a, k), SlotOf(b, k), base(k)).Some?
  }

  ghost function After(strict: bool, c: ChangeSetExt, base: Store): Store
    requires AppliesTo(strict, c, base)
  {
    k => if ApplySlot(strict, SlotOf(c, k), base(k)).Some? then ApplySlot(strict, SlotOf(c, k), base(k)).value else None
  }

  /** Deltas on the same key have the same limit. */
  predicate SameLimit(a: Slot, b: Slot)
  {
    a.Changed? && b.Changed? ==> a.delta.limit == b.delta.limit
  }

  ghost predicate LimitsMatch(a: ChangeSetExt, b: ChangeSetExt)
  {
    forall k :: SameLimit(SlotOf(a, k), SlotOf(b, k))
  }

  /** What squashing does not look at: a delta that is overwritten has to apply, and a key that is
      created and deleted has to be absent. */
  predicate NothingHidden(a: Slot, b: Slot, value: Option<u128>)
  {
    && (a.Changed? && b.Written? ==> !b.op.Creation? && value.Some? && ApplyTo(a.delta, value.value).Ok?)
    && (a.Written? && a.op.Creation? && b == Written(Deletion) ==> value.None?)
  }

  /** The squash of two slots applies, with the same value, wherever one after the other does, and
      nowhere else unless it hides something. */
  lemma SquashSlotMeaning(strict: bool, a: Slot, b: Slot, value: Option<u128>)
    requires SquashSlot(a, b).Ok? && SameLimit(a, b)
    ensures ApplyTwo(strict, a, b, value).Some? <==>
            ApplySlot(strict, SquashSlot(a, b).value, value).Some? && NothingHidden(a, b, value)
    ensures ApplyTwo(strict, a, b, value).Some? ==>
            ApplySlot(strict, SquashSlot(a, b).value, value) == ApplyTwo(strict, a, b, value)
  {
    if a.Changed? && b.Changed? && value.Some? { ExactComposition(a.delta, b.delta, value.value); }
  }

  /** The key is deleted, and then deleted again or modified. */
  predicate TouchesDeleted(a: Slot, b: Slot)
  {
    a == Written(Deletion) && b.Written? && !b.op.Creation?
  }

  /** Slots that cannot be squashed apply one after the other nowhere, except that with the lax
      reading a deleted key may be deleted again or modified. */
  lemma UnsquashableSlot(strict: bool, a: Slot, b: Slot, value: Option<u128>)
    requires SquashSlot(a, b).Err? && SameLimit(a, b)
    ensures ApplyTwo(strict, a, b, value).Some? <==> !strict && TouchesDeleted(a, b)
  {
    if a.Changed? && b.Changed? && value.Some? { ExactComposition(a.delta, b.delta, value.value); }
  }

  /** Squashing preserves meaning: on every store on which the two change sets apply one after the
      other, their squash applies and leads to the same store. */
  lemma SquashPreservesMeaning(strict: bool, a: ChangeSetExt, b: ChangeSetExt, c: ChangeSetExt, base: Store)
    requires IsSquash(a, b, c) && LimitsMatch(a, b) && BothApply(strict, a, b, base)
    ensures AppliesTo(strict, a, base) && AppliesTo(strict, b, After(strict, a, base)) && AppliesTo(strict, c, base)
    ensures forall k :: After(strict, c, base)(k) == After(strict, b, After(strict, a, base))(k)
  {
    forall k ensures ApplySlot(strict, SlotOf(a, k), base(k)).Some?
      ensures ApplySlot(strict, SlotOf(c, k), base(k)) == ApplyTwo(strict, SlotOf(a, k), SlotOf(b, k), base(k))
      ensures ApplySlot(strict, SlotOf(c, k), base(k)).Some?
    {
      assert ApplyTwo(strict, SlotOf(a, k), SlotOf(b, k), base(k)).Some? && SameLimit(SlotOf(a, k), SlotOf(b, k));
      assert SquashSlot(SlotOf(a, k), SlotOf(b, k)) == Ok(SlotOf(c, k));
      SquashSlotMeaning(strict, SlotOf(a, k), SlotOf(b, k), base(k));
    }
    forall k ensures ApplySlot(strict, SlotOf(b, k), After(strict, a, base)(k)).Some? {
      assert ApplyTwo(strict, SlotOf(a, k), SlotOf(b, k), base(k)).Some?;
    }
    forall k ensures After(strict, c, base)(k) == After(strict, b, After(strict, a, base))(k) {
      assert ApplySlot(strict, SlotOf(c, k), base(k)) == ApplyTwo(strict, SlotOf(a, k), SlotOf(b, k), base(k));
    }
  }

  /** Where exactly the squash applies although the two change sets do not. */
  lemma SquashHides(strict: bool, a: ChangeSetExt, b: ChangeSetExt, c: ChangeSetExt, base: Store)
    requires IsSquash(a, b, c) && LimitsMatch(a, b)
    ensures BothApply(strict, a, b, base) <==>
            AppliesTo(strict, c, base) && forall k :: NothingHidden(SlotOf(a, k), SlotOf(b, k), base(k))
  {
    forall k ensures ApplyTwo(strict, SlotOf(a, k), SlotOf(b, k), base(k)).Some? <==>
                     ApplySlot(strict, SlotOf(c, k), base(k)).Some? &&
                         NothingHidden(SlotOf(a, k), SlotOf(b, k), base(k))
    {
      assert SquashSlot(SlotOf(a, k), SlotOf(b, k)) == Ok(SlotOf(c, k)) && SameLimit(SlotOf(a, k), SlotOf(b, k));
      SquashSlotMeaning(strict, SlotOf(a, k), SlotOf(b, k), base(k));
    }
  }

  /** A failed squash is a sequence that applies nowhere when modifications and deletions need their
      key to be present.  With the lax reading it may apply, but then every key at fault is one that
      is deleted, and deleted again or modified. */
  lemma SquashFailure(strict: bool, a: ChangeSetExt, b: ChangeSetExt, base: Store)
    requires !Squashable(a, b) && LimitsMatch(a, b)
    ensures strict ==> !BothApply(strict, a, b, base)
    ensures BothApply(strict, a, b, base) ==>
              forall k :: SquashSlot(SlotOf(a, k), SlotOf(b, k)).Err? ==> TouchesDeleted(SlotOf(a, k), SlotOf(b, k))
  {
    forall k | SquashSlot(SlotOf(a, k), SlotOf(b, k)).Err?
      ensures ApplyTwo(strict, SlotOf(a, k), SlotOf(b, k), base(k)).Some? <==>
              !strict && TouchesDeleted(SlotOf(a, k), SlotOf(b, k))
    {
      assert SameLimit(SlotOf(a, k), SlotOf(b, k));
      UnsquashableSlot(strict, SlotOf(a, k), SlotOf(b, k), base(k));
    }
    var k :| SquashSlot(SlotOf(a, k), SlotOf(b, k)).Err?;
    assert strict ==> ApplyTwo(strict, SlotOf(a, k), SlotOf(b, k), base(k)).None?;
  }

  /** An overwritten delta that fails everywhere is squashed away. */
  lemma SquashHidesFailure(k: Key, data: u128)
    ensures var a, b := ChangeSetExt(map[k := DeltaOp(2, 0, 1, Plus(2))], map[]),
            ChangeSetExt(map[], map[k := Modification(data)]);
            && IsSquash(a, b, b)
            && (forall base: Store :: !BothApply(true, a, b, base))
            && AppliesTo(true, b, _ => Some(0))
  {
    var a, b := ChangeSetExt(map[k := DeltaOp(2, 0, 1, Plus(2))], map[]),
        ChangeSetExt(map[], map[k := Modification(data)]);
    forall base: Store ensures !BothApply(true, a, b, base) {
      assert ApplyTwo(true, SlotOf(a, k), SlotOf(b, k), base(k)).None?;
    }
  }
}
