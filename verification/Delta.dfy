/** Bounded partial functions on 128-bit integers: the deltas of aggregators. */
module Delta {
  import opened Base

  const EADD_OVERFLOW: nat := 0x02_0001
  const ESUB_UNDERFLOW: nat := 0x02_0002

  datatype DeltaUpdate = Plus(value: u128) | Minus(value: u128)

  datatype DeltaOp = DeltaOp(maxPositive: u128, minNegative: u128, limit: u128, update: DeltaUpdate)

  function Addition(base: u128, value: u128, limit: u128): (r: Result<u128>)
    ensures r.Ok? ==> r.value <= limit
  {
    if limit < base || value > limit - base then Err(EADD_OVERFLOW) else Ok(base + value)
  }

  function Subtraction(base: u128, value: u128): (r: Result<u128>)
    ensures r.Ok? ==> r.value <= base
  {
    if value > base then Err(ESUB_UNDERFLOW) else Ok(base - value)
  }

  function ApplyTo(d: DeltaOp, base: u128): Result<u128>
  {
    var _ :- Addition(base, d.maxPositive, d.limit);
    var _ :- Subtraction(base, d.minNegative);
    match d.update
    case Plus(value) => Addition(base, value, d.limit)
    case Minus(value) => Subtraction(base, value)
  }

  function ShiftedMaxPositive(d: DeltaOp, shift: DeltaOp): Result<u128>
  {
    match shift.update
    case Plus(value) => Addition(value, d.maxPositive, d.limit)
    case Minus(value) => Ok(if Subtraction(d.maxPositive, value).Ok? then d.maxPositive - value else 0)
  }

  function ShiftedMinNegative(d: DeltaOp, shift: DeltaOp): Result<u128>
  {
    match shift.update
    case Plus(value) => Ok(if Subtraction(d.minNegative, value).Ok? then d.minNegative - value else 0)
    case Minus(value) => Addition(value, d.minNegative, d.limit)
  }

  /** +a-b, with the sign of the larger operand. */
  function DifferentSign(a: u128, b: u128): DeltaUpdate
  {
    if a >= b then Plus(a - b) else Minus(b - a)
  }

  function MergedUpdate(d: DeltaOp, previous: DeltaOp): Result<DeltaUpdate>
  {
    match (previous.update, d.update)
    case (Plus(p), Plus(v)) => (var sum :- Addition(p, v, d.limit); Ok(Plus(sum)))
    case (Plus(p), Minus(v)) => Ok(DifferentSign(p, v))
    case (Minus(p), Plus(v)) => Ok(DifferentSign(v, p))
    case (Minus(p), Minus(v)) => (var sum :- Addition(p, v, d.limit); Ok(Minus(sum)))
  }

  /** `d` applied on top of `previous`, as one delta (only the limit of `d` is kept). */
  function MergeOnto(d: DeltaOp, previous: DeltaOp): Result<DeltaOp>
  {
    var shiftedMax :- ShiftedMaxPositive(d, previous);
    var shiftedMin :- ShiftedMinNegative(d, previous);
    var update :- MergedUpdate(d, previous);
    Ok(DeltaOp(Max(previous.maxPositive, shiftedMax), Max(previous.minNegative, shiftedMin), d.limit, update))
  }

  /******* Meaning *******/

  /** The signed effect of a delta. */
  function Net(d: DeltaOp): int
  {
    match d.update
    case Plus(value) => value
    case Minus(value) => -(value as int)
  }

  /** Every excursion of the recorded history, and the final value, stay within `[0, limit]`. */
  predicate Admits(d: DeltaOp, base: int)
  {
    && 0 <= base - d.minNegative
    && base + d.maxPositive <= d.limit
    && 0 <= base + Net(d) <= d.limit
  }

  /** Applying `earlier`, then `later`. */
  function ApplyBoth(earlier: DeltaOp, later: DeltaOp, base: u128): Result<u128>
  {
    var middle :- ApplyTo(earlier, base);
    ApplyTo(later, middle)
  }

  /** Applying a delta is exactly shifting by its net effect, when its history fits. */
  lemma ApplyToMeaning(d: DeltaOp, base: u128)
    ensures ApplyTo(d, base).Ok? <==> Admits(d, base)
    ensures ApplyTo(d, base).Ok? ==> ApplyTo(d, base).value == base + Net(d) <= d.limit
  {
  }

  /** Which error a failing application gives: overflow where the history or the result passes the
      limit, underflow where they go below zero. */
  lemma ApplyToError(d: DeltaOp, base: u128)
    ensures ApplyTo(d, base) == Err(0x02_0001) <==>
            base + d.maxPositive > d.limit || (base >= d.minNegative && d.update.Plus? && base + Net(d) > d.limit)
    ensures ApplyTo(d, base) == Err(0x02_0002) <==>
            base + d.maxPositive <= d.limit && (base < d.minNegative || base + Net(d) < 0)
    ensures ApplyTo(d, base).Ok? || ApplyTo(d, base) == Err(0x02_0001) || ApplyTo(d, base) == Err(0x02_0002)
  {
  }

  /** What merging is meant to produce: net effects add up, and the later history is shifted by
      the earlier net effect before the two histories are joined. */
  predicate IsMerge(m: DeltaOp, earlier: DeltaOp, later: DeltaOp)
  {
    && Net(m) == Net(earlier) + Net(later)
    && (m.update.Minus? <==> Net(m) < 0 || (earlier.update.Minus? && later.update.Minus?))
    && m.limit == later.limit
    && m.maxPositive == Max(earlier.maxPositive, later.maxPositive + Net(earlier))
    && m.minNegative == Max(earlier.minNegative, later.minNegative - Net(earlier))
  }

  lemma MergeMeaning(later: DeltaOp, earlier: DeltaOp)
    requires MergeOnto(later, earlier).Ok?
    ensures IsMerge(MergeOnto(later, earlier).value, earlier, later)
  {
  }

  /** The shifted history of the later delta, or the sum of two updates of the same sign, passes the
      limit. */
  predicate CannotMerge(later: DeltaOp, earlier: DeltaOp)
  {
    var p, v := earlier.update.value, later.update.value;
    if earlier.update.Plus? then p + later.maxPositive > later.limit || (later.update.Plus? && p + v > later.limit)
    else p + later.minNegative > later.limit || (later.update.Minus? && p + v > later.limit)
  }

  /** Merging fails exactly then, and always with an overflow. */
  lemma MergeFailure(later: DeltaOp, earlier: DeltaOp)
    ensures MergeOnto(later, earlier).Err? <==> CannotMerge(later, earlier)
    ensures MergeOnto(later, earlier).Err? ==> MergeOnto(later, earlier) == Err(0x02_0001)
  {
  }

  /** Exact composition: merging succeeds into the composition of the two partial functions, and
      fails only when that composition is nowhere defined. */
  lemma ExactComposition(earlier: DeltaOp, later: DeltaOp, base: u128)
    requires earlier.limit == later.limit
    ensures match MergeOnto(later, earlier)
            case Ok(merged) => (
              && ApplyTo(merged, base).Ok? == ApplyBoth(earlier, later, base).Ok?
              && (ApplyTo(merged, base).Ok? ==> ApplyTo(merged, base) == ApplyBoth(earlier, later, base)))
            case Err(_) => ApplyBoth(earlier, later, base).Err?
  {
    ApplyToMeaning(earlier, base);
    match MergeOnto(later, earlier)
    case Ok(merged) =>
      MergeMeaning(later, earlier);
      ApplyToMeaning(merged, base);
      if Admits(earlier, base) { ApplyToMeaning(later, base + Net(earlier)); }
    case Err(_) =>
      if Admits(earlier, base) { ApplyToMeaning(later, base + Net(earlier)); }
  }

  /** The three deltas one after the other. */
  function ApplyThree(a: DeltaOp, b: DeltaOp, c: DeltaOp, base: u128): Result<u128>
  {
    var middle :- ApplyBoth(a, b, base);
    ApplyTo(c, middle)
  }

  function MergeLeft(a: DeltaOp, b: DeltaOp, c: DeltaOp): Result<DeltaOp>
  {
    var ab :- MergeOnto(b, a);
    MergeOnto(c, ab)
  }

  function MergeRight(a: DeltaOp, b: DeltaOp, c: DeltaOp): Result<DeltaOp>
  {
    var bc :- MergeOnto(c, b);
    MergeOnto(bc, a)
  }

  /** Either way of merging three deltas describes their composition, or shows it to be empty. */
  lemma MergeThreeMeaning(a: DeltaOp, b: DeltaOp, c: DeltaOp, base: u128)
    requires a.limit == b.limit == c.limit
    ensures MergeLeft(a, b, c).Err? || MergeRight(a, b, c).Err? ==> ApplyThree(a, b, c, base).Err?
    ensures MergeLeft(a, b, c).Ok? ==>
              var m := ApplyTo(MergeLeft(a, b, c).value, base);
              m.Ok? == ApplyThree(a, b, c, base).Ok? && (m.Ok? ==> m == ApplyThree(a, b, c, base))
    ensures MergeRight(a, b, c).Ok? ==>
              var m := ApplyTo(MergeRight(a, b, c).value, base);
              m.Ok? == ApplyThree(a, b, c, base).Ok? && (m.Ok? ==> m == ApplyThree(a, b, c, base))
  {
    ExactComposition(a, b, base);
    if MergeOnto(b, a).Ok? {
      MergeMeaning(b, a);
      ExactComposition(MergeOnto(b, a).value, c, base);
    }
    var middle := ApplyTo(a, base);
    if middle.Ok? { ExactComposition(b, c, middle.value); }
    if MergeOnto(c, b).Ok? {
      MergeMeaning(c, b);
      ExactComposition(a, MergeOnto(c, b).value, base);
    }
  }

  lemma JoinAssociative(a: DeltaOp, b: DeltaOp, c: DeltaOp, ab: DeltaOp, bc: DeltaOp, l: DeltaOp, r: DeltaOp)
    requires IsMerge(ab, a, b) && IsMerge(l, ab, c)
    requires IsMerge(bc, b, c) && IsMerge(r, a, bc)
    ensures l == r
  {
  }

  /** Merging is associative, in update and in both history bounds, wherever both ways succeed. */
  lemma MergeAssociative(a: DeltaOp, b: DeltaOp, c: DeltaOp)
    requires MergeLeft(a, b, c).Ok? && MergeRight(a, b, c).Ok?
    ensures MergeLeft(a, b, c) == MergeRight(a, b, c)
  {
    var ab, bc := MergeOnto(b, a).value, MergeOnto(c, b).value;
    MergeMeaning(b, a);
    MergeMeaning(c, b);
    MergeMeaning(c, ab);
    MergeMeaning(bc, a);
    JoinAssociative(a, b, c, ab, bc, MergeOnto(c, ab).value, MergeOnto(bc, a).value);
  }
}
