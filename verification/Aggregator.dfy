/** Aggregators: values that a transaction adds to and subtracts from without necessarily knowing
    them.  Working on a delta agrees with working on the value, and cutting a list of operations
    in two agrees with merging deltas. */
module Aggregator {
  import opened Base
  import opened Delta

  datatype AggregatorState = Data | PositiveDelta | NegativeDelta

  datatype History = History(maxPositive: u128, minNegative: u128)

  /** The fields of an aggregator, as one value. */
  datatype Agg = Agg(value: u128, state: AggregatorState, limit: u128, history: Option<History>)

  datatype Op = Add(value: u128) | Sub(value: u128)

  const EMISSING_VALUE: nat := 0x02_0003

  /** A history is kept exactly while the value is unknown, and a negative delta is not zero. */
  predicate ValidAgg(a: Agg)
  {
    && (a.history.Some? <==> !a.state.Data?)
    && (a.state.NegativeDelta? ==> a.value > 0)
  }

  /******* Specification of the operations *******/

  function RecordSpec(a: Agg): Agg
  {
    if a.history.None? then a
    else
      var h := a.history.value;
      match a.state
      case Data => a
      case PositiveDelta => a.(history := Some(h.(maxPositive := Max(h.maxPositive, a.value))))
      case NegativeDelta => a.(history := Some(h.(minNegative := Max(h.minNegative, a.value))))
  }

  function AddSpec(a: Agg, v: u128): Result<Agg>
  {
    match a.state
    case Data => (var sum :- Addition(a.value, v, a.limit); Ok(a.(value := sum)))
    case PositiveDelta => (var sum :- Addition(a.value, v, a.limit); Ok(RecordSpec(a.(value := sum))))
    case NegativeDelta =>
      if a.value <= v then Ok(RecordSpec(a.(value := v - a.value, state := PositiveDelta)))
      else Ok(RecordSpec(a.(value := a.value - v)))
  }

  function SubSpec(a: Agg, v: u128): Result<Agg>
  {
    match a.state
    case Data => (var rest :- Subtraction(a.value, v); Ok(a.(value := rest)))
    case PositiveDelta =>
      if a.value >= v then Ok(RecordSpec(a.(value := a.value - v)))
      else (var _ :- Subtraction(a.limit, v); Ok(RecordSpec(a.(value := v - a.value, state := NegativeDelta))))
    case NegativeDelta => (var sum :- Addition(a.value, v, a.limit); Ok(RecordSpec(a.(value := sum))))
  }

  /** `stored` is what the resolver finds, if anything. */
  function MaterializeSpec(a: Agg, stored: Option<u128>): Result<Agg>
  {
    if a.state.Data? || a.history.None? then Ok(a)
    else if stored.None? then Err(EMISSING_VALUE)
    else
      var base, h := stored.value, a.history.value;
      var _ :- Addition(base, h.maxPositive, a.limit);
      var _ :- Subtraction(base, h.minNegative);
      var value :- if a.state.PositiveDelta? then Addition(base, a.value, a.limit) else Subtraction(base, a.value);
      Ok(Agg(value, Data, a.limit, None))
  }

  /******* The aggregator, updated in place *******/

  class Aggregator {
    var value: u128
    var state: AggregatorState
    const limit: u128
    var history: Option<History>

    ghost function Model(): Agg
      reads this
    {
      Agg(value, state, limit, history)
    }

    /** An aggregator that the transaction has not created itself starts as a zero delta. */
    constructor (limit: u128)
      ensures Model() == Fresh(limit)
      ensures value == 0 && state == PositiveDelta && this.limit == limit && history == Some(History(0, 0))
    {
      value, state, this.limit, history := 0, PositiveDelta, limit, Some(History(0, 0));
    }

    constructor New(limit: u128)
      ensures Model() == Known(0, limit)
      ensures value == 0 && state == Data && this.limit == limit && history == None
    {
      value, state, this.limit, history := 0, Data, limit, None;
    }

    method Record()
      requires ValidAgg(Model()) && !state.Data?
      modifies this`history
      ensures Model() == RecordSpec(old(Model())) && ValidAgg(Model())
    {
      if history.Some? {
        var h := history.value;
        match state {
          case PositiveDelta => history := Some(h.(maxPositive := Max(h.maxPositive, value)));
          case NegativeDelta => history := Some(h.(minNegative := Max(h.minNegative, value)));
        }
      }
    }

    method Add(v: u128) returns (r: Result<()>)
      requires ValidAgg(Model())
      modifies this
      ensures ValidAgg(Model())
      ensures match AddSpec(old(Model()), v)
              case Ok(a) => r == Ok(()) && Model() == a
              case Err(code) => r == Err(code) && Model() == old(Model())
    {
      match state {
        case Data =>
          value :- Addition(value, v, limit);
          return Ok(());
        case PositiveDelta => value :- Addition(value, v, limit);
        case NegativeDelta =>
          if value <= v {
            value := v - value;
            state := PositiveDelta;
          } else {
            value := value - v;
          }
      }
      Record();
      r := Ok(());
    }

    method Sub(v: u128) returns (r: Result<()>)
      requires ValidAgg(Model())
      modifies this
      ensures ValidAgg(Model())
      ensures match SubSpec(old(Model()), v)
              case Ok(a) => r == Ok(()) && Model() == a
              case Err(code) => r == Err(code) && Model() == old(Model())
    {
      match state {
        case Data =>
          value :- Subtraction(value, v);
          return Ok(());
        case PositiveDelta =>
          if value >= v {
            value := value - v;
          } else {
            var _ :- Subtraction(limit, v);
            value := v - value;
            state := NegativeDelta;
          }
        case NegativeDelta => value :- Addition(value, v, limit);
      }
      Record();
      r := Ok(());
    }

    method ReadAndMaterialize(stored: Option<u128>) returns (r: Result<u128>)
      requires ValidAgg(Model())
      modifies this
      ensures ValidAgg(Model())
      ensures match MaterializeSpec(old(Model()), stored)
              case Ok(a) => r == Ok(a.value) && Model() == a && state.Data?
              case Err(code) => r == Err(code) && Model() == old(Model())
      ensures old(state).Data? ==> r == Ok(old(value)) && Model() == old(Model())
      ensures !old(state).Data? && r.Ok? ==>
                && stored.Some? && r.value == value == stored.value + old(Net(DeltaOf(Model())))
                && state == Data && history == None
    {
      if state.Data? { return Ok(value); }
      if stored.None? { return Err(EMISSING_VALUE); }
      var base, h := stored.value, history.value;
      var _ :- Addition(base, h.maxPositive, limit);
      var _ :- Subtraction(base, h.minNegative);
      match state {
        case PositiveDelta => value :- Addition(base, value, limit);
        case NegativeDelta => value :- Subtraction(base, value);
      }
      state, history := Data, None;
      r := Ok(value);
    }
  }

  /******* Lists of operations *******/

  function Fresh(limit: u128): Agg { Agg(0, PositiveDelta, limit, Some(History(0, 0))) }

  function Known(base: u128, limit: u128): Agg { Agg(base, Data, limit, None) }

  function Perform(a: Agg, op: Op): Result<Agg>
  {
    match op
    case Add(v) => AddSpec(a, v)
    case Sub(v) => SubSpec(a, v)
  }

  /** The operations one after the other, up to the first error. */
  function PerformAll(a: Agg, ops: seq<Op>): Result<Agg>
    decreases |ops|
  {
    if ops == [] then Ok(a) else (var next :- Perform(a, ops[0]); PerformAll(next, ops[1..]))
  }

  /** The operations, and then a read against a stored value. */
  function PerformAndRead(a: Agg, ops: seq<Op>, base: u128): Result<u128>
  {
    var done :- PerformAll(a, ops);
    var read :- MaterializeSpec(done, Some(base));
    Ok(read.value)
  }

  /** The delta that an aggregator in delta state stands for. */
  function DeltaOf(a: Agg): DeltaOp
    requires ValidAgg(a) && !a.state.Data?
  {
    DeltaOp(a.history.value.maxPositive, a.history.value.minNegative, a.limit,
            if a.state.PositiveDelta? then Plus(a.value) else Minus(a.value))
  }

  /** The operation changes the value by this much. */
  function Effect(op: Op): int
  {
    match op
    case Add(v) => v
    case Sub(v) => -(v as int)
  }

  /** A delta whose recorded history contains zero and where it now stands. */
  predicate WellRecorded(a: Agg)
  {
    && ValidAgg(a) && !a.state.Data?
    && -(a.history.value.minNegative as int) <= Net(DeltaOf(a)) <= a.history.value.maxPositive
  }

  /** What one operation does to a delta: it shifts it, and extends the history to where it gets. */
  lemma PerformOnDelta(a: Agg, op: Op)
    requires WellRecorded(a)
    ensures Perform(a, op).Ok? ==>
              var next := Perform(a, op).value;
              && WellRecorded(next) && next.limit == a.limit
              && Net(DeltaOf(next)) == Net(DeltaOf(a)) + Effect(op)
              && next.history.value.maxPositive == Max(a.history.value.maxPositive, Net(DeltaOf(next)))
              && next.history.value.minNegative == Max(a.history.value.minNegative, -Net(DeltaOf(next)))
    ensures Perform(a, op).Err? <==> OutOfReach(a, op)
    ensures Perform(a, op).Err? ==> Perform(a, op) == Err(FailureOf(a, op))
  {
  }

  /** Adding to a non-negative delta must not take it above the limit; what takes one below zero must
      not be more than the limit itself; and a negative delta must not be taken below minus the
      limit. */
  predicate OutOfReach(a: Agg, op: Op)
    requires WellRecorded(a)
  {
    var now, next := Net(DeltaOf(a)), Net(DeltaOf(a)) + Effect(op);
    match op
    case Add(_) => now >= 0 && next > a.limit
    case Sub(v) => if now >= 0 then next < 0 && v > a.limit else next < -(a.limit as int)
  }

  /** Underflow for what is taken from a non-negative delta, overflow for all else. */
  function FailureOf(a: Agg, op: Op): nat
    requires WellRecorded(a)
  {
    if op.Sub? && Net(DeltaOf(a)) >= 0 then 0x02_0002 else 0x02_0001
  }

  /** What one operation does to a known value: the result stays at or below the limit where
      something is added, and at or above zero where something is taken. */
  lemma PerformOnKnown(x: u128, limit: u128, op: Op)
    ensures Perform(Known(x, limit), op) ==
            match op
            case Add(v) => if x + v <= limit then Ok(Known(x + v, limit)) else Err(0x02_0001)
            case Sub(v) => if v <= x then Ok(Known(x - v, limit)) else Err(0x02_0002)
  {
  }

  /** The history fits on the base: all values seen so far were in range. */
  predicate HistoryFits(a: Agg, base: u128)
    requires a.history.Some?
  {
    base + a.history.value.maxPositive <= a.limit && base >= a.history.value.minNegative
  }

  lemma MaterializeMeaning(a: Agg, base: u128)
    requires WellRecorded(a)
    ensures MaterializeSpec(a, Some(base)).Ok? <==> HistoryFits(a, base)
    ensures HistoryFits(a, base) ==> MaterializeSpec(a, Some(base)) == Ok(Known(base + Net(DeltaOf(a)), a.limit))
    ensures !HistoryFits(a, base) ==>
              MaterializeSpec(a, Some(base)) ==
              Err(if base + a.history.value.maxPositive > a.limit then 0x02_0001 else 0x02_0002)
    ensures MaterializeSpec(a, None) == Err(EMISSING_VALUE)
  {
  }

  /** Reading a known value gives that value and changes nothing, whatever is stored; so a second
      read gives what the first one gave. */
  lemma ReadAgain(a: Agg, stored: Option<u128>, stored': Option<u128>)
    requires ValidAgg(a)
    ensures a.state.Data? ==> MaterializeSpec(a, stored) == Ok(a)
    ensures MaterializeSpec(a, stored).Ok? ==>
              var read := MaterializeSpec(a, stored).value;
              read.state.Data? && MaterializeSpec(read, stored') == Ok(read)
  {
  }

  /** An excursion out of range is never forgotten. */
  lemma {:induction false} MisfitStays(a: Agg, ops: seq<Op>, base: u128)
    requires WellRecorded(a) && !HistoryFits(a, base)
    ensures PerformAndRead(a, ops, base).Err?
    decreases |ops|
  {
    if ops == [] {
      MaterializeMeaning(a, base);
    } else {
      PerformOnDelta(a, ops[0]);
      if Perform(a, ops[0]).Ok? { MisfitStays(Perform(a, ops[0]).value, ops[1..], base); }
    }
  }

  lemma {:induction false} DeltaFollowsKnown(a: Agg, ops: seq<Op>, base: u128)
    requires WellRecorded(a) && base <= a.limit && HistoryFits(a, base)
    ensures var known := PerformAll(Known(base + Net(DeltaOf(a)), a.limit), ops);
            && (PerformAndRead(a, ops, base).Ok? <==> known.Ok?)
            && (known.Ok? ==> known.value == Known(PerformAndRead(a, ops, base).value, a.limit))
    decreases |ops|
  {
    var x := base + Net(DeltaOf(a));
    if ops == [] {
      MaterializeMeaning(a, base);
    } else {
      PerformOnDelta(a, ops[0]);
      PerformOnKnown(x, a.limit, ops[0]);
      if Perform(a, ops[0]).Ok? {
        var next := Perform(a, ops[0]).value;
        if HistoryFits(next, base) {
          DeltaFollowsKnown(next, ops[1..], base);
        } else {
          MisfitStays(next, ops[1..], base);
        }
      }
    }
  }

  /******* Sums *******/

  function Sum(ops: seq<Op>): int
  {
    if ops == [] then 0 else Sum(ops[..|ops| - 1]) + Effect(ops[|ops| - 1])
  }

  /** Whatever comes first, the value stays within the limit. */
  predicate SumsFit(base: int, ops: seq<Op>, limit: int)
  {
    && 0 <= base + Sum(ops) <= limit
    && forall i :: 0 <= i < |ops| ==> 0 <= base + Sum(ops[..i]) <= limit
  }

  lemma {:induction false} SumSplits(op: Op, ops: seq<Op>)
    ensures Sum([op] + ops) == Effect(op) + Sum(ops)
    decreases |ops|
  {
    if ops == [] {
      assert Sum([]) == 0 && ([op] + ops)[..0] == [];
    } else {
      SumSplits(op, ops[..|ops| - 1]);
      assert ([op] + ops)[..|ops|] == [op] + ops[..|ops| - 1];
    }
  }

  lemma SumOfPrefix(ops: seq<Op>, i: nat)
    requires i < |ops|
    ensures Sum(ops[..i + 1]) == Effect(ops[0]) + Sum(ops[1..][..i])
  {
    SumSplits(ops[0], ops[1..][..i]);
    assert ops[..i + 1] == [ops[0]] + ops[1..][..i];
  }

  lemma SumOfAll(ops: seq<Op>)
    requires ops != []
    ensures Sum(ops) == Effect(ops[0]) + Sum(ops[1..])
  {
    SumOfPrefix(ops, |ops| - 1);
    assert ops[..|ops|] == ops && ops[1..][..|ops| - 1] == ops[1..];
  }

  lemma SumsFitStep(base: int, ops: seq<Op>, limit: int)
    requires ops != []
    ensures SumsFit(base, ops, limit) <==> 0 <= base <= limit && SumsFit(base + Effect(ops[0]), ops[1..], limit)
  {
    var rest, next := ops[1..], base + Effect(ops[0]);
    SumOfAll(ops);
    assert ops[..0] == [] && Sum([]) == 0;
    if SumsFit(base, ops, limit) {
      assert 0 <= base + Sum(ops[..0]) <= limit;
      forall i | 0 <= i < |rest| ensures 0 <= next + Sum(rest[..i]) <= limit {
        SumOfPrefix(ops, i);
        assert 0 <= base + Sum(ops[..i + 1]) <= limit;
      }
    }
    if 0 <= base <= limit && SumsFit(next, rest, limit) {
      forall i | 0 <= i < |ops| ensures 0 <= base + Sum(ops[..i]) <= limit {
        if i > 0 {
          SumOfPrefix(ops, i - 1);
          assert 0 <= next + Sum(rest[..i - 1]) <= limit;
        }
      }
    }
  }

  /** On a known value, a list of operations succeeds exactly if all partial sums are in range, and
      then leads to the sum. */
  lemma {:induction false} KnownSums(base: u128, ops: seq<Op>, limit: u128)
    requires base <= limit
    ensures PerformAll(Known(base, limit), ops).Ok? <==> SumsFit(base, ops, limit)
    ensures SumsFit(base, ops, limit) ==> PerformAll(Known(base, limit), ops) == Ok(Known(base + Sum(ops), limit))
    decreases |ops|
  {
    if ops == [] {
      assert ops[..0] == [];
    } else {
      SumsFitStep(base, ops, limit);
      SumOfAll(ops);
      PerformOnKnown(base, limit, ops[0]);
      var next := base + Effect(ops[0]);
      if 0 <= next <= limit {
        KnownSums(next, ops[1..], limit);
      } else {
        assert ops[1..][..0] == [];
      }
    }
  }

  /** A new aggregator reads as the sum of the operations exactly if all partial sums are in range,
      whatever is stored. */
  lemma CreatedReadsSum(ops: seq<Op>, limit: u128, stored: Option<u128>)
    ensures PerformAll(Known(0, limit), ops).Ok? <==> SumsFit(0, ops, limit)
    ensures SumsFit(0, ops, limit) ==>
              MaterializeSpec(PerformAll(Known(0, limit), ops).value, stored) == Ok(Known(Sum(ops), limit))
  {
    KnownSums(0, ops, limit);
  }

  /** One that starts as a delta reads as the stored value plus the sum, under the same condition. */
  lemma DeltaReadsSum(ops: seq<Op>, base: u128, limit: u128)
    requires base <= limit
    ensures PerformAndRead(Fresh(limit), ops, base).Ok? <==> SumsFit(base, ops, limit)
    ensures SumsFit(base, ops, limit) ==> PerformAndRead(Fresh(limit), ops, base).value == base + Sum(ops)
  {
    KnownSums(base, ops, limit);
    DeltaModeIsKnownMode(ops, base, limit);
    if SumsFit(base, ops, limit) {
      var read := PerformAndRead(Fresh(limit), ops, base).value;
      assert Known(base + Sum(ops), limit) == Known(read, limit);
      assert Known(base + Sum(ops), limit).value == Known(read, limit).value;
    }
  }

  /******* Reads between operations *******/

  datatype Action = Do(op: Op) | ReadValue

  /** A list of operations and reads, up to the first error: the values read, and what is left. */
  function Session(a: Agg, actions: seq<Action>, stored: Option<u128>): Result<(seq<u128>, Agg)>
    decreases |actions|
  {
    if actions == [] then Ok(([], a))
    else
      match actions[0]
      case Do(op) => (var next :- Perform(a, op); Session(next, actions[1..], stored))
      case ReadValue =>
        var next :- MaterializeSpec(a, stored);
        var rest :- Session(next, actions[1..], stored);
        Ok(([next.value] + rest.0, rest.1))
  }

  /** The values that a session sees that starts from `base`. */
  function ReadsFrom(base: int, actions: seq<Action>): seq<int>
    decreases |actions|
  {
    if actions == [] then []
    else
      match actions[0]
      case Do(op) => ReadsFrom(base + Effect(op), actions[1..])
      case ReadValue => [base] + ReadsFrom(base, actions[1..])
  }

  /** The value stays in range all along. */
  predicate StaysInRange(base: int, actions: seq<Action>, limit: int)
    decreases |actions|
  {
    && 0 <= base <= limit
    && (actions != [] ==>
          StaysInRange(if actions[0].Do? then base + Effect(actions[0].op) else base, actions[1..], limit))
  }

  lemma {:induction false} KnownSession(base: u128, actions: seq<Action>, limit: u128, stored: Option<u128>)
    requires base <= limit
    ensures var r := Session(Known(base, limit), actions, stored);
            && (r.Ok? <==> StaysInRange(base, actions, limit))
            && (r.Ok? ==> r.value.0 == ReadsFrom(base, actions) && r.value.1.state.Data?)
    decreases |actions|
  {
    if actions == [] {
    } else {
      match actions[0]
      case Do(op) =>
        PerformOnKnown(base, limit, op);
        if 0 <= base + Effect(op) <= limit { KnownSession(base + Effect(op), actions[1..], limit, stored); }
      case ReadValue => KnownSession(base, actions[1..], limit, stored);
    }
  }

  /** Reads are the value read, plus what was added and minus what was taken before them, and a
      session that ends with a read succeeds exactly if the value stays in range all along, no matter
      where it is read: for a delta on a stored value as for the value itself. */
  lemma {:induction false} DeltaSession(a: Agg, actions: seq<Action>, base: u128)
    requires WellRecorded(a) && base <= a.limit
    ensures var r := Session(a, actions + [ReadValue], Some(base));
            var x := base + Net(DeltaOf(a));
            && (r.Ok? <==> HistoryFits(a, base) && StaysInRange(x, actions, a.limit))
            && (r.Ok? ==> r.value.0 == ReadsFrom(x, actions + [ReadValue]))
    decreases |actions|
  {
    var all, x := actions + [ReadValue], base + Net(DeltaOf(a));
    MaterializeMeaning(a, base);
    if actions == [] {
      assert all == [ReadValue] && all[1..] == [];
    } else {
      assert all[1..] == actions[1..] + [ReadValue];
      match actions[0]
      case Do(op) =>
        PerformOnDelta(a, op);
        if Perform(a, op).Ok? { DeltaSession(Perform(a, op).value, actions[1..], base); }
      case ReadValue =>
        if HistoryFits(a, base) {
          KnownSession(x, all[1..], a.limit, Some(base));
          InRangeWithRead(x, actions[1..], a.limit);
        }
    }
  }

  lemma {:induction false} InRangeWithRead(base: int, actions: seq<Action>, limit: int)
    ensures StaysInRange(base, actions + [ReadValue], limit) <==> StaysInRange(base, actions, limit)
    decreases |actions|
  {
    var all := actions + [ReadValue];
    if actions == [] {
      assert all[1..] == [];
    } else {
      assert all[1..] == actions[1..] + [ReadValue];
      InRangeWithRead(if actions[0].Do? then base + Effect(actions[0].op) else base, actions[1..], limit);
    }
  }

  /** Operations with reads between them: a delta over a stored value and the value itself succeed
      alike, when read in the end, and all their reads agree. */
  lemma InterleavedReads(actions: seq<Action>, base: u128, limit: u128)
    requires base <= limit
    ensures var delta := Session(Fresh(limit), actions + [ReadValue], Some(base));
            var known := Session(Known(base, limit), actions + [ReadValue], Some(base));
            && (delta.Ok? <==> StaysInRange(base, actions, limit))
            && (known.Ok? <==> StaysInRange(base, actions, limit))
            && (delta.Ok? ==> delta.value.0 == known.value.0 == ReadsFrom(base, actions + [ReadValue]))
  {
    DeltaSession(Fresh(limit), actions, base);
    KnownSession(base, actions + [ReadValue], limit, Some(base));
    InRangeWithRead(base, actions, limit);
  }

  /** Working on a delta and reading it against a base within the limit succeeds, with the same
      value, exactly when working on the base itself does. */
  lemma DeltaModeIsKnownMode(ops: seq<Op>, base: u128, limit: u128)
    requires base <= limit
    ensures var known := PerformAll(Known(base, limit), ops);
            && (PerformAndRead(Fresh(limit), ops, base).Ok? <==> known.Ok?)
            && (known.Ok? ==> known.value == Known(PerformAndRead(Fresh(limit), ops, base).value, limit))
  {
    DeltaFollowsKnown(Fresh(limit), ops, base);
  }

  /** On a base above the limit, working on a delta always fails; working on the base need not. */
  lemma DeltaModeAboveLimit(ops: seq<Op>, base: u128, limit: u128)
    requires base > limit
    ensures PerformAndRead(Fresh(limit), ops, base).Err?
    ensures PerformAll(Known(base, limit), [Sub(base)]).Ok?
  {
    MisfitStays(Fresh(limit), ops, base);
    assert PerformAll(Known(base, limit), [Sub(base)]) == PerformAll(Known(0, limit), []);
  }

  /******* Cutting a list of operations in two *******/

  lemma {:induction false} PerformStaysDelta(a: Agg, ops: seq<Op>)
    requires WellRecorded(a)
    ensures PerformAll(a, ops).Ok? ==>
              WellRecorded(PerformAll(a, ops).value) && PerformAll(a, ops).value.limit == a.limit
    decreases |ops|
  {
    if ops == [] {
    } else {
      PerformOnDelta(a, ops[0]);
      if Perform(a, ops[0]).Ok? { PerformStaysDelta(Perform(a, ops[0]).value, ops[1..]); }
    }
  }

  lemma {:induction false} PerformConcat(a: Agg, xs: seq<Op>, ys: seq<Op>)
    ensures PerformAll(a, xs).Ok? ==> PerformAll(a, xs + ys) == PerformAll(PerformAll(a, xs).value, ys)
    ensures PerformAll(a, xs).Err? ==> PerformAll(a, xs + ys) == PerformAll(a, xs)
    decreases |xs|
  {
    if xs == [] {
      assert xs + ys == ys;
    } else {
      assert (xs + ys)[1..] == xs[1..] + ys;
      if Perform(a, xs[0]).Ok? { PerformConcat(Perform(a, xs[0]).value, xs[1..], ys); }
    }
  }

  /** `whole` is `late` performed on top of `early`. */
  predicate OnTop(early: Agg, late: Agg, whole: Agg)
    requires WellRecorded(early) && WellRecorded(late) && WellRecorded(whole)
  {
    var shift := Net(DeltaOf(early));
    && Net(DeltaOf(whole)) == shift + Net(DeltaOf(late))
    && whole.history.value.maxPositive == Max(early.history.value.maxPositive, shift + late.history.value.maxPositive)
    && whole.history.value.minNegative == Max(early.history.value.minNegative, late.history.value.minNegative - shift)
  }

  lemma {:induction false} PerformOnTop(early: Agg, late: Agg, whole: Agg, ops: seq<Op>)
    requires WellRecorded(early) && WellRecorded(late) && WellRecorded(whole) && OnTop(early, late, whole)
    requires PerformAll(late, ops).Ok? && PerformAll(whole, ops).Ok?
    ensures WellRecorded(PerformAll(late, ops).value) && WellRecorded(PerformAll(whole, ops).value)
    ensures OnTop(early, PerformAll(late, ops).value, PerformAll(whole, ops).value)
    decreases |ops|
  {
    if ops == [] {
    } else {
      PerformOnDelta(late, ops[0]);
      PerformOnDelta(whole, ops[0]);
      PerformOnTop(early, Perform(late, ops[0]).value, Perform(whole, ops[0]).value, ops[1..]);
    }
  }

  /** The delta of a list of operations is the delta of its second part merged onto that of its
      first part, in update and in both history bounds, wherever all of them exist. */
  lemma SplitIsMerge(xs: seq<Op>, ys: seq<Op>, limit: u128)
    requires PerformAll(Fresh(limit), xs).Ok? && PerformAll(Fresh(limit), ys).Ok? &&
             PerformAll(Fresh(limit), xs + ys).Ok?
    ensures var first, second, whole := PerformAll(Fresh(limit), xs).value, PerformAll(Fresh(limit), ys).value,
            PerformAll(Fresh(limit), xs + ys).value;
            && WellRecorded(first) && WellRecorded(second) && WellRecorded(whole)
            && (MergeOnto(DeltaOf(second), DeltaOf(first)).Ok? ==>
               MergeOnto(DeltaOf(second), DeltaOf(first)).value == DeltaOf(whole))
  {
    var first, second := PerformAll(Fresh(limit), xs).value, PerformAll(Fresh(limit), ys).value;
    PerformStaysDelta(Fresh(limit), xs);
    PerformStaysDelta(Fresh(limit), ys);
    PerformConcat(Fresh(limit), xs, ys);
    PerformStaysDelta(first, ys);
    PerformOnTop(first, Fresh(limit), first, ys);
    if MergeOnto(DeltaOf(second), DeltaOf(first)).Ok? { MergeMeaning(DeltaOf(second), DeltaOf(first)); }
  }

  /** The value that a list of operations, recorded as a delta, makes of a base. */
  function DeltaResult(ops: seq<Op>, limit: u128, base: u128): Result<u128>
  {
    PerformAndRead(Fresh(limit), ops, base)
  }

  lemma DeltaResultIsApplication(ops: seq<Op>, limit: u128, base: u128)
    ensures PerformAll(Fresh(limit), ops).Ok? ==> WellRecorded(PerformAll(Fresh(limit), ops).value)
    ensures PerformAll(Fresh(limit), ops).Ok? ==>
            DeltaResult(ops, limit, base) == ApplyTo(DeltaOf(PerformAll(Fresh(limit), ops).value), base)
  {
    PerformStaysDelta(Fresh(limit), ops);
  }

  /** On every base, a list of operations has the result of its two parts one after the other,
      even where one of the three deltas cannot be recorded. */
  lemma SplitPreservesMeaning(xs: seq<Op>, ys: seq<Op>, limit: u128, base: u128)
    ensures var middle := DeltaResult(xs, limit, base);
            var split := if middle.Ok? then DeltaResult(ys, limit, middle.value) else middle;
            && (DeltaResult(xs + ys, limit, base).Ok? <==> split.Ok?)
            && (split.Ok? ==> DeltaResult(xs + ys, limit, base) == split)
  {
    if base > limit {
      DeltaModeAboveLimit(xs, base, limit);
      DeltaModeAboveLimit(xs + ys, base, limit);
    } else {
      DeltaModeIsKnownMode(xs, base, limit);
      DeltaModeIsKnownMode(xs + ys, base, limit);
      PerformConcat(Known(base, limit), xs, ys);
      if DeltaResult(xs, limit, base).Ok? {
        KnownStaysBelow(base, xs, limit);
        DeltaModeIsKnownMode(ys, DeltaResult(xs, limit, base).value, limit);
      }
    }
  }

  lemma {:induction false} KnownStaysBelow(base: u128, ops: seq<Op>, limit: u128)
    requires base <= limit && PerformAll(Known(base, limit), ops).Ok?
    ensures PerformAll(Known(base, limit), ops).value.value <= limit
    decreases |ops|
  {
    if ops == [] {
    } else {
      PerformOnKnown(base, limit, ops[0]);
      KnownStaysBelow(base + Effect(ops[0]), ops[1..], limit);
    }
  }
}
