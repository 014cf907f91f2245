/** Small shared vocabulary: options, results, the 128-bit integers and the keys of the
    state store. */
module Base {

  datatype Option<+T> = None | Some(value: T)

  /** A result whose error is an abort code, as the aggregator's partial functions return it. */
  datatype Result<+T> = Ok(value: T) | Err(code: nat) {
    predicate IsFailure() { Err? }

    function PropagateFailure<U>(): Result<U>
      requires Err?
    {
      Err(code)
    }

    function Extract(): T
      requires Ok?
    {
      value
    }
  }

  const U128_SIZE: int := 0x1_00000000_00000000_00000000_00000000

  type u128 = x: int | 0 <= x < U128_SIZE

  /** A key of the state store.  Access paths may point at code (modules). */
  datatype Key = AccessPath(path: nat, isCode: bool) | TableItem(handle: nat, item: nat)

  function Max(x: int, y: int): int { if x < y then y else x }

  function Min(x: int, y: int): int { if x < y then x else y }
}
