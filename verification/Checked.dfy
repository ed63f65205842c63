/** Option and Result types, machine-integer ranges and the checked operations
    the program computes with.  A checked operation yields None where the
    original returns None; a conversion that would abort the transaction is
    also modelled as None, because an abort and an error leave the same state. */
module Checked {

  datatype Option<+T> = None | Some(value: T) {
    predicate IsFailure() { None? }

    function PropagateFailure<U>(): Option<U>
      requires None?
    {
      None
    }

    function Extract(): T
      requires Some?
    {
      value
    }

    function OrError<E>(error: E): Result<T, E> {
      if Some? then Ok(value) else Err(error)
    }
  }

  datatype Result<+T, +E> = Ok(value: T) | Err(error: E) {
    predicate IsFailure() { Err? }

    function PropagateFailure<U>(): Result<U, E>
      requires Err?
    {
      Err(error)
    }

    function Extract(): T
      requires Ok?
    {
      value
    }
  }

  const U64_LIMIT: nat := 0x1_0000_0000_0000_0000
  const U128_LIMIT: nat := 0x1_0000_0000_0000_0000_0000_0000_0000_0000
  const U256_LIMIT: nat := U128_LIMIT * U128_LIMIT

  type U64 = x: nat | x < U64_LIMIT
  type U128 = x: nat | x < U128_LIMIT
  type U256 = x: nat | x < U256_LIMIT

  function Below(limit: nat, x: nat): Option<nat> {
    if x < limit then Some(x) else None
  }

  function Add128(x: nat, y: nat): Option<U128> {
    Below(U128_LIMIT, x + y)
  }

  function Sub(x: nat, y: nat): Option<nat> {
    if y <= x then Some(x - y) else None
  }

  function Div(x: nat, y: nat): Option<nat> {
    if y == 0 then None else Some(x / y)
  }

  /** Smallest q with q * d >= n. */
  function CeilQuotient(n: nat, d: nat): nat
    requires d > 0
  {
    if n % d == 0 then n / d else n / d + 1
  }

  /** Ceiling division as the swap maths uses it: it refuses a zero divisor and a
      dividend smaller than the divisor, and returns the ceiling quotient together
      with the smallest divisor that still gives that quotient. */
  function CeilDiv(n: nat, d: nat): Option<(nat, nat)> {
    if d == 0 || n / d == 0 then None
    else
      var q := CeilQuotient(n, d);
      Some((q, CeilQuotient(n, q)))
  }
}
