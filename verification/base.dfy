/** Shared vocabulary of the model: failure-compatible wrappers, the fault
    kinds a Rust call can end in, machine-width constants and the sign type
    returned by the geometric predicates. */
module Base {

  /** Rust's `Option`. */
  datatype Option<+T> = None | Some(value: T) {
    predicate IsFailure() { None? }

    function PropagateFailure<U>(): Option<U>
      requires None?
    {
      None
    }

    function Extract(): T
      requires Some?
    {
      value
    }

    /** `unwrap_or`: the default is used exactly when there is no value. */
    function GetOr(default: T): (r: T)
      ensures Some? ==> r == value
      ensures None? ==> r == default
    {
      match this
      case Some(v) => v
      case None => default
    }
  }

  /** How a call of the source can end other than normally.
      - `Error`: an `Err` value the source returns to its caller;
      - `Panic`: a Rust panic (index out of bounds, `unwrap` on `None`,
        unsigned underflow, an explicit `panic!`);
      - `Diverge`: a loop of the source that has no bound did not finish
        within the step budget the model gives it. */
  datatype Fault = Error(reason: string) | Panic(reason: string) | Diverge(reason: string)

  /** Rust's `Result<T, anyhow::Error>`, with panics folded in as a fault kind. */
  datatype Result<+T> = Ok(value: T) | Err(fault: Fault) {
    predicate IsFailure() { Err? }

    function PropagateFailure<U>(): Result<U>
      requires Err?
    {
      Err(fault)
    }

    function Extract(): T
      requires Ok?
    {
      value
    }

    predicate IsError() { Err? && fault.Error? }
    predicate IsPanic() { Err? && fault.Panic? }
  }

  function Fail<T>(reason: string): (r: Result<T>)
    ensures r.IsError()
  {
    Err(Error(reason))
  }

  function Crash<T>(reason: string): (r: Result<T>)
    ensures r.IsPanic()
  {
    Err(Panic(reason))
  }

  /** `usize::MAX` on a 64-bit target. */
  const USIZE_MAX: nat := 0xFFFF_FFFF_FFFF_FFFF

  /** The value every geometric predicate is normalised to: -1, 0 or 1.
      The predicates themselves are foreign code; the model takes them as
      function parameters of this type. */
  type Sign = x: int | -1 <= x <= 1

  /** The indices `lo`, `lo + 1`, ... given to a batch of `n` new vertices. */
  function Range(lo: nat, n: nat): (r: seq<nat>)
    ensures |r| == n && forall k :: 0 <= k < n ==> r[k] == lo + k
  {
    seq(n, k => lo + k)
  }
}
