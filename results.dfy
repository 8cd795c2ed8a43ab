/** Failure-compatible wrappers used by the decoders: a value that may be absent, and a
    value or the error that stopped its computation (a Python exception or exit code). */
module Results {

  datatype Option<+T> = None | Some(value: T)

  datatype Result<+T, +E> = Ok(value: T) | Err(error: E) {

    predicate IsFailure() {
      Err?
    }

    function PropagateFailure<U>(): Result<U, E>
      requires Err?
    {
      Err(error)
    }

    function Extract(): T
      requires Ok?
    {
      value
    }
  }

  /** The results of f(0), ..., f(n-1) in order, computed one after another; the first
      failure is the error. */
  function Collect<T, E>(f: nat -> Result<T, E>, n: nat): Result<seq<T>, E>
  {
    if n == 0 then Ok([])
    else
      match Collect(f, n - 1)
      case Err(e) => Err(e)
      case Ok(init) =>
        match f(n - 1)
        case Err(e) => Err(e)
        case Ok(x) => Ok(init + [x])
  }

  /** Once a step fails, collecting more steps fails with the same error. */
  lemma {:induction false} CollectErrorExtends<T, E>(f: nat -> Result<T, E>, m: nat, n: nat)
    requires m <= n
    requires Collect(f, m).Err?
    ensures Collect(f, n) == Collect(f, m)
    decreases n - m
  {
    if m < n {
      CollectErrorExtends(f, m, n - 1);
    }
  }

  /** When each of the first n steps succeeds, collecting them gives their values. */
  lemma {:induction false} CollectAll<T, E>(f: nat -> Result<T, E>, n: nat, values: seq<T>)
    requires n <= |values|
    requires forall j :: 0 <= j < n ==> f(j) == Ok(values[j])
    ensures Collect(f, n) == Ok(values[..n])
    decreases n
  {
    if n > 0 {
      CollectAll(f, n - 1, values);
      assert values[..n - 1] + [values[n - 1]] == values[..n];
    }
  }
}
