/** Results the other modules share: a value that may be missing, and the outcome of a
    call that may fail, usable with `:-`. */
module Wrappers {

  datatype Option<+T> = None | Some(value: T)

  /** The Rust `Result<T, EngineError>`, with the error's text left out. */
  datatype Res<+T> = Ok(value: T) | Err {
    predicate IsFailure() { Err? }

    function PropagateFailure<U>(): Res<U>
      requires Err?
    {
      Err
    }

    function Extract(): T
      requires Ok?
    {
      value
    }
  }

  /** The Rust `Result<(), EngineError>`. */
  datatype Done = Pass | Fail {
    predicate IsFailure() { Fail? }

    function PropagateFailure<U>(): Res<U>
      requires Fail?
    {
      Err
    }
  }

  /** First occurrences, in order. */
  function Nub<T(==, !new)>(items: seq<T>): (r: seq<T>)
    ensures forall x :: x in r <==> x in items
    ensures r == [] <==> items == []
    ensures forall i, j :: 0 <= i < j < |r| ==> r[i] != r[j]
  {
    if items == [] then []
    else
      var r := Nub(items[..|items| - 1]);
      var last := items[|items| - 1];
      if last in r then r else r + [last]
  }

  lemma Associate<T>(a: seq<T>, b: seq<T>, c: seq<T>)
    ensures a + (b + c) == (a + b) + c
  {
  }
}
