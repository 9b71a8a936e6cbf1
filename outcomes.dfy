/** Option and Result: Python's None and the exceptions that abort a run. */
module Outcomes {

  /** A value that may be absent (Python's None). */
  datatype Option<+T> = None | Some(value: T)

  /** The value of a computation, or the error that aborted it. */
  datatype Result<+T, +E> = Ok(value: T) | Err(error: E)

  /**
    * `f` applied to each element in order, as a list comprehension does it:
    * the first element `f` fails on aborts the whole map with its error.
    */
  function MapAll<A, B, E>(xs: seq<A>, f: A -> Result<B, E>): (r: Result<seq<B>, E>)
    ensures r.Ok? <==> forall i :: 0 <= i < |xs| ==> f(xs[i]).Ok?
    ensures r.Ok? ==> |r.value| == |xs| && forall i :: 0 <= i < |xs| ==> f(xs[i]) == Ok(r.value[i])
    ensures r.Err? ==>
      exists i :: 0 <= i < |xs| && f(xs[i]) == Err(r.error) && forall j :: 0 <= j < i ==> f(xs[j]).Ok?
  {
    if xs == [] then Ok([])
    else
      match f(xs[0])
      case Err(e) => Err(e)
      case Ok(y) =>
        match MapAll(xs[1..], f)
        case Err(e) =>
          assert forall j :: 0 < j <= |xs[1..]| ==> xs[1..][j - 1] == xs[j];
          Err(e)
        case Ok(ys) => Ok([y] + ys)
  }

  /** Mapping over two elements that both succeed gives their two values, in order. */
  lemma MapAllPair<A, B, E>(a: A, b: A, f: A -> Result<B, E>)
    requires f(a).Ok? && f(b).Ok?
    ensures MapAll([a, b], f) == Ok([f(a).value, f(b).value])
  {
    var xs := [a, b];
    assert xs[0] == a && xs[1] == b;
    var r := MapAll(xs, f);
    assert r.Ok?;
    assert r.value[0] == f(a).value && r.value[1] == f(b).value;
    assert r.value == [f(a).value, f(b).value];
  }
}
