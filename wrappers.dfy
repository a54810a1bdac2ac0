/** Option and Result, the shapes of Rust's `Option<T>` and `Result<T, E>`. */
module Wrappers {

  datatype Option<+T> = None | Some(value: T)

  datatype Result<+T, +E> = Ok(value: T) | Err(error: E)

  /**
   * `xs.into_iter().map(f).collect::<Result<Vec<_>, _>>()`: the values of `f` in order, or the
   * first error, after which no further element is looked at.
   */
  function CollectMap<A, T, E>(f: A -> Result<T, E>, xs: seq<A>): (r: Result<seq<T>, E>)
    ensures r.Ok? ==> |r.value| == |xs|
    decreases |xs|
  {
    if xs == [] then Ok([])
    else
      match f(xs[0])
      case Err(e) => Err(e)
      case Ok(v) =>
        match CollectMap(f, xs[1..])
        case Err(e) => Err(e)
        case Ok(rest) => Ok([v] + rest)
  }

  /** Collecting succeeds exactly when every element maps to a value, and then keeps those values in order. */
  lemma {:induction false} CollectMapOk<A, T, E>(f: A -> Result<T, E>, xs: seq<A>)
    ensures CollectMap(f, xs).Ok? <==> forall k :: 0 <= k < |xs| ==> f(xs[k]).Ok?
    ensures CollectMap(f, xs).Ok? ==> forall k :: 0 <= k < |xs| ==> CollectMap(f, xs).value[k] == f(xs[k]).value
    decreases |xs|
  {
    if xs != [] {
      CollectMapOk(f, xs[1..]);
      assert forall k :: 1 <= k < |xs| ==> xs[k] == xs[1..][k - 1];
    }
  }

  /** Collecting a first element that maps to a value onto a collection that succeeds. */
  lemma {:induction false} CollectMapCons<A, T, E>(f: A -> Result<T, E>, x: A, xs: seq<A>)
    requires f(x).Ok? && CollectMap(f, xs).Ok?
    ensures CollectMap(f, [x] + xs) == Ok([f(x).value] + CollectMap(f, xs).value)
  {
    assert ([x] + xs)[1..] == xs;
  }

  /** A failed collection reports an error that some element maps to. */
  lemma {:induction false} CollectMapErrorOf<A, T, E>(f: A -> Result<T, E>, xs: seq<A>)
    requires CollectMap(f, xs).Err?
    ensures exists k :: 0 <= k < |xs| && f(xs[k]) == Err(CollectMap(f, xs).error)
    decreases |xs|
  {
    if f(xs[0]).Ok? {
      CollectMapErrorOf(f, xs[1..]);
      var k :| 0 <= k < |xs[1..]| && f(xs[1..][k]) == Err(CollectMap(f, xs[1..]).error);
      assert xs[1..][k] == xs[k + 1];
    }
  }

  /** A failed collection reports the error of the first element that maps to an error. */
  lemma {:induction false} CollectMapFirstError<A, T, E>(f: A -> Result<T, E>, xs: seq<A>, k: nat)
    requires k < |xs| && f(xs[k]).Err?
    requires forall j :: 0 <= j < k ==> f(xs[j]).Ok?
    ensures CollectMap(f, xs) == Err(f(xs[k]).error)
    decreases k
  {
    if k > 0 {
      assert forall j :: 0 <= j < k - 1 ==> xs[1..][j] == xs[j + 1];
      CollectMapFirstError(f, xs[1..], k - 1);
    }
  }

  /** Where every element maps to its counterpart in `ys`, collecting gives `ys`. */
  lemma {:induction false} CollectMapAll<A, T, E>(f: A -> Result<T, E>, xs: seq<A>, ys: seq<T>)
    requires |xs| == |ys| && forall k :: 0 <= k < |xs| ==> f(xs[k]) == Ok(ys[k])
    ensures CollectMap(f, xs) == Ok(ys)
  {
    CollectMapOk(f, xs);
    assert CollectMap(f, xs).Ok?;
    var r := CollectMap(f, xs).value;
    assert forall k :: 0 <= k < |xs| ==> r[k] == ys[k];
    assert r == ys;
  }
}
