/** Option and Result, the latter fixed to the loader's error type. */
module Wrappers {
  import opened Errors

  datatype Option<+T> = None | Some(value: T)

  datatype Result<+T> = Ok(value: T) | Err(error: Error) {
    predicate IsFailure() { Err? }

    function PropagateFailure<U>(): Result<U>
      requires Err?
    {
      Err(error)
    }

    function Extract(): T
      requires Ok?
    {
      value
    }
  }

  /** `f` applied to every element in order, stopping at the first failure. */
  function All<T, U>(xs: seq<T>, f: T -> Result<U>): (r: Result<seq<U>>)
    ensures r.Ok? ==> |r.value| == |xs|
  {
    if xs == [] then Ok([])
    else
      var init :- All(xs[..|xs| - 1], f);
      var last :- f(xs[|xs| - 1]);
      Ok(init + [last])
  }

  /** `f` applied to the elements in order until one fails: the results gathered before the
      failure, and the failure's error if there is one. */
  function Collect<T, U>(xs: seq<T>, f: T -> Result<U>): (seq<U>, Option<Error>)
  {
    if xs == [] then ([], None)
    else match f(xs[0])
      case Err(e) => ([], Some(e))
      case Ok(y) =>
        var (rest, e) := Collect(xs[1..], f);
        ([y] + rest, e)
  }

  /** What Collect gathers: the results of `f` on a prefix of `xs`, and then either nothing
      more, or the error of the first element after the prefix. */
  lemma {:induction false} CollectSpec<T, U>(xs: seq<T>, f: T -> Result<U>)
    ensures var r := Collect(xs, f);
      |r.0| <= |xs| &&
      (forall k :: 0 <= k < |r.0| ==> f(xs[k]) == Ok(r.0[k])) &&
      (r.1.None? ==> |r.0| == |xs|) &&
      (r.1.Some? ==> |r.0| < |xs| && f(xs[|r.0|]) == Err(r.1.value))
  {
    if xs != [] && f(xs[0]).Ok? {
      CollectSpec(xs[1..], f);
    }
  }

  /** Collect is determined by its contract: results that `f` gives for a prefix of `xs`, and
      either the whole of `xs` or the error of the element right after the prefix. */
  lemma CollectOf<T, U>(xs: seq<T>, f: T -> Result<U>, ys: seq<U>, e: Option<Error>)
    requires |ys| <= |xs|
    requires forall k :: 0 <= k < |ys| ==> f(xs[k]) == Ok(ys[k])
    requires e.None? ==> |ys| == |xs|
    requires e.Some? ==> |ys| < |xs| && f(xs[|ys|]) == Err(e.value)
    ensures Collect(xs, f) == (ys, e)
  {
    CollectSpec(xs, f);
    var (zs, d) := Collect(xs, f);
    forall k | 0 <= k < |ys| && k < |zs|
      ensures zs[k] == ys[k]
    {
      assert Ok(zs[k]) == f(xs[k]) == Ok(ys[k]);
    }
    assert |zs| == |ys|;
    assert zs == ys;
  }

  /** When `f` succeeds on every element, All yields exactly its results. */
  lemma {:induction false} AllValues<T, U>(xs: seq<T>, f: T -> Result<U>, ys: seq<U>)
    requires |ys| == |xs|
    requires forall k :: 0 <= k < |xs| ==> f(xs[k]) == Ok(ys[k])
    ensures All(xs, f) == Ok(ys)
  {
    if xs != [] {
      var n := |xs| - 1;
      assert forall k :: 0 <= k < n ==> xs[..n][k] == xs[k] && ys[..n][k] == ys[k];
      AllValues(xs[..n], f, ys[..n]);
      assert ys == ys[..n] + [ys[n]];
    }
  }

  /** When `f` succeeds before position i and fails at i, All fails with the error at i. */
  lemma {:induction false} AllFirstError<T, U>(xs: seq<T>, f: T -> Result<U>, i: nat)
    requires i < |xs| && f(xs[i]).Err?
    requires forall k :: 0 <= k < i ==> f(xs[k]).Ok?
    ensures All(xs, f) == Err(f(xs[i]).error)
  {
    var n := |xs| - 1;
    assert forall k :: 0 <= k < n ==> xs[..n][k] == xs[k];
    if i < n {
      AllFirstError(xs[..n], f, i);
    } else {
      var ys := seq(n, k requires 0 <= k < n => f(xs[k]).value);
      AllValues(xs[..n], f, ys);
    }
  }

  /** The outcome of loading an external document (an external tileset or an object template)
      through the file system and the XML decoder, both outside the model: the file could not be
      opened, its content could not be decoded, or the decoded value. */
  datatype Load<+T> = OpenFailed(cause: Error) | DecodeFailed(cause: Error) | Loaded(value: T)
}
