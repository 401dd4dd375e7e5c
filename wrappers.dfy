/** Option for Java's nullable references and Optional, Result for the exceptions the library raises. */
module Wrappers {

  datatype Option<+T> = None | Some(value: T)

  /** The failures the modelled code raises, by Java exception kind. */
  datatype Error =
    | BadRequest(message: string)        // HttpStatusException with HttpStatus.BAD_REQUEST
    | IllegalArgument(message: string)   // IllegalArgumentException
    | NullPointer                        // NullPointerException from a null receiver or Map.of(k, null)
    | MapperFailure                      // an IOException raised inside the JSON mapper

  datatype Result<+T> = Ok(value: T) | Err(error: Error) {
    predicate IsFailure() { Err? }

    function PropagateFailure<U>(): Result<U>
      requires Err?
    {
      Err(error)
    }

    function Extract(): T
      requires Ok?
    {
      value
    }
  }

  /**
   * Each element converted in turn, in order: a Java loop or stream whose step may throw, the first
   * element that fails stopping the whole.
   */
  function MapAll<A, B>(f: A -> Result<B>, xs: seq<A>): Result<seq<B>>
    decreases |xs|
  {
    if xs == [] then Ok([])
    else
      var init :- MapAll(f, xs[..|xs| - 1]);
      var last :- f(xs[|xs| - 1]);
      Ok(init + [last])
  }

  /** Element `i` is the first element whose conversion fails. */
  predicate FirstFailure<A, B>(f: A -> Result<B>, xs: seq<A>, i: int)
  {
    0 <= i < |xs| && f(xs[i]).Err? && forall j :: 0 <= j < i ==> f(xs[j]).Ok?
  }

  /**
   * The conversion succeeds exactly when every element converts, and then gives one result per element in
   * the same order; otherwise the error is that of the first element that fails.
   */
  lemma {:induction false} MapAllSpec<A, B>(f: A -> Result<B>, xs: seq<A>)
    ensures MapAll(f, xs).Ok? <==> forall i :: 0 <= i < |xs| ==> f(xs[i]).Ok?
    ensures MapAll(f, xs).Ok? ==> |MapAll(f, xs).value| == |xs|
    ensures MapAll(f, xs).Ok? ==> forall i :: 0 <= i < |xs| ==> f(xs[i]) == Ok(MapAll(f, xs).value[i])
    ensures MapAll(f, xs).Err? ==>
      exists i :: FirstFailure(f, xs, i) && MapAll(f, xs).error == f(xs[i]).error
    decreases |xs|
  {
    if xs != [] {
      var init, last := xs[..|xs| - 1], xs[|xs| - 1];
      MapAllSpec(f, init);
      assert forall i :: 0 <= i < |init| ==> init[i] == xs[i];
      if MapAll(f, init).Err? {
        var i :| FirstFailure(f, init, i) && MapAll(f, init).error == f(init[i]).error;
        assert FirstFailure(f, xs, i);
      } else if f(last).Err? {
        assert FirstFailure(f, xs, |xs| - 1);
      }
    }
  }

  /** There is only one first element that fails, so the conversion fails with that element's error. */
  lemma FirstFailureUnique<A, B>(f: A -> Result<B>, xs: seq<A>, i: int)
    requires FirstFailure(f, xs, i)
    ensures MapAll(f, xs) == Err(f(xs[i]).error)
  {
    MapAllSpec(f, xs);
    var k :| FirstFailure(f, xs, k) && MapAll(f, xs).error == f(xs[k]).error;
    assert !(k < i) && !(i < k);
  }

  /** Once a prefix of the elements fails, the later elements are never converted: the whole fails alike. */
  lemma {:induction false} MapAllErrExtends<A, B>(f: A -> Result<B>, xs: seq<A>, n: nat)
    requires n <= |xs| && MapAll(f, xs[..n]).Err?
    ensures MapAll(f, xs) == MapAll(f, xs[..n])
    decreases |xs| - n
  {
    if n < |xs| {
      var upTo := xs[..n + 1];
      assert |upTo| == n + 1 && upTo[..|upTo| - 1] == xs[..n];
      MapAllErrExtends(f, xs, n + 1);
    } else {
      assert xs[..n] == xs;
    }
  }

  /** An element that fails after a prefix that converts makes the whole fail with its error. */
  lemma MapAllFailsAt<A, B>(f: A -> Result<B>, xs: seq<A>, i: nat, prefix: seq<B>)
    requires i < |xs| && MapAll(f, xs[..i]) == Ok(prefix) && f(xs[i]).Err?
    ensures MapAll(f, xs) == Err(f(xs[i]).error)
  {
    var upTo := xs[..i + 1];
    assert |upTo| == i + 1 && upTo[..|upTo| - 1] == xs[..i] && upTo[|upTo| - 1] == xs[i];
    MapAllErrExtends(f, xs, i + 1);
  }

  /** One more element that converts extends the converted prefix by its result. */
  lemma MapAllSnoc<A, B>(f: A -> Result<B>, xs: seq<A>, i: nat, prefix: seq<B>, y: B)
    requires i < |xs| && MapAll(f, xs[..i]) == Ok(prefix) && f(xs[i]) == Ok(y)
    ensures MapAll(f, xs[..i + 1]) == Ok(prefix + [y])
  {
    var upTo := xs[..i + 1];
    assert |upTo| == i + 1 && upTo[..|upTo| - 1] == xs[..i] && upTo[|upTo| - 1] == xs[i];
  }
}
