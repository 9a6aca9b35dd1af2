/** Outcomes of a load, and the all-or-nothing traversal both loaders perform:
    every element is mapped in order, and the first element whose mapping fails
    aborts the whole traversal, so that no partial sequence is ever returned. */
module Results {

  /** A load either produces a value or stops with the error that aborted it. */
  datatype Result<+T, +E> = Ok(value: T) | Err(error: E)

  /** Maps `f` over `xs`, element by element from the front. The result is `Ok` of
      the images in order when every element maps successfully, and otherwise the
      error of the first element that fails. Defined on the last element so that a
      loop over a growing prefix extends it one step at a time. */
  function MapAll<A, B, E>(xs: seq<A>, f: A -> Result<B, E>): (r: Result<seq<B>, E>)
    ensures r.Ok? ==> |r.value| == |xs|
    decreases |xs|
  {
    if xs == [] then Ok([])
    else
      match MapAll(xs[..|xs| - 1], f)
      case Err(e) => Err(e)
      case Ok(done) =>
        match f(xs[|xs| - 1])
        case Err(e) => Err(e)
        case Ok(y) => Ok(done + [y])
  }

  /** The traversal succeeds exactly when every element maps successfully. */
  lemma {:induction false} MapAllSucceedsIff<A, B, E>(xs: seq<A>, f: A -> Result<B, E>)
    ensures MapAll(xs, f).Ok? <==> forall i :: 0 <= i < |xs| ==> f(xs[i]).Ok?
    decreases |xs|
  {
    if xs != [] {
      var init := xs[..|xs| - 1];
      MapAllSucceedsIff(init, f);
      assert forall i :: 0 <= i < |init| ==> init[i] == xs[i];
    }
  }

  /** A successful traversal yields one image per element, in the same order, and
      conversely: `ys` is the result exactly when it lists the images in order. */
  lemma {:induction false} MapAllOkIff<A, B, E>(xs: seq<A>, f: A -> Result<B, E>, ys: seq<B>)
    ensures MapAll(xs, f) == Ok(ys) <==>
      |ys| == |xs| && forall i :: 0 <= i < |xs| ==> f(xs[i]) == Ok(ys[i])
    decreases |xs|
  {
    if xs != [] {
      var init := xs[..|xs| - 1];
      assert forall i :: 0 <= i < |init| ==> init[i] == xs[i];
      if ys != [] {
        var front := ys[..|ys| - 1];
        MapAllOkIff(init, f, front);
        assert ys == front + [ys[|ys| - 1]];
        assert forall i :: 0 <= i < |front| ==> front[i] == ys[i];
      }
      match MapAll(init, f)
      case Err(_) =>
      case Ok(done) =>
        MapAllOkIff(init, f, done);
        if MapAll(xs, f) == Ok(ys) {
          assert ys == done + [ys[|ys| - 1]];
        }
    }
  }

  /** A failed traversal carries the error of the first failing element: every
      element before it maps successfully. */
  lemma {:induction false} MapAllFirstError<A, B, E>(xs: seq<A>, f: A -> Result<B, E>)
    ensures MapAll(xs, f).Err? ==>
      exists k :: 0 <= k < |xs| && f(xs[k]) == Err(MapAll(xs, f).error) &&
        forall j :: 0 <= j < k ==> f(xs[j]).Ok?
    decreases |xs|
  {
    if xs != [] {
      var init := xs[..|xs| - 1];
      assert forall i :: 0 <= i < |init| ==> init[i] == xs[i];
      MapAllFirstError(init, f);
      MapAllSucceedsIff(init, f);
      if MapAll(init, f).Ok? && MapAll(xs, f).Err? {
        var k := |xs| - 1;
        assert f(xs[k]) == Err(MapAll(xs, f).error);
      }
    }
  }

  /** Once a prefix fails, the whole traversal fails with the same error: nothing
      after the first failing element is looked at. */
  lemma {:induction false} MapAllPrefixError<A, B, E>(xs: seq<A>, k: nat, f: A -> Result<B, E>)
    requires k <= |xs|
    requires MapAll(xs[..k], f).Err?
    ensures MapAll(xs, f) == MapAll(xs[..k], f)
    decreases |xs|
  {
    if k == |xs| {
      assert xs[..k] == xs;
    } else {
      var init := xs[..|xs| - 1];
      assert init[..k] == xs[..k];
      MapAllPrefixError(init, k, f);
    }
  }

  /** Two traversals whose elements map pointwise to the same outcomes have the same
      result, whatever else distinguishes the elements. */
  lemma {:induction false} MapAllAgree<A, C, B, E>(xs: seq<A>, f: A -> Result<B, E>, ys: seq<C>, g: C -> Result<B, E>)
    requires |xs| == |ys|
    requires forall i :: 0 <= i < |xs| ==> f(xs[i]) == g(ys[i])
    ensures MapAll(xs, f) == MapAll(ys, g)
    decreases |xs|
  {
    if xs != [] {
      var n := |xs| - 1;
      assert forall i :: 0 <= i < n ==> xs[..n][i] == xs[i] && ys[..n][i] == ys[i];
      MapAllAgree(xs[..n], f, ys[..n], g);
    }
  }
}
