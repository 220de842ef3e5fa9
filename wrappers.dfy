/** Success-or-error results, standing for the exceptions main.py raises,
    and the all-or-nothing map that a list comprehension over a raising
    constructor amounts to. */
module Wrappers {

  datatype Result<+T, +E> = Success(value: T) | Failure(error: E)

  /** f applied to every element of xs, in order; the first element on
      which f fails ends the whole map with that failure. */
  function MapAll<A, B, E>(xs: seq<A>, f: A -> Result<B, E>): (r: Result<seq<B>, E>)
    ensures r.Success? <==> forall i :: 0 <= i < |xs| ==> f(xs[i]).Success?
    ensures r.Success? ==> |r.value| == |xs|
  {
    if xs == [] then Success([])
    else
      assert forall i :: 0 <= i < |xs| - 1 ==> xs[..|xs| - 1][i] == xs[i];
      match MapAll(xs[..|xs| - 1], f)
      case Failure(e) => Failure(e)
      case Success(ys) =>
        match f(xs[|xs| - 1])
        case Failure(e) => Failure(e)
        case Success(y) => Success(ys + [y])
  }

  /** A successful map has one result per element, each being f's result
      on that element. */
  lemma {:induction false} MapAllPointwise<A, B, E>(xs: seq<A>, f: A -> Result<B, E>, ys: seq<B>)
    requires MapAll(xs, f) == Success(ys)
    ensures |ys| == |xs|
    ensures forall i :: 0 <= i < |xs| ==> f(xs[i]) == Success(ys[i])
  {
    if xs != [] {
      var p := xs[..|xs| - 1];
      var ys' := MapAll(p, f).value;
      MapAllPointwise(p, f, ys');
      assert ys == ys' + [f(xs[|xs| - 1]).value];
    }
  }

  /** When f succeeds on every element, so does the map. */
  lemma {:induction false} MapAllSucceeds<A, B, E>(xs: seq<A>, f: A -> Result<B, E>)
    requires forall i :: 0 <= i < |xs| ==> f(xs[i]).Success?
    ensures MapAll(xs, f).Success?
  {
    if xs != [] {
      var p := xs[..|xs| - 1];
      assert forall i :: 0 <= i < |p| ==> p[i] == xs[i];
      MapAllSucceeds(p, f);
    }
  }

  /** A failure that f produces on no element is not the map's result. */
  lemma {:induction false} MapAllNeverFailsWith<A, B, E>(xs: seq<A>, f: A -> Result<B, E>, e: E)
    requires forall i :: 0 <= i < |xs| ==> f(xs[i]) != Failure(e)
    ensures MapAll(xs, f) != Failure(e)
  {
    if xs != [] {
      var p := xs[..|xs| - 1];
      assert forall i :: 0 <= i < |p| ==> p[i] == xs[i];
      MapAllNeverFailsWith(p, f, e);
    }
  }

  /** A failed map reports the failure of the first element on which f
      fails. */
  lemma {:induction false} MapAllFailsAtFirst<A, B, E>(xs: seq<A>, f: A -> Result<B, E>, e: E)
    requires MapAll(xs, f) == Failure(e)
    ensures exists i :: 0 <= i < |xs| && f(xs[i]) == Failure(e) && forall j :: 0 <= j < i ==> f(xs[j]).Success?
  {
    var n := |xs| - 1;
    var p := xs[..n];
    assert forall i :: 0 <= i < |p| ==> p[i] == xs[i];
    if MapAll(p, f).Failure? {
      MapAllFailsAtFirst(p, f, e);
    } else {
      MapAllPointwise(p, f, MapAll(p, f).value);
      assert f(xs[n]) == Failure(e);
    }
  }

  /** Extending a successful prefix by one element on which f succeeds
      extends the map's result by that element's result. */
  lemma {:induction false} MapAllStep<A, B, E>(xs: seq<A>, f: A -> Result<B, E>, i: nat, ys: seq<B>, y: B)
    requires i < |xs|
    requires MapAll(xs[..i], f) == Success(ys) && f(xs[i]) == Success(y)
    ensures MapAll(xs[..i + 1], f) == Success(ys + [y])
  {
    assert xs[..i + 1][..i] == xs[..i];
  }

  /** When f succeeds on every element before xs[i] and fails on xs[i],
      the map of all of xs fails with that failure. */
  lemma {:induction false} MapAllStopsAt<A, B, E>(xs: seq<A>, f: A -> Result<B, E>, i: nat, ys: seq<B>)
    requires i < |xs|
    requires MapAll(xs[..i], f) == Success(ys) && f(xs[i]).Failure?
    ensures MapAll(xs, f) == Failure(f(xs[i]).error)
  {
    assert xs[..i + 1][..i] == xs[..i];
    MapAllPrefixFailure(xs, f, i + 1);
  }

  /** Once a prefix of xs fails, the map of all of xs fails the same way. */
  lemma {:induction false} MapAllPrefixFailure<A, B, E>(xs: seq<A>, f: A -> Result<B, E>, m: nat)
    requires m <= |xs|
    requires MapAll(xs[..m], f).Failure?
    ensures MapAll(xs, f) == MapAll(xs[..m], f)
    decreases |xs| - m
  {
    if m < |xs| {
      var n := |xs| - 1;
      assert xs[..n][..m] == xs[..m];
      MapAllPrefixFailure(xs[..n], f, m);
    } else {
      assert xs[..m] == xs;
    }
  }
}
