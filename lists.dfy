/** Mapping a partial conversion over a list, stopping at the first element
    it rejects, as a loop that raises on a bad element does. */
module Lists {
  import opened Wrappers

  /** `f` applied to each element in order; `Err(k)` when element `k` is the
      first one `f` rejects. */
  function MapUntilNone<A, B>(f: A -> Option<B>, xs: seq<A>): (r: Result<seq<B>, nat>)
    ensures r.Ok? ==> |r.value| == |xs|
    ensures r.Err? ==> r.error < |xs|
  {
    if xs == [] then Ok([])
    else
      match MapUntilNone(f, xs[..|xs| - 1])
      case Err(k) => Err(k)
      case Ok(done) =>
        match f(xs[|xs| - 1])
        case None => Err(|xs| - 1)
        case Some(y) => Ok(done + [y])
  }

  /** `f` accepts every element. */
  ghost predicate AllAccepted<A, B>(f: A -> Option<B>, xs: seq<A>)
  {
    forall i :: 0 <= i < |xs| ==> f(xs[i]).Some?
  }

  /** With every element accepted, the result keeps count and order. */
  lemma {:induction false} MapUntilNoneOk<A, B>(f: A -> Option<B>, xs: seq<A>)
    requires AllAccepted(f, xs)
    ensures MapUntilNone(f, xs).Ok?
    ensures forall i :: 0 <= i < |xs| ==> f(xs[i]) == Some(MapUntilNone(f, xs).value[i])
    decreases |xs|
  {
    if xs != [] {
      var p := xs[..|xs| - 1];
      assert forall i :: 0 <= i < |p| ==> p[i] == xs[i];
      MapUntilNoneOk(f, p);
    }
  }

  /** Otherwise the result names the first rejected element. */
  lemma {:induction false} MapUntilNoneErr<A, B>(f: A -> Option<B>, xs: seq<A>)
    requires !AllAccepted(f, xs)
    ensures MapUntilNone(f, xs).Err?
    ensures var k := MapUntilNone(f, xs).error;
      f(xs[k]).None? && AllAccepted(f, xs[..k])
    decreases |xs|
  {
    var p := xs[..|xs| - 1];
    assert forall i :: 0 <= i < |p| ==> p[i] == xs[i];
    if AllAccepted(f, p) {
      MapUntilNoneOk(f, p);
      assert xs[..|xs| - 1] == p;
    } else {
      MapUntilNoneErr(f, p);
      var k := MapUntilNone(f, p).error;
      assert xs[..k] == p[..k];
    }
  }

  /** Once a prefix fails, the whole list fails at the same element. */
  lemma {:induction false} SameFirstFailure<A, B>(f: A -> Option<B>, xs: seq<A>, n: nat)
    requires n <= |xs| && MapUntilNone(f, xs[..n]).Err?
    ensures MapUntilNone(f, xs) == MapUntilNone(f, xs[..n])
    decreases |xs|
  {
    if n == |xs| {
      assert xs[..n] == xs;
    } else {
      var p := xs[..|xs| - 1];
      assert p[..n] == xs[..n];
      SameFirstFailure(f, p, n);
    }
  }
}
