/** Optional values, results and the exceptions the dashboard's fetchers can
 *  meet, with the one combinator the record shaping needs: apply a shaping
 *  step to every item of a response, failing as soon as one item fails. */
module Results {

  datatype Option<+T> = None | Some(value: T)

  /** A value, or the exception raised while computing it. */
  datatype Result<+T, +E> = Ok(value: T) | Err(error: E)

  /** The kinds of exception the fetchers can meet.
   *  HttpError and TransportError come out of the provider call itself;
   *  KeyError comes from subscripting a response field that is absent;
   *  ValueError comes from `int()` on a count that is not a number. */
  datatype Fault = HttpError | TransportError | KeyError | ValueError

  /** Shapes every element in order; the first element that fails makes the
   *  whole result fail (a Python loop that appends until an exception). */
  function MapAll<A, B>(f: A -> Result<B, Fault>, xs: seq<A>): Result<seq<B>, Fault>
  {
    if xs == [] then Ok([])
    else
      match MapAll(f, xs[..|xs| - 1])
      case Err(e) => Err(e)
      case Ok(done) =>
        match f(xs[|xs| - 1])
        case Err(e) => Err(e)
        case Ok(y) => Ok(done + [y])
  }

  /** MapAll succeeds exactly when every element succeeds, and then it holds
   *  one shaped element per input element, in input order. */
  lemma {:induction false} MapAllSpec<A, B>(f: A -> Result<B, Fault>, xs: seq<A>)
    ensures MapAll(f, xs).Ok? <==> forall i :: 0 <= i < |xs| ==> f(xs[i]).Ok?
    ensures MapAll(f, xs).Ok? ==>
              |MapAll(f, xs).value| == |xs| &&
              forall i :: 0 <= i < |xs| ==> MapAll(f, xs).value[i] == f(xs[i]).value
  {
    if xs != [] {
      var init := xs[..|xs| - 1];
      MapAllSpec(f, init);
      assert forall i :: 0 <= i < |init| ==> init[i] == xs[i];
      if MapAll(f, init).Ok? && !f(xs[|xs| - 1]).Ok? {
        assert !MapAll(f, xs).Ok?;
      }
    }
  }

  /** Appending an element that shapes appends its shape. */
  lemma MapAllStep<A, B>(f: A -> Result<B, Fault>, xs: seq<A>, x: A)
    requires MapAll(f, xs).Ok? && f(x).Ok?
    ensures MapAll(f, xs + [x]) == Ok(MapAll(f, xs).value + [f(x).value])
  {
    assert (xs + [x])[..|xs|] == xs;
  }

  /** The error of MapAll is that of the first element that fails. */
  lemma {:induction false} MapAllFirstError<A, B>(f: A -> Result<B, Fault>, xs: seq<A>, j: nat)
    requires j < |xs| && MapAll(f, xs[..j]).Ok? && f(xs[j]).Err?
    ensures MapAll(f, xs) == Err(f(xs[j]).error)
    decreases |xs|
  {
    if j < |xs| - 1 {
      var init := xs[..|xs| - 1];
      assert init[..j] == xs[..j];
      MapAllFirstError(f, init, j);
    } else {
      assert xs[..|xs| - 1] == xs[..j];
    }
  }
}
