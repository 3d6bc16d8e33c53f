/** Option, Result and the exceptions the Python and C++ sources raise. */
module Wrappers {

  datatype Option<+T> = None | Some(value: T)

  /** The exception kinds that the modelled code raises or lets escape. */
  datatype Error =
    | KeyError(key: string)          // Python KeyError, e.g. a flag missing from an argument list
    | IndexError                     // Python IndexError, e.g. reading past the end of a list
    | ValueError(what: string)       // Python ValueError, e.g. list.index / list.remove of a missing item
    | AttributeError(what: string)   // Python AttributeError, e.g. calling a method on None
    | TypeError(what: string)        // Python TypeError, e.g. iterating over None
    | OSError(path: string)          // os.mkdir / os.makedirs failures
    | IOError(path: string)          // Python 2 IOError of open() on a file that cannot be read
    | SystemExit(code: int)          // Python SystemExit, e.g. argparse refusing its arguments
    | RuntimeError(msg: string)      // the RuntimeError the scripts raise on bad configuration
    | RangeError(what: string)       // C++ std::range_error and its message
    | ProgramExit(code: int)         // C++ exit(code)
    | RequiredOption(name: string)   // boost::program_options::required_option escaping notify()

  datatype Result<+T> = Ok(value: T) | Err(error: Error) {
    predicate IsFailure() { Err? }
    function PropagateFailure<U>(): Result<U>
      requires Err?
    {
      Err(error)
    }
    function Extract(): T
      requires Ok?
    {
      value
    }
  }

  /** Applying a failing step to each element in order, stopping at the first failure. */
  function MapResults<A, B>(f: A -> Result<B>, xs: seq<A>): (r: Result<seq<B>>)
    ensures r.Ok? <==> forall i :: 0 <= i < |xs| ==> f(xs[i]).Ok?
    ensures r.Ok? ==> |r.value| == |xs| && forall i :: 0 <= i < |xs| ==> r.value[i] == f(xs[i]).value
  {
    if xs == [] then Ok([])
    else
      var front := xs[..|xs| - 1];
      assert forall i :: 0 <= i < |front| ==> front[i] == xs[i];
      var done :- MapResults(f, front);
      var last :- f(xs[|xs| - 1]);
      Ok(done + [last])
  }

  /** Once an element fails, longer lists fail with the same error. */
  lemma {:induction false} MapResultsErrExtends<A, B>(f: A -> Result<B>, xs: seq<A>, ys: seq<A>)
    requires MapResults(f, xs).Err?
    ensures MapResults(f, xs + ys) == MapResults(f, xs)
    decreases |ys|
  {
    if ys != [] {
      var m := ys[..|ys| - 1];
      MapResultsErrExtends(f, xs, m);
      assert (xs + ys)[..|xs + ys| - 1] == xs + m;
    } else {
      assert xs + ys == xs;
    }
  }

  /** A failure is the failure of one of the elements. */
  lemma {:induction false} MapResultsErrFrom<A, B>(f: A -> Result<B>, xs: seq<A>) returns (i: int)
    requires MapResults(f, xs).Err?
    ensures 0 <= i < |xs| && f(xs[i]).Err? && MapResults(f, xs).error == f(xs[i]).error
    decreases |xs|
  {
    var front := xs[..|xs| - 1];
    if MapResults(f, front).Err? {
      i := MapResultsErrFrom(f, front);
      assert front[i] == xs[i];
    } else {
      i := |xs| - 1;
    }
  }

  /** One more successful element extends the successful prefix. */
  lemma {:induction false} MapResultsStep<A, B>(f: A -> Result<B>, xs: seq<A>, i: int, done: seq<B>)
    requires 0 <= i < |xs| && MapResults(f, xs[..i]) == Ok(done) && f(xs[i]).Ok?
    ensures MapResults(f, xs[..i + 1]) == Ok(done + [f(xs[i]).value])
  {
    assert xs[..i + 1][..i] == xs[..i];
  }

  /** The first failing element decides the error of the whole list. */
  lemma {:induction false} MapResultsStop<A, B>(f: A -> Result<B>, xs: seq<A>, i: int)
    requires 0 <= i < |xs| && MapResults(f, xs[..i]).Ok? && f(xs[i]).Err?
    ensures MapResults(f, xs) == Err(f(xs[i]).error)
  {
    var pre := xs[..i + 1];
    assert pre[..|pre| - 1] == xs[..i] && pre[|pre| - 1] == xs[i];
    MapResultsLastErr(f, pre);
    MapResultsErrExtends(f, pre, xs[i + 1..]);
    assert pre + xs[i + 1..] == xs;
  }

  /** A list whose front succeeds and whose last element fails fails with that element's error. */
  lemma {:induction false} MapResultsLastErr<A, B>(f: A -> Result<B>, ys: seq<A>)
    requires ys != [] && MapResults(f, ys[..|ys| - 1]).Ok? && f(ys[|ys| - 1]).Err?
    ensures MapResults(f, ys) == Err(f(ys[|ys| - 1]).error)
  {
  }

  /** A successful first element: the rest decides, and its results follow the first. */
  lemma {:induction false} MapResultsCons<A, B>(f: A -> Result<B>, x: A, xs: seq<A>)
    requires f(x).Ok?
    ensures MapResults(f, [x] + xs).Ok? <==> MapResults(f, xs).Ok?
    ensures MapResults(f, xs).Ok? ==> MapResults(f, [x] + xs) == Ok([f(x).value] + MapResults(f, xs).value)
    decreases |xs|
  {
    if xs == [] {
      assert [x] + xs == [x] && [x][..0] == [];
      assert MapResults(f, [x][..0]) == Ok([]);
      var v := f(x).value;
      assert MapResults(f, [x]) == Ok([] + [v]);
      assert MapResults(f, xs) == Ok([]);
      assert [] + [v] == [v] == [v] + [];
    } else {
      var m := xs[..|xs| - 1];
      var ys := [x] + xs;
      assert ys[..|ys| - 1] == [x] + m;
      assert ys[|ys| - 1] == xs[|xs| - 1];
      MapResultsCons(f, x, m);
      if MapResults(f, xs).Ok? {
        assert [f(x).value] + MapResults(f, m).value + [f(xs[|xs| - 1]).value] ==
               [f(x).value] + (MapResults(f, m).value + [f(xs[|xs| - 1]).value]);
      }
    }
  }

  /** The loop that applies `f` to each element in order and stops at the first failure. */
  method MapLoop<A, B>(f: A -> Result<B>, xs: seq<A>) returns (r: Result<seq<B>>)
    ensures r == MapResults(f, xs)
  {
    var done: seq<B> := [];
    var i := 0;
    while i < |xs|
      invariant 0 <= i <= |xs|
      invariant MapResults(f, xs[..i]) == Ok(done)
    {
      assert xs[..i + 1][..i] == xs[..i];
      var s := f(xs[i]);
      if s.Err? {
        MapResultsErrExtends(f, xs[..i + 1], xs[i + 1..]);
        assert xs[..i + 1] + xs[i + 1..] == xs;
        r := Err(s.error);
        return;
      }
      done := done + [s.value];
      i := i + 1;
    }
    assert xs[..i] == xs;
    r := Ok(done);
  }
}
