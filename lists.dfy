/**
 * The Python list operations the scripts rely on: `xs.index(x)`, `xs.remove(x)`, and
 * building one list by extending it with a list per item.
 */
module Lists {
  import opened Wrappers

  /** `xs.index(x)` for an `x` known to be in `xs`: its first position. */
  function IndexOf<T(==)>(xs: seq<T>, x: T): (i: nat)
    requires x in xs
    ensures i < |xs| && xs[i] == x && forall k :: 0 <= k < i ==> xs[k] != x
  {
    if xs[0] == x then 0 else 1 + IndexOf(xs[1..], x)
  }

  /** `xs.index(x)`, which raises ValueError when `x` is absent. */
  function Index<T(==)>(xs: seq<T>, x: T): (r: Result<nat>)
    ensures r.Err? <==> x !in xs
    ensures r.Ok? ==> r.value < |xs| && xs[r.value] == x && forall k :: 0 <= k < r.value ==> xs[k] != x
  {
    if x in xs then Ok(IndexOf(xs, x)) else Err(ValueError("list.index(x): x not in list"))
  }

  /** An item of a list other than its last one is in the list without its last one. */
  lemma {:induction false} InFront<T>(xs: seq<T>, y: T)
    requires y in xs && y != xs[|xs| - 1]
    ensures y in xs[..|xs| - 1]
  {
    var i :| 0 <= i < |xs| && xs[i] == y;
    assert xs[..|xs| - 1][i] == y;
  }

  lemma {:induction false} IndexOfPrefix<T>(xs: seq<T>, ys: seq<T>, x: T)
    requires x in xs
    ensures IndexOf(xs + ys, x) == IndexOf(xs, x)
  {
    var i := IndexOf(xs, x);
    var j := IndexOf(xs + ys, x);
    assert (xs + ys)[i] == x;
  }

  lemma {:induction false} IndexOfSuffix<T>(xs: seq<T>, ys: seq<T>, x: T)
    requires x !in xs && x in ys
    ensures IndexOf(xs + ys, x) == |xs| + IndexOf(ys, x)
  {
    var j := IndexOf(ys, x);
    assert (xs + ys)[|xs| + j] == x;
  }

  /** `xs.remove(x)`: drops the first occurrence, and raises ValueError when there is none. */
  function RemoveFirst<T(==)>(xs: seq<T>, x: T): (r: Result<seq<T>>)
    ensures r.Err? <==> x !in xs
    ensures r.Ok? ==> var i := IndexOf(xs, x); r.value == xs[..i] + xs[i + 1..]
  {
    if x in xs then
      var i := IndexOf(xs, x);
      Ok(xs[..i] + xs[i + 1..])
    else Err(ValueError("list.remove(x): x not in list"))
  }

  /** The lists `f(x)` of the items, one after the other (a loop of `extend`s). */
  function ConcatMap<A, B>(f: A -> seq<B>, xs: seq<A>): seq<B>
  {
    if xs == [] then [] else ConcatMap(f, xs[..|xs| - 1]) + f(xs[|xs| - 1])
  }

  lemma {:induction false} ConcatMapConcat<A, B>(f: A -> seq<B>, a: seq<A>, b: seq<A>)
    ensures ConcatMap(f, a + b) == ConcatMap(f, a) + ConcatMap(f, b)
    decreases |b|
  {
    if b == [] {
      assert a + b == a;
    } else {
      var b1 := b[..|b| - 1];
      ConcatMapConcat(f, a, b1);
      assert (a + b)[..|a + b| - 1] == a + b1;
      assert (a + b)[|a + b| - 1] == b[|b| - 1];
    }
  }

  /** Items that contribute nothing leave nothing. */
  lemma {:induction false} ConcatMapNil<A, B>(f: A -> seq<B>, xs: seq<A>)
    requires forall i :: 0 <= i < |xs| ==> f(xs[i]) == []
    ensures ConcatMap(f, xs) == []
    decreases |xs|
  {
    if xs != [] {
      ConcatMapNil(f, xs[..|xs| - 1]);
    }
  }

  /** The lists one after the other. */
  function Flatten<T>(gs: seq<seq<T>>): seq<T>
  {
    if gs == [] then [] else Flatten(gs[..|gs| - 1]) + gs[|gs| - 1]
  }

  lemma {:induction false} FlattenConcat<T>(a: seq<seq<T>>, b: seq<seq<T>>)
    ensures Flatten(a + b) == Flatten(a) + Flatten(b)
    decreases |b|
  {
    if b == [] {
      assert a + b == a;
    } else {
      var b1 := b[..|b| - 1];
      FlattenConcat(a, b1);
      assert (a + b)[..|a + b| - 1] == a + b1;
      assert (a + b)[|a + b| - 1] == b[|b| - 1];
    }
  }

  /** Mapping group by group is mapping the flattened groups. */
  lemma {:induction false} ConcatMapFlatten<A, B>(f: A -> seq<B>, g: seq<A> -> seq<B>, gs: seq<seq<A>>)
    requires forall x :: g(x) == ConcatMap(f, x)
    ensures ConcatMap(g, gs) == ConcatMap(f, Flatten(gs))
    decreases |gs|
  {
    if gs != [] {
      var front := gs[..|gs| - 1];
      ConcatMapFlatten(f, g, front);
      ConcatMapConcat(f, Flatten(front), gs[|gs| - 1]);
    }
  }
}
