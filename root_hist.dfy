/**
 * `RootHistManager`: the histograms a generator run fills, kept in a `std::map` from name to
 * histogram, and a `store_` switch that lets the event loop call the fill methods
 * unconditionally. A histogram is modelled by the log of the fills it has received, in order;
 * writing to the ROOT file is modelled by the sequence of histograms written.
 */
module RootHist {
  import opened Wrappers

  /** One call of `TH1::Fill(value, weight)` or `TH2::Fill(x, y, weight)`. */
  datatype Fill = Fill1(value: real, weight: real) | Fill2(x: real, y: real, weight: real)

  /** A histogram: its name (`GetName()`) and the fills it holds. */
  datatype Hist = Hist(name: string, fills: seq<Fill>)

  type Hists = map<string, seq<Fill>>

  /** `std::string`'s `operator<`, the order of the map's keys: lexicographic by character code. */
  predicate Less(a: string, b: string)
    decreases |a|
  {
    |b| > 0 && (|a| == 0 || a[0] < b[0] || (a[0] == b[0] && Less(a[1..], b[1..])))
  }

  lemma {:induction false} LessIrreflexive(a: string)
    ensures !Less(a, a)
    decreases |a|
  {
    if |a| > 0 {
      LessIrreflexive(a[1..]);
    }
  }

  lemma {:induction false} LessTransitive(a: string, b: string, c: string)
    requires Less(a, b) && Less(b, c)
    ensures Less(a, c)
    decreases |a|
  {
    if |a| > 0 && a[0] == b[0] && b[0] == c[0] {
      LessTransitive(a[1..], b[1..], c[1..]);
    }
  }

  lemma {:induction false} LessTotal(a: string, b: string)
    ensures a == b || Less(a, b) || Less(b, a)
    decreases |a|
  {
    if |a| > 0 && |b| > 0 && a[0] == b[0] {
      LessTotal(a[1..], b[1..]);
      if a[1..] == b[1..] {
        assert a == [a[0]] + a[1..] && b == [b[0]] + b[1..];
      }
    }
  }

  /** `m` is the first of `s` in key order. */
  predicate IsLeast(m: string, s: set<string>)
  {
    m in s && forall x :: x in s && x != m ==> Less(m, x)
  }

  /** Every non-empty finite set of keys has a first key. */
  lemma {:induction false} LeastExists(s: set<string>)
    requires s != {}
    ensures exists m :: IsLeast(m, s)
    decreases |s|
  {
    var x :| x in s;
    if s == {x} {
      assert IsLeast(x, s);
    } else {
      LeastExists(s - {x});
      var m :| IsLeast(m, s - {x});
      LessTotal(x, m);
      if Less(x, m) {
        forall y | y in s && y != x
          ensures Less(x, y)
        {
          if y != m {
            LessTransitive(x, m, y);
          }
        }
        assert IsLeast(x, s);
      } else {
        assert IsLeast(m, s);
      }
    }
  }

  /** The names of `out` are in strictly increasing key order. */
  predicate Increasing(out: seq<Hist>)
  {
    forall i, j :: 0 <= i < j < |out| ==> Less(out[i].name, out[j].name)
  }

  /** The names of the histograms in `out`. */
  function Names(out: seq<Hist>): (r: set<string>)
    ensures forall i :: 0 <= i < |out| ==> out[i].name in r
  {
    if out == [] then {} else {out[0].name} + Names(out[1..])
  }

  /** Where `name` is in `out`. */
  function IndexOf(out: seq<Hist>, name: string): (j: nat)
    requires name in Names(out)
    ensures j < |out| && out[j].name == name
  {
    if out[0].name == name then 0 else 1 + IndexOf(out[1..], name)
  }

  lemma {:induction false} NamesAppend(out: seq<Hist>, h: Hist)
    ensures Names(out + [h]) == Names(out) + {h.name}
  {
    if out != [] {
      assert (out + [h])[1..] == out[1..] + [h];
      NamesAppend(out[1..], h);
    }
  }

  /**
   * What `write` puts in the file: the held histograms with their contents, every one of
   * them, in the order of the map's keys.
   */
  predicate WrittenInOrder(hists: Hists, out: seq<Hist>)
  {
    && Increasing(out)
    && Names(out) == hists.Keys
    && (forall i :: 0 <= i < |out| ==> out[i].fills == hists[out[i].name])
  }

  /** No histogram is written twice. */
  lemma {:induction false} WrittenOnce(hists: Hists, out: seq<Hist>)
    requires WrittenInOrder(hists, out)
    ensures forall i, j :: 0 <= i < |out| && 0 <= j < |out| && i != j ==> out[i].name != out[j].name
  {
    forall i, j | 0 <= i < |out| && 0 <= j < |out| && i != j
      ensures out[i].name != out[j].name
    {
      LessIrreflexive(out[i].name);
    }
  }

  /** The file's contents are determined by the map: there is only one order to write in. */
  lemma {:induction false} WrittenUnique(hists: Hists, a: seq<Hist>, b: seq<Hist>)
    requires WrittenInOrder(hists, a) && WrittenInOrder(hists, b)
    ensures a == b
  {
    SortedUnique(a, b);
    assert forall i :: 0 <= i < |a| ==> a[i] == b[i];
  }

  /** Two increasing sequences with the same names begin with the same name. */
  lemma {:induction false} HeadsAgree(a: seq<Hist>, b: seq<Hist>)
    requires Increasing(a) && Increasing(b) && Names(a) == Names(b)
    requires |a| > 0 && |b| > 0
    ensures a[0].name == b[0].name
  {
    var j := IndexOf(b, a[0].name);
    var i := IndexOf(a, b[0].name);
    if j > 0 && i > 0 {
      assert Less(a[0].name, a[i].name);
      assert Less(b[0].name, b[j].name);
      LessTransitive(a[0].name, b[0].name, a[0].name);
      LessIrreflexive(a[0].name);
    }
  }

  /** The first name of an increasing sequence is not among the rest. */
  lemma {:induction false} FirstNotInRest(a: seq<Hist>)
    requires Increasing(a) && |a| > 0
    ensures Names(a) == {a[0].name} + Names(a[1..]) && a[0].name !in Names(a[1..])
  {
    if a[0].name in Names(a[1..]) {
      var k := IndexOf(a[1..], a[0].name);
      assert a[k + 1].name == a[0].name;
      LessIrreflexive(a[0].name);
    }
  }

  /** Two increasing sequences writing the same names write them in the same order. */
  lemma {:induction false} SortedUnique(a: seq<Hist>, b: seq<Hist>)
    requires Increasing(a) && Increasing(b) && Names(a) == Names(b)
    ensures |a| == |b| && forall i :: 0 <= i < |a| ==> a[i].name == b[i].name
    decreases |a| + |b|
  {
    if |a| > 0 && |b| > 0 {
      HeadsAgree(a, b);
      FirstNotInRest(a);
      FirstNotInRest(b);
      SortedUnique(a[1..], b[1..]);
      forall i | 0 <= i < |a|
        ensures a[i].name == b[i].name
      {
        if i > 0 {
          assert a[1..][i - 1] == a[i] && b[1..][i - 1] == b[i];
        }
      }
    }
  }

  /**
   * Part way through `write`: what is written is in order, with the contents held, the rest of
   * the keys are still to come, and each of them is after everything written.
   */
  predicate WriteInvariant(hists: Hists, out: seq<Hist>, remaining: set<string>)
  {
    && Increasing(out)
    && Names(out) + remaining == hists.Keys && Names(out) !! remaining
    && (forall i :: 0 <= i < |out| ==> out[i].fills == hists[out[i].name])
    && (forall i, x :: 0 <= i < |out| && x in remaining ==> Less(out[i].name, x))
  }

  /** Writing the first of the remaining keys keeps the invariant. */
  lemma {:induction false} WriteStep(hists: Hists, out: seq<Hist>, remaining: set<string>, m: string)
    requires WriteInvariant(hists, out, remaining) && IsLeast(m, remaining)
    ensures WriteInvariant(hists, out + [Hist(m, hists[m])], remaining - {m})
  {
    NamesAppend(out, Hist(m, hists[m]));
  }

  /** The loop of `write`: every entry of the map, in the map's iteration order. */
  method WriteAll(hists: Hists) returns (out: seq<Hist>)
    ensures WrittenInOrder(hists, out)
  {
    var remaining := hists.Keys;
    out := [];
    while remaining != {}
      invariant WriteInvariant(hists, out, remaining)
      decreases |remaining|
    {
      LeastExists(remaining);
      var m :| IsLeast(m, remaining);
      WriteStep(hists, out, remaining, m);
      out := out + [Hist(m, hists[m])];
      remaining := remaining - {m};
    }
  }

  /** What a fill does: with `store` on, a held histogram receives `f`; otherwise nothing changes. */
  function Deliver(hists: Hists, store: bool, name: string, f: Fill): (r: Hists)
    ensures r.Keys == hists.Keys
    ensures forall n :: n in hists && n != name ==> r[n] == hists[n]
    ensures name in hists ==> r[name] == if store then hists[name] + [f] else hists[name]
  {
    if store && name in hists then hists[name := hists[name] + [f]] else hists
  }

  /** A fill call of the event loop: the histogram's name and the fill. */
  datatype Call = Call(name: string, fill: Fill)

  /** The fills among `calls` addressed to `name`, in order. */
  function Addressed(calls: seq<Call>, name: string): seq<Fill>
  {
    if calls == [] then []
    else (if calls[0].name == name then [calls[0].fill] else []) + Addressed(calls[1..], name)
  }

  /** A run of fill calls against a manager that ignores unknown names. */
  function Replay(hists: Hists, store: bool, calls: seq<Call>): Hists
  {
    if calls == [] then hists
    else Replay(Deliver(hists, store, calls[0].name, calls[0].fill), store, calls[1..])
  }

  lemma {:induction false} ReplayKeys(hists: Hists, store: bool, calls: seq<Call>)
    ensures Replay(hists, store, calls).Keys == hists.Keys
  {
    if calls != [] {
      ReplayKeys(Deliver(hists, store, calls[0].name, calls[0].fill), store, calls[1..]);
    }
  }

  /**
   * After a run of fills, with `store` on a held histogram holds what it held before followed
   * by exactly the fills addressed to it, in call order; with `store` off it is as it was.
   */
  lemma {:induction false} ReplayLog(hists: Hists, store: bool, calls: seq<Call>, n: string)
    requires n in hists
    ensures n in Replay(hists, store, calls)
    ensures Replay(hists, store, calls)[n] == hists[n] + (if store then Addressed(calls, n) else [])
  {
    if store {
      ReplayStored(hists, calls, n);
    } else {
      ReplayBypassed(hists, calls);
    }
  }

  /** With `store` on, the fills addressed to `n` are appended in call order. */
  lemma {:induction false} ReplayStored(hists: Hists, calls: seq<Call>, n: string)
    requires n in hists
    ensures n in Replay(hists, true, calls)
    ensures Replay(hists, true, calls)[n] == hists[n] + Addressed(calls, n)
  {
    if calls == [] {
      assert hists[n] + [] == hists[n];
    } else {
      var c := calls[0];
      var next := Deliver(hists, true, c.name, c.fill);
      var here := if c.name == n then [c.fill] else [];
      var rest := Addressed(calls[1..], n);
      DeliverAt(hists, true, c, n);
      ReplayStored(next, calls[1..], n);
      assert Replay(hists, true, calls) == Replay(next, true, calls[1..]);
      assert Addressed(calls, n) == here + rest;
      assert hists[n] + here + rest == hists[n] + (here + rest);
    }
  }

  /** With `store` off, no fill changes anything. */
  lemma {:induction false} ReplayBypassed(hists: Hists, calls: seq<Call>)
    ensures Replay(hists, false, calls) == hists
  {
    if calls != [] {
      assert Deliver(hists, false, calls[0].name, calls[0].fill) == hists;
      ReplayBypassed(hists, calls[1..]);
    }
  }

  /** One fill: the histogram `n` gains the fill when it is addressed and `store` is on. */
  lemma {:induction false} DeliverAt(hists: Hists, store: bool, c: Call, n: string)
    requires n in hists
    ensures n in Deliver(hists, store, c.name, c.fill)
    ensures Deliver(hists, store, c.name, c.fill)[n] == hists[n] + (if store then (if c.name == n then [c.fill] else []) else [])
  {
  }

  /** The message of the current manager's `range_error`. */
  function NoHistogram(name: string): string
  {
    "No histogram with the name " + name
  }

  /** The manager of the current generator: fills of unknown names throw. */
  class HistManager {
    var hists: Hists
    var store: bool

    /** The default constructor stores values. */
    constructor ()
      ensures hists == map[] && store
    {
      hists, store := map[], true;
    }

    /** With `store` false the manager bypasses every fill. */
    constructor Storing(store: bool)
      ensures hists == map[] && this.store == store
    {
      hists, this.store := map[], store;
    }

    /** `hists_[hist->GetName()] = hist`: insert, or replace a histogram of the same name. */
    method AddHist(hist: Hist)
      modifies this`hists
      ensures hists == old(hists)[hist.name := hist.fills]
      ensures hists.Keys == old(hists).Keys + {hist.name}
    {
      hists := hists[hist.name := hist.fills];
    }

    /** `checkHistName`: a `range_error` naming the histogram when there is none of that name. */
    method CheckHistName(name: string) returns (r: Result<()>)
      ensures r.Ok? <==> name in hists
      ensures r.Err? ==> r.error == RangeError(NoHistogram(name))
    {
      if name !in hists {
        return Err(RangeError(NoHistogram(name)));
      }
      return Ok(());
    }

    /** `fillTH1`, with the weight 1 by default. */
    method FillTH1(name: string, value: real, weight: real := 1.0) returns (r: Result<()>)
      modifies this`hists
      ensures r.Err? <==> store && name !in old(hists)
      ensures r.Err? ==> r.error == RangeError(NoHistogram(name)) && hists == old(hists)
      ensures r.Ok? ==> hists == Deliver(old(hists), store, name, Fill1(value, weight))
    {
      r := Ok(());
      if store {
        r := CheckHistName(name);
        if r.Err? {
          return;
        }
        hists := hists[name := hists[name] + [Fill1(value, weight)]];
      }
    }

    /** `fillTH2`, with the weight 1 by default. */
    method FillTH2(name: string, x: real, y: real, weight: real := 1.0) returns (r: Result<()>)
      modifies this`hists
      ensures r.Err? <==> store && name !in old(hists)
      ensures r.Err? ==> r.error == RangeError(NoHistogram(name)) && hists == old(hists)
      ensures r.Ok? ==> hists == Deliver(old(hists), store, name, Fill2(x, y, weight))
    {
      r := Ok(());
      if store {
        r := CheckHistName(name);
        if r.Err? {
          return;
        }
        hists := hists[name := hists[name] + [Fill2(x, y, weight)]];
      }
    }

    /** `write`: every histogram, once, in key order. */
    method Write() returns (out: seq<Hist>)
      ensures WrittenInOrder(hists, out)
    {
      out := WriteAll(hists);
    }
  }

  /** The manager of the older generator: fills of unknown names are ignored. */
  class LegacyHistManager {
    var hists: Hists
    var store: bool

    constructor ()
      ensures hists == map[] && store
    {
      hists, store := map[], true;
    }

    constructor Storing(store: bool)
      ensures hists == map[] && this.store == store
    {
      hists, this.store := map[], store;
    }

    method AddHist(hist: Hist)
      modifies this`hists
      ensures hists == old(hists)[hist.name := hist.fills]
      ensures hists.Keys == old(hists).Keys + {hist.name}
    {
      hists := hists[hist.name := hist.fills];
    }

    /** `checkHistName` of this version: whether a histogram of that name is held. */
    method CheckHistName(name: string) returns (found: bool)
      ensures found <==> name in hists
    {
      found := name in hists;
    }

    method FillTH1(name: string, value: real, weight: real := 1.0)
      modifies this`hists
      ensures hists == Deliver(old(hists), store, name, Fill1(value, weight))
    {
      if store {
        var found := CheckHistName(name);
        if found {
          hists := hists[name := hists[name] + [Fill1(value, weight)]];
        }
      }
    }

    method FillTH2(name: string, x: real, y: real, weight: real := 1.0)
      modifies this`hists
      ensures hists == Deliver(old(hists), store, name, Fill2(x, y, weight))
    {
      if store {
        var found := CheckHistName(name);
        if found {
          hists := hists[name := hists[name] + [Fill2(x, y, weight)]];
        }
      }
    }

    method Write() returns (out: seq<Hist>)
      ensures WrittenInOrder(hists, out)
    {
      out := WriteAll(hists);
    }
  }
}
