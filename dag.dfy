/**
 * The layout every DAG writer emits: some header lines, then for each job in order a node
 * (a `JOB` line followed by a `VARS` line), then some trailer lines. A job whose node cannot
 * be built (its options raise) aborts the writer.
 */
module Dag {
  import opened Wrappers
  import opened Text
  import opened JobSpace

  /** `'%d_%s' % (ind, tag)`: the node name most writers give job `ind`. */
  function NodeName(ind: int, tag: string): string { IntToString(ind) + "_" + tag }

  /** Distinct job IDs name distinct nodes. */
  lemma {:induction false} NodeNameInjective(i: int, j: int, tag: string)
    requires NodeName(i, tag) == NodeName(j, tag)
    ensures i == j
  {
    ConcatCancelRight(IntToString(i) + "_", IntToString(j) + "_", tag);
    ConcatCancelRight(IntToString(i), IntToString(j), "_");
    IntToStringInjective(i, j);
  }

  /** The line declaring node `<ind>_<tag>` to run the job description `condorFile`. */
  function JobLine(ind: int, tag: string, condorFile: string): string
  {
    "JOB " + NodeName(ind, tag) + " " + condorFile
  }

  /** Distinct job IDs give distinct JOB lines. */
  lemma {:induction false} JobLineInjective(i: int, j: int, tag: string, condorFile: string)
    requires JobLine(i, tag, condorFile) == JobLine(j, tag, condorFile)
    ensures i == j
  {
    var a, b, post := NodeName(i, tag), NodeName(j, tag), " " + condorFile;
    ConcatAssoc("JOB ", a, " ");
    ConcatAssoc("JOB " + a, " ", condorFile);
    ConcatAssoc("JOB ", b, " ");
    ConcatAssoc("JOB " + b, " ", condorFile);
    ConcatCancelRight("JOB " + a, "JOB " + b, post);
    ConcatCancelLeft("JOB ", a, b);
    NodeNameInjective(i, j, tag);
  }

  /** The line asking DAGMan to refresh the node status file every 30 seconds. */
  function StatusLine(statusFile: string): string { "NODE_STATUS_FILE " + statusFile + " 30" }

  /** The two lines that declare one node and its variables. */
  datatype Node = Node(job: string, vars: string)

  /** The node lines for `items`, in order; the first item whose node fails aborts. */
  function Nodes<T>(nodeOf: T -> Result<Node>, items: seq<T>): Result<seq<string>>
  {
    if items == [] then Ok([])
    else
      var front :- Nodes(nodeOf, items[..|items| - 1]);
      var n :- nodeOf(items[|items| - 1]);
      Ok(front + [n.job, n.vars])
  }

  /** A whole DAG text: header, nodes, trailer. */
  function DagLines<T>(header: seq<string>, nodeOf: T -> Result<Node>, items: seq<T>, trailer: seq<string>): Result<seq<string>>
  {
    var body :- Nodes(nodeOf, items);
    Ok(header + body + trailer)
  }

  /** Once a node fails, longer item lists fail with the same error. */
  lemma {:induction false} NodesErrExtends<T>(nodeOf: T -> Result<Node>, items: seq<T>, more: seq<T>)
    requires Nodes(nodeOf, items).Err?
    ensures Nodes(nodeOf, items + more) == Nodes(nodeOf, items)
    decreases |more|
  {
    if more != [] {
      var m := more[..|more| - 1];
      NodesErrExtends(nodeOf, items, m);
      assert (items + more)[..|items + more| - 1] == items + m;
    } else {
      assert items + more == items;
    }
  }

  /** One more item whose node succeeds adds its two lines. */
  lemma {:induction false} NodesStep<T>(nodeOf: T -> Result<Node>, items: seq<T>, k: int, body: seq<string>)
    requires 0 <= k < |items| && Nodes(nodeOf, items[..k]) == Ok(body) && nodeOf(items[k]).Ok?
    ensures Nodes(nodeOf, items[..k + 1]) == Ok(body + [nodeOf(items[k]).value.job, nodeOf(items[k]).value.vars])
  {
    assert items[..k + 1][..k] == items[..k];
  }

  /** The first item whose node fails decides the error of the whole list. */
  lemma {:induction false} NodesStop<T>(nodeOf: T -> Result<Node>, items: seq<T>, k: int)
    requires 0 <= k < |items| && Nodes(nodeOf, items[..k]).Ok? && nodeOf(items[k]).Err?
    ensures Nodes(nodeOf, items) == Err(nodeOf(items[k]).error)
  {
    var pre := items[..k + 1];
    assert pre[..|pre| - 1] == items[..k] && pre[|pre| - 1] == items[k];
    NodesLastErr(nodeOf, pre);
    NodesErrExtends(nodeOf, pre, items[k + 1..]);
    assert pre + items[k + 1..] == items;
  }

  /** Items whose front succeeds and whose last node fails fail with that node's error. */
  lemma {:induction false} NodesLastErr<T>(nodeOf: T -> Result<Node>, items: seq<T>)
    requires items != [] && Nodes(nodeOf, items[..|items| - 1]).Ok? && nodeOf(items[|items| - 1]).Err?
    ensures Nodes(nodeOf, items) == Err(nodeOf(items[|items| - 1]).error)
  {
  }

  /** Two lines per item. */
  lemma {:induction false} NodesLength<T>(nodeOf: T -> Result<Node>, items: seq<T>)
    ensures Nodes(nodeOf, items).Ok? ==> |Nodes(nodeOf, items).value| == 2 * |items|
    decreases |items|
  {
    if items != [] {
      NodesLength(nodeOf, items[..|items| - 1]);
    }
  }

  /** The k-th item's node: its JOB line at `2k`, its VARS line at `2k + 1`. */
  lemma {:induction false} NodesAt<T>(nodeOf: T -> Result<Node>, items: seq<T>, k: int)
    requires Nodes(nodeOf, items).Ok? && 0 <= k < |items|
    ensures nodeOf(items[k]).Ok?
    ensures |Nodes(nodeOf, items).value| == 2 * |items|
    ensures Nodes(nodeOf, items).value[2 * k] == nodeOf(items[k]).value.job
    ensures Nodes(nodeOf, items).value[2 * k + 1] == nodeOf(items[k]).value.vars
    decreases |items|
  {
    var front := items[..|items| - 1];
    NodesLength(nodeOf, front);
    var f := Nodes(nodeOf, front).value;
    var n := nodeOf(items[|items| - 1]).value;
    assert Nodes(nodeOf, items).value == f + [n.job, n.vars];
    if k < |items| - 1 {
      NodesAt(nodeOf, front, k);
      assert front[k] == items[k];
    }
  }

  /** The nodes fail exactly when the node of one of the items fails. */
  lemma {:induction false} NodesErr<T>(nodeOf: T -> Result<Node>, items: seq<T>)
    ensures Nodes(nodeOf, items).Err? <==> exists k :: 0 <= k < |items| && nodeOf(items[k]).Err?
    decreases |items|
  {
    if items != [] {
      var front := items[..|items| - 1];
      NodesErr(nodeOf, front);
      assert forall k :: 0 <= k < |front| ==> front[k] == items[k];
      if Nodes(nodeOf, items).Ok? {
        forall k | 0 <= k < |items|
          ensures nodeOf(items[k]).Ok?
        {
          NodesAt(nodeOf, items, k);
        }
      }
    }
  }

  /**
   * The layout of a DAG text: its length, the header first, the trailer last, and the k-th
   * item's JOB and VARS lines right after the header and the k earlier nodes.
   */
  lemma {:induction false} DagLinesAt<T>(header: seq<string>, nodeOf: T -> Result<Node>, items: seq<T>, trailer: seq<string>, k: int)
    requires DagLines(header, nodeOf, items, trailer).Ok? && 0 <= k < |items|
    ensures var r := DagLines(header, nodeOf, items, trailer).value;
      |r| == |header| + 2 * |items| + |trailer| &&
      r[..|header|] == header && r[|r| - |trailer|..] == trailer &&
      nodeOf(items[k]).Ok? &&
      r[|header| + 2 * k] == nodeOf(items[k]).value.job &&
      r[|header| + 2 * k + 1] == nodeOf(items[k]).value.vars
  {
    NodesAt(nodeOf, items, k);
    var body := Nodes(nodeOf, items).value;
    var r := header + body + trailer;
    assert r[|header| + 2 * k] == body[2 * k] && r[|header| + 2 * k + 1] == body[2 * k + 1];
  }

  /** Nodes whose JOB lines differ stay apart in the DAG text. */
  lemma {:induction false} DagLinesDistinct<T>(header: seq<string>, nodeOf: T -> Result<Node>, items: seq<T>, trailer: seq<string>, k1: int, k2: int)
    requires DagLines(header, nodeOf, items, trailer).Ok? && 0 <= k1 < |items| && 0 <= k2 < |items|
    requires nodeOf(items[k1]).Ok? && nodeOf(items[k2]).Ok? ==> nodeOf(items[k1]).value.job != nodeOf(items[k2]).value.job
    ensures |DagLines(header, nodeOf, items, trailer).value| == |header| + 2 * |items| + |trailer|
    ensures DagLines(header, nodeOf, items, trailer).value[|header| + 2 * k1] !=
            DagLines(header, nodeOf, items, trailer).value[|header| + 2 * k2]
  {
    DagLinesAt(header, nodeOf, items, trailer, k1);
    DagLinesAt(header, nodeOf, items, trailer, k2);
  }

  /** Without items a DAG text is its header and its trailer; it can fail only through a node. */
  lemma {:induction false} DagLinesEmpty<T>(header: seq<string>, nodeOf: T -> Result<Node>, trailer: seq<string>)
    ensures DagLines(header, nodeOf, [], trailer) == Ok(header + trailer)
  {
    assert header + [] + trailer == header + trailer;
  }

  /** A DAG text fails exactly when one of the nodes fails. */
  lemma {:induction false} DagLinesErr<T>(header: seq<string>, nodeOf: T -> Result<Node>, items: seq<T>, trailer: seq<string>)
    ensures DagLines(header, nodeOf, items, trailer).Err? <==> exists k :: 0 <= k < |items| && nodeOf(items[k]).Err?
  {
    NodesErr(nodeOf, items);
  }

  // ---------------------------------------------------------------------------
  // Writers with one node `<ind>_<tag>` per job ID `ind` in `first..last`
  // ---------------------------------------------------------------------------

  /** The node of job `ind`: its JOB line, and the VARS line `varsOf` renders from its options. */
  function NumberedNode(tag: string, condorFile: string, varsOf: (int, seq<string>) -> string, ind: int,
                        opts: Result<seq<string>>): Result<Node>
  {
    var o :- opts;
    Ok(Node(JobLine(ind, tag, condorFile), varsOf(ind, o)))
  }

  function NumberedNodes(tag: string, condorFile: string, varsOf: (int, seq<string>) -> string,
                         optsOf: int -> Result<seq<string>>): int -> Result<Node>
  {
    ind => NumberedNode(tag, condorFile, varsOf, ind, optsOf(ind))
  }

  /** One loop step of a numbered DAG writer: the next job's options either stop it or add the two lines. */
  lemma {:induction false} NumberedStep(tag: string, condorFile: string, varsOf: (int, seq<string>) -> string,
                                        optsOf: int -> Result<seq<string>>, ids: seq<int>, k: int, body: seq<string>)
    requires 0 <= k < |ids| && Nodes(NumberedNodes(tag, condorFile, varsOf, optsOf), ids[..k]) == Ok(body)
    ensures optsOf(ids[k]).Err? ==> Nodes(NumberedNodes(tag, condorFile, varsOf, optsOf), ids) == Err(optsOf(ids[k]).error)
    ensures optsOf(ids[k]).Ok? ==>
      Nodes(NumberedNodes(tag, condorFile, varsOf, optsOf), ids[..k + 1]) ==
      Ok(body + [JobLine(ids[k], tag, condorFile), varsOf(ids[k], optsOf(ids[k]).value)])
  {
    var nodeOf := NumberedNodes(tag, condorFile, varsOf, optsOf);
    var opts := optsOf(ids[k]);
    if opts.Err? {
      assert nodeOf(ids[k]) == Err(opts.error);
      NodesStop(nodeOf, ids, k);
    } else {
      assert nodeOf(ids[k]) == Ok(Node(JobLine(ids[k], tag, condorFile), varsOf(ids[k], opts.value)));
      NodesStep(nodeOf, ids, k, body);
    }
  }

  /** The DAG text over the job IDs `first..last`, the options of each job given by `optsOf`. */
  function NumberedDag(header: seq<string>, tag: string, condorFile: string, varsOf: (int, seq<string>) -> string,
                       optsOf: int -> Result<seq<string>>, first: int, last: int, trailer: seq<string>): Result<seq<string>>
  {
    DagLines(header, NumberedNodes(tag, condorFile, varsOf, optsOf), JobIds(first, last), trailer)
  }

  /**
   * The layout over job IDs: the header, then for the k-th ID `first + k` its JOB line at
   * `|header| + 2k` and its VARS line right after, then the trailer.
   */
  lemma {:induction false} NumberedDagAt(header: seq<string>, tag: string, condorFile: string, varsOf: (int, seq<string>) -> string,
                      optsOf: int -> Result<seq<string>>, first: int, last: int, trailer: seq<string>, k: int)
    requires NumberedDag(header, tag, condorFile, varsOf, optsOf, first, last, trailer).Ok?
    requires 0 <= k <= last - first
    ensures |NumberedDag(header, tag, condorFile, varsOf, optsOf, first, last, trailer).value| ==
      |header| + 2 * (last - first + 1) + |trailer|
    ensures var r := NumberedDag(header, tag, condorFile, varsOf, optsOf, first, last, trailer).value;
      r[..|header|] == header && r[|r| - |trailer|..] == trailer
    ensures NumberedDag(header, tag, condorFile, varsOf, optsOf, first, last, trailer).value[|header| + 2 * k] ==
      JobLine(first + k, tag, condorFile)
    ensures optsOf(first + k).Ok?
    ensures NumberedDag(header, tag, condorFile, varsOf, optsOf, first, last, trailer).value[|header| + 2 * k + 1] ==
      varsOf(first + k, optsOf(first + k).value)
  {
    var ids := JobIds(first, last);
    DagLinesAt(header, NumberedNodes(tag, condorFile, varsOf, optsOf), ids, trailer, k);
    assert ids[k] == first + k;
  }

  /** Distinct job IDs give distinct JOB lines. */
  lemma {:induction false} NumberedDagDistinct(header: seq<string>, tag: string, condorFile: string, varsOf: (int, seq<string>) -> string,
                            optsOf: int -> Result<seq<string>>, first: int, last: int, trailer: seq<string>, k1: int, k2: int)
    requires NumberedDag(header, tag, condorFile, varsOf, optsOf, first, last, trailer).Ok?
    requires 0 <= k1 <= last - first && 0 <= k2 <= last - first && k1 != k2
    ensures |NumberedDag(header, tag, condorFile, varsOf, optsOf, first, last, trailer).value| ==
      |header| + 2 * (last - first + 1) + |trailer|
    ensures NumberedDag(header, tag, condorFile, varsOf, optsOf, first, last, trailer).value[|header| + 2 * k1] !=
      NumberedDag(header, tag, condorFile, varsOf, optsOf, first, last, trailer).value[|header| + 2 * k2]
  {
    var ids := JobIds(first, last);
    var nodeOf := NumberedNodes(tag, condorFile, varsOf, optsOf);
    assert ids[k1] == first + k1 && ids[k2] == first + k2;
    NumberedJobsDiffer(tag, condorFile, varsOf, optsOf, ids[k1], ids[k2]);
    DagLinesDistinct(header, nodeOf, ids, trailer, k1, k2);
  }

  /** The nodes of two different jobs have different JOB lines. */
  lemma {:induction false} NumberedJobsDiffer(tag: string, condorFile: string, varsOf: (int, seq<string>) -> string,
                                              optsOf: int -> Result<seq<string>>, i: int, j: int)
    requires i != j
    ensures var nodeOf := NumberedNodes(tag, condorFile, varsOf, optsOf);
      nodeOf(i).Ok? && nodeOf(j).Ok? ==> nodeOf(i).value.job != nodeOf(j).value.job
  {
    var nodeOf := NumberedNodes(tag, condorFile, varsOf, optsOf);
    assert nodeOf(i) == NumberedNode(tag, condorFile, varsOf, i, optsOf(i));
    assert nodeOf(j) == NumberedNode(tag, condorFile, varsOf, j, optsOf(j));
    if JobLine(i, tag, condorFile) == JobLine(j, tag, condorFile) {
      JobLineInjective(i, j, tag, condorFile);
    }
  }

  /** The DAG text fails exactly when the options of one of the jobs fail. */
  lemma {:induction false} NumberedDagErr(header: seq<string>, tag: string, condorFile: string, varsOf: (int, seq<string>) -> string,
                       optsOf: int -> Result<seq<string>>, first: int, last: int, trailer: seq<string>)
    ensures NumberedDag(header, tag, condorFile, varsOf, optsOf, first, last, trailer).Err? <==>
      exists ind :: first <= ind <= last && optsOf(ind).Err?
  {
    var ids := JobIds(first, last);
    var nodeOf := NumberedNodes(tag, condorFile, varsOf, optsOf);
    DagLinesErr(header, nodeOf, ids, trailer);
    if exists ind :: first <= ind <= last && optsOf(ind).Err? {
      var ind :| first <= ind <= last && optsOf(ind).Err?;
      assert ids[ind - first] == ind && nodeOf(ids[ind - first]).Err?;
    }
    if exists k :: 0 <= k < |ids| && nodeOf(ids[k]).Err? {
      var k :| 0 <= k < |ids| && nodeOf(ids[k]).Err?;
      assert ids[k] == first + k && optsOf(ids[k]).Err?;
    }
  }

  /** An empty (or reversed) ID range yields the header and the trailer only. */
  lemma {:induction false} NumberedDagEmpty(header: seq<string>, tag: string, condorFile: string, varsOf: (int, seq<string>) -> string,
                         optsOf: int -> Result<seq<string>>, first: int, last: int, trailer: seq<string>)
    requires last < first
    ensures NumberedDag(header, tag, condorFile, varsOf, optsOf, first, last, trailer) == Ok(header + trailer)
  {
    DagLinesEmpty(header, NumberedNodes(tag, condorFile, varsOf, optsOf), trailer);
  }

  // ---------------------------------------------------------------------------
  // Staging options
  // ---------------------------------------------------------------------------

  /** One `flag src dest` triple per entry of a copy map, in order. */
  function Triples(flag: string, pairs: seq<(string, string)>): (r: seq<string>)
    ensures |r| == 3 * |pairs|
  {
    if pairs == [] then []
    else
      var p := pairs[|pairs| - 1];
      Triples(flag, pairs[..|pairs| - 1]) + [flag, p.0, p.1]
  }

  /** One more pair adds its triple. */
  lemma {:induction false} TriplesSnoc(flag: string, pairs: seq<(string, string)>, k: int)
    requires 0 <= k < |pairs|
    ensures Triples(flag, pairs[..k + 1]) == Triples(flag, pairs[..k]) + [flag, pairs[k].0, pairs[k].1]
  {
    assert pairs[..k + 1][..k] == pairs[..k];
    assert pairs[..k + 1][k] == pairs[k];
  }

  /** The loop `for src, dest in pairs: opts.extend([flag, src, dest])`. */
  method ExtendTriples(opts: seq<string>, flag: string, pairs: seq<(string, string)>) returns (r: seq<string>)
    ensures r == opts + Triples(flag, pairs)
  {
    r := opts;
    for k := 0 to |pairs|
      invariant r == opts + Triples(flag, pairs[..k])
    {
      TriplesSnoc(flag, pairs, k);
      r := r + [flag, pairs[k].0, pairs[k].1];
    }
    assert pairs[..|pairs|] == pairs;
  }

  lemma {:induction false} TriplesAt(flag: string, pairs: seq<(string, string)>, k: int)
    requires 0 <= k < |pairs|
    ensures Triples(flag, pairs)[3 * k] == flag
    ensures Triples(flag, pairs)[3 * k + 1] == pairs[k].0 && Triples(flag, pairs)[3 * k + 2] == pairs[k].1
    decreases |pairs|
  {
    if k < |pairs| - 1 {
      TriplesAt(flag, pairs[..|pairs| - 1], k);
    }
  }

  /** Every token of the triples is the flag or one of the map's strings. */
  lemma {:induction false} TriplesMember(flag: string, pairs: seq<(string, string)>, x: string)
    requires x in Triples(flag, pairs)
    ensures x == flag || exists k :: 0 <= k < |pairs| && (x == pairs[k].0 || x == pairs[k].1)
    decreases |pairs|
  {
    var front := pairs[..|pairs| - 1];
    if x in Triples(flag, front) {
      TriplesMember(flag, front, x);
      if x != flag {
        var k :| 0 <= k < |front| && (x == front[k].0 || x == front[k].1);
        assert pairs[k] == front[k];
      }
    }
  }

  // ---------------------------------------------------------------------------
  // Counting lines of a kind
  // ---------------------------------------------------------------------------

  /** The number of lines that start with `p`. */
  function CountWith(lines: seq<string>, p: string): (n: nat)
    ensures n <= |lines|
  {
    if lines == [] then 0
    else CountWith(lines[..|lines| - 1], p) + (if StartsWith(lines[|lines| - 1], p) then 1 else 0)
  }

  /** Counting is additive over concatenation. */
  lemma {:induction false} CountWithConcat(a: seq<string>, b: seq<string>, p: string)
    ensures CountWith(a + b, p) == CountWith(a, p) + CountWith(b, p)
    decreases |b|
  {
    if b == [] {
      assert a + b == a;
    } else {
      CountWithConcat(a, b[..|b| - 1], p);
      assert (a + b)[..|a + b| - 1] == a + b[..|b| - 1];
    }
  }

  /** Lines none of which starts with `p` count zero. */
  lemma {:induction false} CountWithNone(lines: seq<string>, p: string)
    requires forall i :: 0 <= i < |lines| ==> !StartsWith(lines[i], p)
    ensures CountWith(lines, p) == 0
    decreases |lines|
  {
    if lines != [] {
      CountWithNone(lines[..|lines| - 1], p);
    }
  }

  /**
   * When exactly one of each node's two lines starts with `p`, the node lines hold exactly
   * one line starting with `p` per item.
   */
  lemma {:induction false} NodesCount<T>(nodeOf: T -> Result<Node>, items: seq<T>, p: string)
    requires Nodes(nodeOf, items).Ok?
    requires forall k :: 0 <= k < |items| && nodeOf(items[k]).Ok? ==>
      (StartsWith(nodeOf(items[k]).value.job, p) <==> !StartsWith(nodeOf(items[k]).value.vars, p))
    ensures CountWith(Nodes(nodeOf, items).value, p) == |items|
    decreases |items|
  {
    if items != [] {
      var front := items[..|items| - 1];
      assert forall k :: 0 <= k < |front| ==> front[k] == items[k];
      NodesCount(nodeOf, front, p);
      var n := nodeOf(items[|items| - 1]).value;
      CountWithConcat(Nodes(nodeOf, front).value, [n.job, n.vars], p);
      assert [n.job, n.vars][..1] == [n.job];
      assert [n.job][..0] == [];
    }
  }

  lemma {:induction false} JobLineStart(ind: int, tag: string, condorFile: string)
    ensures StartsWith(JobLine(ind, tag, condorFile), "JOB ")
  {
    assert JobLine(ind, tag, condorFile) == "JOB " + (NodeName(ind, tag) + " " + condorFile);
  }

  /** Of a JOB line and a VARS line, exactly one starts with either prefix. */
  lemma {:induction false} NodeLineKinds(job: string, vars: string, p: string)
    requires StartsWith(job, "JOB ") && StartsWith(vars, "VARS ")
    requires p == "JOB " || p == "VARS "
    ensures StartsWith(job, p) <==> !StartsWith(vars, p)
  {
    assert job[1] == job[..4][1] == 'O' && vars[1] == vars[..5][1] == 'A';
  }

  /**
   * A numbered DAG whose VARS lines start with `VARS ` holds one `JOB ` line and one `VARS `
   * line per job ID, provided no header or trailer line starts like a node line.
   */
  lemma {:induction false} NumberedDagCounts(header: seq<string>, tag: string, condorFile: string, varsOf: (int, seq<string>) -> string,
                          optsOf: int -> Result<seq<string>>, first: int, last: int, trailer: seq<string>, p: string)
    requires NumberedDag(header, tag, condorFile, varsOf, optsOf, first, last, trailer).Ok?
    requires p == "JOB " || p == "VARS "
    requires forall ind, o :: StartsWith(varsOf(ind, o), "VARS ")
    requires forall i :: 0 <= i < |header| ==> !StartsWith(header[i], p)
    requires forall i :: 0 <= i < |trailer| ==> !StartsWith(trailer[i], p)
    ensures CountWith(NumberedDag(header, tag, condorFile, varsOf, optsOf, first, last, trailer).value, p) ==
      if last < first then 0 else last - first + 1
  {
    var nodeOf := NumberedNodes(tag, condorFile, varsOf, optsOf);
    var ids := JobIds(first, last);
    var body := Nodes(nodeOf, ids).value;
    forall k | 0 <= k < |ids| && nodeOf(ids[k]).Ok?
      ensures StartsWith(nodeOf(ids[k]).value.job, p) <==> !StartsWith(nodeOf(ids[k]).value.vars, p)
    {
      var ind := ids[k];
      var node := nodeOf(ind).value;
      assert node == Node(JobLine(ind, tag, condorFile), varsOf(ind, optsOf(ind).value));
      JobLineStart(ind, tag, condorFile);
      NodeLineKinds(node.job, node.vars, p);
    }
    NodesCount(nodeOf, ids, p);
    assert NumberedDag(header, tag, condorFile, varsOf, optsOf, first, last, trailer).value == header + body + trailer;
    CountWithConcat(header, body, p);
    CountWithConcat(header + body, trailer, p);
    CountWithNone(header, p);
    CountWithNone(trailer, p);
  }
}
