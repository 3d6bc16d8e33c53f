/**
 * The simple MG5_aMC@NLO submitter `submitMG5_dag.py`: every job runs the same card, so the
 * job description is filled in once and the DAG has `nJobs` identical nodes `<channel>_<ind>`,
 * `ind` counting from 0.
 */
module Mg5Dag {
  import opened Wrappers
  import opened Text
  import opened Paths
  import opened JobSpace
  import opened Dag
  import opened FileSystem

  /** The parsed command line: `nEvents` and `nJobs` are `type=int` options without default. */
  datatype Mg5DagArgs = Mg5DagArgs(card: string, oDir: string, nEvents: Option<int>, nJobs: Option<int>)

  /** The card's file name without its extension. */
  function Channel(card: string): string { Root(Basename(card)) }

  /** `os.path.join(oDir, channel, 'hepmc')`. */
  function OutputDir(oDir: string, card: string): string { PathJoin(PathJoin(oDir, Channel(card)), "hepmc") }

  /** The output directory ends in `<channel>/hepmc` unless the channel is an absolute path component. */
  lemma {:induction false} OutputDirShape(oDir: string, card: string)
    ensures EndsWith(OutputDir(oDir, card), "hepmc")
    ensures !StartsWith(Channel(card), "/") ==> StartsWith(OutputDir(oDir, card), oDir)
  {
    var c := Channel(card);
    var j := PathJoin(oDir, c);
    assert !StartsWith("hepmc", "/") by {
      assert "hepmc"[..1][0] == 'h';
    }
    if !StartsWith(c, "/") {
      assert StartsWith(j, oDir);
      var o := OutputDir(oDir, card);
      assert StartsWith(o, j);
      assert o[..|oDir|] == j[..|oDir|];
    }
  }

  /** `'logs/%s/%s_%s' % (date, channel, time)`; the date and time are parameters. */
  function LogDir(date: string, time: string, channel: string): string
  {
    "logs/" + date + "/" + channel + "_" + time
  }

  /** The stem shared by the job description, the DAG and the status file. */
  function FileStem(channel: string, date: string, time: string): string
  {
    "mg5_" + channel + "_" + date + "_" + time
  }

  /** The job description: `SEDLOG`, then `SEDOUTPUT`, then `SEDCARD` replaced everywhere. */
  function JobDescription(template: string, logDir: string, outputDir: string, card: string): string
  {
    ReplaceChain(template, [("SEDLOG", logDir), ("SEDOUTPUT", outputDir), ("SEDCARD", card)])
  }

  /** The three replacements happen in that order, each on the result of the one before. */
  lemma {:induction false} JobDescriptionOrder(template: string, logDir: string, outputDir: string, card: string)
    ensures JobDescription(template, logDir, outputDir, card) ==
      ReplaceAll(ReplaceAll(ReplaceAll(template, "SEDLOG", logDir), "SEDOUTPUT", outputDir), "SEDCARD", card)
  {
    var t1 := ReplaceAll(template, "SEDLOG", logDir);
    var t2 := ReplaceAll(t1, "SEDOUTPUT", outputDir);
    assert ReplaceChain(template, [("SEDLOG", logDir), ("SEDOUTPUT", outputDir), ("SEDCARD", card)]) ==
      ReplaceChain(t1, [("SEDOUTPUT", outputDir), ("SEDCARD", card)]);
    assert ReplaceChain(t1, [("SEDOUTPUT", outputDir), ("SEDCARD", card)]) ==
      ReplaceChain(t2, [("SEDCARD", card)]);
    assert ReplaceChain(t2, [("SEDCARD", card)]) == ReplaceChain(ReplaceAll(t2, "SEDCARD", card), []);
  }

  /** A template without placeholders is written out unchanged. */
  lemma {:induction false} JobDescriptionNoPlaceholders(template: string, logDir: string, outputDir: string, card: string)
    requires !Contains(template, "SEDLOG") && !Contains(template, "SEDOUTPUT") && !Contains(template, "SEDCARD")
    ensures JobDescription(template, logDir, outputDir, card) == template
  {
    ReplaceChainAbsent(template, [("SEDLOG", logDir), ("SEDOUTPUT", outputDir), ("SEDCARD", card)]);
  }

  /** An output directory that itself contains `SEDCARD` is rewritten by the later replacement. */
  lemma {:induction false} OutputDirRewritten()
    ensures JobDescription("SEDOUTPUT", "logs", "SEDCARD", "c.txt") == "c.txt"
  {
    JobDescriptionOrder("SEDOUTPUT", "logs", "SEDCARD", "c.txt");
    assert !IsAt("SEDOUTPUT", "SEDLOG", 0);
    assert ReplaceAll("SEDOUTPUT", "SEDLOG", "logs") == "SEDOUTPUT" by {
      ReplaceAbsent("SEDOUTPUT", "SEDLOG", "logs");
    }
    assert IsAt("SEDOUTPUT", "SEDOUTPUT", 0);
    assert ReplaceAll("SEDOUTPUT", "SEDOUTPUT", "SEDCARD") == "SEDCARD";
    assert IsAt("SEDCARD", "SEDCARD", 0);
    assert ReplaceAll("SEDCARD", "SEDCARD", "c.txt") == "c.txt";
  }

  // ---------------------------------------------------------------------------
  // The DAG
  // ---------------------------------------------------------------------------

  /** `'%s_%d' % (channel, job_ind)`. */
  function JobName(channel: string, ind: int): string { channel + "_" + IntToString(ind) }

  /** `-c <card file name> -n <nEvents> -o <output dir>`: the same for every job. */
  function JobVars(card: string, nEvents: int, outputDir: string): string
  {
    "-c " + Basename(card) + " -n " + IntToString(nEvents) + " -o " + outputDir
  }

  /** The four header lines (the last one empty). */
  function Header(card: string, nJobs: int, nEvents: int): seq<string>
  {
    ["# DAG for card " + card, "# Running " + IntToString(nJobs) + " jobs",
     "# Each generating " + IntToString(nEvents) + " events", ""]
  }

  /** The JOB and VARS lines of job `ind`. */
  function JobNode(channel: string, scriptName: string, vars: string, ind: int): Node
  {
    Node("JOB " + JobName(channel, ind) + " " + scriptName,
         "VARS " + JobName(channel, ind) + " opts=\"" + vars + "\"")
  }

  function NodeOf(channel: string, scriptName: string, vars: string): int -> Result<Node>
  {
    (ind: int) => Ok(JobNode(channel, scriptName, vars, ind))
  }

  /** The status line, here without a refresh interval. */
  function StatusTrailer(statusName: string): string { "NODE_STATUS_FILE " + statusName }

  /**
   * The DAG file's lines. `'%d' % None` raises TypeError, so both counts must be given;
   * `xrange` of a negative count is empty.
   */
  function DagText(card: string, nJobs: Option<int>, nEvents: Option<int>, outputDir: string,
                   scriptName: string, statusName: string): Result<seq<string>>
  {
    if nJobs.None? || nEvents.None? then Err(TypeError("%d format: a number is required, not NoneType"))
    else
      DagLines(Header(card, nJobs.value, nEvents.value),
               NodeOf(Channel(card), scriptName, JobVars(card, nEvents.value, outputDir)),
               JobIds(0, nJobs.value - 1), [StatusTrailer(statusName)])
  }

  /** The DAG loop: one JOB and one VARS line for each of the jobs `0..n-1`, in order. */
  method WriteNodes(channel: string, scriptName: string, vars: string, n: int) returns (body: seq<string>)
    ensures Nodes(NodeOf(channel, scriptName, vars), JobIds(0, n - 1)) == Ok(body)
  {
    ghost var nodeOf := NodeOf(channel, scriptName, vars);
    ghost var ids := JobIds(0, n - 1);
    body := [];
    var ind := 0;
    while ind < n
      invariant 0 <= ind <= |ids|
      invariant Nodes(nodeOf, ids[..ind]) == Ok(body)
    {
      assert ids[ind] == ind;
      var node := JobNode(channel, scriptName, vars, ind);
      assert nodeOf(ids[ind]) == Ok(node);
      NodesStep(nodeOf, ids, ind, body);
      body := body + [node.job, node.vars];
      ind := ind + 1;
    }
    assert ids[..ind] == ids;
  }

  /** The DAG file: the header, the nodes and the status line. */
  method WriteDagFile(card: string, nJobs: Option<int>, nEvents: Option<int>, outputDir: string,
                      scriptName: string, statusName: string) returns (r: Result<seq<string>>)
    ensures r == DagText(card, nJobs, nEvents, outputDir, scriptName, statusName)
  {
    if nJobs.None? || nEvents.None? {
      return Err(TypeError("%d format: a number is required, not NoneType"));
    }
    var header := Header(card, nJobs.value, nEvents.value);
    var vars := JobVars(card, nEvents.value, outputDir);
    var body := WriteNodes(Channel(card), scriptName, vars, nJobs.value);
    var trailer := [StatusTrailer(statusName)];
    assert DagText(card, nJobs, nEvents, outputDir, scriptName, statusName) ==
      DagLines(header, NodeOf(Channel(card), scriptName, vars), JobIds(0, nJobs.value - 1), trailer);
    return Ok(header + body + trailer);
  }

  /** Distinct job numbers give distinct JOB lines. */
  lemma {:induction false} JobLineInjective(channel: string, scriptName: string, i: int, j: int)
    requires "JOB " + JobName(channel, i) + " " + scriptName == "JOB " + JobName(channel, j) + " " + scriptName
    ensures i == j
  {
    var xi := "JOB " + JobName(channel, i);
    var xj := "JOB " + JobName(channel, j);
    ConcatCancelRight(xi + " ", xj + " ", scriptName);
    ConcatCancelRight(xi, xj, " ");
    ConcatCancelLeft("JOB ", JobName(channel, i), JobName(channel, j));
    ConcatCancelLeft(channel + "_", IntToString(i), IntToString(j));
    IntToStringInjective(i, j);
  }

  /** The node lines of jobs `0..n-1` with any header, options and trailer. */
  lemma {:induction false} Layout(header: seq<string>, channel: string, scriptName: string, vars: string, n: int,
               trailer: seq<string>, k: int)
    requires 0 <= k < n
    ensures DagLines(header, NodeOf(channel, scriptName, vars), JobIds(0, n - 1), trailer).Ok?
    ensures var r := DagLines(header, NodeOf(channel, scriptName, vars), JobIds(0, n - 1), trailer).value;
      |r| == |header| + 2 * n + |trailer| && r[..|header|] == header && r[|r| - |trailer|..] == trailer &&
      r[|header| + 2 * k] == "JOB " + JobName(channel, k) + " " + scriptName &&
      r[|header| + 2 * k + 1] == "VARS " + JobName(channel, k) + " opts=\"" + vars + "\""
  {
    var nodeOf := NodeOf(channel, scriptName, vars);
    var ids := JobIds(0, n - 1);
    DagLinesErr(header, nodeOf, ids, trailer);
    DagLinesAt(header, nodeOf, ids, trailer, k);
    assert ids[k] == k;
  }

  /** Different jobs have different JOB lines, whatever surrounds them. */
  lemma {:induction false} LayoutDistinct(header: seq<string>, channel: string, scriptName: string, vars: string, n: int,
                       trailer: seq<string>, k1: int, k2: int)
    requires 0 <= k1 < n && 0 <= k2 < n && k1 != k2
    ensures DagLines(header, NodeOf(channel, scriptName, vars), JobIds(0, n - 1), trailer).Ok?
    ensures var r := DagLines(header, NodeOf(channel, scriptName, vars), JobIds(0, n - 1), trailer).value;
      |r| == |header| + 2 * n + |trailer| && r[|header| + 2 * k1] != r[|header| + 2 * k2]
  {
    Layout(header, channel, scriptName, vars, n, trailer, k1);
    Layout(header, channel, scriptName, vars, n, trailer, k2);
    if "JOB " + JobName(channel, k1) + " " + scriptName == "JOB " + JobName(channel, k2) + " " + scriptName {
      JobLineInjective(channel, scriptName, k1, k2);
    }
  }

  /** One JOB and one VARS line per job, whatever the options. */
  lemma {:induction false} LayoutCounts(header: seq<string>, channel: string, scriptName: string, vars: string, n: int,
                     trailer: seq<string>, p: string)
    requires p == "JOB " || p == "VARS "
    requires forall i :: 0 <= i < |header| ==> !StartsWith(header[i], p)
    requires forall i :: 0 <= i < |trailer| ==> !StartsWith(trailer[i], p)
    ensures DagLines(header, NodeOf(channel, scriptName, vars), JobIds(0, n - 1), trailer).Ok?
    ensures CountWith(DagLines(header, NodeOf(channel, scriptName, vars), JobIds(0, n - 1), trailer).value, p) ==
      if n < 0 then 0 else n
  {
    var nodeOf := NodeOf(channel, scriptName, vars);
    var ids := JobIds(0, n - 1);
    NodesErr(nodeOf, ids);
    var body := Nodes(nodeOf, ids).value;
    forall k | 0 <= k < |ids| && nodeOf(ids[k]).Ok?
      ensures StartsWith(nodeOf(ids[k]).value.job, p) <==> !StartsWith(nodeOf(ids[k]).value.vars, p)
    {
      var node := JobNode(channel, scriptName, vars, ids[k]);
      assert nodeOf(ids[k]).value == node;
      assert node.job[..4] == "JOB ";
      assert node.vars[..5] == "VARS ";
      assert node.job[1] == 'O' && node.vars[1] == 'A';
    }
    NodesCount(nodeOf, ids, p);
    CountWithConcat(header, body, p);
    CountWithConcat(header + body, trailer, p);
    CountWithNone(header, p);
    CountWithNone(trailer, p);
  }

  /**
   * The layout: four header lines, then for each job `k` in `0..nJobs-1` its JOB line and a
   * VARS line with the common options, then the status line.
   */
  lemma {:induction false} DagTextShape(card: string, nJobs: int, nEvents: int, outputDir: string, scriptName: string,
                     statusName: string, k: int)
    requires 0 <= k < nJobs
    ensures DagText(card, Some(nJobs), Some(nEvents), outputDir, scriptName, statusName).Ok?
    ensures var r := DagText(card, Some(nJobs), Some(nEvents), outputDir, scriptName, statusName).value;
      |r| == 4 + 2 * nJobs + 1 && r[..4] == Header(card, nJobs, nEvents) &&
      r[|r| - 1] == "NODE_STATUS_FILE " + statusName &&
      r[4 + 2 * k] == "JOB " + JobName(Channel(card), k) + " " + scriptName &&
      r[4 + 2 * k + 1] == "VARS " + JobName(Channel(card), k) + " opts=\"" + JobVars(card, nEvents, outputDir) + "\""
  {
    Layout(Header(card, nJobs, nEvents), Channel(card), scriptName, JobVars(card, nEvents, outputDir), nJobs,
           [StatusTrailer(statusName)], k);
  }

  /** Different jobs have different JOB lines. */
  lemma {:induction false} DagJobsDistinct(card: string, nJobs: int, nEvents: int, outputDir: string, scriptName: string,
                        statusName: string, k1: int, k2: int)
    requires 0 <= k1 < nJobs && 0 <= k2 < nJobs && k1 != k2
    ensures DagText(card, Some(nJobs), Some(nEvents), outputDir, scriptName, statusName).Ok?
    ensures var r := DagText(card, Some(nJobs), Some(nEvents), outputDir, scriptName, statusName).value;
      |r| == 4 + 2 * nJobs + 1 && r[4 + 2 * k1] != r[4 + 2 * k2]
  {
    var header, trailer := Header(card, nJobs, nEvents), [StatusTrailer(statusName)];
    assert |header| == 4 && |trailer| == 1;
    assert DagText(card, Some(nJobs), Some(nEvents), outputDir, scriptName, statusName) ==
      DagLines(header, NodeOf(Channel(card), scriptName, JobVars(card, nEvents, outputDir)), JobIds(0, nJobs - 1), trailer);
    LayoutDistinct(header, Channel(card), scriptName, JobVars(card, nEvents, outputDir), nJobs, trailer, k1, k2);
  }

  /** No header line and no status line starts like a node line. */
  lemma {:induction false} FramingNotNode(card: string, nJobs: int, nEvents: int, statusName: string, p: string)
    requires p == "JOB " || p == "VARS "
    ensures forall i :: 0 <= i < 4 ==> !StartsWith(Header(card, nJobs, nEvents)[i], p)
    ensures forall i :: 0 <= i < 1 ==> !StartsWith([StatusTrailer(statusName)][i], p)
  {
    var header := Header(card, nJobs, nEvents);
    assert header[0][0] == '#' && header[1][0] == '#' && header[2][0] == '#' && header[3] == "";
    assert StatusTrailer(statusName)[0] == 'N';
  }

  /** The DAG has exactly `nJobs` JOB lines and `nJobs` VARS lines (none for a negative count). */
  lemma {:induction false} DagTextCounts(card: string, nJobs: int, nEvents: int, outputDir: string, scriptName: string,
                      statusName: string)
    ensures DagText(card, Some(nJobs), Some(nEvents), outputDir, scriptName, statusName).Ok?
    ensures var r := DagText(card, Some(nJobs), Some(nEvents), outputDir, scriptName, statusName).value;
      CountWith(r, "JOB ") == (if nJobs < 0 then 0 else nJobs) &&
      CountWith(r, "VARS ") == (if nJobs < 0 then 0 else nJobs)
  {
    var header := Header(card, nJobs, nEvents);
    var trailer := [StatusTrailer(statusName)];
    var vars := JobVars(card, nEvents, outputDir);
    assert DagText(card, Some(nJobs), Some(nEvents), outputDir, scriptName, statusName) ==
      DagLines(header, NodeOf(Channel(card), scriptName, vars), JobIds(0, nJobs - 1), trailer);
    FramingNotNode(card, nJobs, nEvents, statusName, "JOB ");
    LayoutCounts(header, Channel(card), scriptName, vars, nJobs, trailer, "JOB ");
    FramingNotNode(card, nJobs, nEvents, statusName, "VARS ");
    LayoutCounts(header, Channel(card), scriptName, vars, nJobs, trailer, "VARS ");
  }

  /** The DAG fails exactly when a count is missing. */
  lemma {:induction false} DagTextErr(card: string, nJobs: Option<int>, nEvents: Option<int>, outputDir: string,
                   scriptName: string, statusName: string)
    ensures DagText(card, nJobs, nEvents, outputDir, scriptName, statusName).Err? <==> nJobs.None? || nEvents.None?
  {
    if nJobs.Some? && nEvents.Some? {
      var nodeOf := NodeOf(Channel(card), scriptName, JobVars(card, nEvents.value, outputDir));
      DagLinesErr(Header(card, nJobs.value, nEvents.value), nodeOf, JobIds(0, nJobs.value - 1),
                  [StatusTrailer(statusName)]);
    }
  }

  // ---------------------------------------------------------------------------
  // submit
  // ---------------------------------------------------------------------------

  /** What `submit` writes: the job description, the DAG file's name and lines, and the two directories. */
  datatype Mg5DagSubmission = Mg5DagSubmission(scriptName: string, jobDescription: string, dagName: string,
                                               dagLines: seq<string>, outputDir: string, logDir: string)

  /**
   * `submit`: a card that is not a file raises RuntimeError before anything is made; the
   * date and time strings and the template text are parameters.
   */
  function Submit(fs: Fs, args: Mg5DagArgs, template: string, date: string, time: string): (r: Result<Mg5DagSubmission>)
    ensures !IsFile(fs, args.card) ==> r.Err? && r.error.RuntimeError?
    ensures IsFile(fs, args.card) ==> (r.Err? <==> args.nJobs.None? || args.nEvents.None?)
    ensures r.Ok? ==>
      var stem := FileStem(Channel(args.card), date, time);
      r.value.scriptName == stem + ".condor" && r.value.dagName == stem + ".dag" &&
      r.value.outputDir == OutputDir(args.oDir, args.card) &&
      r.value.logDir == LogDir(date, time, Channel(args.card)) &&
      r.value.jobDescription == JobDescription(template, r.value.logDir, r.value.outputDir, args.card) &&
      DagText(args.card, args.nJobs, args.nEvents, r.value.outputDir, r.value.scriptName, stem + ".status") == Ok(r.value.dagLines)
  {
    if !IsFile(fs, args.card) then Err(RuntimeError("Cannot find specified card %s"))
    else
      var channel := Channel(args.card);
      var outputDir := OutputDir(args.oDir, args.card);
      var logDir := LogDir(date, time, channel);
      var stem := FileStem(channel, date, time);
      var jobDescription := JobDescription(template, logDir, outputDir, args.card);
      DagTextErr(args.card, args.nJobs, args.nEvents, outputDir, stem + ".condor", stem + ".status");
      var lines :- DagText(args.card, args.nJobs, args.nEvents, outputDir, stem + ".condor", stem + ".status");
      Ok(Mg5DagSubmission(stem + ".condor", jobDescription, stem + ".dag", lines, outputDir, logDir))
  }
}
