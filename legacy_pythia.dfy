/**
 * The legacy Pythia 8 HTCondor submitter. Every job writes one HepMC file, named from the
 * user's `--hepmc` value (or a generated default) with the job ID appended, and stages it out
 * to the output directory. The option helpers are the strict ones: they raise where the
 * tolerant ones return None.
 */
module LegacyPythia {
  import opened Wrappers
  import opened Text
  import opened Paths
  import opened Lists
  import opened ArgOptions
  import opened JobSpace
  import opened Dag

  /** What the DAG writer takes from the submitter besides the argument list. */
  datatype LegacyConfig = LegacyConfig(
    channel: string,     // card basename without extension
    oDir: string,        // output directory, also the copy-out destination
    cardsDir: string,    // absolute path of the local `input_cards` directory
    exe: string,         // the sandboxed executable
    condorFile: string,  // the condor job description every node runs
    statusFile: string)  // the DAG status file

  /**
   * The lookups and checks made before anything is written, in the submitter's order: the
   * executable exists, `--card` has a value naming an existing file, `--mass` has a value.
   * On success, the channel (the card's basename without extension) and the mass text.
   * `files` stands for the paths that are existing regular files. The job-ID range is not checked.
   */
  function LegacyChecks(args: seq<string>, exe: string, files: set<string>): (r: Result<(string, string)>)
    ensures exe !in files ==> r == Err(RuntimeError("Executable " + exe + " does not exist"))
    ensures exe in files && GetOptionStrict(args, "--card").Err? ==> r == Err(GetOptionStrict(args, "--card").error)
    ensures r.Ok? <==> (exe in files && GetOptionStrict(args, "--card").Ok? &&
      GetOptionStrict(args, "--card").value in files && GetOptionStrict(args, "--mass").Ok?)
    ensures r.Ok? ==>
      r.value == (Root(Basename(GetOptionStrict(args, "--card").value)), GetOptionStrict(args, "--mass").value)
  {
    if exe !in files then Err(RuntimeError("Executable " + exe + " does not exist"))
    else
      var card :- GetOptionStrict(args, "--card");
      if card !in files then Err(RuntimeError("Input card " + card + " does not exist!"))
      else
        var mass :- GetOptionStrict(args, "--mass");
        Ok((Root(Basename(card)), mass))
  }

  /** The events-per-job text: `--number`, else `-n`, else 1; a flag given last raises IndexError. */
  function LegacyNEvents(args: seq<string>): (r: Result<string>)
    ensures r.Err? <==> (("--number" in args && IndexOf(args, "--number") == |args| - 1) ||
      ("--number" !in args && "-n" in args && IndexOf(args, "-n") == |args| - 1))
    ensures r.Err? ==> r.error == IndexError
    ensures r.Ok? && "--number" in args ==> r.value == args[IndexOf(args, "--number") + 1]
    ensures r.Ok? && "--number" !in args && "-n" in args ==> r.value == args[IndexOf(args, "-n") + 1]
    ensures "--number" !in args && "-n" !in args ==> r == Ok("1")
  {
    if "--number" in args then GetOptionStrict(args, "--number")
    else if "-n" in args then GetOptionStrict(args, "-n")
    else Ok("1")
  }

  /** The default output name: `<channel>_ma1_<mass>_<n>.hepmc`. */
  function HepmcDefault(channel: string, mass: string, n: string): string
  {
    channel + "_ma1_" + mass + "_" + n + ".hepmc"
  }

  /** The name job `ind` writes: directory dropped, extension replaced by `_<ind>.hepmc`. */
  function HepmcName(v: string, ind: int): string
  {
    Root(Basename(v)) + "_" + IntToString(ind) + ".hepmc"
  }

  /** Jobs with different IDs write differently named files. */
  lemma {:induction false} HepmcNameInjective(v: string, i: int, j: int)
    requires HepmcName(v, i) == HepmcName(v, j)
    ensures i == j
  {
    IntToStringInContext(Root(Basename(v)) + "_", i, j, ".hepmc");
  }

  /** The name never carries a directory. */
  lemma {:induction false} HepmcNameNoDirectory(v: string, ind: int)
    ensures '/' !in HepmcName(v, ind)
  {
    var root := Root(Basename(v));
    RootNoSlash(Basename(v));
    IntToStringNoSlash(ind);
    assert '/' !in root + "_";
    assert '/' !in root + "_" + IntToString(ind);
    assert HepmcName(v, ind) == root + "_" + IntToString(ind) + ".hepmc";
  }

  /** The default name, once numbered, is `<channel>_ma1_<mass>_<n>_<ind>.hepmc`. */
  lemma {:induction false} HepmcNameOfDefault(channel: string, mass: string, n: string, ind: int)
    requires '/' !in channel && '/' !in mass && '/' !in n
    ensures HepmcName(HepmcDefault(channel, mass, n), ind) ==
      channel + "_ma1_" + mass + "_" + n + "_" + IntToString(ind) + ".hepmc"
  {
    var s := channel + "_ma1_" + mass + "_" + n;
    assert HepmcDefault(channel, mass, n) == s + "." + "hepmc";
    assert s[|channel|] == '_';
    assert '/' !in s;
    BasenameNoSlash(s + "." + "hepmc");
    SplitextOfDotted(s, "hepmc");
  }

  /** The user's arguments, with `--hepmc <default>` appended when `--hepmc` is absent. */
  function WithHepmc(args: seq<string>, channel: string, mass: string, n: string): (r: seq<string>)
    ensures "--hepmc" in r
    ensures "--hepmc" in args ==> r == args
    ensures "--hepmc" !in args ==> r == args + ["--hepmc", HepmcDefault(channel, mass, n)]
  {
    if "--hepmc" in args then args else
      var r := args + ["--hepmc", HepmcDefault(channel, mass, n)];
      assert r[|args|] == "--hepmc";
      r
  }

  /** The user gave `--hepmc` as the very last token: reading its value runs off the list. */
  predicate HepmcLast(args: seq<string>)
  {
    "--hepmc" in args && IndexOf(args, "--hepmc") == |args| - 1
  }

  /** One job's output file and the arguments its executable gets. */
  datatype LegacyJob = LegacyJob(hepmc: string, exeArgs: seq<string>)

  /**
   * Renaming the output of job `ind` in arguments that carry `--hepmc`: its value gets the
   * job's number and `--seed <ind>` is appended. The executable is then told to write exactly
   * the returned file, and only the `--hepmc` value differs from the arguments before.
   */
  function RenameHepmc(exeArgs: seq<string>, ind: int): (r: Result<LegacyJob>)
    requires "--hepmc" in exeArgs
    ensures r.Err? <==> ValuePos(exeArgs, "--hepmc") == |exeArgs|
    ensures r.Err? ==> r.error == IndexError
    ensures r.Ok? ==> r.value.hepmc == HepmcName(GetOptionStrict(exeArgs, "--hepmc").value, ind)
    ensures r.Ok? ==> GetOptionStrict(r.value.exeArgs, "--hepmc") == Ok(r.value.hepmc)
    ensures r.Ok? ==> EndsWith(r.value.exeArgs, SeedPair(ind))
    ensures r.Ok? ==> (|r.value.exeArgs| == |exeArgs| + 2 &&
      forall j :: 0 <= j < |exeArgs| && j != ValuePos(exeArgs, "--hepmc") ==> r.value.exeArgs[j] == exeArgs[j])
  {
    var v :- GetOptionStrict(exeArgs, "--hepmc");
    var name := HepmcName(v, ind);
    StrictGetAfterSet(exeArgs, "--hepmc", name);
    var renamed := SetOptionStrict(exeArgs, "--hepmc", name).value;
    IndexOfPrefix(renamed, SeedPair(ind), "--hepmc");
    var out := renamed + SeedPair(ind);
    assert out[|out| - 2..] == SeedPair(ind);
    Ok(LegacyJob(name, out))
  }

  /** The per-job edits: add the default `--hepmc` when the user gave none, then rename it. */
  function JobArgs(c: LegacyConfig, userArgs: seq<string>, mass: string, n: string, ind: int): (r: Result<LegacyJob>)
    ensures r.Err? <==> HepmcLast(userArgs)
    ensures r == RenameHepmc(WithHepmc(userArgs, c.channel, mass, n), ind)
  {
    var exeArgs := WithHepmc(userArgs, c.channel, mass, n);
    assert HepmcLast(userArgs) <==> ValuePos(exeArgs, "--hepmc") == |exeArgs| by {
      if "--hepmc" !in userArgs {
        assert exeArgs[|userArgs|] == "--hepmc";
        assert IndexOf(exeArgs, "--hepmc") == |userArgs|;
      }
    }
    RenameHepmc(exeArgs, ind)
  }

  /** Stage the cards and the executable in, run it as `mc.exe`, stage `hepmc` out to `oDir`. */
  function LegacyPrefix(c: LegacyConfig, hepmc: string): seq<string>
  {
    ["--copyToLocal", c.cardsDir, "input_cards",
     "--copyToLocal", c.exe, "mc.exe",
     "--exe", "mc.exe",
     "--copyFromLocal", hepmc, c.oDir,
     "--args"]
  }

  /**
   * The worker options of job `ind`: the fixed twelve-token prefix, then the executable's
   * arguments. The file staged out (token 9) is the file the executable is told to write, and
   * it is numbered with the job ID; the options end with `--seed <ind>`.
   */
  function JobOptions(c: LegacyConfig, userArgs: seq<string>, mass: string, n: string, ind: int): (r: Result<seq<string>>)
    ensures r.Err? <==> HepmcLast(userArgs)
    ensures r.Ok? ==> |r.value| > 12 && r.value[..12] == LegacyPrefix(c, r.value[9])
    ensures r.Ok? ==> GetOptionStrict(r.value[12..], "--hepmc") == Ok(r.value[9])
    ensures r.Ok? ==>
      GetOptionStrict(WithHepmc(userArgs, c.channel, mass, n), "--hepmc").Ok? &&
      r.value[9] == HepmcName(GetOptionStrict(WithHepmc(userArgs, c.channel, mass, n), "--hepmc").value, ind)
    ensures r.Ok? ==> EndsWith(r.value, SeedPair(ind))
  {
    var job :- JobArgs(c, userArgs, mass, n, ind);
    Ok(Staged(c, job, ind))
  }

  /** The options of a renamed job: the prefix staging its file out, then its arguments. */
  function Staged(c: LegacyConfig, job: LegacyJob, ind: int): (opts: seq<string>)
    requires GetOptionStrict(job.exeArgs, "--hepmc") == Ok(job.hepmc)
    requires EndsWith(job.exeArgs, SeedPair(ind))
    ensures |opts| > 12 && opts[..12] == LegacyPrefix(c, opts[9]) && opts[9] == job.hepmc
    ensures GetOptionStrict(opts[12..], "--hepmc") == Ok(opts[9])
    ensures EndsWith(opts, SeedPair(ind))
  {
    var prefix := LegacyPrefix(c, job.hepmc);
    var opts := prefix + job.exeArgs;
    assert |prefix| == 12 && prefix[9] == job.hepmc;
    assert opts[..12] == prefix && opts[9] == job.hepmc;
    assert opts[12..] == job.exeArgs;
    assert opts[|opts| - 2..] == job.exeArgs[|job.exeArgs| - 2..];
    opts
  }

  /** Without a user `--hepmc`, job `ind` stages out `<channel>_ma1_<mass>_<n>_<ind>.hepmc`. */
  lemma {:induction false} DefaultStagedOut(c: LegacyConfig, userArgs: seq<string>, mass: string, n: string, ind: int)
    requires "--hepmc" !in userArgs
    requires '/' !in c.channel && '/' !in mass && '/' !in n
    ensures JobOptions(c, userArgs, mass, n, ind).Ok?
    ensures JobOptions(c, userArgs, mass, n, ind).value[9] ==
      c.channel + "_ma1_" + mass + "_" + n + "_" + IntToString(ind) + ".hepmc"
  {
    var w := WithHepmc(userArgs, c.channel, mass, n);
    assert w[|userArgs|] == "--hepmc";
    assert IndexOf(w, "--hepmc") == |userArgs|;
    assert GetOptionStrict(w, "--hepmc") == Ok(HepmcDefault(c.channel, mass, n));
    HepmcNameOfDefault(c.channel, mass, n, ind);
  }

  function VarsLine(c: LegacyConfig, ind: int, opts: seq<string>): string
  {
    "VARS " + NodeName(ind, c.channel) + " opts=\"" + Text.Join(" ", opts) + "\""
  }

  function Header(c: LegacyConfig): seq<string>
  {
    ["# DAG for channel " + c.channel, "# Outputting to " + c.oDir]
  }

  /** The node of job `ind` with options `opts`: its JOB line and its VARS line; failing options fail it. */
  function NodeFrom(c: LegacyConfig, ind: int, opts: Result<seq<string>>): (r: Result<Node>)
    ensures r.Ok? <==> opts.Ok?
    ensures r.Ok? ==> r.value.job == JobLine(ind, c.channel, c.condorFile)
  {
    var o :- opts;
    Ok(Node(JobLine(ind, c.channel, c.condorFile), VarsLine(c, ind, o)))
  }

  /** The options of every job, as a function of its ID. */
  function OptionsOf(c: LegacyConfig, userArgs: seq<string>, mass: string, n: string): int -> Result<seq<string>>
  {
    ind => JobOptions(c, userArgs, mass, n, ind)
  }

  function NodeOf(c: LegacyConfig, optsOf: int -> Result<seq<string>>): int -> Result<Node>
  {
    ind => NodeFrom(c, ind, optsOf(ind))
  }

  /** The whole DAG text for the IDs `first..last`. */
  function DagText(c: LegacyConfig, args: seq<string>, mass: string, first: int, last: int): Result<seq<string>>
  {
    var n :- LegacyNEvents(args);
    DagLines(Header(c), NodeOf(c, OptionsOf(c, args, mass, n)), JobIds(first, last), [StatusLine(c.statusFile)])
  }

  /**
   * `write_dag_file`: reads the events per job, then writes the header, one node per job ID
   * (copying the user's arguments afresh for each job) and the status line.
   */
  method WriteDag(c: LegacyConfig, args: seq<string>, mass: string, first: int, last: int)
    returns (lines: Result<seq<string>>)
    ensures lines == DagText(c, args, mass, first, last)
  {
    var nr := LegacyNEvents(args);
    if nr.Err? {
      lines := Err(nr.error);
      return;
    }
    lines := WriteNodes(c, OptionsOf(c, args, mass, nr.value), first, last);
  }

  /** The loop of `write_dag_file` over the job IDs, for any per-job options. */
  method WriteNodes(c: LegacyConfig, optsOf: int -> Result<seq<string>>, first: int, last: int)
    returns (lines: Result<seq<string>>)
    ensures lines == DagLines(Header(c), NodeOf(c, optsOf), JobIds(first, last), [StatusLine(c.statusFile)])
  {
    ghost var nodeOf := NodeOf(c, optsOf);
    var ids := JobIds(first, last);
    var body: seq<string> := [];
    var k := 0;
    while k < |ids|
      invariant 0 <= k <= |ids|
      invariant Nodes(nodeOf, ids[..k]) == Ok(body)
    {
      var ind := ids[k];
      var opts := optsOf(ind);
      if opts.Err? {
        NodesStop(nodeOf, ids, k);
        lines := Err(opts.error);
        return;
      }
      assert nodeOf(ind) == Ok(Node(JobLine(ind, c.channel, c.condorFile), VarsLine(c, ind, opts.value)));
      NodesStep(nodeOf, ids, k, body);
      body := body + [JobLine(ind, c.channel, c.condorFile), VarsLine(c, ind, opts.value)];
      k := k + 1;
    }
    assert ids[..k] == ids;
    lines := Ok(Header(c) + body + [StatusLine(c.statusFile)]);
  }

  /** The layout for any per-job options: header, a JOB and a VARS line per ID, status line. */
  lemma {:induction false} LayoutAt(c: LegacyConfig, optsOf: int -> Result<seq<string>>, first: int, last: int, k: int)
    requires DagLines(Header(c), NodeOf(c, optsOf), JobIds(first, last), [StatusLine(c.statusFile)]).Ok?
    requires 0 <= k <= last - first
    ensures var r := DagLines(Header(c), NodeOf(c, optsOf), JobIds(first, last), [StatusLine(c.statusFile)]).value;
      |r| == 2 + 2 * (last - first + 1) + 1 && r[..2] == Header(c) && r[|r| - 1] == StatusLine(c.statusFile) &&
      r[2 + 2 * k] == JobLine(first + k, c.channel, c.condorFile) && optsOf(first + k).Ok? &&
      r[3 + 2 * k] == VarsLine(c, first + k, optsOf(first + k).value)
  {
    var ids := JobIds(first, last);
    DagLinesAt(Header(c), NodeOf(c, optsOf), ids, [StatusLine(c.statusFile)], k);
    assert ids[k] == first + k;
  }

  /**
   * The DAG for `first..last`: two header lines, then per ID in increasing order its JOB line
   * and its VARS line carrying that job's options, then one status line with a 30-second interval.
   */
  lemma {:induction false} DagTextShape(c: LegacyConfig, args: seq<string>, mass: string, n: string, first: int, last: int, k: int)
    requires LegacyNEvents(args) == Ok(n)
    requires DagText(c, args, mass, first, last).Ok?
    requires 0 <= k <= last - first
    ensures |DagText(c, args, mass, first, last).value| == 2 + 2 * (last - first + 1) + 1
    ensures var r := DagText(c, args, mass, first, last).value;
      r[..2] == Header(c) && r[|r| - 1] == StatusLine(c.statusFile)
    ensures DagText(c, args, mass, first, last).value[2 + 2 * k] == JobLine(first + k, c.channel, c.condorFile)
    ensures JobOptions(c, args, mass, n, first + k).Ok?
    ensures DagText(c, args, mass, first, last).value[3 + 2 * k] ==
      VarsLine(c, first + k, JobOptions(c, args, mass, n, first + k).value)
  {
    var optsOf := OptionsOf(c, args, mass, n);
    LayoutAt(c, optsOf, first, last, k);
    assert optsOf(first + k) == JobOptions(c, args, mass, n, first + k);
  }

  /**
   * The writer fails exactly when the events-per-job lookup fails, or when the range is
   * non-empty and `--hepmc` is the last user token; the failure does not depend on the job.
   */
  lemma {:induction false} DagTextErr(c: LegacyConfig, args: seq<string>, mass: string, first: int, last: int)
    ensures DagText(c, args, mass, first, last).Err? <==>
      (LegacyNEvents(args).Err? || (first <= last && HepmcLast(args)))
  {
    if LegacyNEvents(args).Ok? {
      var n := LegacyNEvents(args).value;
      var optsOf := OptionsOf(c, args, mass, n);
      var nodeOf := NodeOf(c, optsOf);
      var ids := JobIds(first, last);
      DagLinesErr(Header(c), nodeOf, ids, [StatusLine(c.statusFile)]);
      if first <= last && HepmcLast(args) {
        assert optsOf(ids[0]).Err?;
        assert nodeOf(ids[0]).Err?;
      }
      if DagText(c, args, mass, first, last).Err? {
        var k :| 0 <= k < |ids| && nodeOf(ids[k]).Err?;
        assert optsOf(ids[k]).Err?;
      }
    }
  }

  /** No two nodes of a DAG share a JOB line, hence a name. */
  lemma {:induction false} DagNodesDistinct(c: LegacyConfig, args: seq<string>, mass: string, first: int, last: int, k1: int, k2: int)
    requires DagText(c, args, mass, first, last).Ok?
    requires 0 <= k1 <= last - first && 0 <= k2 <= last - first && k1 != k2
    ensures |DagText(c, args, mass, first, last).value| == 2 + 2 * (last - first + 1) + 1
    ensures DagText(c, args, mass, first, last).value[2 + 2 * k1] != DagText(c, args, mass, first, last).value[2 + 2 * k2]
  {
    LayoutDistinct(c, OptionsOf(c, args, mass, LegacyNEvents(args).value), first, last, k1, k2);
  }

  lemma {:induction false} LayoutDistinct(c: LegacyConfig, optsOf: int -> Result<seq<string>>, first: int, last: int, k1: int, k2: int)
    requires DagLines(Header(c), NodeOf(c, optsOf), JobIds(first, last), [StatusLine(c.statusFile)]).Ok?
    requires 0 <= k1 <= last - first && 0 <= k2 <= last - first && k1 != k2
    ensures var r := DagLines(Header(c), NodeOf(c, optsOf), JobIds(first, last), [StatusLine(c.statusFile)]).value;
      |r| == 2 + 2 * (last - first + 1) + 1 && r[2 + 2 * k1] != r[2 + 2 * k2]
  {
    var ids := JobIds(first, last);
    var nodeOf := NodeOf(c, optsOf);
    var header, trailer := Header(c), [StatusLine(c.statusFile)];
    assert |header| == 2 && |trailer| == 1 && |ids| == last - first + 1;
    assert ids[k1] == first + k1 && ids[k2] == first + k2;
    NodeJobsDiffer(c, optsOf, ids[k1], ids[k2]);
    DagLinesDistinct(header, nodeOf, ids, trailer, k1, k2);
  }

  /** The nodes of two different job IDs have different JOB lines. */
  lemma {:induction false} NodeJobsDiffer(c: LegacyConfig, optsOf: int -> Result<seq<string>>, i: int, j: int)
    requires i != j
    ensures NodeOf(c, optsOf)(i).Ok? && NodeOf(c, optsOf)(j).Ok? ==>
      NodeOf(c, optsOf)(i).value.job != NodeOf(c, optsOf)(j).value.job
  {
    assert NodeOf(c, optsOf)(i) == NodeFrom(c, i, optsOf(i));
    assert NodeOf(c, optsOf)(j) == NodeFrom(c, j, optsOf(j));
    if JobLine(i, c.channel, c.condorFile) == JobLine(j, c.channel, c.condorFile) {
      JobLineInjective(i, j, c.channel, c.condorFile);
    }
  }

  /** An empty (or reversed) ID range yields the header and the status line only. */
  lemma {:induction false} DagTextEmpty(c: LegacyConfig, args: seq<string>, mass: string, first: int, last: int)
    requires last < first && LegacyNEvents(args).Ok?
    ensures DagText(c, args, mass, first, last) == Ok(Header(c) + [StatusLine(c.statusFile)])
  {
    assert JobIds(first, last) == [];
    DagLinesEmpty(Header(c), NodeOf(c, OptionsOf(c, args, mass, LegacyNEvents(args).value)), [StatusLine(c.statusFile)]);
  }

  // ---------------------------------------------------------------------------
  // The condor job description
  // ---------------------------------------------------------------------------

  /** `write_condor_file`: every `SEDLOGDIR` becomes the log directory, then every `SEDLOGFILE` the log-file stem. */
  function CondorFile(template: string, logDir: string, logFile: string): string
  {
    ReplaceChain(template, [("SEDLOGDIR", logDir), ("SEDLOGFILE", logFile)])
  }

  /** The log-file placeholder is filled in after, and on the result of, the log-directory one. */
  lemma {:induction false} CondorFileOrder(template: string, logDir: string, logFile: string)
    ensures CondorFile(template, logDir, logFile) ==
      ReplaceAll(ReplaceAll(template, "SEDLOGDIR", logDir), "SEDLOGFILE", logFile)
  {
    assert [("SEDLOGDIR", logDir), ("SEDLOGFILE", logFile)] == [("SEDLOGDIR", logDir)] + [("SEDLOGFILE", logFile)];
    ReplaceChainLast(template, [("SEDLOGDIR", logDir)], "SEDLOGFILE", logFile);
    assert ReplaceChain(template, [("SEDLOGDIR", logDir)]) == ReplaceChain(ReplaceAll(template, "SEDLOGDIR", logDir), []);
  }

  /** A template without placeholders is written out unchanged. */
  lemma {:induction false} CondorFileNoPlaceholders(template: string, logDir: string, logFile: string)
    requires !Contains(template, "SEDLOGDIR") && !Contains(template, "SEDLOGFILE")
    ensures CondorFile(template, logDir, logFile) == template
  {
    ReplaceChainAbsent(template, [("SEDLOGDIR", logDir), ("SEDLOGFILE", logFile)]);
  }

  /**
   * A single log-directory placeholder at `k` (and no log-file placeholder in the result of
   * filling it) is replaced by the log directory, and the rest of the template is kept.
   */
  lemma {:induction false} CondorFileOneDir(template: string, logDir: string, logFile: string, k: nat)
    requires IsAt(template, "SEDLOGDIR", k) && forall j :: j != k ==> !IsAt(template, "SEDLOGDIR", j)
    requires !Contains(template[..k] + logDir + template[k + 9..], "SEDLOGFILE")
    ensures CondorFile(template, logDir, logFile) == template[..k] + logDir + template[k + 9..]
  {
    CondorFileOrder(template, logDir, logFile);
    ReplaceOnce(template, "SEDLOGDIR", logDir, k);
    ReplaceAbsent(template[..k] + logDir + template[k + 9..], "SEDLOGFILE", logFile);
  }

  /** A log directory that itself contains `SEDLOGFILE` is rewritten too, by the second replacement. */
  lemma {:induction false} CondorFileRewritesLogDir()
    ensures CondorFile("SEDLOGDIR", "SEDLOGFILE", "$(JOB)") == "$(JOB)"
  {
    CondorFileOrder("SEDLOGDIR", "SEDLOGFILE", "$(JOB)");
    assert IsAt("SEDLOGDIR", "SEDLOGDIR", 0);
    assert ReplaceAll("SEDLOGDIR", "SEDLOGDIR", "SEDLOGFILE") == "SEDLOGFILE";
    assert IsAt("SEDLOGFILE", "SEDLOGFILE", 0);
    assert ReplaceAll("SEDLOGFILE", "SEDLOGFILE", "$(JOB)") == "$(JOB)";
  }
}
