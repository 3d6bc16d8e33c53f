/**
 * The DAG writer of the Pythia 8 HTCondor submitter. For every job ID it emits a `JOB`
 * line naming the node `<ind>_<channel>` and a `VARS` line carrying the worker options:
 * staging of the input cards and the executable, one copy-out per requested output
 * format, and the user's program arguments with `--seed <ind>` appended and each output
 * file renamed to `<stem>_seed<ind>.<fmt>`.
 */
module PythiaCondor {
  import opened Wrappers
  import opened Text
  import opened Paths
  import opened Lists
  import opened ArgOptions
  import opened JobSpace
  import opened PythiaSubmit
  import opened Dag

  /** What the DAG writer takes from the submitter besides the argument list. */
  datatype DagConfig = DagConfig(
    channel: string,     // card basename without extension
    oDir: string,        // output directory, also the copy-out destination
    energy: int,         // centre-of-mass energy in TeV
    condorFile: string,  // the condor job description every node runs
    statusFile: string,  // the DAG status file
    exe: string,         // the sandboxed executable
    logDir: string,
    dagFile: string)

  /**
   * The centre-of-mass energy in TeV, `int(get_option_in_args(args.args, '--energy'))`:
   * 13 when the flag is absent (the KeyError is caught), TypeError from `int(None)` when
   * the flag has no value, ValueError when the value is not an integer.
   */
  function Energy(args: seq<string>): (r: Result<int>)
    ensures "--energy" !in args <==> r == Ok(13) && GetOption(args, "--energy").Err?
    ensures GetOption(args, "--energy") == Ok(None) ==> r.Err? && r.error.TypeError?
    ensures GetOption(args, "--energy").Ok? && GetOption(args, "--energy").value.Some? ==>
      var v := GetOption(args, "--energy").value.value;
      (r.Ok? <==> ParseInt(v).Some?) && (r.Ok? ==> r.value == ParseInt(v).value) &&
      (r.Err? ==> r.error.ValueError?)
  {
    match GetOption(args, "--energy")
    case Err(_) => Ok(13)
    case Ok(None) => Err(TypeError("int() argument must be a string or a number, not 'NoneType'"))
    case Ok(Some(v)) =>
      match ParseInt(v)
      case None => Err(ValueError("invalid literal for int() with base 10: " + v))
      case Some(e) => Ok(e)
  }

  /** An energy passed as `--energy <e>` after the other arguments is the energy used. */
  lemma {:induction false} EnergyOfFlag(args: seq<string>, e: nat)
    requires "--energy" !in args
    ensures Energy(args + ["--energy", IntToString(e)]) == Ok(e)
  {
    var v := IntToString(e);
    assert v[0] != '-';
    assert IsFlagToken("--energy") by { assert "--energy"[..1] == "-"; }
    AppendedOption(args, "--energy", v);
    ParseIntOfIntToString(e);
  }

  /** `generate_filename`: `<channel>_ma1_<mass>_<energy>TeV_n<n>.<fmt>`. */
  function GenerateFilename(channel: string, mass: string, energy: int, n: string, fmt: string): string
  {
    channel + "_ma1_" + mass + "_" + IntToString(energy) + "TeV_n" + n + "." + fmt
  }

  /** The name a job writes for one format: directory dropped, extension replaced by `_seed<ind>.<fmt>`. */
  function SeededName(v: string, ind: int, fmt: string): string
  {
    Root(Basename(v)) + "_seed" + IntToString(ind) + "." + fmt
  }

  /** Seeded names never carry a directory. */
  lemma {:induction false} SeededNameNoDirectory(v: string, ind: int, fmt: string)
    requires '/' !in fmt
    ensures '/' !in SeededName(v, ind, fmt)
  {
    RootNoSlash(Basename(v));
    IntToStringNoSlash(ind);
  }

  /** Jobs with different IDs write differently named files. */
  lemma {:induction false} SeededNameInjective(v: string, i: int, j: int, fmt: string)
    requires SeededName(v, i, fmt) == SeededName(v, j, fmt)
    ensures i == j
  {
    var stem := Root(Basename(v)) + "_seed";
    ConcatAssoc(stem + IntToString(i), ".", fmt);
    ConcatAssoc(stem + IntToString(j), ".", fmt);
    IntToStringInContext(stem, i, j, "." + fmt);
  }

  /**
   * A generated default name, once seeded, is `<channel>_ma1_<mass>_<energy>TeV_n<n>_seed<ind>.<fmt>`:
   * the stem the executable itself would choose, with the seed appended.
   */
  lemma {:induction false} SeededDefaultName(channel: string, mass: string, energy: int, n: string, fmt: string, ind: int)
    requires '/' !in channel && '/' !in mass && '/' !in n && '/' !in fmt && '.' !in fmt
    ensures SeededName(GenerateFilename(channel, mass, energy, n, fmt), ind, fmt) ==
      channel + "_ma1_" + mass + "_" + IntToString(energy) + "TeV_n" + n + "_seed" + IntToString(ind) + "." + fmt
  {
    var s := channel + "_ma1_" + mass + "_" + IntToString(energy) + "TeV_n" + n;
    assert GenerateFilename(channel, mass, energy, n, fmt) == s + "." + fmt;
    assert s[|channel|] == '_';
    IntToStringNoSlash(energy);
    assert '/' !in s;
    BasenameNoSlash(s + "." + fmt);
    SplitextOfDotted(s, fmt);
  }

  /** The worker's copy-out options and the executable's arguments for one job. */
  datatype JobPlan = JobPlan(copyOut: seq<string>, exeArgs: seq<string>)

  /** Consecutive triples of options, each accepted by `ok`. */
  predicate Triples(opts: seq<string>, ok: (string, string, string) -> bool)
  {
    |opts| == 0 || (|opts| >= 3 && ok(opts[0], opts[1], opts[2]) && Triples(opts[3..], ok))
  }

  lemma {:induction false} TriplesConcat(a: seq<string>, b: seq<string>, ok: (string, string, string) -> bool)
    requires Triples(a, ok) && Triples(b, ok)
    ensures Triples(a + b, ok)
  {
    if |a| > 0 {
      TriplesConcat(a[3..], b, ok);
      var ab := a + b;
      assert ab[0] == a[0] && ab[1] == a[1] && ab[2] == a[2];
      assert ab[3..] == a[3..] + b;
    } else {
      assert a + b == b;
    }
  }

  /** One `--copyFromLocal <name> <oDir>` triple whose name is marked with the job ID. */
  predicate CopyOutTriple(flag: string, name: string, dir: string, oDir: string, ind: int)
  {
    flag == "--copyFromLocal" && dir == oDir && Contains(name, "_seed" + IntToString(ind) + ".")
  }

  /** A run of `--copyFromLocal <name> <oDir>` triples, each name marked with the job ID. */
  predicate CopyOutTriples(opts: seq<string>, oDir: string, ind: int)
  {
    Triples(opts, (flag, name, dir) => CopyOutTriple(flag, name, dir, oDir, ind))
  }

  lemma {:induction false} CopyOutTriplesConcat(a: seq<string>, b: seq<string>, oDir: string, ind: int)
    requires CopyOutTriples(a, oDir, ind) && CopyOutTriples(b, oDir, ind)
    ensures CopyOutTriples(a + b, oDir, ind)
  {
    TriplesConcat(a, b, (flag, name, dir) => CopyOutTriple(flag, name, dir, oDir, ind));
  }

  /** A seeded name carries the marker `_seed<ind>.`. */
  lemma {:induction false} SeedMarker(v: string, ind: int, fmt: string)
    ensures Contains(SeededName(v, ind, fmt), "_seed" + IntToString(ind) + ".")
  {
    var root := Root(Basename(v));
    var num := IntToString(ind);
    ConcatAssoc(root, "_seed", num);
    ConcatAssoc(root, "_seed" + num, ".");
    ContainsMiddle(root, "_seed" + num + ".", fmt);
  }

  /** The job's arguments once a missing user value for `--<fmt>` has been replaced by the generated default. */
  function NamedArgs(c: DagConfig, userArgs: seq<string>, mass: string, n: string,
                     exeArgs: seq<string>, fmt: string): (r: Result<seq<string>>)
    requires "--" + fmt in exeArgs
    ensures r.Ok? ==> "--" + fmt in r.value
  {
    var given :- GetOption(userArgs, "--" + fmt);
    if Truthy(given) then Ok(exeArgs)
    else
      SetKeepsFlag(exeArgs, "--" + fmt, GenerateFilename(c.channel, mass, c.energy, n, fmt));
      SetOption(exeArgs, "--" + fmt, GenerateFilename(c.channel, mass, c.energy, n, fmt))
  }

  /**
   * The renaming half of a format pass: a copy-out of the value's seeded name to `oDir` is
   * planned and the value of `--<fmt>` becomes that name, which the flag then reads back (as
   * None when the name looks like a flag); an empty value stays, because the setter cannot
   * replace it. A value that reads back as None fails in `basename`.
   */
  function RenameOutput(withName: seq<string>, fmt: string, ind: int, oDir: string): (r: Result<JobPlan>)
    requires "--" + fmt in withName
    ensures r.Err? <==> GetOption(withName, "--" + fmt).value.None?
    ensures r.Ok? ==>
      r.value.copyOut == ["--copyFromLocal", SeededName(GetOption(withName, "--" + fmt).value.value, ind, fmt), oDir]
    ensures r.Ok? && GetOption(withName, "--" + fmt).value.value != "" ==>
      GetOption(r.value.exeArgs, "--" + fmt) == Ok(ReadValue(SeededName(GetOption(withName, "--" + fmt).value.value, ind, fmt)))
    ensures r.Ok? && GetOption(withName, "--" + fmt).value.value == "" ==> r.value.exeArgs == withName
    ensures r.Ok? ==> CopyOutTriples(r.value.copyOut, oDir, ind)
    ensures r.Ok? && fmt != "seed" && EndsWith(withName, SeedPair(ind)) ==> EndsWith(r.value.exeArgs, SeedPair(ind))
  {
    var flag := "--" + fmt;
    var current := GetOption(withName, flag).value;
    if current.None? then Err(AttributeError("'NoneType' object has no attribute 'rfind'"))
    else
      var name := SeededName(current.value, ind, fmt);
      RenamedArgs(withName, fmt, ind, oDir, current.value);
      Ok(JobPlan(["--copyFromLocal", name, oDir], SetOption(withName, flag, name).value))
  }

  /** What renaming a present value `v` of `--<fmt>` to its seeded name does to the arguments. */
  lemma {:induction false} RenamedArgs(withName: seq<string>, fmt: string, ind: int, oDir: string, v: string)
    requires "--" + fmt in withName && GetOption(withName, "--" + fmt) == Ok(Some(v))
    ensures SetOption(withName, "--" + fmt, SeededName(v, ind, fmt)).Ok?
    ensures var name := SeededName(v, ind, fmt);
      var renamed := SetOption(withName, "--" + fmt, name).value;
      (v != "" ==> GetOption(renamed, "--" + fmt) == Ok(ReadValue(name))) &&
      (v == "" ==> renamed == withName) &&
      CopyOutTriples(["--copyFromLocal", name, oDir], oDir, ind) &&
      (fmt != "seed" && EndsWith(withName, SeedPair(ind)) ==> EndsWith(renamed, SeedPair(ind)))
  {
    var flag := "--" + fmt;
    var name := SeededName(v, ind, fmt);
    SeededTriple(v, ind, fmt, oDir);
    KeepSeedOnRename(withName, fmt, ind, name);
    SetPlacesValue(withName, flag, name);
    if v != "" {
      assert flag[..1] == "-";
      ReplaceReadBack(withName, flag, name);
    }
  }

  /** The copy-out planned for a seeded name is a well-formed triple for job `ind`. */
  lemma {:induction false} SeededTriple(v: string, ind: int, fmt: string, oDir: string)
    ensures CopyOutTriples(["--copyFromLocal", SeededName(v, ind, fmt), oDir], oDir, ind)
  {
    var name := SeededName(v, ind, fmt);
    SeedMarker(v, ind, fmt);
    assert CopyOutTriples(["--copyFromLocal", name, oDir][3..], oDir, ind);
  }

  lemma {:induction false} KeepSeedOnRename(withName: seq<string>, fmt: string, ind: int, name: string)
    requires "--" + fmt in withName
    ensures fmt != "seed" && EndsWith(withName, SeedPair(ind)) ==>
      EndsWith(SetOption(withName, "--" + fmt, name).value, SeedPair(ind))
  {
    var flag := "--" + fmt;
    if fmt != "seed" && EndsWith(withName, SeedPair(ind)) {
      assert flag[..2] == "--";
      assert flag != "--seed" by {
        assert fmt == flag[2..];
      }
      var suf := SeedPair(ind);
      SeedFlagShape(flag, ind);
      var pre := withName[..|withName| - 2];
      assert withName == pre + suf;
      InPrefix(pre, suf, flag);
      SetKeepsTrailingRun(pre, suf, flag, name);
    }
  }

  /**
   * One pass of the format loop: nothing when `--<fmt>` is not among the job's arguments;
   * otherwise a missing user value is replaced by the generated default name and the value
   * is renamed. A flag missing from the user's arguments raises KeyError.
   */
  function OutputStep(c: DagConfig, userArgs: seq<string>, mass: string, n: string,
                      exeArgs: seq<string>, fmt: string, ind: int): (r: Result<JobPlan>)
    ensures "--" + fmt !in exeArgs ==> r == Ok(JobPlan([], exeArgs))
    ensures "--" + fmt in exeArgs && "--" + fmt !in userArgs ==> r == Err(KeyError("--" + fmt))
    ensures r.Ok? ==> CopyOutTriples(r.value.copyOut, c.oDir, ind)
    // the user named the file: that name is staged out under its seeded name
    ensures var flag := "--" + fmt;
      r.Ok? && flag in exeArgs && Truthy(GetOption(userArgs, flag).value) && GetOption(exeArgs, flag).value.Some? ==>
      var name := SeededName(GetOption(exeArgs, flag).value.value, ind, fmt);
      r.value.copyOut == ["--copyFromLocal", name, c.oDir] &&
      (GetOption(exeArgs, flag).value.value != "" ==> GetOption(r.value.exeArgs, flag) == Ok(ReadValue(name)))
    // no user name: the generated default is set, and its seeded name staged out
    ensures var flag := "--" + fmt; var d := GenerateFilename(c.channel, mass, c.energy, n, fmt);
      r.Ok? && flag in exeArgs && !Truthy(GetOption(userArgs, flag).value) && SetReadsBack(exeArgs, flag, d) ==>
      var name := SeededName(d, ind, fmt);
      r.value.copyOut == ["--copyFromLocal", name, c.oDir] && GetOption(r.value.exeArgs, flag) == Ok(ReadValue(name))
    ensures r.Ok? && fmt != "seed" && EndsWith(exeArgs, SeedPair(ind)) ==> EndsWith(r.value.exeArgs, SeedPair(ind))
  {
    var flag := "--" + fmt;
    if flag !in exeArgs then Ok(JobPlan([], exeArgs))
    else
      var d := GenerateFilename(c.channel, mass, c.energy, n, fmt);
      var withName :- NamedArgs(c, userArgs, mass, n, exeArgs, fmt);
      KeepSeedOnDefault(exeArgs, fmt, ind, d);
      if !Truthy(GetOption(userArgs, flag).value) && SetReadsBack(exeArgs, flag, d) then
        GetAfterSet(exeArgs, flag, d);
        RenameOutput(withName, fmt, ind, c.oDir)
      else
        RenameOutput(withName, fmt, ind, c.oDir)
  }

  lemma {:induction false} KeepSeedOnDefault(exeArgs: seq<string>, fmt: string, ind: int, generated: string)
    requires "--" + fmt in exeArgs
    ensures fmt != "seed" && EndsWith(exeArgs, SeedPair(ind)) ==>
      EndsWith(SetOption(exeArgs, "--" + fmt, generated).value, SeedPair(ind))
  {
    KeepSeedOnRename(exeArgs, fmt, ind, generated);
  }

  lemma {:induction false} SeedFlagShape(flag: string, ind: int)
    requires StartsWith(flag, "--") && flag != "--seed"
    ensures flag !in SeedPair(ind)
  {
    var s := IntToString(ind);
    if ind >= 0 {
      assert IsDigit(s[0]);
    } else {
      assert AllDigits(NatToString(-ind));
      assert s[1] == NatToString(-ind)[0];
    }
    assert flag[..2] == "--";
    assert flag[0] == '-' && flag[1] == '-';
  }

  lemma {:induction false} InPrefix(pre: seq<string>, suf: seq<string>, x: string)
    requires x in pre + suf && x !in suf
    ensures x in pre
  {
    var i :| 0 <= i < |pre + suf| && (pre + suf)[i] == x;
    assert i >= |pre| ==> suf[i - |pre|] == x;
  }

  // ---------------------------------------------------------------------------
  // All format passes, one job's options, the DAG text
  // ---------------------------------------------------------------------------

  /** The format passes in order, each working on the arguments the previous pass left. */
  function OutputSteps(c: DagConfig, userArgs: seq<string>, mass: string, n: string,
                       exeArgs: seq<string>, fmts: seq<string>, ind: int): (r: Result<JobPlan>)
    ensures r.Ok? ==> CopyOutTriples(r.value.copyOut, c.oDir, ind)
    ensures r.Ok? && "seed" !in fmts && EndsWith(exeArgs, SeedPair(ind)) ==> EndsWith(r.value.exeArgs, SeedPair(ind))
    ensures (forall f :: f in fmts ==> "--" + f !in exeArgs) ==> r == Ok(JobPlan([], exeArgs))
    decreases |fmts|
  {
    if fmts == [] then Ok(JobPlan([], exeArgs))
    else
      var p :- OutputStep(c, userArgs, mass, n, exeArgs, fmts[0], ind);
      var q :- OutputSteps(c, userArgs, mass, n, p.exeArgs, fmts[1..], ind);
      CopyOutTriplesConcat(p.copyOut, q.copyOut, c.oDir, ind);
      Ok(JobPlan(p.copyOut + q.copyOut, q.exeArgs))
  }

  /** Stage the card directory and the sandboxed executable in, and run it as `mc.exe`. */
  function StagingPrefix(c: DagConfig): seq<string>
  {
    ["--copyToLocal", PathJoin(c.oDir, "input_cards"), "input_cards",
     "--copyToLocal", c.exe, "mc.exe", "--exe", "mc.exe"]
  }

  /** The worker options of job `ind`: staging, copy-outs, `--args`, the executable's arguments. */
  function JobOptions(c: DagConfig, userArgs: seq<string>, mass: string, n: string, ind: int): (r: Result<seq<string>>)
    ensures var p := OutputSteps(c, userArgs, mass, n, userArgs + SeedPair(ind), Formats, ind);
      (r.Err? <==> p.Err?) &&
      (r.Ok? ==> r.value == StagingPrefix(c) + p.value.copyOut + ["--args"] + p.value.exeArgs &&
                 CopyOutTriples(p.value.copyOut, c.oDir, ind) && EndsWith(p.value.exeArgs, SeedPair(ind)))
    ensures r.Ok? ==> EndsWith(r.value, SeedPair(ind))
  {
    assert "seed" !in Formats;
    var p :- OutputSteps(c, userArgs, mass, n, userArgs + SeedPair(ind), Formats, ind);
    var opts := StagingPrefix(c) + p.copyOut + ["--args"] + p.exeArgs;
    assert opts[|opts| - |p.exeArgs|..] == p.exeArgs;
    Ok(opts)
  }

  function VarsLine(c: DagConfig, ind: int, opts: seq<string>): string
  {
    "VARS " + NodeName(ind, c.channel) + " opts=\"" + Text.Join(" ", opts) + "\" logdir=\"" + c.logDir +
    "\" logfile=\"" + Root(Basename(c.dagFile)) + "\""
  }

  function Header(c: DagConfig): seq<string>
  {
    ["# DAG for channel " + c.channel, "# Outputting to " + c.oDir]
  }

  /** The node of job `ind`: its JOB line, and its VARS line carrying the job's options. */
  function JobNode(c: DagConfig, userArgs: seq<string>, mass: string, n: string, ind: int): (r: Result<Node>)
    ensures r.Err? <==> JobOptions(c, userArgs, mass, n, ind).Err?
    ensures r.Ok? ==> r.value == Node(JobLine(ind, c.channel, c.condorFile), VarsLine(c, ind, JobOptions(c, userArgs, mass, n, ind).value))
  {
    var opts :- JobOptions(c, userArgs, mass, n, ind);
    Ok(Node(JobLine(ind, c.channel, c.condorFile), VarsLine(c, ind, opts)))
  }

  /** The node of every job, as a function of its ID. */
  function NodeOf(c: DagConfig, userArgs: seq<string>, mass: string, n: string): int -> Result<Node>
  {
    ind => JobNode(c, userArgs, mass, n, ind)
  }

  /** The whole DAG text for the IDs `first..last`, given the arguments once the mass is set. */
  function DagText(c: DagConfig, userArgs: seq<string>, mass: string, n: string, first: int, last: int): Result<seq<string>>
  {
    DagLines(Header(c), NodeOf(c, userArgs, mass, n), JobIds(first, last), [StatusLine(c.statusFile)])
  }

  /**
   * `write_dag_file`: reads the events per job, sets the mass in the shared argument list
   * (returned as `argsAfter`), then writes the header, one node per job ID and the status line.
   */
  method WriteDag(c: DagConfig, args: seq<string>, mass: string, first: int, last: int)
    returns (lines: Result<seq<string>>, argsAfter: seq<string>)
    ensures argsAfter == WithMass(args, mass)
    ensures lines == DagText(c, argsAfter, mass, NEventsText(args), first, last)
  {
    var n := NEventsText(args);
    argsAfter := WithMass(args, mass);
    ghost var nodeOf := NodeOf(c, argsAfter, mass, n);
    var ids := JobIds(first, last);
    var body: seq<string> := [];
    var k := 0;
    while k < |ids|
      invariant 0 <= k <= |ids|
      invariant Nodes(nodeOf, ids[..k]) == Ok(body)
    {
      var ind := ids[k];
      var node := JobNode(c, argsAfter, mass, n, ind);
      if node.Err? {
        NodesStop(nodeOf, ids, k);
        lines := Err(node.error);
        return;
      }
      assert nodeOf(ind) == node;
      NodesStep(nodeOf, ids, k, body);
      body := body + [node.value.job, node.value.vars];
      k := k + 1;
    }
    assert ids[..k] == ids;
    lines := Ok(Header(c) + body + [StatusLine(c.statusFile)]);
  }

  /**
   * The DAG for `first..last`: the two header lines, then for each ID in increasing order its
   * JOB line and the VARS line of its node (which carries that job's options, by the contract
   * of `JobNode`), then exactly one status line with a 30-second interval.
   */
  lemma {:induction false} DagTextShape(c: DagConfig, userArgs: seq<string>, mass: string, n: string, first: int, last: int, k: int)
    requires DagText(c, userArgs, mass, n, first, last).Ok?
    requires 0 <= k <= last - first
    ensures |DagText(c, userArgs, mass, n, first, last).value| == 2 + 2 * (last - first + 1) + 1
    ensures var r := DagText(c, userArgs, mass, n, first, last).value;
      r[..2] == Header(c) && r[|r| - 1] == StatusLine(c.statusFile)
    ensures DagText(c, userArgs, mass, n, first, last).value[2 + 2 * k] == JobLine(first + k, c.channel, c.condorFile)
    ensures JobNode(c, userArgs, mass, n, first + k).Ok?
    ensures DagText(c, userArgs, mass, n, first, last).value[3 + 2 * k] == JobNode(c, userArgs, mass, n, first + k).value.vars
  {
    var nodeOf := NodeOf(c, userArgs, mass, n);
    assert DagText(c, userArgs, mass, n, first, last) == DagLines(Header(c), nodeOf, JobIds(first, last), [StatusLine(c.statusFile)]);
    LayoutAt(c, nodeOf, first, last, k);
    NodeOfAt(c, userArgs, mass, n, first + k);
  }

  lemma {:induction false} NodeOfAt(c: DagConfig, userArgs: seq<string>, mass: string, n: string, ind: int)
    ensures NodeOf(c, userArgs, mass, n)(ind) == JobNode(c, userArgs, mass, n, ind)
  {
  }

  /** The layout of a DAG text for the IDs `first..last`, whatever its nodes. */
  lemma {:induction false} LayoutAt(c: DagConfig, nodeOf: int -> Result<Node>, first: int, last: int, k: int)
    requires DagLines(Header(c), nodeOf, JobIds(first, last), [StatusLine(c.statusFile)]).Ok?
    requires 0 <= k <= last - first
    ensures var r := DagLines(Header(c), nodeOf, JobIds(first, last), [StatusLine(c.statusFile)]).value;
      |r| == 2 + 2 * (last - first + 1) + 1 && r[..2] == Header(c) && r[|r| - 1] == StatusLine(c.statusFile) &&
      nodeOf(first + k).Ok? && r[2 + 2 * k] == nodeOf(first + k).value.job && r[3 + 2 * k] == nodeOf(first + k).value.vars
  {
    var ids := JobIds(first, last);
    var header, trailer := Header(c), [StatusLine(c.statusFile)];
    DagLinesAt(header, nodeOf, ids, trailer, k);
    assert |header| == 2 && |trailer| == 1 && |ids| == last - first + 1;
    assert ids[k] == first + k;
  }

  /** No two nodes of a DAG share a JOB line, hence a name. */
  lemma {:induction false} DagNodesDistinct(c: DagConfig, userArgs: seq<string>, mass: string, n: string, first: int, last: int, k1: int, k2: int)
    requires DagText(c, userArgs, mass, n, first, last).Ok?
    requires 0 <= k1 <= last - first && 0 <= k2 <= last - first && k1 != k2
    ensures |DagText(c, userArgs, mass, n, first, last).value| == 2 + 2 * (last - first + 1) + 1
    ensures DagText(c, userArgs, mass, n, first, last).value[2 + 2 * k1] !=
            DagText(c, userArgs, mass, n, first, last).value[2 + 2 * k2]
  {
    var ids := JobIds(first, last);
    var nodeOf := NodeOf(c, userArgs, mass, n);
    var a, b := ids[k1], ids[k2];
    assert a != b;
    JobNodesDistinct(c, userArgs, mass, n, a, b);
    assert nodeOf(a) == JobNode(c, userArgs, mass, n, a);
    assert nodeOf(b) == JobNode(c, userArgs, mass, n, b);
    DagLinesDistinct(Header(c), nodeOf, ids, [StatusLine(c.statusFile)], k1, k2);
  }

  lemma {:induction false} JobNodesDistinct(c: DagConfig, userArgs: seq<string>, mass: string, n: string, a: int, b: int)
    requires a != b
    ensures JobNode(c, userArgs, mass, n, a).Ok? && JobNode(c, userArgs, mass, n, b).Ok? ==>
      JobNode(c, userArgs, mass, n, a).value.job != JobNode(c, userArgs, mass, n, b).value.job
  {
    if JobLine(a, c.channel, c.condorFile) == JobLine(b, c.channel, c.condorFile) {
      JobLineInjective(a, b, c.channel, c.condorFile);
    }
  }

  /** An empty ID range still yields the header and the status line. */
  lemma {:induction false} DagTextEmpty(c: DagConfig, userArgs: seq<string>, mass: string, n: string, first: int, last: int)
    requires last < first
    ensures DagText(c, userArgs, mass, n, first, last) == Ok(Header(c) + [StatusLine(c.statusFile)])
  {
    assert JobIds(first, last) == [];
    DagLinesEmpty(Header(c), NodeOf(c, userArgs, mass, n), [StatusLine(c.statusFile)]);
  }

  /** The writer fails exactly when the options of some job ID in the range fail. */
  lemma {:induction false} DagTextErr(c: DagConfig, userArgs: seq<string>, mass: string, n: string, first: int, last: int)
    ensures DagText(c, userArgs, mass, n, first, last).Err? <==>
      exists ind :: first <= ind <= last && JobOptions(c, userArgs, mass, n, ind).Err?
  {
    var ids := JobIds(first, last);
    var nodeOf := NodeOf(c, userArgs, mass, n);
    assert DagText(c, userArgs, mass, n, first, last) == DagLines(Header(c), nodeOf, ids, [StatusLine(c.statusFile)]);
    DagLinesErr(Header(c), nodeOf, ids, [StatusLine(c.statusFile)]);
    if exists ind :: first <= ind <= last && JobOptions(c, userArgs, mass, n, ind).Err? {
      var ind :| first <= ind <= last && JobOptions(c, userArgs, mass, n, ind).Err?;
      assert ids[ind - first] == ind;
      NodeOfAt(c, userArgs, mass, n, ind);
      assert nodeOf(ids[ind - first]).Err?;
      assert DagText(c, userArgs, mass, n, first, last).Err?;
    }
    if DagText(c, userArgs, mass, n, first, last).Err? {
      var k :| 0 <= k < |ids| && nodeOf(ids[k]).Err?;
      NodeOfAt(c, userArgs, mass, n, ids[k]);
      assert first <= ids[k] <= last && JobOptions(c, userArgs, mass, n, ids[k]).Err?;
    }
  }
}
