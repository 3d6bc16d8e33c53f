/**
 * The Pythia 8 PBS submitter. All jobs of one mass go into one PBS job array: the
 * arguments carry the placeholder `\$PBS_ARRAYID` as the seed, output files are renamed
 * to `<oDir>/<stem>_seed\${PBS_ARRAYID}.<fmt>`, and one `qsub` command is issued per mass.
 */
module PythiaPbs {
  import opened Wrappers
  import opened Text
  import opened Paths
  import opened Lists
  import opened ArgOptions
  import opened PythiaSubmit

  /** The seed token: the array ID, substituted by the batch system on the worker. */
  const SeedPlaceholder: string := "\\$PBS_ARRAYID"

  /** The array ID as it is written into renamed output files: braced, `\${PBS_ARRAYID}`. */
  const SeedMarker: string := "\\${PBS_ARRAYID}"

  /** The argument list once the seed placeholder is appended, which happens once, before the mass loop. */
  function BaseArgs(userArgs: seq<string>): (r: seq<string>)
    ensures |r| == |userArgs| + 2 && r[..|userArgs|] == userArgs
    ensures EndsWith(r, ["--seed", SeedPlaceholder])
  {
    userArgs + ["--seed", SeedPlaceholder]
  }

  /**
   * A mass point: the value read from `--mass` (possibly None), or a float of
   * `--massRange`, given by its two renderings `str(mass)` and `'%g' % mass`.
   */
  datatype Mass = Given(v: Option<string>) | Ranged(str: string, g: string)

  /** `str(mass)`. */
  function MassStr(m: Mass): string
  {
    match m
    case Given(v) => Show(v)
    case Ranged(s, _) => s
  }

  /** `mass_str`, the rendering used in the job name. */
  function MassLabel(m: Mass): string
  {
    match m
    case Given(v) => Show(v)
    case Ranged(_, g) => g
  }

  /** The single mass when no `--massRange` is given: `--mass` must be among the arguments. */
  function NamedMass(base: seq<string>): (r: Result<Mass>)
    ensures r.Err? <==> "--mass" !in base
    ensures r.Ok? ==> r.value == Given(GetOption(base, "--mass").value)
  {
    var v :- GetOption(base, "--mass");
    Ok(Given(v))
  }

  /** What the submitter takes besides the arguments; `dry` is `--dry`, which suppresses the submission. */
  datatype PbsConfig = PbsConfig(channel: string, oDir: string, exe: string, logDir: string, test: bool, dry: bool)

  /** The default output name: `<channel>_ma1_<mass>_n<n>.<fmt>`. */
  function DefaultName(channel: string, mass: string, n: string, fmt: string): string
  {
    channel + "_ma1_" + mass + "_n" + n + "." + fmt
  }

  /** The file name part of a renamed output. */
  function SeededBase(v: string, fmt: string): string
  {
    Root(Basename(v)) + "_seed" + SeedMarker + "." + fmt
  }

  /** The renamed output: the seeded file name under the output directory. */
  function OutName(oDir: string, v: string, fmt: string): string
  {
    PathJoin(oDir, SeededBase(v, fmt))
  }

  lemma {:induction false} SeededBaseNoSlash(v: string, fmt: string)
    requires '/' !in fmt
    ensures '/' !in SeededBase(v, fmt) && !StartsWith(SeededBase(v, fmt), "/")
  {
    RootNoSlash(Basename(v));
    var b := SeededBase(v, fmt);
    assert '/' !in SeedMarker;
    assert b == Root(Basename(v)) + ("_seed" + SeedMarker + "." + fmt);
    assert |b| > 0 ==> b[0] in b;
  }

  /**
   * The renamed output lies in the output directory, and its basename is the user's file
   * name without directory or extension, followed by `_seed\${PBS_ARRAYID}.<fmt>`.
   */
  lemma {:induction false} OutNameShape(oDir: string, v: string, fmt: string)
    requires '/' !in fmt
    ensures StartsWith(OutName(oDir, v, fmt), oDir)
    ensures Basename(OutName(oDir, v, fmt)) == Root(Basename(v)) + "_seed" + SeedMarker + "." + fmt
  {
    SeededBaseNoSlash(v, fmt);
    BasenameOfPathJoin(oDir, SeededBase(v, fmt));
  }

  /**
   * One pass of the format loop on the mass's copy of the arguments: nothing when
   * `--<fmt>` is absent; otherwise a value missing from the base arguments is replaced by
   * the default name, and the value is renamed into the output directory. A flag missing
   * from the base arguments raises KeyError; a value that reads back as None fails in
   * `basename`.
   */
  function OutputStep(c: PbsConfig, base: seq<string>, exeArgs: seq<string>, fmt: string, m: Mass, n: string): (r: Result<seq<string>>)
    ensures "--" + fmt !in exeArgs ==> r == Ok(exeArgs)
    ensures "--" + fmt in exeArgs && "--" + fmt !in base ==> r == Err(KeyError("--" + fmt))
    ensures r.Ok? ==> forall t :: t in exeArgs && IsFlagToken(t) ==> t in r.value
    // the user named the file: that name is renamed
    ensures var flag := "--" + fmt;
      r.Ok? && flag in exeArgs && Truthy(GetOption(base, flag).value) && Truthy(GetOption(exeArgs, flag).value) ==>
      GetOption(r.value, flag) == Ok(ReadValue(OutName(c.oDir, GetOption(exeArgs, flag).value.value, fmt)))
    // no user name: the default name is set, then renamed
    ensures var flag := "--" + fmt; var d := DefaultName(c.channel, MassStr(m), n, fmt);
      r.Ok? && flag in exeArgs && !Truthy(GetOption(base, flag).value) && SetReadsBack(exeArgs, flag, d) ==>
      GetOption(r.value, flag) == Ok(ReadValue(OutName(c.oDir, d, fmt)))
  {
    var flag := "--" + fmt;
    if flag !in exeArgs then Ok(exeArgs)
    else
      var given :- GetOption(base, flag);
      var d := DefaultName(c.channel, MassStr(m), n, fmt);
      var named := if Truthy(given) then exeArgs else SetOption(exeArgs, flag, d).value;
      SetKeepsFlag(exeArgs, flag, d);
      SetKeepsFlags(exeArgs, flag, d);
      if !Truthy(given) && SetReadsBack(exeArgs, flag, d) then
        GetAfterSet(exeArgs, flag, d);
        Rename(c.oDir, named, fmt)
      else
        Rename(c.oDir, named, fmt)
  }

  /**
   * The renaming half of a format pass: the value of the flag becomes its output name, which
   * the flag then reads back (as None when the name looks like a flag). An empty value is
   * left alone, because the setter cannot replace it.
   */
  function Rename(oDir: string, named: seq<string>, fmt: string): (r: Result<seq<string>>)
    requires "--" + fmt in named
    ensures r.Err? <==> GetOption(named, "--" + fmt).value.None?
    ensures r.Ok? && GetOption(named, "--" + fmt).value.value == "" ==> r.value == named
    ensures r.Ok? ==> forall t :: t in named && IsFlagToken(t) ==> t in r.value
    ensures var flag := "--" + fmt;
      r.Ok? && GetOption(named, flag).value.value != "" ==>
      var name := OutName(oDir, GetOption(named, flag).value.value, fmt);
      name in r.value && GetOption(r.value, flag) == Ok(ReadValue(name))
  {
    var flag := "--" + fmt;
    var current := GetOption(named, flag).value;
    if current.None? then Err(AttributeError("'NoneType' object has no attribute 'rfind'"))
    else
      var name := OutName(oDir, current.value, fmt);
      SetPlacesValue(named, flag, name);
      SetKeepsFlags(named, flag, name);
      if current.value != "" then
        assert flag[..1] == "-";
        ReplaceReadBack(named, flag, name);
        Ok(SetOption(named, flag, name).value)
      else
        Ok(SetOption(named, flag, name).value)
  }

  /** The format passes in order. */
  function OutputSteps(c: PbsConfig, base: seq<string>, exeArgs: seq<string>, fmts: seq<string>, m: Mass, n: string): (r: Result<seq<string>>)
    ensures (forall f :: f in fmts ==> "--" + f !in exeArgs) ==> r == Ok(exeArgs)
    ensures r.Ok? ==> forall t :: t in exeArgs && IsFlagToken(t) ==> t in r.value
    decreases |fmts|
  {
    if fmts == [] then Ok(exeArgs)
    else
      var next :- OutputStep(c, base, exeArgs, fmts[0], m, n);
      OutputSteps(c, base, next, fmts[1..], m, n)
  }

  /**
   * The executable's arguments for one mass, as written: a copy of the base arguments with
   * the mass set. When the mass comes from `--massRange` and `--mass` is absent, the float
   * itself is appended, and joining the arguments into the `args` script variable raises
   * TypeError. The appended token is rendered with `str` here; the format passes never read
   * the token after `--mass`, so this stands for the float faithfully until the join.
   */
  function ExeArgsAsWritten(c: PbsConfig, base: seq<string>, m: Mass, n: string): (r: Result<seq<string>>)
    ensures m.Ranged? && "--mass" !in base ==> r.Err?
    ensures r.Ok? ==> "--mass" in r.value && forall t :: t in base && IsFlagToken(t) ==> t in r.value
  {
    var named :- OutputSteps(c, base, WithMass(base, MassStr(m)), Formats, m, n);
    if m.Ranged? && "--mass" !in base then Err(TypeError("sequence item: expected string, float found"))
    else Ok(named)
  }

  /** The executable's arguments for one mass, with the appended mass rendered by `str` like the overwritten one. */
  function ExeArgs(c: PbsConfig, base: seq<string>, m: Mass, n: string): (r: Result<seq<string>>)
    ensures r.Ok? ==> "--mass" in r.value && forall t :: t in base && IsFlagToken(t) ==> t in r.value
  {
    OutputSteps(c, base, WithMass(base, MassStr(m)), Formats, m, n)
  }

  /** The two agree except on a range mass with `--mass` absent, where the written code always fails. */
  lemma {:induction false} ExeArgsAgree(c: PbsConfig, base: seq<string>, m: Mass, n: string)
    ensures !(m.Ranged? && "--mass" !in base) ==> ExeArgsAsWritten(c, base, m, n) == ExeArgs(c, base, m, n)
    ensures m.Ranged? && "--mass" !in base ==> ExeArgsAsWritten(c, base, m, n).Err?
  {
  }

  /** A concrete case: `--massRange 8 8 1` with arguments that name a card but set no mass. */
  lemma {:induction false} FloatMassBreaksJoin()
    ensures var base := BaseArgs(["--card", "ggh.cmnd"]);
      ExeArgsAsWritten(PbsConfig("ggh", "out", "mc.exe", "logs", false, false), base, Ranged("8.0", "8"), "1") ==
        Err(TypeError("sequence item: expected string, float found"))
    ensures var base := BaseArgs(["--card", "ggh.cmnd"]);
      ExeArgs(PbsConfig("ggh", "out", "mc.exe", "logs", false, false), base, Ranged("8.0", "8"), "1") ==
        Ok(base + ["--mass", "8.0"])
  {
    var base := BaseArgs(["--card", "ggh.cmnd"]);
    var c := PbsConfig("ggh", "out", "mc.exe", "logs", false, false);
    var w := base + ["--mass", "8.0"];
    assert "--mass" !in base by {
      assert base == ["--card", "ggh.cmnd", "--seed", SeedPlaceholder];
      assert |"--mass"| != |"--card"| || "--mass" != "--card";
    }
    assert WithMass(base, "8.0") == w;
    assert w == ["--card", "ggh.cmnd", "--seed", SeedPlaceholder, "--mass", "8.0"];
    assert "--root"[2] != "--card"[2] && "--root"[2] != "--seed"[2] && "--root"[2] != "--mass"[2];
    assert |"--hepmc"| == 7 && |"--lhe"| == 5 && |SeedPlaceholder| == 13;
    assert "--hepmc" !in w && "--root" !in w && "--lhe" !in w;
    assert Formats == ["hepmc", "root", "lhe"];
    assert "--" + "hepmc" == "--hepmc" && "--" + "root" == "--root" && "--" + "lhe" == "--lhe";
  }

  /** With the corrected appending, a mass given by range reads back from `--mass` as `str(mass)`. */
  lemma {:induction false} ExeArgsMass(base: seq<string>, m: Mass)
    requires m.Ranged? && "--mass" !in base && !IsFlagToken(MassStr(m))
    ensures GetOption(WithMass(base, MassStr(m)), "--mass") == Ok(Some(MassStr(m)))
  {
    var r := base + ["--mass", MassStr(m)];
    assert r[|base|] == "--mass";
    assert IndexOf(r, "--mass") == |base|;
  }

  // ---------------------------------------------------------------------------
  // submit_pbs_job
  // ---------------------------------------------------------------------------

  /** `'%s_\${PBS_JOBID%%[*]}' % channel`: the log stem, the job ID without its array index. */
  function LogName(channel: string): string { channel + "_\\${PBS_JOBID%%[*]}" }

  /** `'%d-%d' % (first, last)`: the array range. */
  function JobRange(first: int, last: int): string { IntToString(first) + "-" + IntToString(last) }

  /** A log path `<dir>/<name><ext>`, produced only when both the name and the directory are truthy. */
  function LogPath(logDir: Option<string>, logName: Option<string>, ext: string): Option<string>
  {
    if Truthy(logName) && Truthy(logDir) then Some(PathJoin(logDir.value, logName.value + ext)) else None
  }

  /** `'%s="%s"' % (k, v)` for each script variable. */
  function VarItems(vars: seq<(string, string)>): (r: seq<string>)
    ensures |r| == |vars|
    ensures forall i :: 0 <= i < |vars| ==> r[i] == vars[i].0 + "=\"" + vars[i].1 + "\""
  {
    if vars == [] then [] else [vars[0].0 + "=\"" + vars[0].1 + "\""] + VarItems(vars[1..])
  }

  /** The options kept: those with a truthy value. */
  function Kept(opts: seq<(string, Option<string>)>): (r: seq<(string, string)>)
  {
    if opts == [] then []
    else
      var rest := Kept(opts[..|opts| - 1]);
      var (k, v) := opts[|opts| - 1];
      if Truthy(v) then rest + [(k, v.value)] else rest
  }

  lemma {:induction false} KeptNone(opts: seq<(string, Option<string>)>)
    requires forall i :: 0 <= i < |opts| ==> !Truthy(opts[i].1)
    ensures Kept(opts) == []
    decreases |opts|
  {
    if opts != [] {
      KeptNone(opts[..|opts| - 1]);
    }
  }

  /** Flag/value pairs laid out flat. */
  function Flatten(pairs: seq<(string, string)>): (r: seq<string>)
    ensures |r| == 2 * |pairs|
  {
    if pairs == [] then [] else Flatten(pairs[..|pairs| - 1]) + [pairs[|pairs| - 1].0, pairs[|pairs| - 1].1]
  }

  lemma {:induction false} FlattenShape(pairs: seq<(string, string)>)
    ensures |Flatten(pairs)| == 2 * |pairs|
    ensures forall j :: 0 <= j < |pairs| ==> Flatten(pairs)[2 * j] == pairs[j].0 && Flatten(pairs)[2 * j + 1] == pairs[j].1
    decreases |pairs|
  {
    if pairs != [] {
      var front := pairs[..|pairs| - 1];
      FlattenShape(front);
      forall j | 0 <= j < |pairs| - 1
        ensures Flatten(pairs)[2 * j] == pairs[j].0 && Flatten(pairs)[2 * j + 1] == pairs[j].1
      {
        assert front[j] == pairs[j];
      }
    }
  }

  /** An option is kept exactly when its value is truthy. */
  lemma {:induction false} KeptMembers(opts: seq<(string, Option<string>)>, k: string, v: string)
    ensures (k, v) in Kept(opts) <==> exists i :: 0 <= i < |opts| && opts[i] == (k, Some(v)) && v != ""
    decreases |opts|
  {
    if opts != [] {
      var front := opts[..|opts| - 1];
      KeptMembers(front, k, v);
      assert forall i :: 0 <= i < |front| ==> front[i] == opts[i];
      if exists i :: 0 <= i < |opts| && opts[i] == (k, Some(v)) && v != "" {
        var i :| 0 <= i < |opts| && opts[i] == (k, Some(v)) && v != "";
        if i < |front| {
          assert front[i] == opts[i];
        }
      }
    }
  }

  /** The qsub command: `qsub`, the kept options, the script variables, the extra options, the script. */
  function QsubCommand(script: string, jobName: Option<string>, arrayIds: string,
                       logDir: Option<string>, logName: Option<string>,
                       scriptVars: seq<(string, string)>, pbsOpts: seq<(string, string)>): seq<string>
  {
    ["qsub"] + Flatten(Kept(StdOpts(jobName, arrayIds, logDir, logName))) +
    (if scriptVars != [] then ["-v", Text.Join(",", VarItems(scriptVars))] else []) +
    Flatten(pbsOpts) + [script]
  }

  /** The job's standard options, in the order the command lists them. */
  function StdOpts(jobName: Option<string>, arrayIds: string, logDir: Option<string>, logName: Option<string>): seq<(string, Option<string>)>
  {
    [("-N", jobName), ("-o", LogPath(logDir, logName, ".out")), ("-e", LogPath(logDir, logName, ".err")), ("-t", Some(arrayIds))]
  }

  /**
   * `submit_pbs_job`: the command starts from `qsub`, is extended with each truthy option,
   * then with the script variables packed into one string after `-v`, then with the extra
   * options, and ends with the script.
   */
  method SubmitPbsJob(script: string, jobName: Option<string>, arrayIds: string,
                      logDir: Option<string>, logName: Option<string>,
                      scriptVars: seq<(string, string)>, pbsOpts: seq<(string, string)>)
    returns (cmds: seq<string>)
    ensures cmds == QsubCommand(script, jobName, arrayIds, logDir, logName, scriptVars, pbsOpts)
  {
    var optDict := StdOpts(jobName, arrayIds, logDir, logName);
    cmds := ["qsub"];
    var i := 0;
    while i < |optDict|
      invariant 0 <= i <= |optDict|
      invariant cmds == ["qsub"] + Flatten(Kept(optDict[..i]))
    {
      assert optDict[..i + 1][..i] == optDict[..i];
      var (k, v) := optDict[i];
      if Truthy(v) {
        cmds := cmds + [k, v.value];
      }
      i := i + 1;
    }
    assert optDict[..i] == optDict;
    if scriptVars != [] {
      cmds := cmds + ["-v", Text.Join(",", VarItems(scriptVars))];
    }
    var j := 0;
    ghost var before := cmds;
    while j < |pbsOpts|
      invariant 0 <= j <= |pbsOpts|
      invariant cmds == before + Flatten(pbsOpts[..j])
    {
      assert pbsOpts[..j + 1][..j] == pbsOpts[..j];
      cmds := cmds + [pbsOpts[j].0, pbsOpts[j].1];
      j := j + 1;
    }
    assert pbsOpts[..j] == pbsOpts;
    cmds := cmds + [script];
  }

  /** The command starts with `qsub`, ends with the script and holds the kept options as adjacent pairs. */
  lemma {:induction false} QsubShape(script: string, jobName: Option<string>, arrayIds: string,
                  logDir: Option<string>, logName: Option<string>,
                  scriptVars: seq<(string, string)>, pbsOpts: seq<(string, string)>)
    ensures var r := QsubCommand(script, jobName, arrayIds, logDir, logName, scriptVars, pbsOpts);
      var kept := Kept(StdOpts(jobName, arrayIds, logDir, logName));
      r[0] == "qsub" && r[|r| - 1] == script &&
      forall j :: 0 <= j < |kept| ==> r[1 + 2 * j] == kept[j].0 && r[2 + 2 * j] == kept[j].1
  {
    var kept := Kept(StdOpts(jobName, arrayIds, logDir, logName));
    FlattenShape(kept);
    var r := QsubCommand(script, jobName, arrayIds, logDir, logName, scriptVars, pbsOpts);
    var tail := (if scriptVars != [] then ["-v", Text.Join(",", VarItems(scriptVars))] else []) + Flatten(pbsOpts) + [script];
    assert r == ["qsub"] + Flatten(kept) + tail;
    forall j | 0 <= j < |kept|
      ensures r[1 + 2 * j] == kept[j].0 && r[2 + 2 * j] == kept[j].1
    {
      assert r[1 + 2 * j] == Flatten(kept)[2 * j];
      assert r[2 + 2 * j] == Flatten(kept)[2 * j + 1];
    }
  }

  /** The `.out` and `.err` options are kept exactly when both the log name and the log directory are truthy. */
  lemma {:induction false} LogOptionsKept(jobName: Option<string>, arrayIds: string, logDir: Option<string>, logName: Option<string>)
    ensures var kept := Kept(StdOpts(jobName, arrayIds, logDir, logName));
      (Truthy(logName) && Truthy(logDir) ==>
        ("-o", PathJoin(logDir.value, logName.value + ".out")) in kept &&
        ("-e", PathJoin(logDir.value, logName.value + ".err")) in kept) &&
      (!(Truthy(logName) && Truthy(logDir)) ==> forall v :: ("-o", v) !in kept && ("-e", v) !in kept)
  {
    var opts := StdOpts(jobName, arrayIds, logDir, logName);
    var kept := Kept(opts);
    if Truthy(logName) && Truthy(logDir) {
      var o := PathJoin(logDir.value, logName.value + ".out");
      var e := PathJoin(logDir.value, logName.value + ".err");
      assert |logName.value + ".out"| > 0 && |logName.value + ".err"| > 0;
      assert o != "" && e != "";
      assert opts[1] == ("-o", Some(o)) && opts[2] == ("-e", Some(e));
      KeptMembers(opts, "-o", o);
      KeptMembers(opts, "-e", e);
    } else {
      forall v
        ensures ("-o", v) !in kept && ("-e", v) !in kept
      {
        KeptMembers(opts, "-o", v);
        KeptMembers(opts, "-e", v);
      }
    }
  }

  /** With every option falsy and nothing else to pass, the command is just `qsub <script>`. */
  lemma {:induction false} QsubBare(script: string)
    ensures QsubCommand(script, None, "", Some("."), None, [], []) == ["qsub", script]
  {
    KeptNone(StdOpts(None, "", Some("."), None));
  }

  // ---------------------------------------------------------------------------
  // The mass loop
  // ---------------------------------------------------------------------------

  /**
   * The command for one mass: job name `<channel><mass>`, array `<first>-<last>`, that mass's
   * arguments as written, so a range mass appended as a float fails the join. The join comes
   * before the `--dry` test, so a dry run fails the same way; otherwise a dry run submits
   * nothing (None).
   */
  function Submission(c: PbsConfig, base: seq<string>, m: Mass, n: string, first: int, last: int): (r: Result<Option<seq<string>>>)
    ensures m.Ranged? && "--mass" !in base ==> r.Err?
    ensures r.Ok? <==> ExeArgsAsWritten(c, base, m, n).Ok?
    ensures r.Ok? ==> (r.value.None? <==> c.dry)
  {
    var exeArgs :- ExeArgsAsWritten(c, base, m, n);
    var vars := [("exe", c.exe), ("args", Text.Join(" ", exeArgs))];
    var opts := if c.test then [("-q", "test"), ("-l", "walltime=0:30:00")] else [];
    if c.dry then Ok(None)
    else
      Ok(Some(QsubCommand("PBS/mcJob.sh", Some(c.channel + MassLabel(m)), JobRange(first, last),
                          Some(c.logDir), Some(LogName(c.channel)), vars, opts)))
  }

  /** The standard options the mass loop passes, once the falsy ones are dropped. */
  lemma {:induction false} KeptStdOpts(jobName: string, arrayIds: string, logDir: string, logName: string)
    requires jobName != "" && arrayIds != "" && logName != ""
    ensures Kept(StdOpts(Some(jobName), arrayIds, Some(logDir), Some(logName))) ==
      if logDir != "" then [("-N", jobName), ("-o", PathJoin(logDir, logName + ".out")),
                            ("-e", PathJoin(logDir, logName + ".err")), ("-t", arrayIds)]
      else [("-N", jobName), ("-t", arrayIds)]
  {
    var opts := StdOpts(Some(jobName), arrayIds, Some(logDir), Some(logName));
    assert opts[..4] == opts;
    assert opts[..3][..2] == opts[..2] && opts[..4][..3] == opts[..3] && opts[..2][..1] == opts[..1];
    assert Kept(opts[..1]) == [("-N", jobName)];
    if logDir != "" {
      var o, e := PathJoin(logDir, logName + ".out"), PathJoin(logDir, logName + ".err");
      assert |logName + ".out"| > 0 && |logName + ".err"| > 0;
      assert o != "" && e != "";
      assert opts[1] == ("-o", Some(o)) && opts[2] == ("-e", Some(e));
      assert Kept(opts[..2]) == [("-N", jobName), ("-o", o)];
      assert Kept(opts[..3]) == [("-N", jobName), ("-o", o), ("-e", e)];
    } else {
      assert opts[1].1 == None && opts[2].1 == None;
      assert Kept(opts[..2]) == [("-N", jobName)];
      assert Kept(opts[..3]) == [("-N", jobName)];
    }
  }

  /**
   * The shape of the mass loop's qsub command: job name first, the array after the two log
   * options when there is a log directory, then the executable and its arguments after `-v`.
   */
  lemma {:induction false} MassCommandShape(name: string, range: string, logDir: string, logName: string,
                         exe: string, args: string, extra: seq<(string, string)>)
    requires name != "" && range != "" && logName != ""
    ensures var r := QsubCommand("PBS/mcJob.sh", Some(name), range, Some(logDir), Some(logName),
                                 [("exe", exe), ("args", args)], extra);
      var k := if logDir != "" then 4 else 2;
      |r| > 2 * k + 3 && r[0] == "qsub" && r[1] == "-N" && r[2] == name &&
      r[2 * k - 1] == "-t" && r[2 * k] == range && r[2 * k + 1] == "-v" &&
      r[2 * k + 2] == "exe=\"" + exe + "\",args=\"" + args + "\"" && r[|r| - 1] == "PBS/mcJob.sh"
  {
    var vars := [("exe", exe), ("args", args)];
    var varStr := "exe=\"" + exe + "\",args=\"" + args + "\"";
    ExeArgsVars(exe, args);
    KeptStdOpts(name, range, logDir, logName);
    var kept := Kept(StdOpts(Some(name), range, Some(logDir), Some(logName)));
    CommandLayout("PBS/mcJob.sh", Some(name), range, Some(logDir), Some(logName), vars, extra);
    var k := |kept|;
    assert kept[0] == ("-N", name) && kept[k - 1] == ("-t", range);
  }

  /** The two script variables of the mass loop, packed into one `-v` value. */
  lemma {:induction false} ExeArgsVars(exe: string, args: string)
    ensures Text.Join(",", VarItems([("exe", exe), ("args", args)])) == "exe=\"" + exe + "\",args=\"" + args + "\""
  {
    var items := VarItems([("exe", exe), ("args", args)]);
    assert |items| == 2 && items[0] == "exe=\"" + exe + "\"" && items[1] == "args=\"" + args + "\"";
    assert items[1..] == [items[1]];
    assert Text.Join(",", items) == items[0] + "," + items[1];
    assert "\"" + "," + "args=\"" == "\",args=\"";
  }

  /** Where each part of a command with some kept options and some script variables sits. */
  lemma {:induction false} CommandLayout(script: string, jobName: Option<string>, arrayIds: string,
                                         logDir: Option<string>, logName: Option<string>,
                                         scriptVars: seq<(string, string)>, pbsOpts: seq<(string, string)>)
    requires scriptVars != [] && Kept(StdOpts(jobName, arrayIds, logDir, logName)) != []
    ensures var r := QsubCommand(script, jobName, arrayIds, logDir, logName, scriptVars, pbsOpts);
      var kept := Kept(StdOpts(jobName, arrayIds, logDir, logName));
      var k := |kept|;
      |r| > 2 * k + 3 && r[0] == "qsub" && r[1] == kept[0].0 && r[2] == kept[0].1 &&
      r[2 * k - 1] == kept[k - 1].0 && r[2 * k] == kept[k - 1].1 && r[2 * k + 1] == "-v" &&
      r[2 * k + 2] == Text.Join(",", VarItems(scriptVars)) && r[|r| - 1] == script
  {
    var kept := Kept(StdOpts(jobName, arrayIds, logDir, logName));
    FlattenShape(kept);
    var k := |kept|;
    var varStr := Text.Join(",", VarItems(scriptVars));
    var r := ["qsub"] + Flatten(kept) + ["-v", varStr] + Flatten(pbsOpts) + [script];
    assert QsubCommand(script, jobName, arrayIds, logDir, logName, scriptVars, pbsOpts) == r;
    assert r[1 + 2 * (k - 1)] == kept[k - 1].0 && r[2 + 2 * (k - 1)] == kept[k - 1].1;
    assert r[1 + 2 * k] == "-v" && r[2 + 2 * k] == varStr;
  }

  /**
   * A mass whose arguments could be built gets the `qsub` command of those arguments, unless
   * the run is dry.
   */
  lemma {:induction false} SubmissionValue(c: PbsConfig, base: seq<string>, m: Mass, n: string, first: int, last: int)
    requires Submission(c, base, m, n, first, last).Ok? && !c.dry
    ensures ExeArgsAsWritten(c, base, m, n).Ok?
    ensures Submission(c, base, m, n, first, last).value.value ==
      QsubCommand("PBS/mcJob.sh", Some(c.channel + MassLabel(m)), JobRange(first, last), Some(c.logDir), Some(LogName(c.channel)),
                  [("exe", c.exe), ("args", Text.Join(" ", ExeArgsAsWritten(c, base, m, n).value))],
                  if c.test then [("-q", "test"), ("-l", "walltime=0:30:00")] else [])
  {
  }

  /** The command of each mass, as a function of the mass. */
  function SubmissionOf(c: PbsConfig, base: seq<string>, n: string, first: int, last: int): Mass -> Result<Option<seq<string>>>
  {
    m => Submission(c, base, m, n, first, last)
  }

  /**
   * The loop over masses: the seed placeholder is appended once, the events per job are read
   * once, and each mass builds its command from its own copy of those arguments, so nothing
   * set for one mass reaches the next. A failing mass aborts the loop. Each mass yields its
   * command, or None in a dry run.
   */
  method SubmitMasses(c: PbsConfig, userArgs: seq<string>, masses: seq<Mass>, first: int, last: int)
    returns (r: Result<seq<Option<seq<string>>>>)
    ensures r == MapResults(SubmissionOf(c, BaseArgs(userArgs), NEventsText(BaseArgs(userArgs)), first, last), masses)
  {
    var base := BaseArgs(userArgs);
    var n := NEventsText(base);
    r := MapLoop(SubmissionOf(c, base, n, first, last), masses);
  }

  /**
   * Each mass's command depends on the base arguments and on that mass alone: the commands
   * of a list of masses are those of each mass taken singly. The source needs the copy
   * `args.args[:]` for this; in the model every mass receives the base arguments as a value,
   * so the property follows directly from `MapResults`.
   */
  lemma {:induction false} MassesIndependent(c: PbsConfig, userArgs: seq<string>, masses: seq<Mass>, first: int, last: int, i: int)
    requires 0 <= i < |masses|
    requires MapResults(SubmissionOf(c, BaseArgs(userArgs), NEventsText(BaseArgs(userArgs)), first, last), masses).Ok?
    ensures var base := BaseArgs(userArgs);
      MapResults(SubmissionOf(c, base, NEventsText(base), first, last), masses).value[i] ==
      Submission(c, base, masses[i], NEventsText(base), first, last).value
  {
  }

  /** A `--dry` run that builds every mass's arguments submits no job. */
  lemma {:induction false} DryRunSubmitsNothing(c: PbsConfig, userArgs: seq<string>, masses: seq<Mass>, first: int, last: int)
    requires c.dry
    requires MapResults(SubmissionOf(c, BaseArgs(userArgs), NEventsText(BaseArgs(userArgs)), first, last), masses).Ok?
    ensures var r := MapResults(SubmissionOf(c, BaseArgs(userArgs), NEventsText(BaseArgs(userArgs)), first, last), masses).value;
      |r| == |masses| && forall i :: 0 <= i < |r| ==> r[i].None?
  {
    var base := BaseArgs(userArgs);
    var r := MapResults(SubmissionOf(c, base, NEventsText(base), first, last), masses).value;
    forall i | 0 <= i < |r|
      ensures r[i].None?
    {
      MassesIndependent(c, userArgs, masses, first, last, i);
    }
  }
}
