/**
 * The MG5_aMC worker script: make a sandbox, stage the inputs in, find and unpack the one
 * MG5_aMC archive, run `run_mg5` with the MG5 executable appended to its arguments, read
 * the process name, seed, beam energy and event count back from the card it wrote, rename
 * the two event archives after them, and copy everything out, the archives last.
 */
module Mg5Worker {
  import opened Wrappers
  import opened Text
  import opened Paths
  import opened Lists
  import opened FileSystem
  import opened ArgOptions
  import opened Cards
  import opened Staging
  import Mg5Card

  /** The parsed options; `--args` takes the rest of the line. */
  datatype Mg5Job = Mg5Job(copyToLocal: Option<seq<(string, string)>>, copyFromLocal: Option<seq<(string, string)>>,
                           oDir: Option<string>, args: Option<seq<string>>)

  /**
   * What the node shows the script that the model does not compute: the file system, the
   * absolute working directory, the names in `scratch` after staging (`staged`) and after
   * unpacking (`unpacked`), in listing order, what `run_mg5`'s parser makes of the forwarded
   * arguments (`parsed`, None when it refuses them), the lines of the template card it opens
   * (`template`, None when it cannot be opened), and the file system MG5_aMC leaves behind
   * (`ran`), on which the chdir, the renames and the copy-outs act.
   */
  datatype Node = Node(fs: Fs, cwd: string, staged: seq<string>, unpacked: seq<string>,
                       parsed: Option<Mg5Card.RunArgs>, template: Option<seq<string>>, ran: Fs)

  // ---------------------------------------------------------------------------
  // The MG5_aMC archive
  // ---------------------------------------------------------------------------

  /** `glob('MG5_aMC*')` over a listing. */
  function Mg5Matches(names: seq<string>): (r: seq<string>)
    ensures |r| <= |names|
    ensures forall n :: n in r <==> n in names && StartsWith(n, "MG5_aMC")
  {
    if names == [] then []
    else
      var front := Mg5Matches(names[..|names| - 1]);
      var last := names[|names| - 1];
      assert names == names[..|names| - 1] + [last];
      if StartsWith(last, "MG5_aMC") then front + [last] else front
  }

  /** The single-archive check: more than one match and no match both raise RuntimeError. */
  function FindTarball(names: seq<string>): (r: Result<string>)
    ensures r.Ok? <==> |Mg5Matches(names)| == 1
    ensures r.Ok? ==> r.value in names && StartsWith(r.value, "MG5_aMC")
    ensures r.Ok? ==> forall n :: n in names && StartsWith(n, "MG5_aMC") ==> n == r.value
    ensures r.Err? ==> r.error == RuntimeError(if |Mg5Matches(names)| > 1 then "Too many files/dirs for MG5_aMC*"
                                               else "Cannot find MG5 tar.")
  {
    var m := Mg5Matches(names);
    if |m| > 1 then Err(RuntimeError("Too many files/dirs for MG5_aMC*"))
    else if m == [] then Err(RuntimeError("Cannot find MG5 tar."))
    else
      assert m[0] in m;
      Ok(m[0])
  }

  /** `glob('MG5_aMC*')[0]` after unpacking; an empty match raises IndexError. */
  function Mg5Dir(names: seq<string>): (r: Result<string>)
    ensures r.Err? <==> Mg5Matches(names) == []
    ensures r.Ok? ==> r.value in names && StartsWith(r.value, "MG5_aMC")
  {
    var m := Mg5Matches(names);
    if m == [] then Err(IndexError)
    else
      assert m[0] in m;
      Ok(m[0])
  }

  /** `os.path.join(mg5_dir, 'bin', 'mg5_aMC')`. */
  function ExePath(mg5Dir: string): string { PathJoin(PathJoin(mg5Dir, "bin"), "mg5_aMC") }

  /** `mg5_args.extend(['--exe', ...])` on `args.args`, which is None when `--args` was not given. */
  function Mg5Args(args: Option<seq<string>>, mg5Dir: string): (r: Result<seq<string>>)
    ensures r.Err? <==> args.None?
    ensures r.Err? ==> r.error == AttributeError("'NoneType' object has no attribute 'extend'")
    ensures r.Ok? ==> |r.value| == |args.value| + 2 && r.value[..|args.value|] == args.value &&
                      r.value[|args.value|..] == ["--exe", ExePath(mg5Dir)]
  {
    if args.None? then Err(AttributeError("'NoneType' object has no attribute 'extend'"))
    else Ok(args.value + ["--exe", ExePath(mg5Dir)])
  }

  /** The executable path begins with the unpacked directory's name. */
  lemma {:induction false} ExePathOfArchive(mg5Dir: string)
    requires StartsWith(mg5Dir, "MG5_aMC")
    ensures ExePath(mg5Dir) != [] && ExePath(mg5Dir)[0] == 'M'
  {
    var p := PathJoin(mg5Dir, "bin");
    assert !StartsWith("bin", "/") by { assert "bin"[..1] == "b"; }
    assert !StartsWith("mg5_aMC", "/") by { assert "mg5_aMC"[..1] == "m"; }
    assert p[..|mg5Dir|][0] == mg5Dir[0] == mg5Dir[..7][0];
    assert ExePath(mg5Dir)[..|p|][0] == p[0];
  }

  /**
   * The appended `--exe` comes after any the user gave: a reader of the first occurrence
   * still sees the user's, and without one it sees the unpacked executable.
   */
  lemma {:induction false} AppendedExe(args: seq<string>, mg5Dir: string)
    requires StartsWith(mg5Dir, "MG5_aMC")
    ensures var r := Mg5Args(Some(args), mg5Dir).value;
      ("--exe" in args ==> IndexOf(r, "--exe") == IndexOf(args, "--exe")) &&
      ("--exe" !in args ==> GetOption(r, "--exe") == Ok(Some(ExePath(mg5Dir))))
  {
    ExePathOfArchive(mg5Dir);
    assert IsFlagToken("--exe") by { assert "--exe"[..1] == "-"; }
    AppendedOption(args, "--exe", ExePath(mg5Dir));
  }

  // ---------------------------------------------------------------------------
  // Names read back from the card
  // ---------------------------------------------------------------------------

  /** `int(v)` on a card value: None raises TypeError, a token that is not an integer ValueError. */
  function IntOf(v: Option<string>): (r: Result<int>)
    ensures r.Ok? <==> v.Some? && ParseInt(v.value).Some?
    ensures r.Ok? ==> r.value == ParseInt(v.value).value
    ensures v.None? ==> r.Err? && r.error.TypeError?
    ensures v.Some? && ParseInt(v.value).None? ==> r.Err? && r.error.ValueError?
  {
    if v.None? then Err(TypeError("int() argument must be a string or a number, not 'NoneType'"))
    else
      match ParseInt(v.value)
      case None => Err(ValueError("invalid literal for int() with base 10"))
      case Some(n) => Ok(n)
  }

  /** What the card says about the run. */
  datatype RunInfo = RunInfo(output: Option<string>, iseed: int, energy: int, nevents: int)

  /** The conversions of the four card values, in the script's order: iseed, ebeam1 (as TeV), nevents. */
  function Convert(output: Option<string>, iseed: Option<string>, ebeam1: Option<string>, nevents: Option<string>): (r: Result<RunInfo>)
    ensures r.Ok? <==> IntOf(iseed).Ok? && EnergyTeV(ebeam1).Ok? && IntOf(nevents).Ok?
    ensures r.Ok? ==> r.value == RunInfo(output, IntOf(iseed).value, EnergyTeV(ebeam1).value, IntOf(nevents).value)
    ensures r.Err? ==> r.error == (if IntOf(iseed).Err? then IntOf(iseed).error
                                   else if EnergyTeV(ebeam1).Err? then EnergyTeV(ebeam1).error
                                   else IntOf(nevents).error)
  {
    var s :- IntOf(iseed);
    var e :- EnergyTeV(ebeam1);
    var n :- IntOf(nevents);
    Ok(RunInfo(output, s, e, n))
  }

  /** The four reads from the card `run_mg5` wrote. */
  function ReadCard(lines: seq<string>): Result<RunInfo>
  {
    Convert(CardValue(lines, "output").value, CardValue(lines, "iseed").value,
            CardValue(lines, "ebeam1").value, CardValue(lines, "nevents").value)
  }

  /**
   * The card `run_mg5` writes and the script reads back: argparse refusing the forwarded
   * arguments exits with status 2; then `make_card` on the template.
   */
  function NewCard(node: Node): Result<seq<string>>
  {
    if node.parsed.None? then Err(SystemExit(2)) else Mg5Card.NewCardLines(node.template, node.parsed.value)
  }

  /**
   * The card values, from the forwarded arguments through `run_mg5` to the four reads.
   * Refused arguments stop the script with SystemExit, a template that cannot be opened
   * with IOError, and a line `make_card` cannot rewrite with AttributeError.
   */
  function CardInfo(node: Node): (r: Result<RunInfo>)
    ensures node.parsed.None? ==> r == Err(SystemExit(2))
    ensures node.parsed.Some? && node.template.None? ==> r == Err(IOError(node.parsed.value.card))
    ensures node.parsed.Some? && node.template.Some? && NewCard(node).Err? ==> r.Err? && r.error.AttributeError?
    ensures r.Ok? <==> NewCard(node).Ok? && ReadCard(NewCard(node).value).Ok?
    ensures r.Ok? ==> r == ReadCard(NewCard(node).value)
  {
    var lines :- NewCard(node);
    ReadCard(lines)
  }

  /** `run_mg5` on the forwarded arguments, with its MG5_aMC call, unless `--dry` was given. */
  function Launch(node: Node, args: seq<string>): seq<Action>
  {
    if node.parsed.Some? && !node.parsed.value.dry then
      [RunMg5(args, [node.parsed.value.exeAbs, Mg5Card.NewCard(node.parsed.value.card)])]
    else []
  }

  /**
   * MG5_aMC runs exactly when `--dry` was not given, on the forwarded arguments, and on the
   * new card, which is not the template itself whenever the template's name contains `.txt`.
   */
  lemma {:induction false} LaunchOnNewCard(node: Node, args: seq<string>)
    ensures Launch(node, args) != [] <==> node.parsed.Some? && !node.parsed.value.dry
    ensures Launch(node, args) != [] ==>
      var p := node.parsed.value;
      |Launch(node, args)| == 1 && Launch(node, args)[0].args == args &&
      Launch(node, args)[0].cmd == [p.exeAbs, Mg5Card.NewCard(p.card)] &&
      (Launch(node, args)[0].cmd[1] != p.card <==> Contains(p.card, ".txt"))
  {
    if node.parsed.Some? {
      Mg5Card.NewCardDiffers(node.parsed.value.card);
    }
  }

  /** A card that spells the four fields as the script writes them back reads as those values. */
  lemma {:induction false} ReadCardOfRendered(output: string, iseed: int, ebeam1: int, nevents: int, lines: seq<string>)
    requires CardValue(lines, "output") == Ok(Some(output))
    requires CardValue(lines, "iseed") == Ok(Some(IntToString(iseed)))
    requires CardValue(lines, "ebeam1") == Ok(Some(IntToString(ebeam1)))
    requires CardValue(lines, "nevents") == Ok(Some(IntToString(nevents)))
    ensures ReadCard(lines) == Ok(RunInfo(Some(output), iseed, ebeam1 * 2 / 1000, nevents))
  {
    ParseIntOfIntToString(iseed);
    ParseIntOfIntToString(nevents);
    EnergyOfRendered(ebeam1);
  }

  /** The four reads as the script makes them, each a loop over the card. */
  method ReadCardMain(lines: seq<string>) returns (r: Result<RunInfo>)
    ensures r == ReadCard(lines)
  {
    var output := GetValueFromCard(lines, "output");
    var iseed := GetValueFromCard(lines, "iseed");
    var ebeam1 := GetValueFromCard(lines, "ebeam1");
    var nevents := GetValueFromCard(lines, "nevents");
    r := Convert(output.value, iseed.value, ebeam1.value, nevents.value);
  }

  /** `'%s_%dTeV_n%d_seed%d' % (mg5_out_dir, energy, num_events, iseed)`. */
  function NameStem(output: string, energy: int, nevents: int, iseed: int): string
  {
    output + "_" + IntToString(energy) + "TeV_n" + IntToString(nevents) + "_seed" + IntToString(iseed)
  }

  /** Jobs that differ only in their seed name their archives differently. */
  lemma {:induction false} NameStemSeparatesSeeds(output: string, energy: int, nevents: int, s1: int, s2: int)
    requires NameStem(output, energy, nevents, s1) == NameStem(output, energy, nevents, s2)
    ensures s1 == s2
  {
    var pre := output + "_" + IntToString(energy) + "TeV_n" + IntToString(nevents) + "_seed";
    assert NameStem(output, energy, nevents, s1) == pre + IntToString(s1) + "";
    assert NameStem(output, energy, nevents, s2) == pre + IntToString(s2) + "";
    IntToStringInContext(pre, s1, s2, "");
  }

  /** An output name without '/' makes a stem without '/'. */
  lemma {:induction false} NameStemNoSlash(output: string, energy: int, nevents: int, iseed: int)
    requires '/' !in output
    ensures '/' !in NameStem(output, energy, nevents, iseed)
  {
    IntToStringNoSlash(energy);
    IntToStringNoSlash(nevents);
    IntToStringNoSlash(iseed);
  }

  /** The two archives, `(local path, destination)`, under `oDir/lhe` and `oDir/hepmc`. */
  function Archives(oDir: string, runDir: string, stem: string): seq<(string, string)>
  {
    [(PathJoin(runDir, stem + ".lhe.gz"), PathJoin(PathJoin(oDir, "lhe"), stem + ".lhe.gz")),
     (PathJoin(runDir, stem + ".hepmc.gz"), PathJoin(PathJoin(oDir, "hepmc"), stem + ".hepmc.gz"))]
  }

  /** The copy-out queue: the user's entries (none when the option was absent), then the two archives. */
  function Queue(user: Option<seq<(string, string)>>, oDir: string, runDir: string, stem: string): (q: seq<(string, string)>)
    ensures |q| == |Listed(user)| + 2 && q[..|Listed(user)|] == Listed(user)
    ensures q[|q| - 2..] == Archives(oDir, runDir, stem)
  {
    Listed(user) + Archives(oDir, runDir, stem)
  }

  /** One archive: `<oDir>/<sub>/<name>` lies in `<oDir>/<sub>` under its own name. */
  lemma {:induction false} ArchiveDestination(oDir: string, sub: string, runDir: string, name: string)
    requires oDir != [] && oDir[|oDir| - 1] != '/'
    requires sub != [] && '/' !in sub && name != [] && '/' !in name
    ensures Dirname(PathJoin(PathJoin(oDir, sub), name)) == oDir + "/" + sub
    ensures Basename(PathJoin(PathJoin(oDir, sub), name)) == name == Basename(PathJoin(runDir, name))
  {
    assert sub[0] in sub && name[0] in name;
    PathJoinPlain(oDir, sub);
    var d := oDir + "/" + sub;
    assert d[|d| - 1] == sub[|sub| - 1];
    assert sub[|sub| - 1] in sub;
    PathJoinPlain(d, name);
    DirnameOfJoined(d, name);
    BasenameOfPathJoin(d, name);
    BasenameOfPathJoin(runDir, name);
  }

  /**
   * Each archive lands in its own subdirectory of `oDir` under its own name, and is taken
   * from the run directory under that same name.
   */
  lemma {:induction false} ArchiveDestinations(oDir: string, runDir: string, stem: string)
    requires oDir != [] && oDir[|oDir| - 1] != '/' && '/' !in stem
    ensures var a := Archives(oDir, runDir, stem);
      Dirname(a[0].1) == oDir + "/" + "lhe" && Basename(a[0].1) == stem + ".lhe.gz" &&
      Dirname(a[1].1) == oDir + "/" + "hepmc" && Basename(a[1].1) == stem + ".hepmc.gz" &&
      Basename(a[0].0) == Basename(a[0].1) && Basename(a[1].0) == Basename(a[1].1)
  {
    var lhe, hepmc := stem + ".lhe.gz", stem + ".hepmc.gz";
    assert '/' !in lhe && '/' !in hepmc;
    var a := Archives(oDir, runDir, stem);
    assert a[0] == (PathJoin(runDir, lhe), PathJoin(PathJoin(oDir, "lhe"), lhe));
    assert a[1] == (PathJoin(runDir, hepmc), PathJoin(PathJoin(oDir, "hepmc"), hepmc));
    ArchiveDestination(oDir, "lhe", runDir, lhe);
    ArchiveDestination(oDir, "hepmc", runDir, hepmc);
  }

  // ---------------------------------------------------------------------------
  // The whole script
  // ---------------------------------------------------------------------------

  /** `os.path.join(mg5_out_dir, 'Events', 'run_01')`. */
  function RunDir(output: string): string { PathJoin(PathJoin(output, "Events"), "run_01") }

  /** The stem the card's values give. */
  function Stem(info: RunInfo): string
    requires info.output.Some?
  {
    NameStem(info.output.value, info.energy, info.nevents, info.iseed)
  }

  /** The two archives MG5_aMC leaves in the run directory. */
  const LheEvents: string := "events.lhe.gz"
  const HepmcEvents: string := "events_PYTHIA8_0.hepmc.gz"

  /** The chdir into the run directory and the two renames. */
  function Renames(output: string, stem: string): seq<Action>
  {
    [ChangeDir(RunDir(output)), Rename(LheEvents, stem + ".lhe.gz"), Rename(HepmcEvents, stem + ".hepmc.gz")]
  }

  /** `os.path.abspath` of the run directory, entered from `<cwd>/scratch`. */
  function RunAbs(cwd: string, output: string): string { PathJoin(PathJoin(cwd, "scratch"), RunDir(output)) }

  /** The run directory `dir` exists and holds each archive when its rename comes. */
  predicate RunDirReady(ran: Fs, dir: string, stem: string)
  {
    IsDir(ran, dir) && PathJoin(dir, LheEvents) in ran &&
    PathJoin(dir, HepmcEvents) in Moved(ran, PathJoin(dir, LheEvents), PathJoin(dir, stem + ".lhe.gz"))
  }

  /** The file system after the two renames inside `dir`. */
  function AfterRenames(ran: Fs, dir: string, stem: string): Fs
    requires RunDirReady(ran, dir, stem)
  {
    var half := Moved(ran, PathJoin(dir, LheEvents), PathJoin(dir, stem + ".lhe.gz"));
    Moved(half, PathJoin(dir, HepmcEvents), PathJoin(dir, stem + ".hepmc.gz"))
  }

  /**
   * From the card values on, on the file system `run_mg5` left: the chdir, the renames and
   * the copy-out loop. A card without an output name fails at the chdir's path join, a
   * missing run directory at the chdir, a missing archive at its rename, and a job
   * without `--oDir` when the first archive is queued.
   */
  function Outputs(ran: Fs, cwd: string, info: RunInfo, job: Mg5Job): Outcome
  {
    if info.output.None? then Fail([], AttributeError("'NoneType' object has no attribute 'endswith'"))
    else
      var out, stem := info.output.value, Stem(info);
      var dir := RunAbs(cwd, out);
      var moves := Renames(out, stem);
      if !IsDir(ran, dir) then Fail([], OSError(RunDir(out)))
      else if PathJoin(dir, LheEvents) !in ran then Fail(moves[..1], OSError(LheEvents))
      else if !RunDirReady(ran, dir, stem) then Fail(moves[..2], OSError(HepmcEvents))
      else if job.oDir.None? then Fail(moves, AttributeError("'NoneType' object has no attribute 'endswith'"))
      else Done(moves + CopyOuts(AfterRenames(ran, dir, stem), Queue(job.copyFromLocal, job.oDir.value, dir, stem)))
  }

  /** From the archive search on: unpack, make the card and run MG5, read the card, then the outputs. */
  function Mg5Run(node: Node, job: Mg5Job): Outcome
  {
    match FindTarball(node.staged)
    case Err(e) => Fail([], e)
    case Ok(tar) =>
      var unpack := [Extract(tar), Remove(tar)];
      match Mg5Dir(node.unpacked)
      case Err(e) => Fail(unpack, e)
      case Ok(dir) =>
        match Mg5Args(job.args, dir)
        case Err(e) => Fail(unpack, e)
        case Ok(a) =>
          CardRun(node, job, unpack, a)
  }

  /** After unpacking (`unpack`), with the MG5 arguments `a`: make the card, run MG5, read the card, then the outputs. */
  function CardRun(node: Node, job: Mg5Job, unpack: seq<Action>, a: seq<string>): Outcome
  {
    match NewCard(node)
    case Err(e) => Fail(unpack, e)
    case Ok(card) =>
      var run := unpack + Launch(node, a);
      match ReadCard(card)
      case Err(e) => Fail(run, e)
      case Ok(info) => Then(Done(run), Outputs(node.ran, node.cwd, info, job))
  }

  /** `main()` on the node `node`. */
  function RunMg5Job(node: Node, job: Mg5Job): Outcome
  {
    Then(Sandbox(node.fs, node.cwd, true), Then(Done(CopyIns(node.fs, Listed(job.copyToLocal))), Mg5Run(node, job)))
  }

  /**
   * The outputs finish exactly when both names are known and the run directory holds the
   * two archives; they then give the renames and the copy-outs, decided on the renamed
   * file system.
   */
  lemma {:induction false} OutputsPlan(ran: Fs, cwd: string, info: RunInfo, job: Mg5Job)
    ensures Outputs(ran, cwd, info, job).failure.None? <==>
      info.output.Some? && RunDirReady(ran, RunAbs(cwd, info.output.value), Stem(info)) && job.oDir.Some?
    ensures Outputs(ran, cwd, info, job).failure.None? ==>
      var dir := RunAbs(cwd, info.output.value);
      Outputs(ran, cwd, info, job).actions ==
        Renames(info.output.value, Stem(info)) +
        CopyOuts(AfterRenames(ran, dir, Stem(info)), Queue(job.copyFromLocal, job.oDir.value, dir, Stem(info)))
  {
  }

  /**
   * Renaming two archives that are files leaves two files under the new names: the paths
   * involved are distinct, as their endings show.
   */
  lemma {:induction false} ArchivesRenamed(ran: Fs, dir: string, stem: string)
    requires IsDir(ran, dir) && IsFile(ran, PathJoin(dir, LheEvents)) && IsFile(ran, PathJoin(dir, HepmcEvents))
    ensures RunDirReady(ran, dir, stem)
    ensures IsFile(AfterRenames(ran, dir, stem), PathJoin(dir, stem + ".lhe.gz"))
    ensures IsFile(AfterRenames(ran, dir, stem), PathJoin(dir, stem + ".hepmc.gz"))
  {
    var a, b := PathJoin(dir, LheEvents), PathJoin(dir, stem + ".lhe.gz");
    var c, d := PathJoin(dir, HepmcEvents), PathJoin(dir, stem + ".hepmc.gz");
    RenamePathsDistinct(dir, stem);
    var half := Moved(ran, a, b);
    assert c in half && half[c] == File;
  }

  /** The hepmc archive's old and new paths differ from both lhe paths. */
  lemma {:induction false} RenamePathsDistinct(dir: string, stem: string)
    ensures var b := PathJoin(dir, stem + ".lhe.gz");
      PathJoin(dir, HepmcEvents) != PathJoin(dir, LheEvents) && PathJoin(dir, HepmcEvents) != b &&
      PathJoin(dir, stem + ".hepmc.gz") != b
  {
    assert EndsWith(LheEvents, "lhe.gz") && EndsWith(HepmcEvents, "pmc.gz");
    assert EndsWith(stem + ".lhe.gz", "lhe.gz") && EndsWith(stem + ".hepmc.gz", "pmc.gz");
    JoinedEnding(dir, LheEvents, "lhe.gz");
    JoinedEnding(dir, stem + ".lhe.gz", "lhe.gz");
    JoinedEnding(dir, HepmcEvents, "pmc.gz");
    JoinedEnding(dir, stem + ".hepmc.gz", "pmc.gz");
  }

  /** A joined path ends as its last component does: here, six characters from the end. */
  lemma {:induction false} JoinedEnding(dir: string, name: string, tail: string)
    requires |tail| == 6 && EndsWith(name, tail)
    ensures var j := PathJoin(dir, name); |j| >= 6 && j[|j| - 6] == tail[0]
  {
    var j := PathJoin(dir, name);
    assert EndsWith(j, name);
    assert j[|j| - 6] == j[|j| - |name|..][|name| - 6] == name[|name| - 6] == name[|name| - 6..][0];
  }

  /**
   * The MG5 part finishes exactly when there is one archive, it unpacks to an `MG5_aMC*`
   * entry, `--args` was given, the card reads and the outputs finish; it then unpacks,
   * runs MG5 with the appended executable and hands over to the outputs.
   */
  lemma {:induction false} Mg5RunPlan(node: Node, job: Mg5Job)
    ensures Mg5Run(node, job).failure.None? <==>
      |Mg5Matches(node.staged)| == 1 && Mg5Matches(node.unpacked) != [] && job.args.Some? &&
      CardInfo(node).Ok? && Outputs(node.ran, node.cwd, CardInfo(node).value, job).failure.None?
    ensures Mg5Run(node, job).failure.None? ==>
      var tar := Mg5Matches(node.staged)[0];
      Mg5Run(node, job).actions ==
        [Extract(tar), Remove(tar)] + Launch(node, job.args.value + ["--exe", ExePath(Mg5Matches(node.unpacked)[0])]) +
        Outputs(node.ran, node.cwd, CardInfo(node).value, job).actions
  {
    if |Mg5Matches(node.staged)| != 1 {
      assert FindTarball(node.staged).Err?;
    } else {
      var tar := Mg5Matches(node.staged)[0];
      TarballIsMatch(node.staged);
      var unpack := [Extract(tar), Remove(tar)];
      if Mg5Matches(node.unpacked) == [] {
        assert Mg5Run(node, job) == Fail(unpack, Mg5Dir(node.unpacked).error);
      } else {
        var dir := Mg5Matches(node.unpacked)[0];
        Mg5DirIsMatch(node.unpacked);
        if job.args.None? {
          assert Mg5Run(node, job) == Fail(unpack, Mg5Args(job.args, dir).error);
        } else {
          var a := job.args.value + ["--exe", ExePath(dir)];
          assert Mg5Args(job.args, dir) == Ok(a);
          assert Mg5Run(node, job) == CardRun(node, job, unpack, a);
          if NewCard(node).Err? {
            assert CardRun(node, job, unpack, a) == Fail(unpack, NewCard(node).error);
          } else {
            var run := unpack + Launch(node, a);
            if CardInfo(node).Err? {
              assert CardRun(node, job, unpack, a) == Fail(run, CardInfo(node).error);
            } else {
              assert CardRun(node, job, unpack, a) == Then(Done(run), Outputs(node.ran, node.cwd, CardInfo(node).value, job));
            }
          }
        }
      }
    }
  }

  lemma {:induction false} TarballIsMatch(names: seq<string>)
    requires |Mg5Matches(names)| == 1
    ensures FindTarball(names) == Ok(Mg5Matches(names)[0])
  {
  }

  lemma {:induction false} Mg5DirIsMatch(names: seq<string>)
    requires Mg5Matches(names) != []
    ensures Mg5Dir(names) == Ok(Mg5Matches(names)[0])
  {
  }

  /** An existing sandbox stops the script; otherwise a missing or doubled archive stops it right after staging. */
  lemma {:induction false} ArchiveRequired(node: Node, job: Mg5Job)
    requires |Mg5Matches(node.staged)| != 1
    ensures var r := RunMg5Job(node, job);
      r.failure.Some? && (r.failure.value.RuntimeError? <==> "scratch" !in node.fs)
  {
  }

  /**
   * The script finishes exactly when the sandbox is new, there is one archive that unpacks
   * to an `MG5_aMC*` entry, `--args` and `--oDir` were given, the card names the output
   * and holds a numeric seed, beam energy and event count, and `run_mg5` left the run
   * directory with both event archives in it.
   */
  lemma {:induction false} Mg5Succeeds(node: Node, job: Mg5Job)
    ensures RunMg5Job(node, job).failure.None? <==>
      "scratch" !in node.fs && |Mg5Matches(node.staged)| == 1 && Mg5Matches(node.unpacked) != [] &&
      job.args.Some? && CardInfo(node).Ok? && CardInfo(node).value.output.Some? && job.oDir.Some? &&
      RunDirReady(node.ran, RunAbs(node.cwd, CardInfo(node).value.output.value), Stem(CardInfo(node).value))
  {
    Mg5RunPlan(node, job);
    if CardInfo(node).Ok? {
      OutputsPlan(node.ran, node.cwd, CardInfo(node).value, job);
    }
  }

  /** The layers of a finished run put end to end. */
  lemma {:induction false} Assemble(sb: Outcome, ins: seq<Action>, m: Outcome, unpack: seq<Action>, launch: seq<Action>,
                                    o: Outcome, mv: seq<Action>, outs: seq<Action>)
    requires Then(sb, Then(Done(ins), m)).failure.None?
    requires m.actions == unpack + launch + o.actions && o.actions == mv + outs
    ensures Then(sb, Then(Done(ins), m)).actions == sb.actions + ins + unpack + launch + mv + outs
  {
    var s := sb.actions;
    assert s + (ins + (unpack + launch + (mv + outs))) == s + ins + unpack + launch + mv + outs;
  }

  /**
   * A run that finishes: the sandbox, the copy-ins, the unpacking, MG5, the renames, the
   * user's copy-outs in order, and the two archives last, all decided on the file system
   * left after the renames.
   */
  lemma {:induction false} Mg5Order(node: Node, job: Mg5Job)
    requires RunMg5Job(node, job).failure.None?
    ensures CardInfo(node).Ok? && CardInfo(node).value.output.Some? && job.oDir.Some? && job.args.Some?
    ensures var info := CardInfo(node).value;
      var out := info.output.value;
      var dir := RunAbs(node.cwd, out);
      var tar := Mg5Matches(node.staged)[0];
      RunDirReady(node.ran, dir, Stem(info)) &&
      RunMg5Job(node, job).actions ==
        Sandbox(node.fs, node.cwd, true).actions + CopyIns(node.fs, Listed(job.copyToLocal)) +
        [Extract(tar), Remove(tar)] + Launch(node, job.args.value + ["--exe", ExePath(Mg5Matches(node.unpacked)[0])]) +
        Renames(out, Stem(info)) +
        CopyOuts(AfterRenames(node.ran, dir, Stem(info)), Listed(job.copyFromLocal) + Archives(job.oDir.value, dir, Stem(info)))
  {
    Mg5Succeeds(node, job);
    Mg5RunPlan(node, job);
    var info := CardInfo(node).value;
    var out := info.output.value;
    var dir := RunAbs(node.cwd, out);
    OutputsPlan(node.ran, node.cwd, info, job);
    var tar := Mg5Matches(node.staged)[0];
    var ins := CopyIns(node.fs, Listed(job.copyToLocal));
    var unpack := [Extract(tar), Remove(tar)];
    var launch := Launch(node, job.args.value + ["--exe", ExePath(Mg5Matches(node.unpacked)[0])]);
    var mv := Renames(out, Stem(info));
    var outs := CopyOuts(AfterRenames(node.ran, dir, Stem(info)), Listed(job.copyFromLocal) + Archives(job.oDir.value, dir, Stem(info)));
    assert RunMg5Job(node, job) == Then(Sandbox(node.fs, node.cwd, true), Then(Done(ins), Mg5Run(node, job)));
    Assemble(Sandbox(node.fs, node.cwd, true), ins, Mg5Run(node, job), unpack, launch, Outputs(node.ran, node.cwd, info, job), mv, outs);
  }

  /** A run ending in a copy-out loop over `user + last` ends with the copies of `last`. */
  lemma {:induction false} LastCopies(fs: Fs, r: seq<Action>, pre: seq<Action>, user: seq<(string, string)>, last: seq<(string, string)>)
    requires r == pre + CopyOuts(fs, user + last)
    ensures EndsWith(r, CopyOuts(fs, last))
  {
    var q := user + last;
    var tail := r[|r| - |last|..];
    forall i | 0 <= i < |last| ensures tail[i] == CopyOuts(fs, last)[i] {
      assert q[|user| + i] == last[i];
    }
    assert tail == CopyOuts(fs, last);
  }

  /** The last two actions of a finished run copy the two archives out. */
  lemma {:induction false} Mg5CopiesArchivesLast(node: Node, job: Mg5Job)
    requires RunMg5Job(node, job).failure.None?
    ensures CardInfo(node).Ok? && CardInfo(node).value.output.Some? && job.oDir.Some?
    ensures var info := CardInfo(node).value;
      var dir := RunAbs(node.cwd, info.output.value);
      RunDirReady(node.ran, dir, Stem(info)) &&
      EndsWith(RunMg5Job(node, job).actions, CopyOuts(AfterRenames(node.ran, dir, Stem(info)), Archives(job.oDir.value, dir, Stem(info))))
  {
    Mg5Order(node, job);
    var info := CardInfo(node).value;
    var out := info.output.value;
    var dir := RunAbs(node.cwd, out);
    var tar := Mg5Matches(node.staged)[0];
    var pre := Sandbox(node.fs, node.cwd, true).actions + CopyIns(node.fs, Listed(job.copyToLocal)) +
      [Extract(tar), Remove(tar)] + Launch(node, job.args.value + ["--exe", ExePath(Mg5Matches(node.unpacked)[0])]) +
      Renames(out, Stem(info));
    LastCopies(AfterRenames(node.ran, dir, Stem(info)), RunMg5Job(node, job).actions, pre, Listed(job.copyFromLocal),
               Archives(job.oDir.value, dir, Stem(info)));
  }

  /** How a copy-out ships a source that is a regular file. */
  function Shipped(pair: (string, string)): Action
  {
    if StartsWith(pair.1, "/hdfs") then HadoopPut(pair.0, HdfsPath(pair.1)) else CopyFile(pair.0, pair.1)
  }

  /**
   * When `run_mg5` left both event archives as files, a finished run ends by shipping the
   * two renamed archives: hadoop for an `/hdfs` output directory, `copy2` otherwise.
   */
  lemma {:induction false} Mg5ShipsArchives(node: Node, job: Mg5Job)
    requires RunMg5Job(node, job).failure.None?
    requires CardInfo(node).Ok? && CardInfo(node).value.output.Some? && job.oDir.Some?
    requires var dir := RunAbs(node.cwd, CardInfo(node).value.output.value);
      IsFile(node.ran, PathJoin(dir, LheEvents)) && IsFile(node.ran, PathJoin(dir, HepmcEvents))
    ensures var info := CardInfo(node).value;
      var a := Archives(job.oDir.value, RunAbs(node.cwd, info.output.value), Stem(info));
      EndsWith(RunMg5Job(node, job).actions, [Shipped(a[0]), Shipped(a[1])])
  {
    Mg5CopiesArchivesLast(node, job);
    var info := CardInfo(node).value;
    ArchivesShipped(node.ran, job.oDir.value, RunAbs(node.cwd, info.output.value), Stem(info));
  }

  /** The copy-outs of the two renamed archives, when both were files before the renames. */
  lemma {:induction false} ArchivesShipped(ran: Fs, oDir: string, dir: string, stem: string)
    requires IsDir(ran, dir) && IsFile(ran, PathJoin(dir, LheEvents)) && IsFile(ran, PathJoin(dir, HepmcEvents))
    ensures RunDirReady(ran, dir, stem)
    ensures var a := Archives(oDir, dir, stem);
      CopyOuts(AfterRenames(ran, dir, stem), a) == [Shipped(a[0]), Shipped(a[1])]
  {
    ArchivesRenamed(ran, dir, stem);
    var a := Archives(oDir, dir, stem);
    var after := AfterRenames(ran, dir, stem);
    ShippedFile(after, a[0]);
    ShippedFile(after, a[1]);
    assert a == [a[0], a[1]];
    TwoCopyOuts(after, a[0], a[1]);
  }

  lemma {:induction false} ShippedFile(fs: Fs, pair: (string, string))
    requires IsFile(fs, pair.0)
    ensures CopyOut(fs, pair.0, pair.1) == Shipped(pair)
  {
  }

  lemma {:induction false} TwoCopyOuts(fs: Fs, p: (string, string), q: (string, string))
    ensures CopyOuts(fs, [p, q]) == [CopyOut(fs, p.0, p.1), CopyOut(fs, q.0, q.1)]
  {
  }

  /** The glob as a loop over the listing. */
  method GlobMg5(names: seq<string>) returns (m: seq<string>)
    ensures m == Mg5Matches(names)
  {
    m := [];
    for k := 0 to |names|
      invariant m == Mg5Matches(names[..k])
    {
      assert names[..k + 1][..k] == names[..k];
      if StartsWith(names[k], "MG5_aMC") {
        m := m + [names[k]];
      }
    }
    assert names[..|names|] == names;
  }

  /** From the card values on, as the script runs them: the chdir, the renames, the copy-out loop over the extended queue. */
  method OutputsMain(ran: Fs, cwd: string, info: RunInfo, job: Mg5Job) returns (o: Outcome)
    ensures o == Outputs(ran, cwd, info, job)
  {
    if info.output.None? {
      return Fail([], AttributeError("'NoneType' object has no attribute 'endswith'"));
    }
    var out := info.output.value;
    var stem := NameStem(out, info.energy, info.nevents, info.iseed);
    assert stem == Stem(info);
    var dir := RunAbs(cwd, out);
    if !IsDir(ran, dir) {
      return Fail([], OSError(RunDir(out)));
    }
    var moves := Renames(out, stem);
    var lhe, hepmc := PathJoin(dir, LheEvents), PathJoin(dir, HepmcEvents);
    if lhe !in ran {
      return Fail(moves[..1], OSError(LheEvents));
    }
    var now := Moved(ran, lhe, PathJoin(dir, stem + ".lhe.gz"));
    if hepmc !in now {
      return Fail(moves[..2], OSError(HepmcEvents));
    }
    now := Moved(now, hepmc, PathJoin(dir, stem + ".hepmc.gz"));
    if job.oDir.None? {
      return Fail(moves, AttributeError("'NoneType' object has no attribute 'endswith'"));
    }
    var queue := Listed(job.copyFromLocal);
    queue := queue + Archives(job.oDir.value, dir, stem);
    var outs := StageOut(now, queue);
    o := Done(moves + outs);
  }

  /** From the archive search on, as the script runs it. */
  method Mg5RunMain(node: Node, job: Mg5Job) returns (o: Outcome)
    ensures o == Mg5Run(node, job)
  {
    var tars := GlobMg5(node.staged);
    if |tars| > 1 {
      return Fail([], RuntimeError("Too many files/dirs for MG5_aMC*"));
    } else if tars == [] {
      return Fail([], RuntimeError("Cannot find MG5 tar."));
    }
    var tar := tars[0];
    var done := [Extract(tar), Remove(tar)];
    var dirs := GlobMg5(node.unpacked);
    if dirs == [] {
      return Fail(done, IndexError);
    }
    if job.args.None? {
      return Fail(done, AttributeError("'NoneType' object has no attribute 'extend'"));
    }
    var mg5Args := job.args.value;
    mg5Args := mg5Args + ["--exe", ExePath(dirs[0])];
    o := CardRunMain(node, job, done, mg5Args);
  }

  /** `run_mg5` and the card reads, as the script runs them. */
  method CardRunMain(node: Node, job: Mg5Job, unpack: seq<Action>, a: seq<string>) returns (o: Outcome)
    ensures o == CardRun(node, job, unpack, a)
  {
    if node.parsed.None? {
      return Fail(unpack, SystemExit(2));
    }
    var card := Mg5Card.MakeRunCard(node.template, node.parsed.value);
    if card.Err? {
      return Fail(unpack, card.error);
    }
    assert NewCard(node) == card;
    var done := unpack;
    if !node.parsed.value.dry {
      done := done + [RunMg5(a, [node.parsed.value.exeAbs, Mg5Card.NewCard(node.parsed.value.card)])];
    } else {
      assert unpack + Launch(node, a) == done;
    }
    var info := ReadCardMain(card.value);
    if info.Err? {
      return Fail(done, info.error);
    }
    var rest := OutputsMain(node.ran, node.cwd, info.value, job);
    o := Then(Done(done), rest);
  }

  /** `main()` as it runs, step by step. */
  method Mg5Main(node: Node, job: Mg5Job) returns (o: Outcome)
    ensures o == RunMg5Job(node, job)
  {
    o := Sandbox(node.fs, node.cwd, true);
    if o.failure.Some? {
      return;
    }
    var ins := StageIn(node.fs, Listed(job.copyToLocal));
    var rest := Mg5RunMain(node, job);
    o := Then(o, Then(Done(ins), rest));
  }
}
