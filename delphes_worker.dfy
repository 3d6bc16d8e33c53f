/**
 * The Delphes worker script: make a sandbox, stage the inputs in, unpack Delphes, then
 * for each `--process <input> <output>` pair fetch the input, unzip it if needed, run the
 * Delphes executable that fits its format, copy the result out and delete both local
 * files; finally stage the remaining outputs out.
 */
module DelphesWorker {
  import opened Wrappers
  import opened Text
  import opened Paths
  import opened Lists
  import opened FileSystem
  import opened ArgOptions
  import opened Staging
  import DelphesSubmit

  /** The parsed options; `nargs=2, action='append'` lists are absent when never given. */
  datatype DelphesJob = DelphesJob(copyToLocal: Option<seq<(string, string)>>,
                                   copyFromLocal: Option<seq<(string, string)>>,
                                   exe: Option<string>, card: string,
                                   process: Option<seq<(string, string)>>)

  // ---------------------------------------------------------------------------
  // copy_from_local
  // ---------------------------------------------------------------------------

  /**
   * `copy_from_local(source, dest)`: the parent of `dest` is made first when it is not a
   * directory, and the copy then sees it. `os.makedirs` raises OSError for an empty parent
   * (a bare file name) and for a parent that exists as a file.
   */
  function CopyFromLocal(fs: Fs, source: string, dest: string): (r: Step)
    ensures r.outcome.failure.None? <==> IsDir(fs, Dirname(dest)) || (Dirname(dest) != "" && Dirname(dest) !in fs)
    ensures r.outcome.failure.Some? ==> r == Step(Fail([], OSError(Dirname(dest))), fs)
    ensures r.outcome.failure.None? ==> r.fs == fs[Dirname(dest) := Directory]
    ensures r.outcome.failure.None? ==>
      var a := r.outcome.actions;
      1 <= |a| <= 2 && a[|a| - 1] == CopyOut(r.fs, source, dest) &&
      (|a| == 2 <==> !IsDir(fs, Dirname(dest))) &&
      (|a| == 2 ==> a[0] == MakeDirs(Dirname(dest)))
  {
    var parent := Dirname(dest);
    if IsDir(fs, parent) then
      assert fs[parent := Directory] == fs;
      Step(Done([CopyOut(fs, source, dest)]), fs)
    else if parent == "" || parent in fs then Step(Fail([], OSError(parent)), fs)
    else
      var made := fs[parent := Directory];
      Step(Done([MakeDirs(parent), CopyOut(made, source, dest)]), made)
  }

  /** A destination without a directory part has the empty parent, which cannot be made. */
  lemma {:induction false} BareDestinationFails(fs: Fs, source: string, dest: string)
    requires '/' !in dest && "" !in fs
    ensures CopyFromLocal(fs, source, dest) == Step(Fail([], OSError("")), fs)
  {
    assert RFind(dest, '/') == -1;
  }

  /** A destination `<dir>/<name>` in an existing directory is copied straight away. */
  lemma {:induction false} CopyIntoExistingDir(fs: Fs, source: string, dir: string, name: string)
    requires '/' !in name && dir != [] && dir[|dir| - 1] != '/' && IsDir(fs, dir)
    ensures CopyFromLocal(fs, source, dir + "/" + name) == Step(Done([CopyOut(fs, source, dir + "/" + name)]), fs)
  {
    DirnameOfJoined(dir, name);
  }

  /** `lambda p: copy_from_local(p[0], p[1])`, the body of the final copy-out loop. */
  function CopyBackStep(): (Fs, (string, string)) -> Step
  {
    (fs: Fs, p: (string, string)) => CopyFromLocal(fs, p.0, p.1)
  }

  // ---------------------------------------------------------------------------
  // Preparing an input file
  // ---------------------------------------------------------------------------

  /** `need_unzip(filename)`: the file name ends with ".gz". */
  predicate NeedUnzip(filename: string) { EndsWith(Basename(filename), ".gz") }

  /** `in_local.replace('.gz', '')`: the name Delphes is run on, with every ".gz" removed. */
  function Unzipped(name: string): string { ReplaceAll(name, ".gz", "") }

  /** Removing ".gz" from `<stem>.gz` leaves `<stem>` when the stem has no ".gz" of its own. */
  lemma {:induction false} StripGzSuffix(stem: string)
    requires !Contains(stem, ".gz")
    ensures ReplaceAll(stem + ".gz", ".gz", "") == stem
  {
    var s, p := stem + ".gz", ".gz";
    assert FindFrom(stem, p, 0).None?;
    forall j | 0 <= j < |stem| ensures !IsAt(s, p, j) {
      if j + 3 <= |stem| {
        assert s[j..j + 3] == stem[j..j + 3];
        assert !IsAt(stem, p, j);
      } else if j == |stem| - 1 {
        assert s[j..j + 3][1] == '.' != p[1];
      } else {
        assert s[j..j + 3][2] == '.' != p[2];
      }
    }
    ReplaceFromUpTo(s, p, "", 0, |stem|);
    assert s[|stem|..|stem| + 3] == p;
    assert s[0..|stem|] == stem;
  }

  /** A compressed name is gunzipped, and the executable reads the file gunzip leaves behind. */
  lemma {:induction false} UnzippedOfCompressed(stem: string)
    requires '/' !in stem && !Contains(stem, ".gz")
    ensures NeedUnzip(stem + ".gz") && Unzipped(stem + ".gz") == stem
  {
    var s := stem + ".gz";
    assert '/' !in s;
    BasenameNoSlash(s);
    assert s[|s| - 3..] == ".gz";
    StripGzSuffix(stem);
  }

  /** A name without ".gz" is neither unzipped nor renamed. */
  lemma {:induction false} UnzippedOfPlain(name: string)
    requires !Contains(name, ".gz")
    ensures !NeedUnzip(name) && Unzipped(name) == name
  {
    ReplaceAbsent(name, ".gz", "");
    if NeedUnzip(name) {
      var b := Basename(name);
      assert IsAt(name, ".gz", |name| - 3) by {
        assert name[|name| - 3..] == b[|b| - 3..];
      }
      ContainsAt(name, ".gz", |name| - 3);
    }
  }

  /**
   * A ".gz" inside a name that is not unzipped still disappears: Delphes is then given a
   * name that was never created.
   */
  lemma {:induction false} UnzippedRenamesPlain()
    ensures !NeedUnzip("a.gz.hepmc") && Unzipped("a.gz.hepmc") == "a.hepmc"
  {
    InnerGzNotCompressed();
    InnerGzRemoved();
  }

  lemma {:induction false} InnerGzNotCompressed()
    ensures !NeedUnzip("a.gz.hepmc")
  {
    NotCompressed("a.gz.hepmc");
  }

  /** A name without a directory whose third-last character is not a dot is not gunzipped. */
  lemma {:induction false} NotCompressed(name: string)
    requires '/' !in name && |name| >= 3 && name[|name| - 3] != '.'
    ensures !NeedUnzip(name)
  {
    BasenameNoSlash(name);
    assert name[|name| - 3..][0] == name[|name| - 3];
  }

  lemma {:induction false} InnerGzRemoved()
    ensures ReplaceAll("a.gz.hepmc", ".gz", "") == "a.hepmc"
  {
    var a, p, b := "a", ".gz", ".hepmc";
    var s := a + p + b;
    assert s == "a.gz.hepmc";
    assert s[1..4] == p;
    forall k | k != 1 ensures !IsAt(s, p, k) {
      if 0 <= k && k + 3 <= |s| {
        if k == 4 {
          assert s[5] != p[1];
        } else {
          assert s[k] != p[0];
        }
      }
    }
    ReplaceOnce(s, p, "", 1);
    assert s[..1] == a && s[4..] == b;
    assert a + "" + b == "a.hepmc";
  }

  /** `determine_exe(extension)`; the error names the local input file. */
  function DetermineExe(extension: string, inLocal: string): (r: Result<string>)
    ensures r == Ok("./DelphesHepMC") <==> extension == ".hepmc"
    ensures r == Ok("./DelphesLHEF") <==> extension == ".lhe" || extension == ".lhef"
    ensures r.Err? <==> extension != ".hepmc" && extension != ".lhe" && extension != ".lhef"
    ensures r.Err? ==> r.error == RuntimeError("Cannot determine which exe to use for " + inLocal)
  {
    if extension == ".hepmc" then Ok("./DelphesHepMC")
    else if extension == ".lhe" || extension == ".lhef" then Ok("./DelphesLHEF")
    else Err(RuntimeError("Cannot determine which exe to use for " + inLocal))
  }

  /** The guess agrees with the executable the submitter names for each `--type`. */
  lemma {:induction false} DetermineExeMatchesSubmitter(inLocal: string)
    ensures DetermineExe(".hepmc", inLocal) == Ok(DelphesSubmit.Exe(DelphesSubmit.HepMC))
    ensures DetermineExe(".lhe", inLocal) == Ok(DelphesSubmit.Exe(DelphesSubmit.LHE))
  {
  }

  /** `args.exe if args.exe else determine_exe(os.path.splitext(in_local)[1])`. */
  function ChooseExe(exe: Option<string>, inLocal: string): (r: Result<string>)
    ensures Truthy(exe) ==> r == Ok(exe.value)
    ensures !Truthy(exe) ==> r == DetermineExe(Ext(inLocal), inLocal)
  {
    if Truthy(exe) then Ok(exe.value) else DetermineExe(Ext(inLocal), inLocal)
  }

  /** Without `--exe`, a `<name>.lhe` input (after unzipping) is run through DelphesLHEF. */
  lemma {:induction false} ChooseExeOfLhe(name: string)
    requires '/' !in name && '.' !in name && name != ""
    ensures ChooseExe(None, name + ".lhe") == Ok("./DelphesLHEF")
  {
    assert name[0] != '.';
    SplitextOfDotted(name, "lhe");
    assert name + "." + "lhe" == name + ".lhe";
  }

  // ---------------------------------------------------------------------------
  // One --process pair
  // ---------------------------------------------------------------------------

  /**
   * What a Delphes command leaves on the file system it is run on. The executable is not
   * part of the model; the script only looks at its result through the copy back.
   */
  type Effect = (seq<string>, Fs) -> Fs

  /** The Delphes command for one pair: the executable, the card one level up, output, input. */
  function DelphesCall(exe: string, card: string, outLocal: string, local: string): seq<string>
  {
    [exe, PathJoin("..", card), outLocal, local]
  }

  /**
   * The body of the process loop once its names are known: the input is fetched to
   * `inLocal` (and unzipped when `unzip`), Delphes runs as `exe` on `local` writing
   * `outLocal`, the result is copied to `output` from the file system Delphes left,
   * and both local files are deleted.
   */
  function Steps(fs: Fs, card: string, input: string, output: string, inLocal: string, outLocal: string,
                 unzip: bool, local: string, exe: Result<string>, run: Effect): Step
  {
    var fetch := [CopyIn(fs, input, inLocal)] + (if unzip then [Call(["gunzip", inLocal])] else []);
    match exe
    case Err(e) => Step(Fail(fetch, e), fs)
    case Ok(x) =>
      var cmd := DelphesCall(x, card, outLocal, local);
      var copy := CopyFromLocal(run(cmd, fs), outLocal, output);
      Step(Then(Done(fetch + [Call(cmd)]), Then(copy.outcome, Done([Remove(outLocal), Remove(local)]))),
           copy.fs - {outLocal, local})
  }

  /**
   * The body of the process loop for the pair `(input, output)`: the local names are the
   * base names, the input is unzipped when `need_unzip` says so, and the executable is
   * chosen for the name without ".gz".
   */
  function ProcessFile(fs: Fs, job: DelphesJob, run: Effect, input: string, output: string): Step
  {
    var inLocal := Basename(input);
    var local := Unzipped(inLocal);
    Steps(fs, job.card, input, output, inLocal, Basename(output), NeedUnzip(inLocal), local, ChooseExe(job.exe, local), run)
  }

  function ProcessStep(job: DelphesJob, run: Effect): (Fs, (string, string)) -> Step
  {
    (fs: Fs, p: (string, string)) => ProcessFile(fs, job, run, p.0, p.1)
  }

  lemma {:induction false} StepsPlan(fs: Fs, card: string, input: string, output: string, inLocal: string, outLocal: string,
                  unzip: bool, local: string, exe: Result<string>, run: Effect)
    ensures var r := Steps(fs, card, input, output, inLocal, outLocal, unzip, local, exe, run).outcome;
      var fetch := [CopyIn(fs, input, inLocal)] + (if unzip then [Call(["gunzip", inLocal])] else []);
      |r.actions| >= 1 && r.actions[0] == CopyIn(fs, input, inLocal) &&
      (Call(["gunzip", inLocal]) in r.actions <==> unzip) &&
      (r.failure.None? <==> exe.Ok? && CopyFromLocal(run(DelphesCall(exe.value, card, outLocal, local), fs), outLocal, output).outcome.failure.None?)
    ensures var st := Steps(fs, card, input, output, inLocal, outLocal, unzip, local, exe, run);
      var r := st.outcome;
      var fetch := [CopyIn(fs, input, inLocal)] + (if unzip then [Call(["gunzip", inLocal])] else []);
      r.failure.None? ==>
        var cmd := DelphesCall(exe.value, card, outLocal, local);
        var copy := CopyFromLocal(run(cmd, fs), outLocal, output);
        r.actions == fetch + [Call(cmd)] + copy.outcome.actions + [Remove(outLocal), Remove(local)] &&
        r.actions[|r.actions| - 2..] == [Remove(outLocal), Remove(local)] &&
        Call(cmd) in r.actions && st.fs == copy.fs - {outLocal, local}
  {
    var fetch := [CopyIn(fs, input, inLocal)] + (if unzip then [Call(["gunzip", inLocal])] else []);
    var gunzip := Call(["gunzip", inLocal]);
    assert fetch[0] == CopyIn(fs, input, inLocal);
    assert gunzip in fetch <==> unzip;
    if exe.Ok? {
      var cmd := DelphesCall(exe.value, card, outLocal, local);
      var call := Call(cmd);
      var copy := CopyFromLocal(run(cmd, fs), outLocal, output).outcome;
      assert call != gunzip;
      assert copy.failure.None? ==> gunzip !in copy.actions;
      RunOutcome(fetch, call, copy, [Remove(outLocal), Remove(local)], gunzip);
    }
  }

  /**
   * Where the actions of a run that does `fetch` and `call`, then `copy`, then `tail` sit: a
   * failing `copy` stops the run after `call`.
   */
  lemma {:induction false} RunOutcome(fetch: seq<Action>, call: Action, copy: Outcome, tail: seq<Action>, g: Action)
    requires |fetch| >= 1 && g != call && g !in tail
    requires copy.failure.None? ==> g !in copy.actions
    requires copy.failure.Some? ==> copy.actions == []
    ensures var r := Then(Done(fetch + [call]), Then(copy, Done(tail)));
      && r.failure == copy.failure && |r.actions| >= 1 && r.actions[0] == fetch[0] && (g in r.actions <==> g in fetch)
      && (r.failure.None? ==>
            r.actions == fetch + [call] + copy.actions + tail && call in r.actions &&
            |r.actions| >= |tail| && r.actions[|r.actions| - |tail|..] == tail)
  {
    var head := fetch + [call];
    if copy.failure.None? {
      ThenDone(copy.actions, tail);
      ThenDone(head, copy.actions + tail);
      ConcatAssoc(head, copy.actions, tail);
      RunLayout(fetch, call, copy.actions, tail, g);
    } else {
      assert head + copy.actions == head;
      RunLayout(fetch, call, [], [], g);
    }
  }

  /** Where the actions of a run `fetch`, `call`, `mid`, `tail` sit in their concatenation. */
  lemma {:induction false} RunLayout<T>(fetch: seq<T>, call: T, mid: seq<T>, tail: seq<T>, g: T)
    requires |fetch| >= 1 && g != call && g !in mid && g !in tail
    ensures var s := fetch + [call] + mid + tail;
      && s[0] == fetch[0] && (g in s <==> g in fetch) && call in s
      && |s| >= |tail| && s[|s| - |tail|..] == tail
  {
    var s := fetch + [call] + mid + tail;
    assert s[|fetch|] == call;
    assert s[|s| - |tail|..] == tail;
  }

  /**
   * One pair, all the way: the input is fetched under its base name and gunzipped exactly
   * when that name ends with ".gz"; Delphes reads the name without ".gz" and writes the
   * output's base name; the result is copied to the output path from the file system
   * Delphes left; both local files are deleted last. The pair fails only for an input
   * format that cannot be placed (without `--exe`) or an output directory that cannot be made.
   */
  lemma {:induction false} ProcessFilePlan(fs: Fs, job: DelphesJob, run: Effect, input: string, output: string)
    ensures var r := ProcessFile(fs, job, run, input, output).outcome;
      var inLocal, outLocal := Basename(input), Basename(output);
      var local := Unzipped(inLocal);
      var exe := ChooseExe(job.exe, local);
      |r.actions| >= 1 && r.actions[0] == CopyIn(fs, input, inLocal) &&
      (Call(["gunzip", inLocal]) in r.actions <==> NeedUnzip(inLocal)) &&
      (r.failure.None? <==>
         exe.Ok? && CopyFromLocal(run(DelphesCall(exe.value, job.card, outLocal, local), fs), outLocal, output).outcome.failure.None?)
    ensures var st := ProcessFile(fs, job, run, input, output);
      var inLocal, outLocal := Basename(input), Basename(output);
      var local := Unzipped(inLocal);
      var exe := ChooseExe(job.exe, local);
      st.outcome.failure.None? ==>
        var cmd := DelphesCall(exe.value, job.card, outLocal, local);
        var copy := CopyFromLocal(run(cmd, fs), outLocal, output);
        st.outcome.actions[|st.outcome.actions| - 2..] == [Remove(outLocal), Remove(local)] &&
        Call(cmd) in st.outcome.actions && EndsWith(st.outcome.actions, copy.outcome.actions + [Remove(outLocal), Remove(local)]) &&
        st.fs == copy.fs - {outLocal, local}
  {
    var inLocal := Basename(input);
    var local := Unzipped(inLocal);
    var exe := ChooseExe(job.exe, local);
    assert ProcessFile(fs, job, run, input, output) ==
      Steps(fs, job.card, input, output, inLocal, Basename(output), NeedUnzip(inLocal), local, exe, run);
    StepsPlan(fs, job.card, input, output, inLocal, Basename(output), NeedUnzip(inLocal), local, exe, run);
    var st := ProcessFile(fs, job, run, input, output);
    if st.outcome.failure.None? {
      var cmd, fetch, copy := PairParts(fs, job, run, input, output);
      PairLayout(st.outcome.actions, fetch, Call(cmd), copy.outcome.actions, [Remove(Basename(output)), Remove(local)]);
    }
  }

  /** Where the command, the copy back and the removals sit in a finished pair's actions. */
  lemma {:induction false} PairLayout<T>(s: seq<T>, fetch: seq<T>, call: T, mid: seq<T>, tail: seq<T>)
    requires s == fetch + [call] + mid + tail
    ensures call in s && EndsWith(s, mid + tail) && s[|s| - |tail|..] == tail
  {
    ConcatAssoc(fetch + [call], mid, tail);
    assert s[|fetch|] == call;
    assert s[|s| - |mid + tail|..] == mid + tail;
  }

  /**
   * The file Delphes writes is copied out: when the file system Delphes left holds the
   * output's base name as a file, a finished pair to a destination outside `/hdfs` copies
   * it there with `copy2`.
   */
  lemma {:induction false} WrittenOutputCopied(fs: Fs, job: DelphesJob, run: Effect, input: string, output: string)
    requires ProcessFile(fs, job, run, input, output).outcome.failure.None?
    requires ChooseExe(job.exe, Unzipped(Basename(input))).Ok?
    requires var cmd := DelphesCall(ChooseExe(job.exe, Unzipped(Basename(input))).value, job.card, Basename(output),
                                    Unzipped(Basename(input)));
      IsFile(run(cmd, fs), Basename(output)) && !StartsWith(output, "/hdfs")
    ensures CopyFile(Basename(output), output) in ProcessFile(fs, job, run, input, output).outcome.actions
  {
    var outLocal, local := Basename(output), Unzipped(Basename(input));
    var cmd, fetch, copy := PairParts(fs, job, run, input, output);
    PartsCopyFile(ProcessFile(fs, job, run, input, output).outcome.actions, fetch, cmd, run(cmd, fs), output, local);
  }

  /** The copy back of a file Delphes wrote, to a destination outside `/hdfs`, is a `copy2`. */
  lemma {:induction false} PartsCopyFile(s: seq<Action>, fetch: seq<Action>, cmd: seq<string>, ran: Fs, output: string,
                                         local: string)
    requires IsFile(ran, Basename(output)) && !StartsWith(output, "/hdfs")
    requires CopyFromLocal(ran, Basename(output), output).outcome.failure.None?
    requires s == fetch + [Call(cmd)] + CopyFromLocal(ran, Basename(output), output).outcome.actions +
                  [Remove(Basename(output)), Remove(local)]
    ensures CopyFile(Basename(output), output) in s
  {
    var outLocal := Basename(output);
    var copy := CopyFromLocal(ran, outLocal, output);
    // a parent that were the output file itself would have made the copy fail
    assert Dirname(output) != outLocal;
    assert IsFile(copy.fs, outLocal);
    var c := copy.outcome.actions;
    assert c[|c| - 1] == CopyFile(outLocal, output);
    assert s[|fetch| + 1 + |c| - 1] == c[|c| - 1];
  }

  /**
   * A finished pair leaves its output directory in place: the directory `copy_from_local`
   * found or made is still there for the next pair, unless it is one of the two local
   * files removed afterwards.
   */
  lemma {:induction false} OutputDirectoryKept(fs: Fs, job: DelphesJob, run: Effect, input: string, output: string)
    requires ProcessFile(fs, job, run, input, output).outcome.failure.None?
    requires Dirname(output) != Basename(output) && Dirname(output) != Unzipped(Basename(input))
    ensures IsDir(ProcessFile(fs, job, run, input, output).fs, Dirname(output))
  {
    var outLocal, local := Basename(output), Unzipped(Basename(input));
    var cmd, fetch, copy := PairParts(fs, job, run, input, output);
    MadeDirKept(run(cmd, fs), Dirname(output), outLocal, local);
  }

  /**
   * The pieces of a finished pair: the fetch, the Delphes command, and the copy back on
   * the file system Delphes left, followed by the two removals.
   */
  lemma {:induction false} PairParts(fs: Fs, job: DelphesJob, run: Effect, input: string, output: string)
    returns (cmd: seq<string>, fetch: seq<Action>, copy: Step)
    requires ProcessFile(fs, job, run, input, output).outcome.failure.None?
    ensures var local := Unzipped(Basename(input));
      ChooseExe(job.exe, local).Ok? && cmd == DelphesCall(ChooseExe(job.exe, local).value, job.card, Basename(output), local)
    ensures fetch == [CopyIn(fs, input, Basename(input))] + (if NeedUnzip(Basename(input)) then [Call(["gunzip", Basename(input)])] else [])
    ensures copy == CopyFromLocal(run(cmd, fs), Basename(output), output) && copy.outcome.failure.None?
    ensures var st := ProcessFile(fs, job, run, input, output);
      var outLocal, local := Basename(output), Unzipped(Basename(input));
      st.outcome.actions == fetch + [Call(cmd)] + copy.outcome.actions + [Remove(outLocal), Remove(local)]
    ensures ProcessFile(fs, job, run, input, output).fs == copy.fs - {Basename(output), Unzipped(Basename(input))}
  {
    var inLocal := Basename(input);
    var local := Unzipped(inLocal);
    var exe := ChooseExe(job.exe, local);
    assert ProcessFile(fs, job, run, input, output) ==
      Steps(fs, job.card, input, output, inLocal, Basename(output), NeedUnzip(inLocal), local, exe, run);
    StepsPlan(fs, job.card, input, output, inLocal, Basename(output), NeedUnzip(inLocal), local, exe, run);
    cmd := DelphesCall(exe.value, job.card, Basename(output), local);
    fetch := [CopyIn(fs, input, inLocal)] + (if NeedUnzip(inLocal) then [Call(["gunzip", inLocal])] else []);
    copy := CopyFromLocal(run(cmd, fs), Basename(output), output);
  }

  /** The Delphes command never removes a directory. */
  ghost predicate KeepsDirs(run: Effect)
  {
    forall cmd, fs, d :: IsDir(fs, d) ==> IsDir(run(cmd, fs), d)
  }

  /**
   * Two pairs whose outputs share a directory: the first pair's copy back makes it when
   * Delphes has not, and the second pair finds it and copies without `os.makedirs`.
   */
  lemma {:induction false} SharedDirectoryMadeOnce(fs: Fs, job: DelphesJob, run: Effect, i1: string, o1: string, i2: string, o2: string)
    requires KeepsDirs(run)
    requires Each(ProcessStep(job, run), fs, [(i1, o1), (i2, o2)]).outcome.failure.None?
    requires Dirname(o1) == Dirname(o2) && Dirname(o1) != Basename(o1) && Dirname(o1) != Unzipped(Basename(i1))
    ensures var first := ProcessFile(fs, job, run, i1, o1);
      var second := ProcessFile(first.fs, job, run, i2, o2);
      Each(ProcessStep(job, run), fs, [(i1, o1), (i2, o2)]) ==
        Step(Done(first.outcome.actions + second.outcome.actions), second.fs) &&
      (KeepsAbsent(run, fs, job, i1, o1) ==> MakeDirs(Dirname(o1)) in first.outcome.actions) &&
      MakeDirs(Dirname(o1)) !in second.outcome.actions
  {
    var f := ProcessStep(job, run);
    EachTwo(f, fs, (i1, o1), (i2, o2));
    var first := ProcessFile(fs, job, run, i1, o1);
    assert f(fs, (i1, o1)) == first;
    assert f(first.fs, (i2, o2)) == ProcessFile(first.fs, job, run, i2, o2);
    if KeepsAbsent(run, fs, job, i1, o1) {
      MissingDirMade(fs, job, run, i1, o1);
    }
    OutputDirectoryKept(fs, job, run, i1, o1);
    NoMakeDirsAfterDir(first.fs, job, run, i2, o2);
  }

  /** A pair whose output directory neither exists nor is made by Delphes issues `os.makedirs` for it. */
  lemma {:induction false} MissingDirMade(fs: Fs, job: DelphesJob, run: Effect, input: string, output: string)
    requires ProcessFile(fs, job, run, input, output).outcome.failure.None?
    requires KeepsAbsent(run, fs, job, input, output)
    ensures MakeDirs(Dirname(output)) in ProcessFile(fs, job, run, input, output).outcome.actions
  {
    var outLocal, local := Basename(output), Unzipped(Basename(input));
    var cmd, fetch, copy := PairParts(fs, job, run, input, output);
    var c := copy.outcome.actions;
    assert c[0] == MakeDirs(Dirname(output));
    var r := fetch + [Call(cmd)] + c + [Remove(outLocal), Remove(local)];
    assert r[|fetch| + 1] == c[0];
  }

  /** Delphes does not create the directory: the pair's copy back finds it missing. */
  predicate KeepsAbsent(run: Effect, fs: Fs, job: DelphesJob, input: string, output: string)
  {
    var local := Unzipped(Basename(input));
    ChooseExe(job.exe, local).Ok? &&
    Dirname(output) !in run(DelphesCall(ChooseExe(job.exe, local).value, job.card, Basename(output), local), fs)
  }

  /** A pair whose output directory exists issues no `os.makedirs`. */
  lemma {:induction false} NoMakeDirsAfterDir(fs: Fs, job: DelphesJob, run: Effect, input: string, output: string)
    requires KeepsDirs(run) && IsDir(fs, Dirname(output))
    requires ProcessFile(fs, job, run, input, output).outcome.failure.None?
    ensures MakeDirs(Dirname(output)) !in ProcessFile(fs, job, run, input, output).outcome.actions
  {
    var outLocal, local := Basename(output), Unzipped(Basename(input));
    var cmd, fetch, copy := PairParts(fs, job, run, input, output);
    FetchMakesNoDirs(fs, input, Basename(input), NeedUnzip(Basename(input)), Dirname(output));
    PartsMakeNoDirs(ProcessFile(fs, job, run, input, output).outcome.actions, fetch, cmd, run(cmd, fs), output, local);
  }

  /** The actions of a finished pair whose copy back found its directory hold no `os.makedirs` for it. */
  lemma {:induction false} PartsMakeNoDirs(s: seq<Action>, fetch: seq<Action>, cmd: seq<string>, ran: Fs, output: string,
                                           local: string)
    requires IsDir(ran, Dirname(output))
    requires s == fetch + [Call(cmd)] + CopyFromLocal(ran, Basename(output), output).outcome.actions +
                  [Remove(Basename(output)), Remove(local)]
    requires MakeDirs(Dirname(output)) !in fetch
    ensures MakeDirs(Dirname(output)) !in s
  {
    var tail := [Remove(Basename(output)), Remove(local)];
    CopyIntoDirMakesNone(ran, Basename(output), output);
    NotInLayout(s, fetch, Call(cmd), CopyFromLocal(ran, Basename(output), output).outcome.actions, tail,
                MakeDirs(Dirname(output)));
  }

  /** `copy_from_local` into a directory that exists issues no `os.makedirs`. */
  lemma {:induction false} CopyIntoDirMakesNone(fs: Fs, source: string, dest: string)
    requires IsDir(fs, Dirname(dest))
    ensures MakeDirs(Dirname(dest)) !in CopyFromLocal(fs, source, dest).outcome.actions
  {
    var a := CopyFromLocal(fs, source, dest).outcome.actions;
    assert a == [a[0]];
  }

  lemma {:induction false} NotInLayout<T>(s: seq<T>, fetch: seq<T>, call: T, mid: seq<T>, tail: seq<T>, g: T)
    requires s == fetch + [call] + mid + tail
    requires g !in fetch && g != call && g !in mid && g !in tail
    ensures g !in s
  {
  }

  /** Fetching an input makes no directory. */
  lemma {:induction false} FetchMakesNoDirs(fs: Fs, input: string, inLocal: string, unzip: bool, d: string)
    ensures MakeDirs(d) !in [CopyIn(fs, input, inLocal)] + (if unzip then [Call(["gunzip", inLocal])] else [])
  {
    var a := CopyIn(fs, input, inLocal);
    if unzip {
      assert [a] + [Call(["gunzip", inLocal])] == [a, Call(["gunzip", inLocal])];
    } else {
      assert [a] + [] == [a];
    }
  }

  // ---------------------------------------------------------------------------
  // The whole script
  // ---------------------------------------------------------------------------

  /** `tar xzf delphes.tgz`, remove the archive, enter `delphes`. */
  function SetupDelphes(): seq<Action>
  {
    [Call(["tar", "xzf", "delphes.tgz"]), Remove("delphes.tgz"), ChangeDir("delphes")]
  }

  /**
   * The control flow of `runDelphes()` for a process-loop body `body` and a copy-out-loop
   * body `back`, run from the absolute directory `cwd`: the sandbox, the staged inputs and
   * Delphes unpacked, the process loop (iterating over None raises TypeError), then the
   * copy-out loop on the file system the process loop left.
   */
  function Script(fs: Fs, cwd: string, job: DelphesJob,
                  body: (Fs, (string, string)) -> Step, back: (Fs, (string, string)) -> Step): Outcome
  {
    Then(Sandbox(fs, cwd, true),
         Then(Done(CopyIns(fs, Listed(job.copyToLocal)) + SetupDelphes()),
              if job.process.None? then Fail([], TypeError("'NoneType' object is not iterable"))
              else
                var p := Each(body, fs, job.process.value);
                Then(p.outcome, Each(back, p.fs, Listed(job.copyFromLocal)).outcome)))
  }

  /** `runDelphes()` over the file system `fs`, each Delphes command leaving what `run` says. */
  function RunDelphes(fs: Fs, cwd: string, job: DelphesJob, run: Effect): Outcome
  {
    Script(fs, cwd, job, ProcessStep(job, run), CopyBackStep())
  }

  /** The sandbox, staging and unpacking that precede the process loop. */
  function Prelude(fs: Fs, cwd: string, job: DelphesJob): seq<Action>
  {
    [MakeDir("scratch"), SetEnv("SCRATCH", PathJoin(cwd, "scratch")), ChangeDir("scratch")] +
    CopyIns(fs, Listed(job.copyToLocal)) + SetupDelphes()
  }

  lemma {:induction false} ScriptSucceeds(fs: Fs, cwd: string, job: DelphesJob,
                       body: (Fs, (string, string)) -> Step, back: (Fs, (string, string)) -> Step)
    ensures Script(fs, cwd, job, body, back).failure.None? <==>
      "scratch" !in fs && job.process.Some? && AllOk(body, fs, job.process.value) &&
      AllOk(back, Each(body, fs, job.process.value).fs, Listed(job.copyFromLocal))
  {
    if job.process.Some? {
      EachFails(body, fs, job.process.value);
      EachFails(back, Each(body, fs, job.process.value).fs, Listed(job.copyFromLocal));
    }
  }

  lemma {:induction false} ScriptOrder(fs: Fs, cwd: string, job: DelphesJob,
                    body: (Fs, (string, string)) -> Step, back: (Fs, (string, string)) -> Step)
    requires "scratch" !in fs && job.process.Some?
    requires AllOk(body, fs, job.process.value)
    requires AllOk(back, Each(body, fs, job.process.value).fs, Listed(job.copyFromLocal))
    ensures var p := Each(body, fs, job.process.value);
      Script(fs, cwd, job, body, back) ==
        Done(Prelude(fs, cwd, job) + p.outcome.actions + Each(back, p.fs, Listed(job.copyFromLocal)).outcome.actions)
  {
    var p := Each(body, fs, job.process.value);
    var q := Each(back, p.fs, Listed(job.copyFromLocal));
    EachFails(body, fs, job.process.value);
    EachFails(back, p.fs, Listed(job.copyFromLocal));
    SandboxWithEnv(fs, cwd);
    ThenAllDone(Sandbox(fs, cwd, true), Done(CopyIns(fs, Listed(job.copyToLocal)) + SetupDelphes()), p.outcome, q.outcome);
    var sb := [MakeDir("scratch"), SetEnv("SCRATCH", PathJoin(cwd, "scratch")), ChangeDir("scratch")];
    ConcatAssoc(sb, CopyIns(fs, Listed(job.copyToLocal)), SetupDelphes());
  }

  /** An existing `scratch` stops the script before it does anything. */
  lemma {:induction false} ScratchTaken(fs: Fs, cwd: string, job: DelphesJob, run: Effect)
    requires "scratch" in fs
    ensures RunDelphes(fs, cwd, job, run) == Fail([], OSError("scratch"))
  {
  }

  /**
   * The script finishes exactly when the sandbox is new, `--process` was given, no pair
   * raises on the file system the pairs before it left, and no copy-out raises on the
   * file system the process loop left.
   */
  lemma {:induction false} RunDelphesSucceeds(fs: Fs, cwd: string, job: DelphesJob, run: Effect)
    ensures RunDelphes(fs, cwd, job, run).failure.None? <==>
      "scratch" !in fs && job.process.Some? && AllOk(ProcessStep(job, run), fs, job.process.value) &&
      AllOk(CopyBackStep(), Each(ProcessStep(job, run), fs, job.process.value).fs, Listed(job.copyFromLocal))
  {
    ScriptSucceeds(fs, cwd, job, ProcessStep(job, run), CopyBackStep());
  }

  /**
   * A run that finishes: the sandbox, the staged inputs, Delphes unpacked, every pair in
   * order, then every copy-out in order, the copy-outs seeing the directories the pairs made.
   */
  lemma {:induction false} RunDelphesOrder(fs: Fs, cwd: string, job: DelphesJob, run: Effect)
    requires "scratch" !in fs && job.process.Some?
    requires AllOk(ProcessStep(job, run), fs, job.process.value)
    requires AllOk(CopyBackStep(), Each(ProcessStep(job, run), fs, job.process.value).fs, Listed(job.copyFromLocal))
    ensures var p := Each(ProcessStep(job, run), fs, job.process.value);
      RunDelphes(fs, cwd, job, run) ==
        Done(Prelude(fs, cwd, job) + p.outcome.actions + Each(CopyBackStep(), p.fs, Listed(job.copyFromLocal)).outcome.actions)
  {
    ScriptOrder(fs, cwd, job, ProcessStep(job, run), CopyBackStep());
  }

  /** Without `--process` the script stops after unpacking Delphes; nothing is copied out. */
  lemma {:induction false} NoProcessList(fs: Fs, cwd: string, job: DelphesJob, run: Effect)
    requires "scratch" !in fs && job.process.None?
    ensures RunDelphes(fs, cwd, job, run) == Fail(Prelude(fs, cwd, job), TypeError("'NoneType' object is not iterable"))
  {
  }

  /** The script's control flow as it runs: each phase in turn, leaving at the first exception. */
  method RunScript(fs: Fs, cwd: string, job: DelphesJob,
                   body: (Fs, (string, string)) -> Step, back: (Fs, (string, string)) -> Step) returns (o: Outcome)
    ensures o == Script(fs, cwd, job, body, back)
  {
    o := Sandbox(fs, cwd, true);
    if o.failure.Some? {
      return;
    }
    var staged := StageIn(fs, Listed(job.copyToLocal));
    ghost var sandbox, setup := o, Done(staged + SetupDelphes());
    o := Then(o, Done(staged + SetupDelphes()));
    if job.process.None? {
      ThenAssoc(sandbox, setup, Fail([], TypeError("'NoneType' object is not iterable")));
      o := Then(o, Fail([], TypeError("'NoneType' object is not iterable")));
      return;
    }
    var processed := EachLoop(body, fs, job.process.value);
    if processed.outcome.failure.Some? {
      ThenAssoc(sandbox, setup, processed.outcome);
      o := Then(o, processed.outcome);
      return;
    }
    var copied := EachLoop(back, processed.fs, Listed(job.copyFromLocal));
    ThenAssoc(sandbox, setup, Then(processed.outcome, copied.outcome));
    o := Then(o, Then(processed.outcome, copied.outcome));
  }

  /** `runDelphes()` as it runs. */
  method RunDelphesWorker(fs: Fs, cwd: string, job: DelphesJob, run: Effect) returns (o: Outcome)
    ensures o == RunDelphes(fs, cwd, job, run)
  {
    o := RunScript(fs, cwd, job, ProcessStep(job, run), CopyBackStep());
  }
}
