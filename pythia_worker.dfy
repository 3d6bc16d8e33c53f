/**
 * The Pythia worker script: make a sandbox, copy the inputs in, make the executable
 * runnable, run it with the forwarded arguments, look up the `--hepmc` and `--lhe` names,
 * and copy the outputs out. Both copy lists are looped over without a guard.
 */
module PythiaWorker {
  import opened Wrappers
  import opened Lists
  import opened FileSystem
  import opened ArgOptions
  import opened Staging
  import Text

  /** The parsed options: `--exe` defaults to "mc.exe"; `--args` takes the rest of the line. */
  datatype McJob = McJob(copyToLocal: Option<seq<(string, string)>>, copyFromLocal: Option<seq<(string, string)>>,
                         exe: string, args: Option<seq<string>>)

  const NotIterable := TypeError("'NoneType' object is not iterable")

  /** `["./" + args.exe] + args.args`; adding None to a list raises TypeError. */
  function Command(exe: string, args: Option<seq<string>>): (r: Result<seq<string>>)
    ensures r.Err? <==> args.None?
    ensures r.Ok? ==> |r.value| == |args.value| + 1 && r.value[0] == "./" + exe && r.value[1..] == args.value
  {
    if args.None? then Err(TypeError("can only concatenate list (not \"NoneType\") to list"))
    else Ok(["./" + exe] + args.value)
  }

  /**
   * The program is handed the arguments unchanged: reading any option other than the
   * program's own name from its whole command line gives what the script reads from `args.args`.
   */
  lemma {:induction false} CommandForwardsOptions(exe: string, args: seq<string>, flag: string)
    requires flag != "./" + exe
    ensures GetOption(Command(exe, Some(args)).value, flag) == GetOption(args, flag)
  {
    var head := ["./" + exe];
    var cmd := head + args;
    assert Command(exe, Some(args)).value == cmd;
    assert flag in cmd <==> flag in args;
    if flag in args {
      IndexOfSuffix(head, args, flag);
      assert ValuePos(cmd, flag) == ValuePos(args, flag) + 1;
      assert cmd[|cmd| - 1] == args[|args| - 1];
      if ValuePos(args, flag) < |args| {
        assert cmd[ValuePos(cmd, flag)] == args[ValuePos(args, flag)];
      }
    }
  }

  /**
   * `get_option_in_args(args.args, '--hepmc')` then `get_option_in_args(args.args, '--lhe')`,
   * after the run: a missing flag raises KeyError for the first one missing.
   */
  function OutputFlags(args: seq<string>): (r: Result<()>)
    ensures r.Err? <==> "--hepmc" !in args || "--lhe" !in args
    ensures r.Err? ==> r.error == KeyError(if "--hepmc" !in args then "--hepmc" else "--lhe")
  {
    var _ :- GetOption(args, "--hepmc");
    var _ :- GetOption(args, "--lhe");
    Ok(())
  }

  /**
   * What follows the run: the two lookups, then the unguarded copy-out loop, whose
   * `isfile`/`isdir` tests see `after`, the file system the program left.
   */
  function AfterRun(after: Fs, job: McJob, args: seq<string>): (r: Outcome)
    ensures r.failure.None? <==> "--hepmc" in args && "--lhe" in args && job.copyFromLocal.Some?
    ensures r.failure.None? ==> r.actions == CopyOuts(after, job.copyFromLocal.value)
  {
    match OutputFlags(args)
    case Err(e) => Fail([], e)
    case Ok(_) =>
      if job.copyFromLocal.None? then Fail([], NotIterable) else Done(CopyOuts(after, job.copyFromLocal.value))
  }

  /** From the copy-in loop on; the chmod sets mode 0555. */
  function Body(fs: Fs, after: Fs, job: McJob): Outcome
  {
    if job.copyToLocal.None? then Fail([], NotIterable)
    else
      Then(Done(CopyIns(fs, job.copyToLocal.value) + [Chmod(job.exe, 365)]),
           match Command(job.exe, job.args)
           case Err(e) => Fail([], e)
           case Ok(cmd) => Then(Done([Call(cmd)]), AfterRun(after, job, job.args.value)))
  }

  /**
   * `main()` started on the file system `fs`; `after` is the file system the program's
   * run leaves, which the model does not compute.
   */
  function RunMcJob(fs: Fs, after: Fs, job: McJob): Outcome
  {
    Then(Sandbox(fs, "", false), Body(fs, after, job))
  }

  /** The script finishes exactly when the sandbox is new, every list was given and both output flags are there. */
  lemma {:induction false} McJobSucceeds(fs: Fs, after: Fs, job: McJob)
    ensures RunMcJob(fs, after, job).failure.None? <==>
      "scratch" !in fs && job.copyToLocal.Some? && job.args.Some? &&
      "--hepmc" in job.args.value && "--lhe" in job.args.value && job.copyFromLocal.Some?
  {
  }

  /** A run that finishes: sandbox, copy-ins, chmod, the program, then the copy-outs. */
  lemma {:induction false} McJobOrder(fs: Fs, after: Fs, job: McJob)
    requires RunMcJob(fs, after, job).failure.None?
    ensures "scratch" !in fs && job.copyToLocal.Some? && job.args.Some? && job.copyFromLocal.Some?
    ensures RunMcJob(fs, after, job).actions ==
      [MakeDir("scratch"), ChangeDir("scratch")] + CopyIns(fs, job.copyToLocal.value) +
      [Chmod(job.exe, 365), Call(["./" + job.exe] + job.args.value)] + CopyOuts(after, job.copyFromLocal.value)
  {
    McJobSucceeds(fs, after, job);
    BodyActions(fs, after, job);
    var sb := [MakeDir("scratch"), ChangeDir("scratch")];
    var ins := CopyIns(fs, job.copyToLocal.value);
    var mid := [Chmod(job.exe, 365), Call(["./" + job.exe] + job.args.value)];
    var outs := CopyOuts(after, job.copyFromLocal.value);
    AfterSandbox(fs, ins + mid + outs);
    Text.ConcatAssoc(sb, ins + mid, outs);
    Text.ConcatAssoc(sb, ins, mid);
  }

  /** The body of a run that finishes: copy-ins, chmod, the program, the copy-outs. */
  lemma {:induction false} BodyActions(fs: Fs, after: Fs, job: McJob)
    requires job.copyToLocal.Some? && job.args.Some? && job.copyFromLocal.Some?
    requires OutputFlags(job.args.value).Ok?
    ensures Body(fs, after, job) == Done(CopyIns(fs, job.copyToLocal.value) + [Chmod(job.exe, 365), Call(["./" + job.exe] + job.args.value)] +
                                         CopyOuts(after, job.copyFromLocal.value))
  {
    var cmd := ["./" + job.exe] + job.args.value;
    var pre := CopyIns(fs, job.copyToLocal.value) + [Chmod(job.exe, 365)];
    var outs := CopyOuts(after, job.copyFromLocal.value);
    assert Command(job.exe, job.args) == Ok(cmd);
    assert AfterRun(after, job, job.args.value) == Done(outs);
    ThenDone([Call(cmd)], outs);
    ThenDone(pre, [Call(cmd)] + outs);
    Text.ConcatAssoc(pre, [Call(cmd)], outs);
    Text.ConcatAssoc(CopyIns(fs, job.copyToLocal.value), [Chmod(job.exe, 365)], [Call(cmd)]);
    assert [Chmod(job.exe, 365)] + [Call(cmd)] == [Chmod(job.exe, 365), Call(cmd)];
  }

  /**
   * A missing `--hepmc` or `--lhe` raises KeyError right after the program has run: the
   * program's call is the last action and nothing is copied out.
   */
  lemma {:induction false} MissingOutputFlag(fs: Fs, after: Fs, job: McJob)
    requires "scratch" !in fs && job.copyToLocal.Some? && job.args.Some?
    requires "--hepmc" !in job.args.value || "--lhe" !in job.args.value
    ensures var r := RunMcJob(fs, after, job);
      r.failure.Some? && r.failure.value.KeyError? &&
      |r.actions| > 0 && r.actions[|r.actions| - 1] == Call(["./" + job.exe] + job.args.value)
  {
  }

  /** Without any `--copyToLocal` the loop over None raises before the program runs. */
  lemma {:induction false} NoCopyInList(fs: Fs, after: Fs, job: McJob)
    requires "scratch" !in fs && job.copyToLocal.None?
    ensures RunMcJob(fs, after, job) == Fail([MakeDir("scratch"), ChangeDir("scratch")], NotIterable)
  {
    SandboxPlain(fs);
    ThenFailAtOnce([MakeDir("scratch"), ChangeDir("scratch")], NotIterable);
  }

  /**
   * A file the program wrote is copied out: an entry of `--copyFromLocal` whose source
   * `after` holds as a file and whose destination lies outside `/hdfs` is copied with `copy2`.
   */
  lemma {:induction false} WrittenOutputCopied(fs: Fs, after: Fs, job: McJob, k: int)
    requires RunMcJob(fs, after, job).failure.None? && job.copyFromLocal.Some?
    requires 0 <= k < |job.copyFromLocal.value|
    requires IsFile(after, job.copyFromLocal.value[k].0) && !Text.StartsWith(job.copyFromLocal.value[k].1, "/hdfs")
    ensures CopyFile(job.copyFromLocal.value[k].0, job.copyFromLocal.value[k].1) in RunMcJob(fs, after, job).actions
  {
    McJobOrder(fs, after, job);
    var outs := CopyOuts(after, job.copyFromLocal.value);
    assert outs[k] == CopyFile(job.copyFromLocal.value[k].0, job.copyFromLocal.value[k].1);
    var pre := [MakeDir("scratch"), ChangeDir("scratch")] + CopyIns(fs, job.copyToLocal.value) +
      [Chmod(job.exe, 365), Call(["./" + job.exe] + job.args.value)];
    Text.InTail(RunMcJob(fs, after, job).actions, pre, outs, k);
  }

  /** `main()` as it runs: the two copy loops, with the program's run between them. */
  method McJobMain(fs: Fs, after: Fs, job: McJob) returns (o: Outcome)
    ensures o == RunMcJob(fs, after, job)
  {
    o := Sandbox(fs, "", false);
    if o.failure.Some? {
      return;
    }
    if job.copyToLocal.None? {
      o := Then(o, Fail([], NotIterable));
      return;
    }
    var ins := StageIn(fs, job.copyToLocal.value);
    var body := Done(ins + [Chmod(job.exe, 365)]);
    var cmd := Command(job.exe, job.args);
    if cmd.Err? {
      o := Then(o, Then(body, Fail([], cmd.error)));
      return;
    }
    var flags := OutputFlags(job.args.value);
    var rest: Outcome;
    if flags.Err? {
      rest := Fail([], flags.error);
    } else if job.copyFromLocal.None? {
      rest := Fail([], NotIterable);
    } else {
      var outs := StageOut(after, job.copyFromLocal.value);
      rest := Done(outs);
    }
    o := Then(o, Then(body, Then(Done([Call(cmd.value)]), rest)));
  }
}
