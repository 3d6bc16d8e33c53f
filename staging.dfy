/**
 * What the worker-node scripts do, written down as values. Each step a script takes
 * (a copy, a command, a directory made, a file removed) is an `Action`; a run of a
 * script is the list of actions it issues up to its first exception, together with
 * that exception (`Outcome`).
 *
 * The file system is the abstract `Fs` map: `os.path.isfile` / `os.path.isdir` are
 * membership tests on it, answered for the path strings exactly as the script passes them.
 */
module Staging {
  import opened Wrappers
  import opened Text
  import opened Paths
  import opened Lists
  import opened FileSystem

  datatype Action =
    | HadoopGet(src: string, dest: string)   // hadoop fs -copyToLocal src dest
    | HadoopPut(src: string, dest: string)   // hadoop fs -copyFromLocal -f src dest
    | CopyFile(src: string, dest: string)    // shutil.copy2
    | CopyTree(src: string, dest: string)    // shutil.copytree
    | Skip                                   // a local source that is neither: nothing happens
    | MakeDir(path: string)                  // os.mkdir
    | MakeDirs(path: string)                 // os.makedirs
    | SetEnv(name: string, value: string)    // os.environ[name] = value
    | ChangeDir(path: string)                // os.chdir
    | Chmod(path: string, mode: nat)         // os.chmod
    | Call(cmd: seq<string>)                 // subprocess.call
    | Extract(archive: string)               // tarfile.open(archive).extractall()
    // run_mg5.run_mg5(args), called in-process; `cmd` is its subprocess call of MG5_aMC,
    // [os.path.abspath(exe), new card], which it makes only without --dry
    | RunMg5(args: seq<string>, cmd: seq<string>)
    | Rename(src: string, dest: string)      // os.rename
    | Remove(path: string)                   // os.remove

  /** The command line a hadoop copy runs. */
  function HadoopCall(a: Action): (cmd: seq<string>)
    requires a.HadoopGet? || a.HadoopPut?
    ensures |cmd| >= 5 && cmd[..2] == ["hadoop", "fs"] && cmd[|cmd| - 2..] == [a.src, a.dest]
    // only the copy out of the node overwrites an existing destination
    ensures a.HadoopPut? <==> |cmd| == 6 && cmd[3] == "-f"
  {
    if a.HadoopGet? then ["hadoop", "fs", "-copyToLocal", a.src, a.dest]
    else ["hadoop", "fs", "-copyFromLocal", "-f", a.src, a.dest]
  }

  // ---------------------------------------------------------------------------
  // The "/hdfs" dispatch
  // ---------------------------------------------------------------------------

  /** A path under the `/hdfs` mount, as handed to `hadoop fs`: every "/hdfs" is removed. */
  function HdfsPath(p: string): string { ReplaceAll(p, "/hdfs", "") }

  /** A mount path `/hdfs<rest>` whose remainder never repeats "/hdfs" becomes `<rest>`. */
  lemma {:induction false} HdfsPathOfMounted(rest: string)
    requires !Contains(rest, "/hdfs")
    ensures HdfsPath("/hdfs" + rest) == rest
  {
    RemoveLeading("/hdfs", rest);
  }

  /** Every occurrence goes, not only the mount prefix: a directory named `hdfs...` is cut too. */
  lemma {:induction false} HdfsPathCutsInside()
    ensures HdfsPath("/hdfs/u/hdfsx") == "/ux"
  {
    var s, p := "/hdfs/u/hdfsx", "/hdfs";
    assert s[0..5] == p && s[7..12] == p;
    assert ReplaceFrom(s, p, "", 12) == [s[12]] + ReplaceFrom(s, p, "", 13) == "x";
    assert ReplaceFrom(s, p, "", 7) == "" + ReplaceFrom(s, p, "", 12);
    assert s[6..11] != p && ReplaceFrom(s, p, "", 6) == [s[6]] + ReplaceFrom(s, p, "", 7);
    assert s[5..10] != p && ReplaceFrom(s, p, "", 5) == [s[5]] + ReplaceFrom(s, p, "", 6);
    assert ReplaceFrom(s, p, "", 0) == "" + ReplaceFrom(s, p, "", 5);
  }

  /** `copy_to_local(source, dest)`, the body of every copy-in loop. */
  function CopyIn(fs: Fs, source: string, dest: string): (a: Action)
    ensures a.HadoopGet? <==> StartsWith(source, "/hdfs")
    ensures a.HadoopGet? ==> a == HadoopGet(HdfsPath(source), dest)
    ensures a.CopyFile? <==> !StartsWith(source, "/hdfs") && IsFile(fs, source)
    ensures a.CopyTree? <==> !StartsWith(source, "/hdfs") && IsDir(fs, source)
    ensures a.Skip? <==> !StartsWith(source, "/hdfs") && source !in fs
    ensures a.CopyFile? || a.CopyTree? ==> a.src == source && a.dest == dest
    ensures a.HadoopGet? || a.CopyFile? || a.CopyTree? || a.Skip?
  {
    if StartsWith(source, "/hdfs") then HadoopGet(HdfsPath(source), dest)
    else if IsFile(fs, source) then CopyFile(source, dest)
    else if IsDir(fs, source) then CopyTree(source, dest)
    else Skip
  }

  /**
   * The body of every copy-out loop (and of the Delphes `copy_from_local` once the parent
   * exists): the destination decides between hadoop and a local copy, the source between
   * a file and a tree.
   */
  function CopyOut(fs: Fs, source: string, dest: string): (a: Action)
    ensures a.HadoopPut? <==> StartsWith(dest, "/hdfs")
    ensures a.HadoopPut? ==> a == HadoopPut(source, HdfsPath(dest))
    ensures a.CopyFile? <==> !StartsWith(dest, "/hdfs") && IsFile(fs, source)
    ensures a.CopyTree? <==> !StartsWith(dest, "/hdfs") && IsDir(fs, source)
    ensures a.Skip? <==> !StartsWith(dest, "/hdfs") && source !in fs
    ensures a.CopyFile? || a.CopyTree? ==> a.src == source && a.dest == dest
    ensures a.HadoopPut? || a.CopyFile? || a.CopyTree? || a.Skip?
  {
    if StartsWith(dest, "/hdfs") then HadoopPut(source, HdfsPath(dest))
    else if IsFile(fs, source) then CopyFile(source, dest)
    else if IsDir(fs, source) then CopyTree(source, dest)
    else Skip
  }

  /** Copying in and copying out agree on a local path pair: only the hadoop side differs. */
  lemma {:induction false} CopyInOutLocal(fs: Fs, source: string, dest: string)
    requires !StartsWith(source, "/hdfs") && !StartsWith(dest, "/hdfs")
    ensures CopyIn(fs, source, dest) == CopyOut(fs, source, dest)
  {
  }

  /** The actions of a copy-in loop over `pairs`: one dispatch per entry, in order. */
  function CopyIns(fs: Fs, pairs: seq<(string, string)>): (r: seq<Action>)
  {
    seq(|pairs|, i requires 0 <= i < |pairs| => CopyIn(fs, pairs[i].0, pairs[i].1))
  }

  /** The actions of a copy-out loop over `pairs`. */
  function CopyOuts(fs: Fs, pairs: seq<(string, string)>): (r: seq<Action>)
  {
    seq(|pairs|, i requires 0 <= i < |pairs| => CopyOut(fs, pairs[i].0, pairs[i].1))
  }

  /** `for (source, dest) in pairs:` with the copy-in dispatch as its body. */
  method StageIn(fs: Fs, pairs: seq<(string, string)>) returns (actions: seq<Action>)
    ensures |actions| == |pairs|
    ensures forall i :: 0 <= i < |pairs| ==> actions[i] == CopyIn(fs, pairs[i].0, pairs[i].1)
    ensures actions == CopyIns(fs, pairs)
  {
    actions := [];
    for k := 0 to |pairs|
      invariant |actions| == k
      invariant forall i :: 0 <= i < k ==> actions[i] == CopyIn(fs, pairs[i].0, pairs[i].1)
    {
      var (source, dest) := pairs[k];
      actions := actions + [CopyIn(fs, source, dest)];
    }
  }

  /** `for (source, dest) in pairs:` with the copy-out dispatch as its body. */
  method StageOut(fs: Fs, pairs: seq<(string, string)>) returns (actions: seq<Action>)
    ensures |actions| == |pairs|
    ensures forall i :: 0 <= i < |pairs| ==> actions[i] == CopyOut(fs, pairs[i].0, pairs[i].1)
    ensures actions == CopyOuts(fs, pairs)
  {
    actions := [];
    for k := 0 to |pairs|
      invariant |actions| == k
      invariant forall i :: 0 <= i < k ==> actions[i] == CopyOut(fs, pairs[i].0, pairs[i].1)
    {
      var (source, dest) := pairs[k];
      actions := actions + [CopyOut(fs, source, dest)];
    }
  }

  /** A list given with `nargs=2, action='append'` that is only looped over when truthy. */
  function Listed<T>(o: Option<seq<T>>): seq<T>
  {
    if o.Some? then o.value else []
  }

  // ---------------------------------------------------------------------------
  // Runs: the actions up to the first exception
  // ---------------------------------------------------------------------------

  datatype Outcome = Outcome(actions: seq<Action>, failure: Option<Error>)

  function Done(actions: seq<Action>): Outcome { Outcome(actions, None) }

  function Fail(actions: seq<Action>, e: Error): Outcome { Outcome(actions, Some(e)) }

  /** Running `o`, then `next` when `o` raised nothing. */
  function Then(o: Outcome, next: Outcome): (r: Outcome)
    ensures o.failure.Some? ==> r == o
    ensures o.failure.None? ==> r == Outcome(o.actions + next.actions, next.failure)
  {
    if o.failure.Some? then o else Outcome(o.actions + next.actions, next.failure)
  }

  lemma {:induction false} ThenAssoc(a: Outcome, b: Outcome, c: Outcome)
    ensures Then(Then(a, b), c) == Then(a, Then(b, c))
  {
    if a.failure.None? && b.failure.None? {
      assert a.actions + b.actions + c.actions == a.actions + (b.actions + c.actions);
    }
  }

  /** Two phases that both finish issue their actions one after the other. */
  lemma {:induction false} ThenDone(a: seq<Action>, b: seq<Action>)
    ensures Then(Done(a), Done(b)) == Done(a + b)
  {
  }

  /** A phase that raises before doing anything, after one that finished. */
  lemma {:induction false} ThenFailAtOnce(a: seq<Action>, e: Error)
    ensures Then(Done(a), Fail([], e)) == Fail(a, e)
  {
    assert a + [] == a;
  }

  /** Four phases that all finish issue their actions one after the other. */
  lemma {:induction false} ThenAllDone(a: Outcome, b: Outcome, c: Outcome, d: Outcome)
    requires a.failure.None? && b.failure.None? && c.failure.None? && d.failure.None?
    ensures Then(a, Then(b, Then(c, d))) == Done(a.actions + b.actions + c.actions + d.actions)
  {
    assert a.actions + (b.actions + (c.actions + d.actions)) == a.actions + b.actions + c.actions + d.actions;
  }

  /** What one loop body leaves: its run, and the file system the next body sees. */
  datatype Step = Step(outcome: Outcome, fs: Fs)

  /**
   * A loop whose body is `f`, over `xs`, started on the file system `fs`: each body sees
   * the file system the bodies before it left, and the first exception stops the loop.
   */
  function Each<A>(f: (Fs, A) -> Step, fs: Fs, xs: seq<A>): Step
    decreases |xs|
  {
    if xs == [] then Step(Done([]), fs)
    else
      var pre := Each(f, fs, xs[..|xs| - 1]);
      if pre.outcome.failure.Some? then pre
      else
        var last := f(pre.fs, xs[|xs| - 1]);
        Step(Then(pre.outcome, last.outcome), last.fs)
  }

  /** Every body, run on the file system the bodies before it left, finishes. */
  predicate AllOk<A>(f: (Fs, A) -> Step, fs: Fs, xs: seq<A>)
  {
    forall k :: 0 <= k < |xs| ==> f(Each(f, fs, xs[..k]).fs, xs[k]).outcome.failure.None?
  }

  /** One more item runs one more body, on the file system the loop so far left. */
  lemma {:induction false} EachSnoc<A>(f: (Fs, A) -> Step, fs: Fs, xs: seq<A>, k: int)
    requires 0 <= k < |xs|
    ensures var pre := Each(f, fs, xs[..k]);
      Each(f, fs, xs[..k + 1]) ==
        if pre.outcome.failure.Some? then pre
        else Step(Then(pre.outcome, f(pre.fs, xs[k]).outcome), f(pre.fs, xs[k]).fs)
  {
    assert xs[..k + 1][..k] == xs[..k];
  }

  /** Once the loop has raised, more items change nothing. */
  lemma {:induction false} EachFailExtends<A>(f: (Fs, A) -> Step, fs: Fs, a: seq<A>, b: seq<A>)
    requires Each(f, fs, a).outcome.failure.Some?
    ensures Each(f, fs, a + b) == Each(f, fs, a)
    decreases |b|
  {
    if b != [] {
      var front := b[..|b| - 1];
      assert (a + b)[..|a + b| - 1] == a + front;
      EachFailExtends(f, fs, a, front);
    } else {
      assert a + b == a;
    }
  }

  /** The bodies of a prefix see what they see in the whole loop. */
  lemma {:induction false} AllOkPrefix<A>(f: (Fs, A) -> Step, fs: Fs, xs: seq<A>, n: int)
    requires 0 <= n <= |xs| && AllOk(f, fs, xs)
    ensures AllOk(f, fs, xs[..n])
  {
    forall k | 0 <= k < n ensures f(Each(f, fs, xs[..n][..k]).fs, xs[..n][k]).outcome.failure.None? {
      assert xs[..n][..k] == xs[..k];
    }
  }

  /** The loop raises exactly when some body raises on the file system it is given. */
  lemma {:induction false} EachFails<A>(f: (Fs, A) -> Step, fs: Fs, xs: seq<A>)
    ensures Each(f, fs, xs).outcome.failure.Some? <==> !AllOk(f, fs, xs)
    decreases |xs|
  {
    if xs != [] {
      var n := |xs| - 1;
      EachFails(f, fs, xs[..n]);
      EachSnoc(f, fs, xs, n);
      assert xs[..n + 1] == xs;
      AllOkSplit(f, fs, xs);
    }
  }

  /** All bodies finish exactly when those of the prefix do and then the last one does. */
  lemma {:induction false} AllOkSplit<A>(f: (Fs, A) -> Step, fs: Fs, xs: seq<A>)
    requires xs != []
    ensures var n := |xs| - 1;
      AllOk(f, fs, xs) <==>
        AllOk(f, fs, xs[..n]) && f(Each(f, fs, xs[..n]).fs, xs[n]).outcome.failure.None?
  {
    var n := |xs| - 1;
    if AllOk(f, fs, xs) {
      AllOkPrefix(f, fs, xs, n);
    } else if AllOk(f, fs, xs[..n]) && f(Each(f, fs, xs[..n]).fs, xs[n]).outcome.failure.None? {
      AllOkExtend(f, fs, xs);
    }
  }

  /** A prefix whose bodies finish, and a last body that finishes, make a loop whose bodies finish. */
  lemma {:induction false} AllOkExtend<A>(f: (Fs, A) -> Step, fs: Fs, xs: seq<A>)
    requires xs != []
    requires AllOk(f, fs, xs[..|xs| - 1]) && f(Each(f, fs, xs[..|xs| - 1]).fs, xs[|xs| - 1]).outcome.failure.None?
    ensures AllOk(f, fs, xs)
  {
    var n := |xs| - 1;
    var front := xs[..n];
    forall k | 0 <= k < |xs| ensures f(Each(f, fs, xs[..k]).fs, xs[k]).outcome.failure.None? {
      if k < n {
        assert front[..k] == xs[..k] && front[k] == xs[k];
      }
    }
  }

  /**
   * Without an exception, the loop issues every body's actions in order: the actions up
   * to item `k + 1` are those up to item `k` followed by body `k`'s, and body `k` runs on
   * the file system the first `k` bodies left.
   */
  lemma {:induction false} EachOk<A>(f: (Fs, A) -> Step, fs: Fs, xs: seq<A>, k: int)
    requires AllOk(f, fs, xs) && 0 <= k < |xs|
    ensures var pre := Each(f, fs, xs[..k]);
      pre.outcome.failure.None? &&
      Each(f, fs, xs[..k + 1]) == Step(Done(pre.outcome.actions + f(pre.fs, xs[k]).outcome.actions), f(pre.fs, xs[k]).fs)
  {
    AllOkPrefix(f, fs, xs, k);
    EachFails(f, fs, xs[..k]);
    EachSnoc(f, fs, xs, k);
  }

  /** The first body that raises ends the loop, with what came before and its own actions. */
  lemma {:induction false} EachStops<A>(f: (Fs, A) -> Step, fs: Fs, xs: seq<A>, k: int)
    requires 0 <= k < |xs| && AllOk(f, fs, xs[..k])
    requires f(Each(f, fs, xs[..k]).fs, xs[k]).outcome.failure.Some?
    ensures var pre := Each(f, fs, xs[..k]);
      var body := f(pre.fs, xs[k]);
      Each(f, fs, xs) == Step(Fail(pre.outcome.actions + body.outcome.actions, body.outcome.failure.value), body.fs)
  {
    EachFails(f, fs, xs[..k]);
    EachSnoc(f, fs, xs, k);
    EachFailExtends(f, fs, xs[..k + 1], xs[k + 1..]);
    assert xs[..k + 1] + xs[k + 1..] == xs;
  }

  /** A loop over two items that finishes runs both bodies, the second on what the first left. */
  lemma {:induction false} EachTwo<A>(f: (Fs, A) -> Step, fs: Fs, x: A, y: A)
    requires Each(f, fs, [x, y]).outcome.failure.None?
    ensures var first := f(fs, x);
      var second := f(first.fs, y);
      first.outcome.failure.None? && second.outcome.failure.None? &&
      Each(f, fs, [x, y]) == Step(Done(first.outcome.actions + second.outcome.actions), second.fs)
  {
    var first := f(fs, x);
    assert [x, y][..1] == [x] && [x][..0] == [];
    assert Each(f, fs, []) == Step(Done([]), fs);
    assert [] + first.outcome.actions == first.outcome.actions;
    assert Each(f, fs, [x]) == Step(Then(Done([]), first.outcome), first.fs);
  }

  /** The loop itself: run each body on the current file system, leaving at the first exception. */
  method EachLoop<A>(f: (Fs, A) -> Step, fs: Fs, xs: seq<A>) returns (r: Step)
    ensures r == Each(f, fs, xs)
  {
    var o := Done([]);
    var now := fs;
    var k := 0;
    while k < |xs|
      invariant 0 <= k <= |xs|
      invariant Step(o, now) == Each(f, fs, xs[..k]) && o.failure.None?
    {
      EachSnoc(f, fs, xs, k);
      var body := f(now, xs[k]);
      o := Outcome(o.actions + body.outcome.actions, body.outcome.failure);
      now := body.fs;
      if o.failure.Some? {
        EachFailExtends(f, fs, xs[..k + 1], xs[k + 1..]);
        assert xs[..k + 1] + xs[k + 1..] == xs;
        return Step(o, now);
      }
      k := k + 1;
    }
    assert xs[..k] == xs;
    r := Step(o, now);
  }

  // ---------------------------------------------------------------------------
  // The sandbox every worker script starts with
  // ---------------------------------------------------------------------------

  /**
   * `os.mkdir('scratch')`, optionally `os.environ['SCRATCH'] = os.path.abspath('scratch')`,
   * then `os.chdir('scratch')`, run from the absolute directory `cwd`.
   */
  function Sandbox(fs: Fs, cwd: string, setEnv: bool): (r: Outcome)
    ensures r.failure.Some? <==> "scratch" in fs
    ensures r.failure.Some? ==> r == Fail([], OSError("scratch"))
    ensures r.failure.None? ==>
      |r.actions| >= 2 && r.actions[0] == MakeDir("scratch") && r.actions[|r.actions| - 1] == ChangeDir("scratch") &&
      (SetEnv("SCRATCH", PathJoin(cwd, "scratch")) in r.actions <==> setEnv)
  {
    if "scratch" in fs then Fail([], OSError("scratch"))
    else if setEnv then Done([MakeDir("scratch"), SetEnv("SCRATCH", PathJoin(cwd, "scratch")), ChangeDir("scratch")])
    else Done([MakeDir("scratch"), ChangeDir("scratch")])
  }

  /** Without `$SCRATCH` the new sandbox is made and entered, nothing else. */
  lemma {:induction false} SandboxPlain(fs: Fs)
    requires "scratch" !in fs
    ensures Sandbox(fs, "", false) == Done([MakeDir("scratch"), ChangeDir("scratch")])
  {
  }

  /** With `$SCRATCH` the new sandbox is made, exported and entered. */
  lemma {:induction false} SandboxWithEnv(fs: Fs, cwd: string)
    requires "scratch" !in fs
    ensures Sandbox(fs, cwd, true) == Done([MakeDir("scratch"), SetEnv("SCRATCH", PathJoin(cwd, "scratch")), ChangeDir("scratch")])
  {
  }

  /** A phase that finishes after the plain sandbox: its actions follow the two sandbox steps. */
  lemma {:induction false} AfterSandbox(fs: Fs, body: seq<Action>)
    requires "scratch" !in fs
    ensures Then(Sandbox(fs, "", false), Done(body)) == Done([MakeDir("scratch"), ChangeDir("scratch")] + body)
  {
    SandboxPlain(fs);
  }
}
