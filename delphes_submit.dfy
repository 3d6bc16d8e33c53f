/**
 * The Delphes submitter `submit_delphes_jobs_htcondor.py`: the acceptable files of the input
 * directory are taken two at a time, and each pair becomes one DAG node `<ind>_<card file>`
 * whose worker runs Delphes on both files, writing `<oDir>/<stem>.root` for each.
 */
module DelphesSubmit {
  import opened Wrappers
  import opened Text
  import opened Paths
  import opened Lists
  import opened JobSpace
  import opened Dag
  import opened FileSystem

  // ---------------------------------------------------------------------------
  // grouper
  // ---------------------------------------------------------------------------

  /** Every item, wrapped. */
  function Somes<T>(xs: seq<T>): (r: seq<Option<T>>)
    ensures |r| == |xs| && forall i :: 0 <= i < |xs| ==> r[i] == Some(xs[i])
  {
    seq(|xs|, i requires 0 <= i < |xs| => Some(xs[i]))
  }

  /** `k` fill values. */
  function Pad<T>(k: nat): (r: seq<Option<T>>)
    ensures |r| == k && forall i :: 0 <= i < k ==> r[i] == None
  {
    seq(k, i => None)
  }

  /**
   * `grouper(xs, n)`, i.e. `izip_longest(*[iter(xs)] * n)` with fill value None: consecutive
   * groups of `n`, the last one padded. With `n == 0` there is nothing to zip and no group.
   */
  function Grouper<T>(xs: seq<T>, n: nat): (gs: seq<seq<Option<T>>>)
    ensures n == 0 || xs == [] <==> gs == []
    ensures forall i :: 0 <= i < |gs| ==> |gs[i]| == n
    decreases |xs|
  {
    if n == 0 || xs == [] then []
    else if |xs| < n then [Somes(xs) + Pad(n - |xs|)]
    else [Somes(xs[..n])] + Grouper(xs[n..], n)
  }

  /**
   * The group-count arithmetic of `grouper`: one more group of `n` holds `n` more entries
   * (used by the length, position and flattening lemmas below).
   */
  lemma {:induction false} MulSucc(g: int, n: int)
    ensures (g + 1) * n == g * n + n
  {
  }

  /** More groups of `n` hold at least as many entries: why only the last group can be short. */
  lemma {:induction false} MulMono(a: int, b: int, n: nat)
    requires a <= b
    ensures a * n <= b * n
  {
    assert b * n - a * n == (b - a) * n;
  }

  /** There are `ceil(|xs| / n)` groups: just enough to hold the items. */
  lemma {:induction false} GrouperLength<T>(xs: seq<T>, n: nat)
    requires n > 0
    ensures |xs| <= |Grouper(xs, n)| * n < |xs| + n
    decreases |xs|
  {
    if |xs| >= n {
      var rest := Grouper(xs[n..], n);
      GrouperLength(xs[n..], n);
      assert |Grouper(xs, n)| == |rest| + 1;
      MulSucc(|rest|, n);
    }
  }

  /** Entry `j` of group `i` is item `i * n + j`, or padding beyond the end of the items. */
  lemma {:induction false} GrouperAt<T>(xs: seq<T>, n: nat, i: int, j: int)
    requires 0 <= i < |Grouper(xs, n)| && 0 <= j < n
    ensures Grouper(xs, n)[i][j] == if i * n + j < |xs| then Some(xs[i * n + j]) else None
    decreases |xs|
  {
    if |xs| >= n && i > 0 {
      var rest := Grouper(xs[n..], n);
      assert Grouper(xs, n) == [Somes(xs[..n])] + rest;
      GrouperAt(xs[n..], n, i - 1, j);
      MulSucc(i - 1, n);
    }
  }

  /**
   * Wrapping distributes over concatenation: the first group's items and the rest's are the
   * items `izip_longest` walks in order. Kept apart so `GrouperFlatten` stays small.
   */
  lemma {:induction false} SomesConcat<T>(a: seq<T>, b: seq<T>)
    ensures Somes(a + b) == Somes(a) + Somes(b)
  {
  }

  /** Concatenated, the groups are the items followed by fewer than `n` fill values. */
  lemma {:induction false} GrouperFlatten<T>(xs: seq<T>, n: nat)
    requires n > 0
    ensures 0 <= |Grouper(xs, n)| * n - |xs| < n
    ensures Flatten(Grouper(xs, n)) == Somes(xs) + Pad(|Grouper(xs, n)| * n - |xs|)
    decreases |xs|
  {
    GrouperLength(xs, n);
    var gs := Grouper(xs, n);
    if xs == [] {
      assert Somes(xs) + Pad(0) == [];
    } else if |xs| < n {
      assert gs[..0] == [];
      assert Flatten(gs) == [] + gs[0];
    } else {
      var head := Somes(xs[..n]);
      var rest := Grouper(xs[n..], n);
      assert gs == [head] + rest;
      FlattenConcat([head], rest);
      assert [head][..0] == [];
      assert Flatten([head]) == [] + head;
      GrouperFlatten(xs[n..], n);
      MulSucc(|rest|, n);
      assert xs[..n] + xs[n..] == xs;
      SomesConcat(xs[..n], xs[n..]);
    }
  }

  /** Only the last group can hold padding. */
  lemma {:induction false} GrouperFullBeforeLast<T>(xs: seq<T>, n: nat, i: int, j: int)
    requires 0 <= i < |Grouper(xs, n)| - 1 && 0 <= j < n
    ensures i * n + j < |xs| && Grouper(xs, n)[i][j] == Some(xs[i * n + j])
  {
    var g := |Grouper(xs, n)|;
    GrouperLength(xs, n);
    MulSucc(i, n);
    MulSucc(g - 1, n);
    MulMono(i + 1, g - 1, n);
    GrouperAt(xs, n, i, j);
  }

  /** In pairs: an even number of items leaves no padding, an odd number pads the last pair. */
  lemma {:induction false} PairsPadding<T>(xs: seq<T>)
    ensures var gs := Grouper(xs, 2);
      (|xs| % 2 == 0 ==> forall i, j :: 0 <= i < |gs| && 0 <= j < 2 ==> gs[i][j].Some?) &&
      (|xs| % 2 == 1 ==> gs[|gs| - 1][1] == None)
  {
    if |xs| % 2 == 0 {
      forall i, j | 0 <= i < |Grouper(xs, 2)| && 0 <= j < 2
        ensures Grouper(xs, 2)[i][j].Some?
      {
        EvenPairFull(xs, i, j);
      }
    } else {
      OddPairPadded(xs);
    }
  }

  /** Some pair holds a fill value exactly when the count is odd. */
  lemma {:induction false} PairsFill<T>(xs: seq<T>)
    ensures (exists i, j :: 0 <= i < |Grouper(xs, 2)| && 0 <= j < |Grouper(xs, 2)[i]| && Grouper(xs, 2)[i][j].None?) <==>
      |xs| % 2 == 1
  {
    var gs: seq<seq<Option<T>>> := Grouper(xs, 2);
    PairsPadding(xs);
    if |xs| % 2 == 1 {
      assert gs[|gs| - 1][1].None?;
    }
  }

  lemma {:induction false} EvenPairFull<T>(xs: seq<T>, i: int, j: int)
    requires |xs| % 2 == 0 && 0 <= i < |Grouper(xs, 2)| && 0 <= j < 2
    ensures Grouper(xs, 2)[i][j].Some?
  {
    var g := |Grouper(xs, 2)|;
    GrouperLength(xs, 2);
    var m := |xs| / 2;
    assert |xs| == 2 * m;
    assert g <= m;
    GrouperAt(xs, 2, i, j);
  }

  lemma {:induction false} OddPairPadded<T>(xs: seq<T>)
    requires |xs| % 2 == 1
    ensures |Grouper(xs, 2)| > 0 && Grouper(xs, 2)[|Grouper(xs, 2)| - 1][1] == None
  {
    GrouperLength(xs, 2);
    GrouperAt(xs, 2, |Grouper(xs, 2)| - 1, 1);
  }

  // ---------------------------------------------------------------------------
  // Output names
  // ---------------------------------------------------------------------------

  /** `stem` as written: `splitext` applied twice to the file name. */
  function Stem(f: string): string { Root(Root(Basename(f))) }

  /** `stem` removes up to two extensions: `<dir>/<s>.<e1>.<e2>` gives `s`, e.g. `X.tar.gz` gives `X`. */
  lemma {:induction false} StemOfTwoExtensions(dir: string, s: string, e1: string, e2: string)
    requires '/' !in s && '/' !in e1 && '.' !in e1 && '/' !in e2 && '.' !in e2
    requires exists k :: 0 <= k < |s| && s[k] != '.'
    ensures Stem(PathJoin(dir, s + "." + e1 + "." + e2)) == s
  {
    var name := s + "." + e1 + "." + e2;
    assert '/' !in name;
    BasenameOfPathJoin(dir, name);
    var k :| 0 <= k < |s| && s[k] != '.';
    assert (s + "." + e1)[k] != '.';
    SplitextOfDotted(s + "." + e1, e2);
    SplitextOfDotted(s, e1);
  }

  /** The output file of an input, as written. */
  function OutputFileAsWritten(oDir: string, f: string): string { PathJoin(oDir, Stem(f)) + ".root" }

  /**
   * Two seeds of the same non-integer mass point, named the way the Pythia submitter names its
   * outputs, get the same Delphes output: the second `splitext` cuts at the mass's decimal point.
   */
  lemma {:induction false} StemCollision(oDir: string)
    ensures OutputFileAsWritten(oDir, "ggh_ma1_8.5_13TeV_n1000_seed1.hepmc") ==
            OutputFileAsWritten(oDir, "ggh_ma1_8.5_13TeV_n1000_seed2.hepmc")
  {
    SeedNames();
    assert "ggh_ma1_8"[0] != '.';
    SecondExtensionLost(oDir, "ggh_ma1_8", "5_13TeV_n1000_seed1", "5_13TeV_n1000_seed2", "hepmc");
  }

  /**
   * The two Pythia output names of `StemCollision` (Pythia/submit_py8_jobs_htcondor.py:271
   * appends `_seed<ind>` to `<channel>_ma1_<mass>_...`), split at their two dots. Kept apart
   * from `StemCollision` so that the literal concatenations are unfolded on their own.
   */
  lemma {:induction false} SeedNames()
    ensures "ggh_ma1_8" + "." + "5_13TeV_n1000_seed1" + "." + "hepmc" == "ggh_ma1_8.5_13TeV_n1000_seed1.hepmc"
    ensures "ggh_ma1_8" + "." + "5_13TeV_n1000_seed2" + "." + "hepmc" == "ggh_ma1_8.5_13TeV_n1000_seed2.hepmc"
  {
  }

  /** Any `<s>.<a>.<e>` and `<s>.<b>.<e>` share their output file: only `s` is kept. */
  lemma {:induction false} SecondExtensionLost(oDir: string, s: string, a: string, b: string, e: string)
    requires '/' !in s && '/' !in a && '.' !in a && '/' !in b && '.' !in b && '/' !in e && '.' !in e
    requires exists k :: 0 <= k < |s| && s[k] != '.'
    ensures OutputFileAsWritten(oDir, s + "." + a + "." + e) == OutputFileAsWritten(oDir, s + "." + b + "." + e)
  {
    StemOfTwoExtensions("", s, a, e);
    StemOfTwoExtensions("", s, b, e);
    PathJoinEmpty(s + "." + a + "." + e);
    PathJoinEmpty(s + "." + b + "." + e);
  }

  /**
   * The output stem the double `splitext` is there for: one extension removed, and a second
   * one only when the first is the compression suffix `.gz` (as in `X.tar.gz`).
   */
  function OutputStem(f: string): string
  {
    var name := Basename(f);
    if Ext(name) == ".gz" then Root(Root(name)) else Root(name)
  }

  /** The directory does not matter. */
  lemma {:induction false} OutputStemOfPathJoin(dir: string, name: string)
    requires '/' !in name
    ensures OutputStem(PathJoin(dir, name)) == OutputStem(name)
  {
    BasenameOfPathJoin(dir, name);
    BasenameOfPathJoin("", name);
  }

  /** An uncompressed `<dir>/<s>.<e>` (the extension not `.gz`) keeps all of `s`, dots included. */
  lemma {:induction false} OutputStemOfPlain(dir: string, s: string, e: string)
    requires '/' !in s && '/' !in e && '.' !in e && "." + e != ".gz"
    requires exists k :: 0 <= k < |s| && s[k] != '.'
    ensures OutputStem(PathJoin(dir, s + "." + e)) == s
  {
    var name := s + "." + e;
    assert '/' !in name;
    OutputStemOfPathJoin(dir, name);
    SplitextOfDotted(s, e);
    assert Basename(name) == name by {
      BasenameOfPathJoin("", name);
    }
  }

  /** A compressed `<dir>/<s>.<e>.gz`, such as `X.tar.gz` or `X.hepmc.gz`, also gives `s`. */
  lemma {:induction false} OutputStemOfCompressed(dir: string, s: string, e: string)
    requires '/' !in s && '/' !in e && '.' !in e
    requires exists k :: 0 <= k < |s| && s[k] != '.'
    ensures OutputStem(PathJoin(dir, s + "." + e + ".gz")) == s
  {
    var name := s + "." + e + "." + "gz";
    assert name == s + "." + e + ".gz";
    assert '/' !in name;
    BasenameOfPathJoin(dir, name);
    var k :| 0 <= k < |s| && s[k] != '.';
    assert (s + "." + e)[k] != '.';
    SplitextOfDotted(s + "." + e, "gz");
    SplitextOfDotted(s, e);
  }

  /** The output file of an input. */
  function OutputFile(oDir: string, f: string): string { PathJoin(oDir, OutputStem(f)) + ".root" }

  /** The two seeds of `StemCollision` keep apart. */
  lemma {:induction false} OutputStemSeparatesSeeds()
    ensures OutputStem("ggh_ma1_8.5_13TeV_n1000_seed1.hepmc") == "ggh_ma1_8.5_13TeV_n1000_seed1"
    ensures OutputStem("ggh_ma1_8.5_13TeV_n1000_seed2.hepmc") == "ggh_ma1_8.5_13TeV_n1000_seed2"
  {
    assert "ggh_ma1_8.5_13TeV_n1000_seed1"[0] != '.';
    assert "ggh_ma1_8.5_13TeV_n1000_seed2"[0] != '.';
    assert PathJoin("", "ggh_ma1_8.5_13TeV_n1000_seed1" + "." + "hepmc") == "ggh_ma1_8.5_13TeV_n1000_seed1.hepmc";
    assert PathJoin("", "ggh_ma1_8.5_13TeV_n1000_seed2" + "." + "hepmc") == "ggh_ma1_8.5_13TeV_n1000_seed2.hepmc";
    OutputStemOfPlain("", "ggh_ma1_8.5_13TeV_n1000_seed1", "hepmc");
    OutputStemOfPlain("", "ggh_ma1_8.5_13TeV_n1000_seed2", "hepmc");
  }

  // ---------------------------------------------------------------------------
  // --process options
  // ---------------------------------------------------------------------------

  /** The output file of each input, as `stem` names it and as intended. */
  function OutputsAsWritten(oDir: string): string -> string { f => OutputFileAsWritten(oDir, f) }

  function Outputs(oDir: string): string -> string { f => OutputFile(oDir, f) }

  /** What `stem(None)` raises: `os.path.basename` of the fill value. */
  const NoStem: Error := AttributeError("'NoneType' object has no attribute 'rfind'")

  /**
   * The `--process <in> <out>` triples of one group as written, the output of `f` being
   * `out(f)`: the output names are computed first, and `stem(None)` of a fill value raises
   * AttributeError.
   */
  function ProcessAsWritten(out: string -> string, group: seq<Option<string>>): (r: Result<seq<string>>)
    ensures r.Err? <==> exists j :: 0 <= j < |group| && group[j].None?
    ensures r.Err? ==> r.error == NoStem
  {
    if group == [] then Ok([])
    else
      var front := group[..|group| - 1];
      assert forall j :: 0 <= j < |front| ==> front[j] == group[j];
      var done :- ProcessAsWritten(out, front);
      match group[|group| - 1]
      case None => Err(NoStem)
      case Some(f) => Ok(done + ["--process", f, out(f)])
  }

  /** The triple of one entry: none for a fill value. */
  function ProcessEntry(out: string -> string, entry: Option<string>): seq<string>
  {
    match entry
    case None => []
    case Some(f) => ["--process", f, out(f)]
  }

  function EntryOf(out: string -> string): Option<string> -> seq<string> { e => ProcessEntry(out, e) }

  /** The `--process <in> <out>` triples of one group, fill values skipped. */
  function Process(out: string -> string, group: seq<Option<string>>): seq<string> { ConcatMap(EntryOf(out), group) }

  /** One more entry adds its triple, or nothing for a fill value. */
  lemma {:induction false} ProcessSnoc(out: string -> string, group: seq<Option<string>>, j: int)
    requires 0 <= j < |group|
    ensures Process(out, group[..j + 1]) == Process(out, group[..j]) + ProcessEntry(out, group[j])
  {
    assert group[..j + 1][..j] == group[..j];
    assert group[..j + 1][j] == group[j];
  }

  /** Over real files: one triple per file, in order, with the file's output. */
  lemma {:induction false} ProcessFilesAt(out: string -> string, xs: seq<string>, k: int)
    requires 0 <= k < |xs|
    ensures |Process(out, Somes(xs))| == 3 * |xs|
    ensures Process(out, Somes(xs))[3 * k] == "--process"
    ensures Process(out, Somes(xs))[3 * k + 1] == xs[k]
    ensures Process(out, Somes(xs))[3 * k + 2] == out(xs[k])
    decreases |xs|
  {
    var front := xs[..|xs| - 1];
    var f := xs[|xs| - 1];
    assert Somes(xs)[..|xs| - 1] == Somes(front);
    assert Somes(xs)[|xs| - 1] == Some(f);
    assert Process(out, Somes(xs)) == Process(out, Somes(front)) + ["--process", f, out(f)];
    if k < |xs| - 1 {
      ProcessFilesAt(out, front, k);
    } else if front != [] {
      ProcessFilesAt(out, front, 0);
    }
  }

  function GroupsOf(out: string -> string): seq<Option<string>> -> seq<string> { g => Process(out, g) }

  /** The `--process` triples of all groups, one group after the other. */
  function ProcessAll(out: string -> string, gs: seq<seq<Option<string>>>): seq<string> { ConcatMap(GroupsOf(out), gs) }

  /** Across the jobs, every input file is processed exactly once, in the listed order. */
  lemma {:induction false} EveryInputOnce(out: string -> string, xs: seq<string>)
    ensures ProcessAll(out, Grouper(xs, 2)) == Process(out, Somes(xs))
  {
    var gs := Grouper(xs, 2);
    ConcatMapFlatten(EntryOf(out), GroupsOf(out), gs);
    GrouperFlatten(xs, 2);
    var pad: seq<Option<string>> := Pad(|gs| * 2 - |xs|);
    ConcatMapConcat(EntryOf(out), Somes(xs), pad);
    ConcatMapNil(EntryOf(out), pad);
    assert Process(out, Somes(xs)) + [] == Process(out, Somes(xs));
  }

  // ---------------------------------------------------------------------------
  // Input files
  // ---------------------------------------------------------------------------

  const Extensions: seq<string> := [".lhe", ".hepmc", ".gz", ".tar.gz", ".tgz"]

  /** `accept_file`: an existing file whose lower-cased name ends with one of the extensions. */
  predicate AcceptFile(fs: Fs, path: string)
  {
    exists i :: 0 <= i < |Extensions| && IsFile(fs, path) && EndsWith(Lower(Basename(path)), Extensions[i])
  }

  /** `.tar.gz` adds nothing to the list: every such name already ends with `.gz`. */
  lemma {:induction false} EndsWithExtension(fl: string)
    ensures (exists i :: 0 <= i < |Extensions| && EndsWith(fl, Extensions[i])) <==>
      EndsWith(fl, ".lhe") || EndsWith(fl, ".hepmc") || EndsWith(fl, ".gz") || EndsWith(fl, ".tgz")
  {
    assert Extensions[0] == ".lhe" && Extensions[1] == ".hepmc" && Extensions[2] == ".gz";
    assert Extensions[3] == ".tar.gz" && Extensions[4] == ".tgz";
    if EndsWith(fl, ".tar.gz") {
      assert fl[|fl| - 3..] == fl[|fl| - 7..][4..];
    }
  }

  lemma {:induction false} AcceptFileIff(fs: Fs, path: string)
    ensures var fl := Lower(Basename(path));
      AcceptFile(fs, path) <==>
        IsFile(fs, path) && (EndsWith(fl, ".lhe") || EndsWith(fl, ".hepmc") || EndsWith(fl, ".gz") || EndsWith(fl, ".tgz"))
  {
    EndsWithExtension(Lower(Basename(path)));
  }

  /** `[join(iDir, f) for f in listdir(iDir) if accept_file(join(iDir, f))]`, in listing order. */
  function InputFiles(fs: Fs, iDir: string, listing: seq<string>): (r: seq<string>)
    ensures forall x :: x in r ==> AcceptFile(fs, x) && exists f :: f in listing && x == PathJoin(iDir, f)
    ensures forall f :: f in listing && AcceptFile(fs, PathJoin(iDir, f)) ==> PathJoin(iDir, f) in r
    ensures |r| <= |listing|
  {
    if listing == [] then []
    else
      var front := listing[..|listing| - 1];
      var f := listing[|listing| - 1];
      var p := PathJoin(iDir, f);
      var rest := InputFiles(fs, iDir, front);
      InputFilesSnoc(fs, iDir, listing, rest);
      rest + (if AcceptFile(fs, p) then [p] else [])
  }

  /** How the acceptable files of all but the last listed entry extend to the whole listing. */
  lemma {:induction false} InputFilesSnoc(fs: Fs, iDir: string, listing: seq<string>, rest: seq<string>)
    requires listing != []
    requires forall x :: x in rest ==> AcceptFile(fs, x) && exists f :: f in listing[..|listing| - 1] && x == PathJoin(iDir, f)
    requires forall f :: f in listing[..|listing| - 1] && AcceptFile(fs, PathJoin(iDir, f)) ==> PathJoin(iDir, f) in rest
    requires |rest| <= |listing| - 1
    ensures var p := PathJoin(iDir, listing[|listing| - 1]);
      var r := rest + (if AcceptFile(fs, p) then [p] else []);
      (forall x :: x in r ==> AcceptFile(fs, x) && exists f :: f in listing && x == PathJoin(iDir, f)) &&
      (forall f :: f in listing && AcceptFile(fs, PathJoin(iDir, f)) ==> PathJoin(iDir, f) in r) &&
      |r| <= |listing|
  {
    var front := listing[..|listing| - 1];
    var last := listing[|listing| - 1];
    var p := PathJoin(iDir, last);
    var r := rest + (if AcceptFile(fs, p) then [p] else []);
    forall x | x in r
      ensures AcceptFile(fs, x) && exists f :: f in listing && x == PathJoin(iDir, f)
    {
      if x in rest {
        var f :| f in front && x == PathJoin(iDir, f);
        assert f in listing;
      } else {
        assert x == p && last in listing;
      }
    }
    forall f | f in listing && AcceptFile(fs, PathJoin(iDir, f))
      ensures PathJoin(iDir, f) in r
    {
      if f != last {
        InFront(listing, f);
      }
    }
  }

  // ---------------------------------------------------------------------------
  // write_dag_file
  // ---------------------------------------------------------------------------

  /** The `--type` choices. */
  datatype InputType = HepMC | LHE

  /** The executable chosen for a `--type`. */
  function Exe(t: InputType): string
  {
    match t
    case HepMC => "./DelphesHepMC"
    case LHE => "./DelphesLHEF"
  }

  /**
   * What every node of one DAG shares. `tag`, the node names' suffix, is the card's file name
   * with its extension (`os.path.basename(args.card)`); `logFile` is the DAG file's name
   * without directory and extension (`LogName`).
   */
  datatype DelphesConfig = DelphesConfig(card: string, tag: string, oDir: string, inputType: Option<InputType>,
                                         condorFile: string, statusFile: string, logDir: string,
                                         logFile: string)

  /** `--card <card>`, then `--exe <exe>` when a type is given. */
  function BaseOptions(c: DelphesConfig): seq<string>
  {
    ["--card", c.card] + (if c.inputType.Some? then ["--exe", Exe(c.inputType.value)] else [])
  }

  /** The options of the job for one group: base, `--process` triples, copy-in, copy-out. */
  function JobOptions(c: DelphesConfig, group: seq<Option<string>>, copyIn: seq<(string, string)>,
                      copyOut: seq<(string, string)>): seq<string>
  {
    BaseOptions(c) + Process(Outputs(c.oDir), group) + Triples("--copyToLocal", copyIn) + Triples("--copyFromLocal", copyOut)
  }

  /** The same, as written. */
  function JobOptionsAsWritten(c: DelphesConfig, group: seq<Option<string>>, copyIn: seq<(string, string)>,
                               copyOut: seq<(string, string)>): Result<seq<string>>
  {
    var process :- ProcessAsWritten(OutputsAsWritten(c.oDir), group);
    Ok(BaseOptions(c) + process + Triples("--copyToLocal", copyIn) + Triples("--copyFromLocal", copyOut))
  }

  /**
   * `output_files`: the output name of every entry of the group, computed before any
   * `--process` triple is added; `stem` of a fill value raises.
   */
  method OutputFiles(out: string -> string, group: seq<Option<string>>) returns (r: Result<seq<string>>)
    ensures r.Err? <==> exists j :: 0 <= j < |group| && group[j].None?
    ensures r.Err? ==> r.error == NoStem
    ensures r.Ok? ==> |r.value| == |group|
    ensures r.Ok? ==> forall j :: 0 <= j < |group| ==> group[j].Some? && r.value[j] == out(group[j].value)
  {
    var outs: seq<string> := [];
    for j := 0 to |group|
      invariant |outs| == j
      invariant forall k :: 0 <= k < j ==> group[k].Some? && outs[k] == out(group[k].value)
    {
      if group[j].None? {
        return Err(NoStem);
      }
      outs := outs + [out(group[j].value)];
    }
    r := Ok(outs);
  }

  /** The loop over `zip(input_files, output_files)`, extending `opts` with one `--process` triple per input. */
  method ExtendProcess(opts: seq<string>, out: string -> string, group: seq<Option<string>>) returns (r: Result<seq<string>>)
    ensures r.Err? <==> ProcessAsWritten(out, group).Err?
    ensures r.Err? ==> r.error == NoStem
    ensures r.Ok? ==> r.value == opts + ProcessAsWritten(out, group).value
  {
    var outs := OutputFiles(out, group);
    if outs.Err? {
      return Err(outs.error);
    }
    var acc := opts;
    for j := 0 to |group|
      invariant ProcessAsWritten(out, group[..j]).Ok?
      invariant acc == opts + ProcessAsWritten(out, group[..j]).value
    {
      assert group[..j + 1][..j] == group[..j];
      acc := acc + ["--process", group[j].value, outs.value[j]];
    }
    assert group[..|group|] == group;
    r := Ok(acc);
  }

  /** The `job_opts` of one group, as written. */
  method BuildJobOptions(c: DelphesConfig, group: seq<Option<string>>, copyIn: seq<(string, string)>,
                         copyOut: seq<(string, string)>) returns (opts: Result<seq<string>>)
    ensures opts == JobOptionsAsWritten(c, group, copyIn, copyOut)
  {
    var base := ["--card", c.card];
    if c.inputType.Some? {
      base := base + ["--exe", Exe(c.inputType.value)];
    }
    var withProcess := ExtendProcess(base, OutputsAsWritten(c.oDir), group);
    if withProcess.Err? {
      return Err(withProcess.error);
    }
    assert base == BaseOptions(c);
    ghost var process := ProcessAsWritten(OutputsAsWritten(c.oDir), group).value;
    var o := ExtendTriples(withProcess.value, "--copyToLocal", copyIn);
    o := ExtendTriples(o, "--copyFromLocal", copyOut);
    assert o == BaseOptions(c) + process + Triples("--copyToLocal", copyIn) + Triples("--copyFromLocal", copyOut);
    opts := Ok(o);
  }

  function Header(c: DelphesConfig): seq<string>
  {
    ["# DAG for card " + c.card, "# Outputting to " + c.oDir]
  }

  /** The condor log is named after the DAG file, without directory and extension. */
  function LogName(dagFile: string): string { Root(Basename(dagFile)) }

  function VarsLine(c: DelphesConfig, ind: int, opts: seq<string>): string
  {
    "VARS " + NodeName(ind, c.tag) + " opts=\"" + Join(" ", opts) + "\" logDir=\"" + c.logDir +
    "\" logFile=\"" + c.logFile + "\""
  }

  function VarsOf(c: DelphesConfig): (int, seq<string>) -> string { (ind, opts) => VarsLine(c, ind, opts) }

  /** The options of job `ind`, the `ind`-th group (no job outside the groups is asked for). */
  function OptionsOf(c: DelphesConfig, groups: seq<seq<Option<string>>>, copyIn: seq<(string, string)>,
                     copyOut: seq<(string, string)>): int -> Result<seq<string>>
  {
    ind => Ok(JobOptions(c, if 0 <= ind < |groups| then groups[ind] else [], copyIn, copyOut))
  }

  function OptionsAsWrittenOf(c: DelphesConfig, groups: seq<seq<Option<string>>>, copyIn: seq<(string, string)>,
                              copyOut: seq<(string, string)>): int -> Result<seq<string>>
  {
    ind => JobOptionsAsWritten(c, if 0 <= ind < |groups| then groups[ind] else [], copyIn, copyOut)
  }

  /** The DAG text for the groups, nodes numbered from 0. */
  function DagText(c: DelphesConfig, groups: seq<seq<Option<string>>>, copyIn: seq<(string, string)>,
                   copyOut: seq<(string, string)>): Result<seq<string>>
  {
    NumberedDag(Header(c), c.tag, c.condorFile, VarsOf(c), OptionsOf(c, groups, copyIn, copyOut), 0, |groups| - 1,
                [StatusLine(c.statusFile)])
  }

  /** The same, as written. */
  function DagTextAsWritten(c: DelphesConfig, groups: seq<seq<Option<string>>>, copyIn: seq<(string, string)>,
                            copyOut: seq<(string, string)>): Result<seq<string>>
  {
    NumberedDag(Header(c), c.tag, c.condorFile, VarsOf(c), OptionsAsWrittenOf(c, groups, copyIn, copyOut), 0,
                |groups| - 1, [StatusLine(c.statusFile)])
  }

  /**
   * `write_dag_file`: no acceptable input raises before the DAG is opened; then the inputs
   * in pairs, as written, so an odd number of inputs raises in the last job.
   */
  function DagFile(c: DelphesConfig, fs: Fs, iDir: string, listing: seq<string>, copyIn: seq<(string, string)>,
                   copyOut: seq<(string, string)>): (r: Result<seq<string>>)
    ensures InputFiles(fs, iDir, listing) == [] ==> r == Err(RuntimeError("No acceptable input file in " + iDir))
    ensures InputFiles(fs, iDir, listing) != [] ==> (r.Err? <==> |InputFiles(fs, iDir, listing)| % 2 == 1)
  {
    var inputs := InputFiles(fs, iDir, listing);
    DagTextAsWrittenOdd(c, inputs, copyIn, copyOut);
    if inputs == [] then Err(RuntimeError("No acceptable input file in " + iDir))
    else DagTextAsWritten(c, Grouper(inputs, 2), copyIn, copyOut)
  }

  /** The loop over `enumerate(grouper(input_files, 2))`: a failing job's options end the loop with its error. */
  method WriteNodes(c: DelphesConfig, groups: seq<seq<Option<string>>>, copyIn: seq<(string, string)>,
                    copyOut: seq<(string, string)>) returns (body: Result<seq<string>>)
    ensures Nodes(NumberedNodes(c.tag, c.condorFile, VarsOf(c), OptionsAsWrittenOf(c, groups, copyIn, copyOut)),
                  JobIds(0, |groups| - 1)) == body
  {
    ghost var optsOf := OptionsAsWrittenOf(c, groups, copyIn, copyOut);
    ghost var ids := JobIds(0, |groups| - 1);
    var lines: seq<string> := [];
    for ind := 0 to |groups|
      invariant Nodes(NumberedNodes(c.tag, c.condorFile, VarsOf(c), optsOf), ids[..ind]) == Ok(lines)
    {
      var opts := BuildJobOptions(c, groups[ind], copyIn, copyOut);
      assert ids[ind] == ind;
      assert optsOf(ids[ind]) == opts;
      NumberedStep(c.tag, c.condorFile, VarsOf(c), optsOf, ids, ind, lines);
      if opts.Err? {
        return Err(opts.error);
      }
      lines := lines + [JobLine(ind, c.tag, c.condorFile), VarsLine(c, ind, opts.value)];
    }
    assert ids[..|groups|] == ids;
    body := Ok(lines);
  }

  /** `write_dag_file`, as written. */
  method WriteDagFile(c: DelphesConfig, fs: Fs, iDir: string, listing: seq<string>, copyIn: seq<(string, string)>,
                      copyOut: seq<(string, string)>) returns (lines: Result<seq<string>>)
    ensures lines == DagFile(c, fs, iDir, listing, copyIn, copyOut)
  {
    var inputs := InputFiles(fs, iDir, listing);
    if inputs == [] {
      return Err(RuntimeError("No acceptable input file in " + iDir));
    }
    var groups := Grouper(inputs, 2);
    var body := WriteNodes(c, groups, copyIn, copyOut);
    if body.Err? {
      return Err(body.error);
    }
    lines := Ok(Header(c) + body.value + [StatusLine(c.statusFile)]);
  }

  /** With the fill values skipped, no job fails. */
  lemma {:induction false} DagTextOk(c: DelphesConfig, groups: seq<seq<Option<string>>>, copyIn: seq<(string, string)>,
                  copyOut: seq<(string, string)>)
    ensures DagText(c, groups, copyIn, copyOut).Ok?
  {
    NumberedDagErr(Header(c), c.tag, c.condorFile, VarsOf(c), OptionsOf(c, groups, copyIn, copyOut), 0, |groups| - 1,
                   [StatusLine(c.statusFile)]);
  }

  /** The DAG text for any per-job options over the jobs `0..n-1`. */
  function Layout(c: DelphesConfig, optsOf: int -> Result<seq<string>>, n: int): Result<seq<string>>
  {
    NumberedDag(Header(c), c.tag, c.condorFile, VarsOf(c), optsOf, 0, n - 1, [StatusLine(c.statusFile)])
  }

  /** The layout for any per-job options. */
  lemma {:induction false} LayoutAt(c: DelphesConfig, optsOf: int -> Result<seq<string>>, n: int, k: int)
    requires Layout(c, optsOf, n).Ok?
    requires 0 <= k < n
    ensures var r := Layout(c, optsOf, n).value;
      |r| == 2 + 2 * n + 1 && r[..2] == Header(c) && r[|r| - 1] == StatusLine(c.statusFile) &&
      r[2 + 2 * k] == JobLine(k, c.tag, c.condorFile) && optsOf(k).Ok? &&
      r[3 + 2 * k] == VarsLine(c, k, optsOf(k).value)
  {
    NumberedDagAt(Header(c), c.tag, c.condorFile, VarsOf(c), optsOf, 0, n - 1, [StatusLine(c.statusFile)], k);
  }

  /** The counts for any per-job options. */
  lemma {:induction false} LayoutCounts(c: DelphesConfig, optsOf: int -> Result<seq<string>>, n: nat)
    requires Layout(c, optsOf, n).Ok?
    ensures CountWith(Layout(c, optsOf, n).value, "JOB ") == n
    ensures CountWith(Layout(c, optsOf, n).value, "VARS ") == n
  {
    var header := Header(c);
    var trailer := [StatusLine(c.statusFile)];
    assert header[0][0] == '#' && header[1][0] == '#' && trailer[0][0] == 'N';
    forall ind, o
      ensures StartsWith(VarsOf(c)(ind, o), "VARS ")
    {
      assert VarsOf(c)(ind, o)[..5] == "VARS ";
    }
    NumberedDagCounts(header, c.tag, c.condorFile, VarsOf(c), optsOf, 0, n - 1, trailer, "JOB ");
    NumberedDagCounts(header, c.tag, c.condorFile, VarsOf(c), optsOf, 0, n - 1, trailer, "VARS ");
  }

  /**
   * The layout whenever the writer succeeds: two header lines, then for the k-th group its
   * JOB line `JOB <k>_<card file> <condor file>` and its VARS line carrying that group's
   * options as written, then the status line.
   */
  lemma {:induction false} DagTextShape(c: DelphesConfig, groups: seq<seq<Option<string>>>, copyIn: seq<(string, string)>,
                     copyOut: seq<(string, string)>, k: int)
    requires DagTextAsWritten(c, groups, copyIn, copyOut).Ok?
    requires 0 <= k < |groups|
    ensures JobOptionsAsWritten(c, groups[k], copyIn, copyOut).Ok?
    ensures var r := DagTextAsWritten(c, groups, copyIn, copyOut).value;
      |r| == 2 + 2 * |groups| + 1 && r[..2] == Header(c) && r[|r| - 1] == StatusLine(c.statusFile) &&
      r[2 + 2 * k] == JobLine(k, c.tag, c.condorFile) &&
      r[3 + 2 * k] == VarsLine(c, k, JobOptionsAsWritten(c, groups[k], copyIn, copyOut).value)
  {
    var optsOf := OptionsAsWrittenOf(c, groups, copyIn, copyOut);
    assert DagTextAsWritten(c, groups, copyIn, copyOut) == Layout(c, optsOf, |groups|);
    LayoutAt(c, optsOf, |groups|, k);
    assert optsOf(k) == JobOptionsAsWritten(c, groups[k], copyIn, copyOut);
  }

  /** No two nodes share a JOB line, hence a name. */
  lemma {:induction false} DagNodesDistinct(c: DelphesConfig, groups: seq<seq<Option<string>>>, copyIn: seq<(string, string)>,
                         copyOut: seq<(string, string)>, k1: int, k2: int)
    requires DagTextAsWritten(c, groups, copyIn, copyOut).Ok?
    requires 0 <= k1 < |groups| && 0 <= k2 < |groups| && k1 != k2
    ensures |DagTextAsWritten(c, groups, copyIn, copyOut).value| == 2 + 2 * |groups| + 1
    ensures DagTextAsWritten(c, groups, copyIn, copyOut).value[2 + 2 * k1] !=
      DagTextAsWritten(c, groups, copyIn, copyOut).value[2 + 2 * k2]
  {
    NumberedDagDistinct(Header(c), c.tag, c.condorFile, VarsOf(c), OptionsAsWrittenOf(c, groups, copyIn, copyOut), 0,
                        |groups| - 1, [StatusLine(c.statusFile)], k1, k2);
  }

  /** Whenever the writer succeeds, exactly one JOB line and one VARS line per group. */
  lemma {:induction false} DagTextCounts(c: DelphesConfig, groups: seq<seq<Option<string>>>, copyIn: seq<(string, string)>,
                      copyOut: seq<(string, string)>)
    requires DagTextAsWritten(c, groups, copyIn, copyOut).Ok?
    ensures CountWith(DagTextAsWritten(c, groups, copyIn, copyOut).value, "JOB ") == |groups|
    ensures CountWith(DagTextAsWritten(c, groups, copyIn, copyOut).value, "VARS ") == |groups|
  {
    var optsOf := OptionsAsWrittenOf(c, groups, copyIn, copyOut);
    assert DagTextAsWritten(c, groups, copyIn, copyOut) == Layout(c, optsOf, |groups|);
    LayoutCounts(c, optsOf, |groups|);
  }

  /** The writer fails exactly when the options of one of the jobs fail. */
  lemma {:induction false} LayoutErr(c: DelphesConfig, optsOf: int -> Result<seq<string>>, n: int)
    ensures Layout(c, optsOf, n).Err? <==> exists ind :: 0 <= ind < n && optsOf(ind).Err?
  {
    NumberedDagErr(Header(c), c.tag, c.condorFile, VarsOf(c), optsOf, 0, n - 1, [StatusLine(c.statusFile)]);
  }

  /** As written, the options of a job fail exactly when its group holds a fill value. */
  lemma {:induction false} OptionsAsWrittenErr(c: DelphesConfig, groups: seq<seq<Option<string>>>, copyIn: seq<(string, string)>,
                            copyOut: seq<(string, string)>, ind: int)
    requires 0 <= ind < |groups|
    ensures OptionsAsWrittenOf(c, groups, copyIn, copyOut)(ind).Err? <==>
      exists j :: 0 <= j < |groups[ind]| && groups[ind][j].None?
  {
    var g := groups[ind];
    assert OptionsAsWrittenOf(c, groups, copyIn, copyOut)(ind) == JobOptionsAsWritten(c, g, copyIn, copyOut);
    assert JobOptionsAsWritten(c, g, copyIn, copyOut).Err? <==> ProcessAsWritten(OutputsAsWritten(c.oDir), g).Err?;
  }

  /** As written, the writer fails exactly when some group holds a fill value. */
  lemma {:induction false} DagTextAsWrittenErr(c: DelphesConfig, groups: seq<seq<Option<string>>>, copyIn: seq<(string, string)>,
                            copyOut: seq<(string, string)>)
    ensures DagTextAsWritten(c, groups, copyIn, copyOut).Err? <==>
      exists i, j :: 0 <= i < |groups| && 0 <= j < |groups[i]| && groups[i][j].None?
  {
    var optsOf := OptionsAsWrittenOf(c, groups, copyIn, copyOut);
    assert DagTextAsWritten(c, groups, copyIn, copyOut) == Layout(c, optsOf, |groups|);
    LayoutErr(c, optsOf, |groups|);
    forall ind | 0 <= ind < |groups|
      ensures optsOf(ind).Err? <==> exists j :: 0 <= j < |groups[ind]| && groups[ind][j].None?
    {
      OptionsAsWrittenErr(c, groups, copyIn, copyOut, ind);
    }
  }

  /** As written, the writer fails exactly when the number of input files is odd. */
  lemma {:induction false} DagTextAsWrittenOdd(c: DelphesConfig, inputs: seq<string>, copyIn: seq<(string, string)>,
                            copyOut: seq<(string, string)>)
    ensures DagTextAsWritten(c, Grouper(inputs, 2), copyIn, copyOut).Err? <==> |inputs| % 2 == 1
  {
    DagTextAsWrittenErr(c, Grouper(inputs, 2), copyIn, copyOut);
    PairsFill(inputs);
  }

  // ---------------------------------------------------------------------------
  // The submitter
  // ---------------------------------------------------------------------------

  /** `generate_output_dir`: `<parent of the input directory>/delphes/<card without extension>`. */
  function GenerateOutputDir(inputDir: string, card: string): string
  {
    var d := if EndsWith(inputDir, "/") then RStripSlashes(inputDir) else inputDir;
    PathJoin(PathJoin(Dirname(d), "delphes"), Root(card))
  }

  /** Trailing slashes on the input directory do not matter. */
  lemma {:induction false} GenerateOutputDirSlash(inputDir: string, card: string)
    ensures GenerateOutputDir(inputDir + "/", card) == GenerateOutputDir(inputDir, card)
  {
    var s := inputDir + "/";
    assert s[|s| - 1..] == "/";
    assert s[..|s| - 1] == inputDir;
    RStripSlashesOfSlashed(s);
    var d := if EndsWith(inputDir, "/") then RStripSlashes(inputDir) else inputDir;
    assert RStripSlashes(inputDir) == d by {
      if !EndsWith(inputDir, "/") && inputDir != [] {
        assert inputDir[|inputDir| - 1..] == [inputDir[|inputDir| - 1]];
      }
    }
  }

  /** The name sits in a `delphes` directory, after the parent of the input directory. */
  lemma {:induction false} GenerateOutputDirShape(inputDir: string, card: string)
    requires Root(card) != [] && !StartsWith(Root(card), "/")
    ensures var d := if EndsWith(inputDir, "/") then RStripSlashes(inputDir) else inputDir;
      GenerateOutputDir(inputDir, card) == PathJoin(Dirname(d), "delphes") + "/" + Root(card)
  {
    var d := if EndsWith(inputDir, "/") then RStripSlashes(inputDir) else inputDir;
    var a := PathJoin(Dirname(d), "delphes");
    assert !StartsWith("delphes", "/") by {
      assert "delphes"[..1][0] == 'd';
    }
    assert EndsWith(a, "delphes");
    assert a[|a| - 1] == "delphes"[6];
  }

  /** `generate_subdir`: `<card file name without extension>/<date>`. */
  function GenerateSubdir(card: string, date: string): string { PathJoin(Root(Basename(card)), date) }

  /** `check_create_dir`: an existing directory is kept, an existing file raises, otherwise it is made. */
  function CheckCreateDir(fs: Fs, d: string): (r: Result<Fs>)
    ensures r.Err? <==> !IsDir(fs, d) && IsFile(fs, d)
    ensures r.Ok? ==> IsDir(r.value, d) && forall p :: p != d ==> (p in r.value <==> p in fs) && (p in fs ==> r.value[p] == fs[p])
  {
    if IsDir(fs, d) then Ok(fs)
    else if IsFile(fs, d) then Err(DirError(d))
    else Ok(fs[d := Directory])
  }

  /** The message `check_create_dir` raises for a path that is a regular file. */
  function DirError(d: string): Error
  {
    RuntimeError("Cannot create directory " + d + ", already exists as a file object")
  }

  /** No path of `ds` is a regular file of `fs`. */
  predicate NoFileIn(fs: Fs, ds: seq<string>)
  {
    forall i :: 0 <= i < |ds| ==> !IsFile(fs, ds[i])
  }

  /** `i` is the first position of `ds` holding a regular file of `fs`. */
  predicate FirstFileAt(fs: Fs, ds: seq<string>, i: int)
  {
    0 <= i < |ds| && IsFile(fs, ds[i]) && forall j :: 0 <= j < i ==> !IsFile(fs, ds[j])
  }

  /**
   * `check_create_dir` on each path of `ds` in turn: the first path that is a regular file
   * raises; otherwise every path is a directory afterwards and no other path changes.
   */
  function CreateDirs(fs: Fs, ds: seq<string>): (r: Result<Fs>)
    ensures r.Ok? <==> NoFileIn(fs, ds)
    ensures r.Err? ==> exists i :: FirstFileAt(fs, ds, i) && r.error == DirError(ds[i])
    ensures r.Ok? ==> forall p :: p in ds ==> IsDir(r.value, p)
    ensures r.Ok? ==> forall p :: p !in ds ==> (p in r.value <==> p in fs) && (p in fs ==> r.value[p] == fs[p])
    decreases |ds|
  {
    if ds == [] then Ok(fs)
    else
      match CheckCreateDir(fs, ds[0])
      case Err(e) =>
        assert FirstFileAt(fs, ds, 0);
        Err(e)
      case Ok(fs1) =>
        var rest := CreateDirs(fs1, ds[1..]);
        CreateDirsStep(fs, fs1, ds, rest);
        rest
  }

  /** How the outcome of the remaining paths, run on the map the first path left, is the outcome of all. */
  lemma {:induction false} CreateDirsStep(fs: Fs, fs1: Fs, ds: seq<string>, rest: Result<Fs>)
    requires ds != [] && CheckCreateDir(fs, ds[0]) == Ok(fs1)
    requires rest.Ok? <==> NoFileIn(fs1, ds[1..])
    requires rest.Err? ==> exists i :: FirstFileAt(fs1, ds[1..], i) && rest.error == DirError(ds[1..][i])
    requires rest.Ok? ==> forall p :: p in ds[1..] ==> IsDir(rest.value, p)
    requires rest.Ok? ==> forall p :: p !in ds[1..] ==> (p in rest.value <==> p in fs1) && (p in fs1 ==> rest.value[p] == fs1[p])
    ensures rest.Ok? <==> NoFileIn(fs, ds)
    ensures rest.Err? ==> exists i :: FirstFileAt(fs, ds, i) && rest.error == DirError(ds[i])
    ensures rest.Ok? ==> forall p :: p in ds ==> IsDir(rest.value, p)
    ensures rest.Ok? ==> forall p :: p !in ds ==> (p in rest.value <==> p in fs) && (p in fs ==> rest.value[p] == fs[p])
  {
    var d := ds[0];
    assert !IsFile(fs, d);
    assert forall q :: IsFile(fs1, q) <==> IsFile(fs, q);
    assert forall k :: 0 <= k < |ds| - 1 ==> ds[1..][k] == ds[k + 1];
    if rest.Err? {
      var i :| FirstFileAt(fs1, ds[1..], i) && rest.error == DirError(ds[1..][i]);
      assert FirstFileAt(fs, ds, i + 1);
    } else {
      assert forall p :: p in ds ==> p == d || p in ds[1..];
    }
  }

  /** The parsed command line; `--oDir` may be missing. */
  datatype DelphesArgs = DelphesArgs(card: string, iDir: string, inputType: Option<InputType>, oDir: Option<string>)

  /** The four checks, in order: Delphes directory, input directory, card, card location. */
  function Checks(fs: Fs, delphesDir: string, a: DelphesArgs): (r: Result<()>)
    ensures r.Ok? <==> IsDir(fs, delphesDir) && IsDir(fs, a.iDir) && IsFile(fs, a.card) && Dirname(a.card) == "input_cards"
    ensures !IsDir(fs, delphesDir) ==> r == Err(RuntimeError("DELPHES_DIR does not correspond to an actual directory"))
    ensures IsDir(fs, delphesDir) && !IsDir(fs, a.iDir) ==>
      r == Err(RuntimeError("--iDir arg does not correspond to an actual directory"))
    ensures IsDir(fs, delphesDir) && IsDir(fs, a.iDir) && !IsFile(fs, a.card) ==> r == Err(RuntimeError("Cannot find input card"))
    ensures IsDir(fs, delphesDir) && IsDir(fs, a.iDir) && IsFile(fs, a.card) && Dirname(a.card) != "input_cards" ==>
      r == Err(RuntimeError("Put your card in input_cards directory"))
  {
    if !IsDir(fs, delphesDir) then Err(RuntimeError("DELPHES_DIR does not correspond to an actual directory"))
    else if !IsDir(fs, a.iDir) then Err(RuntimeError("--iDir arg does not correspond to an actual directory"))
    else if !IsFile(fs, a.card) then Err(RuntimeError("Cannot find input card"))
    else if Dirname(a.card) != "input_cards" then Err(RuntimeError("Put your card in input_cards directory"))
    else Ok(())
  }

  /** A card given with any other directory part, even an equivalent one, is refused. */
  lemma {:induction false} CardOutsideInputCards()
    ensures Dirname("./input_cards/delphes_card_cms.tcl") != "input_cards"
    ensures Dirname("input_cards/delphes_card_cms.tcl") == "input_cards"
  {
    CardPaths();
    DirnameOfJoined("./input_cards", "delphes_card_cms.tcl");
    DirnameOfJoined("input_cards", "delphes_card_cms.tcl");
  }

  /**
   * The two card paths of `CardOutsideInputCards` as directory and file name, the split
   * `os.path.dirname` makes at Delphes/submit_delphes_jobs_htcondor.py:66. Kept apart so
   * that the literal concatenations are unfolded on their own.
   */
  lemma {:induction false} CardPaths()
    ensures "./input_cards" + "/" + "delphes_card_cms.tcl" == "./input_cards/delphes_card_cms.tcl"
    ensures "input_cards" + "/" + "delphes_card_cms.tcl" == "input_cards/delphes_card_cms.tcl"
  {
  }

  /** The `--oDir` in effect: the given one, or the generated one when missing or empty. */
  function OutputDir(a: DelphesArgs): string
  {
    var iDir := if EndsWith(a.iDir, "/") then RStripSlashes(a.iDir) else a.iDir;
    if a.oDir.None? || a.oDir.value == "" then GenerateOutputDir(iDir, Basename(a.card)) else a.oDir.value
  }

  /** The directory of the zipped Delphes installation for the user `logname`. */
  function ZipDir(logname: string): string { "/hdfs/user/" + logname + "/NMSSMPheno/zips" }

  /** What a successful run prepares: the directories, the DAG file's name and lines. */
  datatype DelphesSubmission = DelphesSubmission(fs: Fs, oDir: string, logDir: string, dagName: string,
                                                 statusName: string, copyIn: seq<(string, string)>,
                                                 dagLines: seq<string>)

  /** The input directory once trailing slashes are stripped, as `main` does after the checks. */
  function StrippedInputDir(a: DelphesArgs): string
  {
    if EndsWith(a.iDir, "/") then RStripSlashes(a.iDir) else a.iDir
  }

  /** The file stem of the DAG and status files: `<card stem>/<date>/<time>`. */
  function FileStem(a: DelphesArgs, date: string, time: string): string
  {
    PathJoin(GenerateSubdir(a.card, date), time)
  }

  /** The directories `main` passes to `check_create_dir`, in order: output, logs, file stem's directory, zips. */
  function SubmitDirs(a: DelphesArgs, logname: string, date: string, time: string): seq<string>
  {
    [OutputDir(a), GenerateSubdir(a.card, date) + "/logs", Dirname(FileStem(a, date, time)), ZipDir(logname)]
  }

  /** The two copy-in entries: the zipped installation and the cards under the output directory. */
  function SubmitCopyIn(a: DelphesArgs, logname: string): seq<(string, string)>
  {
    [(PathJoin(ZipDir(logname), "delphes.tgz"), "delphes.tgz"), (PathJoin(OutputDir(a), "input_cards"), "input_cards")]
  }

  /** The settings `write_dag_file` is called with. */
  function SubmitConfig(a: DelphesArgs, date: string, time: string): DelphesConfig
  {
    var stem := FileStem(a, date, time);
    DelphesConfig(a.card, Basename(a.card), OutputDir(a), a.inputType, "HTCondor/runDelphes.condor",
                  stem + ".status", GenerateSubdir(a.card, date) + "/logs", LogName(stem + ".dag"))
  }

  /**
   * The part of `main` after the checks: `check_create_dir` on each of `dirs` in order, then
   * `write_dag_file` on the file system that leaves. The first directory that is a regular
   * file raises, then the DAG writer's error; on success only the directories change.
   */
  function DirsThenDag(fs: Fs, dirs: seq<string>, c: DelphesConfig, iDir: string, listing: seq<string>,
                       copyIn: seq<(string, string)>): (r: Result<(Fs, seq<string>)>)
    ensures r.Ok? <==> NoFileIn(fs, dirs) && DagFile(c, CreateDirs(fs, dirs).value, iDir, listing, copyIn, []).Ok?
    ensures !NoFileIn(fs, dirs) ==> exists i :: FirstFileAt(fs, dirs, i) && r == Err(DirError(dirs[i]))
    ensures NoFileIn(fs, dirs) && DagFile(c, CreateDirs(fs, dirs).value, iDir, listing, copyIn, []).Err? ==>
      r == Err(DagFile(c, CreateDirs(fs, dirs).value, iDir, listing, copyIn, []).error)
    ensures r.Ok? ==> DagFile(c, r.value.0, iDir, listing, copyIn, []) == Ok(r.value.1)
    ensures r.Ok? ==> forall p :: p in dirs ==> IsDir(r.value.0, p)
    ensures r.Ok? ==> forall p :: p !in dirs ==>
      (p in r.value.0 ==> p in fs) && (p in fs ==> p in r.value.0 && r.value.0[p] == fs[p])
  {
    var made :- CreateDirs(fs, dirs);
    var lines :- DagFile(c, made, iDir, listing, copyIn, []);
    Ok((made, lines))
  }

  /** With no directory in the way, an odd number of acceptable inputs fails the DAG writer. */
  lemma {:induction false} OddInputsFail(fs: Fs, dirs: seq<string>, c: DelphesConfig, iDir: string, listing: seq<string>,
                                         copyIn: seq<(string, string)>)
    requires NoFileIn(fs, dirs)
    requires |InputFiles(CreateDirs(fs, dirs).value, iDir, listing)| % 2 == 1
    ensures DirsThenDag(fs, dirs, c, iDir, listing, copyIn).Err?
  {
    assert InputFiles(CreateDirs(fs, dirs).value, iDir, listing) != [];
  }

  /**
   * `submit_delphes_jobs_htcondor`: the checks, the directories (each through
   * `check_create_dir`), the two copy-in entries (the zipped installation and the cards) and
   * the DAG. The listing of the input directory, the user name, date and time are parameters.
   */
  function Submit(fs: Fs, delphesDir: string, a: DelphesArgs, listing: seq<string>, logname: string, date: string,
                  time: string): (r: Result<DelphesSubmission>)
    // a failed check is the result
    ensures Checks(fs, delphesDir, a).Err? ==> r == Err(Checks(fs, delphesDir, a).error)
    // otherwise the directories and the DAG decide, with their errors
    ensures Checks(fs, delphesDir, a).Ok? ==>
      var rest := DirsThenDag(fs, SubmitDirs(a, logname, date, time), SubmitConfig(a, date, time), StrippedInputDir(a),
                              listing, SubmitCopyIn(a, logname));
      (rest.Err? ==> r == Err(rest.error)) &&
      (rest.Ok? ==> r.Ok? && r.value.fs == rest.value.0 && r.value.dagLines == rest.value.1)
    ensures r.Ok? ==>
      var s := r.value;
      var stem := FileStem(a, date, time);
      Checks(fs, delphesDir, a).Ok? &&
      s.oDir == OutputDir(a) && s.logDir == GenerateSubdir(a.card, date) + "/logs" &&
      s.dagName == stem + ".dag" && s.statusName == stem + ".status" &&
      s.copyIn == SubmitCopyIn(a, logname) &&
      SubmitConfig(a, date, time) ==
        DelphesConfig(a.card, Basename(a.card), s.oDir, a.inputType, "HTCondor/runDelphes.condor", s.statusName, s.logDir, LogName(s.dagName))
  {
    var _ :- Checks(fs, delphesDir, a);
    var stem := FileStem(a, date, time);
    var done :- DirsThenDag(fs, SubmitDirs(a, logname, date, time), SubmitConfig(a, date, time), StrippedInputDir(a),
                            listing, SubmitCopyIn(a, logname));
    Ok(DelphesSubmission(done.0, OutputDir(a), GenerateSubdir(a.card, date) + "/logs", stem + ".dag", stem + ".status",
                         SubmitCopyIn(a, logname), done.1))
  }

  /**
   * A submission succeeds exactly when the checks pass, none of the output, log, stem and zip
   * directories is a regular file, and the DAG can be written; it then has made all four
   * directories and changed nothing else.
   */
  lemma {:induction false} SubmitSucceeds(fs: Fs, delphesDir: string, a: DelphesArgs, listing: seq<string>,
                                          logname: string, date: string, time: string)
    ensures var dirs := SubmitDirs(a, logname, date, time);
      Submit(fs, delphesDir, a, listing, logname, date, time).Ok? <==>
        Checks(fs, delphesDir, a).Ok? && NoFileIn(fs, dirs) &&
        DagFile(SubmitConfig(a, date, time), CreateDirs(fs, dirs).value, StrippedInputDir(a), listing, SubmitCopyIn(a, logname), []).Ok?
    ensures var r := Submit(fs, delphesDir, a, listing, logname, date, time);
      var dirs := SubmitDirs(a, logname, date, time);
      r.Ok? ==>
        (forall p :: p in dirs ==> IsDir(r.value.fs, p)) &&
        (forall p :: p !in dirs ==> (p in r.value.fs ==> p in fs) && (p in fs ==> p in r.value.fs && r.value.fs[p] == fs[p]))
  {
  }

  /**
   * Once the checks pass and no directory is in the way, an odd number of acceptable input
   * files makes the whole submission fail: the writer's padding reaches `stem`.
   */
  lemma {:induction false} SubmitOddFails(fs: Fs, delphesDir: string, a: DelphesArgs, listing: seq<string>,
                                          logname: string, date: string, time: string)
    requires Checks(fs, delphesDir, a).Ok?
    requires var dirs := SubmitDirs(a, logname, date, time);
      NoFileIn(fs, dirs) &&
      |InputFiles(CreateDirs(fs, dirs).value, StrippedInputDir(a), listing)| % 2 == 1
    ensures Submit(fs, delphesDir, a, listing, logname, date, time).Err?
  {
    OddInputsFail(fs, SubmitDirs(a, logname, date, time), SubmitConfig(a, date, time), StrippedInputDir(a),
                  listing, SubmitCopyIn(a, logname));
  }
}
