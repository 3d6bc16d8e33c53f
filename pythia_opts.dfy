/**
 * The options class of the Pythia 8 generator, `PythiaProgramOpts`, in the version whose
 * constructor lives in its own source file. The model starts from the values the
 * command-line parser has collected and follows the constructor body: the `--help` exit,
 * which comes before `notify`; the required `--card`; the check that the card exists; and
 * the resolution of each requested output file name. Renderings of the two floating-point
 * options (mass and energy) are supplied by the caller as `show`.
 *
 * The suffix test `checkExtension` and the "append the extension if missing" step are
 * shared with the two older versions of the class.
 */
module ProgramOpts {
  import opened Wrappers
  import opened Text
  import opened Paths
  import opened FileSystem
  import PythiaCondor

  // ---------------------------------------------------------------------------
  // Shared by the three versions
  // ---------------------------------------------------------------------------

  /** The value `notify` leaves in a bound variable: the one parsed, else the one it held. */
  function Given<T>(v: Option<T>, d: T): T { if v.Some? then v.value else d }

  /** A `bool_switch` bound with `default_value(d)`: on when given, else `d`. */
  function Switch(given: bool, d: bool): bool { given || d }

  /** The output formats and the extension each is written with. */
  datatype Format = HepMC | LHE | ROOT

  function Extension(f: Format): (e: string)
    ensures |e| >= 2 && e[0] == '.' && IsLower(e)
  {
    match f
    case HepMC => ".hepmc"
    case LHE => ".lhe"
    case ROOT => ".root"
  }

  /**
   * `checkExtension(filename, ext)`: the file name, lower-cased, ends with `ext`
   * (`CheckExtensionLowered`), compared here one character at a time from the cut.
   */
  function CheckExtension(filename: string, ext: string): bool
  {
    |ext| <= |filename| && FoldsTo(filename[|filename| - |ext|..], ext)
  }

  /** `s` lower-cased is `ext`. */
  function FoldsTo(s: string, ext: string): bool
    decreases |s|
  {
    |s| == |ext| && (s == [] || (LowerChar(s[0]) == ext[0] && FoldsTo(s[1..], ext[1..])))
  }

  lemma {:induction false} FoldsToChars(s: string, ext: string)
    ensures FoldsTo(s, ext) <==> (|s| == |ext| && forall k :: 0 <= k < |s| ==> LowerChar(s[k]) == ext[k])
    decreases |s|
  {
    if |s| == |ext| && s != [] {
      FoldsToChars(s[1..], ext[1..]);
      assert forall k :: 1 <= k < |s| ==> s[1..][k - 1] == s[k] && ext[1..][k - 1] == ext[k];
    }
  }

  /** The test character by character: the last `|ext|` characters, lower-cased, spell `ext`. */
  lemma {:induction false} CheckExtensionChars(filename: string, ext: string)
    ensures CheckExtension(filename, ext) <==> (|ext| <= |filename| &&
      forall k :: 0 <= k < |ext| ==> LowerChar(filename[|filename| - |ext| + k]) == ext[k])
  {
    if |ext| <= |filename| {
      var tail := filename[|filename| - |ext|..];
      FoldsToChars(tail, ext);
      assert forall k :: 0 <= k < |ext| ==> tail[k] == filename[|filename| - |ext| + k];
    }
  }

  /** The test is the source's: lower-case the whole name, then `ends_with`. */
  lemma {:induction false} CheckExtensionLowered(filename: string, ext: string)
    ensures CheckExtension(filename, ext) <==> EndsWith(Lower(filename), ext)
  {
    var low := Lower(filename);
    CheckExtensionChars(filename, ext);
    assert EndsWith(low, ext) <==> |ext| <= |low| && forall k :: 0 <= k < |ext| ==> low[|low| - |ext| + k] == ext[k];
  }

  /** The test ignores the case of the file name: ".HEPMC" and ".HepMC" pass for ".hepmc". */
  lemma {:induction false} CheckExtensionIgnoresCase(f: string, g: string, ext: string)
    requires |f| == |g| && forall i :: 0 <= i < |f| ==> LowerChar(f[i]) == LowerChar(g[i])
    ensures CheckExtension(f, ext) == CheckExtension(g, ext)
  {
    CheckExtensionChars(f, ext);
    CheckExtensionChars(g, ext);
    if CheckExtension(f, ext) {
      forall k | 0 <= k < |ext|
        ensures LowerChar(g[|g| - |ext| + k]) == ext[k]
      {
        assert LowerChar(f[|f| - |ext| + k]) == ext[k];
      }
    }
    if CheckExtension(g, ext) {
      forall k | 0 <= k < |ext|
        ensures LowerChar(f[|f| - |ext| + k]) == ext[k]
      {
        assert LowerChar(g[|g| - |ext| + k]) == ext[k];
      }
    }
  }

  /** A name with a lower-case extension appended passes the test for it. */
  lemma {:induction false} CheckExtensionOfAppended(name: string, ext: string)
    ensures IsLower(ext) ==> CheckExtension(name + ext, ext)
  {
    var r := name + ext;
    CheckExtensionChars(r, ext);
    if IsLower(ext) {
      assert r[|name|..] == ext;
      forall k | 0 <= k < |ext|
        ensures LowerChar(r[|name| + k]) == ext[k]
      {
        assert r[|name| + k] == r[|name|..][k];
      }
    }
  }

  /**
   * `if (!checkExtension(name, ext)) name += ext;`: afterwards the name passes the test,
   * and a name that passed already is left alone.
   */
  function WithExtension(name: string, ext: string): (r: string)
    ensures IsLower(ext) ==> CheckExtension(r, ext)
    ensures CheckExtension(name, ext) ==> r == name
    ensures !CheckExtension(name, ext) ==> r == name + ext
  {
    if CheckExtension(name, ext) then name
    else
      CheckExtensionOfAppended(name, ext);
      name + ext
  }

  /** Appending the extension is idempotent. */
  lemma {:induction false} WithExtensionIdempotent(name: string, ext: string)
    requires IsLower(ext)
    ensures WithExtension(WithExtension(name, ext), ext) == WithExtension(name, ext)
  {
  }

  /** The message of the `runtime_error` for a card that does not exist. */
  function CardMissing(card: string): string { "Input card \"" + card + "\" does not exist" }

  // ---------------------------------------------------------------------------
  // The class
  // ---------------------------------------------------------------------------

  /** What the parser collected; `None` and `false` stand for an option not given. */
  datatype Args = Args(
    help: bool,
    card: Option<string>,
    number: Option<int>,
    mass: Option<real>,
    seed: Option<int>,
    energy: Option<real>,
    diMuFilter: bool,
    hepmc: Option<string>,   // `--hepmc` alone gives its implicit value ""
    lhe: Option<string>,
    root: Option<string>,
    printEvent: bool,
    verbose: bool,
    zip: bool)

  function Requested(a: Args, f: Format): Option<string>
  {
    match f
    case HepMC => a.hepmc
    case LHE => a.lhe
    case ROOT => a.root
  }

  /** One format's pair of members, `writeToX_` and `filenameX_`. */
  datatype OutputFile = OutputFile(write: bool, filename: string)

  /** The value of every member of the class. */
  datatype Settings = Settings(
    cardName: string,
    nEvents: int,
    mass: real,
    seed: int,
    energy: real,
    diMuFilter: bool,
    hepmc: OutputFile,
    lhe: OutputFile,
    root: OutputFile,
    printEvent: bool,
    verbose: bool,
    zip: bool)

  function Output(s: Settings, f: Format): OutputFile
  {
    match f
    case HepMC => s.hepmc
    case LHE => s.lhe
    case ROOT => s.root
  }

  const NoOutput := OutputFile(false, "")

  /** The member initialiser list. */
  const Defaults := Settings("", 1, 8.0, 0, 13.0, false, NoOutput, NoOutput, NoOutput, false, false, true)

  class Opts {
    var cardName: string
    var nEvents: int
    var mass: real
    var seed: int
    var energy: real
    var diMuFilter: bool
    var writeToHEPMC: bool
    var filenameHEPMC: string
    var writeToLHE: bool
    var filenameLHE: string
    var writeToROOT: bool
    var filenameROOT: string
    var printEvent: bool
    var verbose: bool
    var zip: bool

    /**
     * The member initialiser list, then what `po::notify` writes into the bound members:
     * each option the parser holds a value for, given or registered as its default.
     */
    constructor (a: Args)
      ensures Snapshot() == Notified(Defaults, a)
    {
      cardName, nEvents, mass := Given(a.card, ""), Given(a.number, 1), Given(a.mass, 8.0);
      seed, energy, diMuFilter := Given(a.seed, 0), Given(a.energy, 13.0), Switch(a.diMuFilter, false);
      writeToHEPMC, filenameHEPMC := false, Given(a.hepmc, "");
      writeToLHE, filenameLHE := false, Given(a.lhe, "");
      writeToROOT, filenameROOT := false, Given(a.root, "");
      printEvent, verbose, zip := Switch(a.printEvent, false), Switch(a.verbose, false), Switch(a.zip, true);
    }

    function Snapshot(): Settings
      reads this
    {
      Settings(cardName, nEvents, mass, seed, energy, diMuFilter, OutputFile(writeToHEPMC, filenameHEPMC),
               OutputFile(writeToLHE, filenameLHE), OutputFile(writeToROOT, filenameROOT), printEvent, verbose, zip)
    }

    function Stem(show: real -> string): string
      reads this
    {
      GenerateFilenameStem(cardName, show(mass), show(energy), nEvents, seed)
    }

    /** The `--hepmc` block: `writeToHEPMC_ = true`, and an empty name gets the default. */
    method NameHepMC(requested: bool, show: real -> string)
      modifies this`writeToHEPMC, this`filenameHEPMC
      ensures Snapshot() == Named(old(Snapshot()), HepMC, requested, show)
    {
      if requested {
        writeToHEPMC := true;
        if filenameHEPMC == "" { filenameHEPMC := Stem(show) + ".hepmc"; }
      }
    }

    /** The `--lhe` block. */
    method NameLHE(requested: bool, show: real -> string)
      modifies this`writeToLHE, this`filenameLHE
      ensures Snapshot() == Named(old(Snapshot()), LHE, requested, show)
    {
      if requested {
        writeToLHE := true;
        if filenameLHE == "" { filenameLHE := Stem(show) + ".lhe"; }
      }
    }

    /** The `--root` block. */
    method NameROOT(requested: bool, show: real -> string)
      modifies this`writeToROOT, this`filenameROOT
      ensures Snapshot() == Named(old(Snapshot()), ROOT, requested, show)
    {
      if requested {
        writeToROOT := true;
        if filenameROOT == "" { filenameROOT := Stem(show) + ".root"; }
      }
    }
  }

  /** `generateFilenameStem()`: `<card stem>_ma1_<mass>_<energy>TeV_n<nEvents>_seed<seed>`. */
  function GenerateFilenameStem(card: string, mass: string, energy: string, nEvents: int, seed: int): string
  {
    BoostStem(card) + "_ma1_" + mass + "_" + energy + "TeV_n" + IntToString(nEvents) + "_seed" + IntToString(seed)
  }

  /** Runs that differ only in their seed get different default names. */
  lemma {:induction false} GenerateFilenameStemSeparatesSeeds(card: string, mass: string, energy: string, nEvents: int, s1: int, s2: int)
    requires GenerateFilenameStem(card, mass, energy, nEvents, s1) == GenerateFilenameStem(card, mass, energy, nEvents, s2)
    ensures s1 == s2
  {
    var pre := BoostStem(card) + "_ma1_" + mass + "_" + energy + "TeV_n" + IntToString(nEvents) + "_seed";
    assert GenerateFilenameStem(card, mass, energy, nEvents, s1) == pre + IntToString(s1) + "";
    assert GenerateFilenameStem(card, mass, energy, nEvents, s2) == pre + IntToString(s2) + "";
    IntToStringInContext(pre, s1, s2, "");
  }

  /**
   * The HTCondor submitter's default name for a flag given without a value, once it has
   * been seeded with the job index, is the name the executable would have chosen itself
   * for that seed, provided both render the mass and energy alike and the submitter's
   * channel is the card's stem.
   */
  lemma {:induction false} SubmitterDefaultMatches(card: string, channel: string, mass: string, energy: int, nEvents: int, ind: int, f: Format)
    requires channel == BoostStem(card) && '/' !in channel && '/' !in mass
    ensures var fmt := Extension(f)[1..];
      PythiaCondor.SeededName(PythiaCondor.GenerateFilename(channel, mass, energy, IntToString(nEvents), fmt), ind, fmt) ==
      GenerateFilenameStem(card, mass, IntToString(energy), nEvents, ind) + Extension(f)
  {
    var fmt := ExtensionTail(f);
    SubmitterDefaultMatchesFormat(card, channel, mass, energy, nEvents, ind, fmt);
  }

  /** `SubmitterDefaultMatches` for any format name without a dot or a slash. */
  lemma {:induction false} SubmitterDefaultMatchesFormat(card: string, channel: string, mass: string, energy: int, nEvents: int, ind: int, fmt: string)
    requires channel == BoostStem(card) && '/' !in channel && '/' !in mass && '/' !in fmt && '.' !in fmt
    ensures PythiaCondor.SeededName(PythiaCondor.GenerateFilename(channel, mass, energy, IntToString(nEvents), fmt), ind, fmt) ==
      GenerateFilenameStem(card, mass, IntToString(energy), nEvents, ind) + ("." + fmt)
  {
    IntToStringNoSlash(nEvents);
    var stem := GenerateFilenameStem(card, mass, IntToString(energy), nEvents, ind);
    StemOfChannel(card, channel, mass, energy, nEvents, ind);
    PythiaCondor.SeededDefaultName(channel, mass, energy, IntToString(nEvents), fmt, ind);
    assert PythiaCondor.SeededName(PythiaCondor.GenerateFilename(channel, mass, energy, IntToString(nEvents), fmt), ind, fmt) == stem + "." + fmt;
    ConcatAssoc(stem, ".", fmt);
  }

  lemma {:induction false} StemOfChannel(card: string, channel: string, mass: string, energy: int, nEvents: int, ind: int)
    requires channel == BoostStem(card)
    ensures GenerateFilenameStem(card, mass, IntToString(energy), nEvents, ind) ==
      channel + "_ma1_" + mass + "_" + IntToString(energy) + "TeV_n" + IntToString(nEvents) + "_seed" + IntToString(ind)
  {
  }

  /** The extension without its dot: the format name the submitters use. */
  lemma {:induction false} ExtensionTail(f: Format) returns (fmt: string)
    ensures Extension(f) == "." + fmt && fmt == Extension(f)[1..]
    ensures '/' !in fmt && '.' !in fmt
  {
    match f
    case HepMC => fmt := "hepmc";
    case LHE => fmt := "lhe";
    case ROOT => fmt := "root";
  }

  /**
   * The exits and throws of the constructor body, in their order: `--help` exits with
   * status 1 before `notify`, so it wins even without a card; then the required `--card`;
   * then the card must exist.
   */
  function Admission(a: Args, fs: Fs): (r: Result<()>)
    ensures r.Ok? <==> !a.help && a.card.Some? && a.card.value in fs
    ensures a.help ==> r == Err(ProgramExit(1))
    ensures !a.help && a.card.None? ==> r == Err(RequiredOption("card"))
    ensures !a.help && a.card.Some? && a.card.value !in fs ==> r == Err(RuntimeError(CardMissing(a.card.value)))
  {
    if a.help then Err(ProgramExit(1))
    else if a.card.None? then Err(RequiredOption("card"))
    else if a.card.value !in fs then Err(RuntimeError(CardMissing(a.card.value)))
    else Ok(())
  }

  /** `po::notify`: the parsed values are written into the members they are bound to. */
  function Notified(s: Settings, a: Args): Settings
  {
    s.(cardName := Given(a.card, s.cardName), nEvents := Given(a.number, s.nEvents), mass := Given(a.mass, s.mass),
       seed := Given(a.seed, s.seed), energy := Given(a.energy, s.energy),
       diMuFilter := Switch(a.diMuFilter, s.diMuFilter),
       hepmc := s.hepmc.(filename := Given(a.hepmc, s.hepmc.filename)),
       lhe := s.lhe.(filename := Given(a.lhe, s.lhe.filename)),
       root := s.root.(filename := Given(a.root, s.root.filename)),
       printEvent := Switch(a.printEvent, s.printEvent), verbose := Switch(a.verbose, s.verbose), zip := Switch(a.zip, s.zip))
  }

  /** The default stem for the members as they stand. */
  function StemOf(s: Settings, show: real -> string): string
  {
    GenerateFilenameStem(s.cardName, show(s.mass), show(s.energy), s.nEvents, s.seed)
  }

  /** One format's block of the constructor, on that format's members. */
  function Filled(o: OutputFile, stem: string, ext: string): OutputFile
  {
    OutputFile(true, if o.filename == "" then stem + ext else o.filename)
  }

  /** The block for format `f`: when requested, set the flag and fill an empty name. */
  function Named(s: Settings, f: Format, requested: bool, show: real -> string): (t: Settings)
    ensures t.cardName == s.cardName && t.nEvents == s.nEvents && t.mass == s.mass && t.seed == s.seed
    ensures t.energy == s.energy && t.zip == s.zip && t.printEvent == s.printEvent && t.verbose == s.verbose
    ensures t.diMuFilter == s.diMuFilter
    ensures f != HepMC ==> t.hepmc == s.hepmc
    ensures f != LHE ==> t.lhe == s.lhe
    ensures f != ROOT ==> t.root == s.root
    ensures Output(t, f) == if requested then Filled(Output(s, f), StemOf(s, show), Extension(f)) else Output(s, f)
  {
    if !requested then s
    else
      var stem := StemOf(s, show);
      match f
      case HepMC => s.(hepmc := Filled(s.hepmc, stem, ".hepmc"))
      case LHE => s.(lhe := Filled(s.lhe, stem, ".lhe"))
      case ROOT => s.(root := Filled(s.root, stem, ".root"))
  }

  /** The members once the constructor body has run to the end. */
  function Resolved(a: Args, show: real -> string): (s: Settings)
    requires a.card.Some?
    ensures s.cardName == a.card.value
    ensures s.nEvents == Given(a.number, 1) && s.mass == Given(a.mass, 8.0) && s.seed == Given(a.seed, 0)
    ensures s.energy == Given(a.energy, 13.0)
    ensures s.diMuFilter == a.diMuFilter && s.printEvent == a.printEvent && s.verbose == a.verbose
    ensures s.zip
  {
    var s0 := Notified(Defaults, a);
    Named(Named(Named(s0, HepMC, a.hepmc.Some?, show), LHE, a.lhe.Some?, show), ROOT, a.root.Some?, show)
  }

  /**
   * For each format: the write flag is set exactly when the option was given; a name given
   * with the option is kept verbatim, extension or not; the option given alone gets the
   * default stem and the format's extension; and a format not requested keeps an empty name.
   */
  lemma {:induction false} ResolvedOutput(a: Args, show: real -> string, f: Format)
    requires a.card.Some?
    ensures var s := Resolved(a, show);
      && (Output(s, f).write <==> Requested(a, f).Some?)
      && (Output(s, f).filename == "" <==> Requested(a, f).None?)
      && (Requested(a, f).Some? && Requested(a, f).value != "" ==> Output(s, f).filename == Requested(a, f).value)
      && (Requested(a, f) == Some("") ==> Output(s, f).filename == StemOf(s, show) + Extension(f))
  {
    var s0 := Notified(Defaults, a);
    var s1 := Named(s0, HepMC, a.hepmc.Some?, show);
    var s2 := Named(s1, LHE, a.lhe.Some?, show);
    var s3 := Named(s2, ROOT, a.root.Some?, show);
    assert Output(s0, f) == OutputFile(false, Given(Requested(a, f), ""));
    match f
    case HepMC => assert Output(s3, f) == Output(s1, f);
    case LHE => assert Output(s3, f) == Output(s2, f);
    case ROOT =>
  }

  /**
   * `PythiaProgramOpts(argc, argv)`: the constructor body step by step. The initialiser
   * list and the parsed values only meet once `--help` and the required `--card` have been
   * dealt with, which no outcome can tell apart from the source's order. An exit or a throw
   * leaves no object.
   */
  method NewOpts(a: Args, fs: Fs, show: real -> string) returns (r: Result<Opts>)
    ensures r.Err? <==> Admission(a, fs).Err?
    ensures r.Err? ==> r.error == Admission(a, fs).error
    ensures r.Ok? ==> fresh(r.value) && a.card.Some? && r.value.Snapshot() == Resolved(a, show)
  {
    if a.help {
      return Err(ProgramExit(1));
    }
    if a.card.None? {
      return Err(RequiredOption("card"));
    }
    var o := new Opts(a);
    if o.cardName !in fs {
      return Err(RuntimeError(CardMissing(o.cardName)));
    }
    o.NameHepMC(a.hepmc.Some?, show);
    o.NameLHE(a.lhe.Some?, show);
    o.NameROOT(a.root.Some?, show);
    return Ok(o);
  }
}
