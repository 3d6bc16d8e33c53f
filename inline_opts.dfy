/**
 * The header-only version of `PythiaProgramOpts`, whose constructor is written inline in
 * the class. It differs from the later version in three ways: `notify` runs before the
 * `--help` test, so `--help` without `--card` throws instead of exiting; the default name
 * has no energy or event count, only `<card stem>_ma1_<mass>_<seed>`; and every requested
 * name is given the format's extension when it lacks one.
 */
module InlineProgramOpts {
  import opened Wrappers
  import opened Text
  import opened Paths
  import opened FileSystem
  import opened ProgramOpts

  /** What the parser collected; `None` and `false` stand for an option not given. */
  datatype InlineArgs = InlineArgs(
    help: bool,
    card: Option<string>,
    number: Option<int>,
    mass: Option<real>,
    seed: Option<int>,
    hepmc: Option<string>,   // `--hepmc` alone gives its implicit value ""
    lhe: Option<string>,
    root: Option<string>,
    printEvent: bool,
    verbose: bool)

  function InlineRequested(a: InlineArgs, f: Format): Option<string>
  {
    match f
    case HepMC => a.hepmc
    case LHE => a.lhe
    case ROOT => a.root
  }

  /** The value of every member of the class. */
  datatype InlineSettings = InlineSettings(
    cardName: string,
    nEvents: int,
    mass: real,
    seed: int,
    hepmc: OutputFile,
    lhe: OutputFile,
    root: OutputFile,
    printEvent: bool,
    verbose: bool)

  function InlineOutput(s: InlineSettings, f: Format): OutputFile
  {
    match f
    case HepMC => s.hepmc
    case LHE => s.lhe
    case ROOT => s.root
  }

  /** `generateFilename()`: `<card stem>_ma1_<mass>_<seed>`. */
  function GenerateFilename(card: string, mass: string, seed: int): string
  {
    BoostStem(card) + "_ma1_" + mass + "_" + IntToString(seed)
  }

  /** Runs that differ only in their seed get different default names. */
  lemma {:induction false} GenerateFilenameSeparatesSeeds(card: string, mass: string, s1: int, s2: int)
    requires GenerateFilename(card, mass, s1) == GenerateFilename(card, mass, s2)
    ensures s1 == s2
  {
    var pre := BoostStem(card) + "_ma1_" + mass + "_";
    assert GenerateFilename(card, mass, s1) == pre + IntToString(s1) + "";
    assert GenerateFilename(card, mass, s2) == pre + IntToString(s2) + "";
    IntToStringInContext(pre, s1, s2, "");
  }

  function InlineStemOf(s: InlineSettings, show: real -> string): string
  {
    GenerateFilename(s.cardName, show(s.mass), s.seed)
  }

  class InlineOpts {
    var cardName: string
    var nEvents: int
    var mass: real
    var seed: int
    var writeToHEPMC: bool
    var filenameHEPMC: string
    var writeToLHE: bool
    var filenameLHE: string
    var writeToROOT: bool
    var filenameROOT: string
    var printEvent: bool
    var verbose: bool

    /**
     * The member initialiser list (`cardName_("")`, `nEvents_(1)`, `mass_(8.)`, `seed_(0)`,
     * every flag false and every name empty), then what `po::notify` writes into the
     * bound members.
     */
    constructor (a: InlineArgs)
      ensures Snapshot() == InlineNotified(a)
    {
      cardName, nEvents, mass, seed := Given(a.card, ""), Given(a.number, 1), Given(a.mass, 8.0), Given(a.seed, 0);
      writeToHEPMC, filenameHEPMC := false, Given(a.hepmc, "");
      writeToLHE, filenameLHE := false, Given(a.lhe, "");
      writeToROOT, filenameROOT := false, Given(a.root, "");
      printEvent, verbose := Switch(a.printEvent, false), Switch(a.verbose, false);
    }

    function Snapshot(): InlineSettings
      reads this
    {
      InlineSettings(cardName, nEvents, mass, seed, OutputFile(writeToHEPMC, filenameHEPMC),
                     OutputFile(writeToLHE, filenameLHE), OutputFile(writeToROOT, filenameROOT), printEvent, verbose)
    }

    function Stem(show: real -> string): string
      reads this
    {
      GenerateFilename(cardName, show(mass), seed)
    }

    /** The `--hepmc` block: set the flag, fill an empty name, then add a missing extension. */
    method NameHepMC(requested: bool, show: real -> string)
      modifies this`writeToHEPMC, this`filenameHEPMC
      ensures Snapshot() == InlineNamed(old(Snapshot()), HepMC, requested, show)
    {
      if requested {
        ghost var before := Snapshot();
        var ext := Extension(HepMC);
        writeToHEPMC := true;
        if filenameHEPMC == "" { filenameHEPMC := Stem(show) + ext; }
        if !CheckExtension(filenameHEPMC, ext) { filenameHEPMC := filenameHEPMC + ext; }
        assert OutputFile(writeToHEPMC, filenameHEPMC) == Normalised(before.hepmc, InlineStemOf(before, show), ext);
        assert Snapshot() == before.(hepmc := Normalised(before.hepmc, InlineStemOf(before, show), ext));
      }
    }

    /** The `--lhe` block. */
    method NameLHE(requested: bool, show: real -> string)
      modifies this`writeToLHE, this`filenameLHE
      ensures Snapshot() == InlineNamed(old(Snapshot()), LHE, requested, show)
    {
      if requested {
        ghost var before := Snapshot();
        var ext := Extension(LHE);
        writeToLHE := true;
        if filenameLHE == "" { filenameLHE := Stem(show) + ext; }
        if !CheckExtension(filenameLHE, ext) { filenameLHE := filenameLHE + ext; }
        assert OutputFile(writeToLHE, filenameLHE) == Normalised(before.lhe, InlineStemOf(before, show), ext);
        assert Snapshot() == before.(lhe := Normalised(before.lhe, InlineStemOf(before, show), ext));
      }
    }

    /** The `--root` block. */
    method NameROOT(requested: bool, show: real -> string)
      modifies this`writeToROOT, this`filenameROOT
      ensures Snapshot() == InlineNamed(old(Snapshot()), ROOT, requested, show)
    {
      if requested {
        ghost var before := Snapshot();
        var ext := Extension(ROOT);
        writeToROOT := true;
        if filenameROOT == "" { filenameROOT := Stem(show) + ext; }
        if !CheckExtension(filenameROOT, ext) { filenameROOT := filenameROOT + ext; }
        assert OutputFile(writeToROOT, filenameROOT) == Normalised(before.root, InlineStemOf(before, show), ext);
        assert Snapshot() == before.(root := Normalised(before.root, InlineStemOf(before, show), ext));
      }
    }
  }

  /** The members after the initialiser list and `notify`. */
  function InlineNotified(a: InlineArgs): InlineSettings
  {
    InlineSettings(Given(a.card, ""), Given(a.number, 1), Given(a.mass, 8.0), Given(a.seed, 0),
                   OutputFile(false, Given(a.hepmc, "")), OutputFile(false, Given(a.lhe, "")),
                   OutputFile(false, Given(a.root, "")), Switch(a.printEvent, false), Switch(a.verbose, false))
  }

  /**
   * The exits and throws of the constructor, in their order: `notify` throws for a missing
   * `--card` before `--help` is looked at; then `--help` exits with status 1; then the card
   * must exist.
   */
  function InlineAdmission(a: InlineArgs, fs: Fs): (r: Result<()>)
    ensures r.Ok? <==> !a.help && a.card.Some? && a.card.value in fs
    ensures a.card.None? ==> r == Err(RequiredOption("card"))
    ensures a.card.Some? && a.help ==> r == Err(ProgramExit(1))
    ensures !a.help && a.card.Some? && a.card.value !in fs ==> r == Err(RuntimeError(CardMissing(a.card.value)))
  {
    if a.card.None? then Err(RequiredOption("card"))
    else if a.help then Err(ProgramExit(1))
    else if a.card.value !in fs then Err(RuntimeError(CardMissing(a.card.value)))
    else Ok(())
  }

  /** One format's block on its two members: flag set, empty name defaulted, extension made sure of. */
  function Normalised(o: OutputFile, stem: string, ext: string): (r: OutputFile)
    ensures r.write
    ensures IsLower(ext) ==> CheckExtension(r.filename, ext)
  {
    OutputFile(true, WithExtension(if o.filename == "" then stem + ext else o.filename, ext))
  }

  /** Running a format's block again on its own result changes nothing. */
  lemma {:induction false} NormalisedIdempotent(o: OutputFile, stem: string, ext: string)
    requires IsLower(ext) && ext != ""
    ensures Normalised(Normalised(o, stem, ext), stem, ext) == Normalised(o, stem, ext)
  {
    var r := Normalised(o, stem, ext);
    CheckExtensionOfAppended(stem, ext);
    assert r.filename != "";
  }

  /** The block for format `f`, when requested. */
  function InlineNamed(s: InlineSettings, f: Format, requested: bool, show: real -> string): (t: InlineSettings)
    ensures t.cardName == s.cardName && t.nEvents == s.nEvents && t.mass == s.mass && t.seed == s.seed
    ensures t.printEvent == s.printEvent && t.verbose == s.verbose
    ensures f != HepMC ==> t.hepmc == s.hepmc
    ensures f != LHE ==> t.lhe == s.lhe
    ensures f != ROOT ==> t.root == s.root
    ensures InlineOutput(t, f) ==
      if requested then Normalised(InlineOutput(s, f), InlineStemOf(s, show), Extension(f)) else InlineOutput(s, f)
  {
    if !requested then s
    else
      var stem := InlineStemOf(s, show);
      match f
      case HepMC => s.(hepmc := Normalised(s.hepmc, stem, ".hepmc"))
      case LHE => s.(lhe := Normalised(s.lhe, stem, ".lhe"))
      case ROOT => s.(root := Normalised(s.root, stem, ".root"))
  }

  /** The members once the constructor has run to the end. */
  function InlineResolved(a: InlineArgs, show: real -> string): (s: InlineSettings)
    ensures s.cardName == Given(a.card, "")
    ensures s.nEvents == Given(a.number, 1) && s.mass == Given(a.mass, 8.0) && s.seed == Given(a.seed, 0)
    ensures s.printEvent == a.printEvent && s.verbose == a.verbose
  {
    var s0 := InlineNotified(a);
    InlineNamed(InlineNamed(InlineNamed(s0, HepMC, a.hepmc.Some?, show), LHE, a.lhe.Some?, show), ROOT, a.root.Some?, show)
  }

  /**
   * For each format: the write flag is set exactly when the option was given; every
   * requested name ends with the format's extension, in any case; a given name that
   * already did is kept, one that did not gets the extension appended; the option given
   * alone gets the default stem and the extension; a format not requested keeps an empty name.
   */
  lemma {:induction false} InlineResolvedOutput(a: InlineArgs, show: real -> string, f: Format)
    ensures var s := InlineResolved(a, show);
      var given := InlineRequested(a, f);
      && (InlineOutput(s, f).write <==> given.Some?)
      && (given.None? ==> InlineOutput(s, f).filename == "")
      && (given.Some? ==> CheckExtension(InlineOutput(s, f).filename, Extension(f)))
      && (given.Some? && given.value != "" && CheckExtension(given.value, Extension(f)) ==>
           InlineOutput(s, f).filename == given.value)
      && (given.Some? && given.value != "" && !CheckExtension(given.value, Extension(f)) ==>
           InlineOutput(s, f).filename == given.value + Extension(f))
      && (given == Some("") ==> InlineOutput(s, f).filename == InlineStemOf(s, show) + Extension(f))
  {
    var s0 := InlineNotified(a);
    var s1 := InlineNamed(s0, HepMC, a.hepmc.Some?, show);
    var s2 := InlineNamed(s1, LHE, a.lhe.Some?, show);
    var s3 := InlineNamed(s2, ROOT, a.root.Some?, show);
    assert InlineOutput(s0, f) == OutputFile(false, Given(InlineRequested(a, f), ""));
    CheckExtensionOfAppended(InlineStemOf(s0, show), Extension(f));
    match f
    case HepMC => assert InlineOutput(s3, f) == InlineOutput(s1, f);
    case LHE => assert InlineOutput(s3, f) == InlineOutput(s2, f);
    case ROOT =>
  }

  /**
   * `--help` on its own, without `--card`, does not print the help text here: the missing
   * required option is thrown first. The later version exits instead.
   */
  lemma {:induction false} HelpAloneThrows(a: InlineArgs, fs: Fs, b: Args)
    requires a.help && a.card.None? && b.help && b.card.None?
    ensures InlineAdmission(a, fs) == Err(RequiredOption("card"))
    ensures Admission(b, fs) == Err(ProgramExit(1))
  {
  }

  /** The constructor `PythiaProgramOpts(argc, argv)`, step by step. */
  method NewInlineOpts(a: InlineArgs, fs: Fs, show: real -> string) returns (r: Result<InlineOpts>)
    ensures r.Err? <==> InlineAdmission(a, fs).Err?
    ensures r.Err? ==> r.error == InlineAdmission(a, fs).error
    ensures r.Ok? ==> fresh(r.value) && r.value.Snapshot() == InlineResolved(a, show)
  {
    if a.card.None? {
      return Err(RequiredOption("card"));
    }
    var o := new InlineOpts(a);
    if a.help {
      return Err(ProgramExit(1));
    }
    if o.cardName !in fs {
      return Err(RuntimeError(CardMissing(o.cardName)));
    }
    o.NameHepMC(a.hepmc.Some?, show);
    o.NameLHE(a.lhe.Some?, show);
    o.NameROOT(a.root.Some?, show);
    return Ok(o);
  }
}
