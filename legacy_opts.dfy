/**
 * The oldest `PythiaProgramOpts`, for the h(125) -> a1 a1 generator. Here the write flags
 * are plain switches and the file names come from the separate `--nameHEPMC` and
 * `--nameLHE` options; `--card` is not required and is not checked. After the `--help`
 * exit the constructor fills an empty name with `ma1_<mass>_<channel>_<seed>.<ext>`, where
 * the channel is the card's stem, and then gives each name its extension when it lacks one,
 * whether or not that format is written.
 */
module LegacyProgramOpts {
  import opened Wrappers
  import opened Text
  import opened Paths
  import opened ProgramOpts

  /** What the parser collected; `None` and `false` stand for an option not given. */
  datatype LegacyArgs = LegacyArgs(
    help: bool,
    printEvent: bool,
    hepmc: bool,
    lhe: bool,
    number: Option<int>,
    nameHEPMC: Option<string>,
    nameLHE: Option<string>,
    mass: Option<real>,
    seed: Option<int>,
    verbose: bool,
    root: bool,
    card: Option<string>)

  /** The value of every member of the class. */
  datatype LegacySettings = LegacySettings(
    printEvent: bool,
    writeToHEPMC: bool,
    writeToLHE: bool,
    nEvents: int,
    filenameHEPMC: string,
    filenameLHE: string,
    mass: real,
    verbose: bool,
    seed: int,
    rootHists: bool,
    cardName: string)

  /** The default name: `ma1_<mass>_<channel>_<seed><ext>`. */
  function LegacyDefaultName(mass: string, channel: string, seed: int, ext: string): string
  {
    "ma1_" + mass + "_" + channel + "_" + IntToString(seed) + ext
  }

  /** Runs that differ only in their seed get different default names. */
  lemma {:induction false} LegacyDefaultSeparatesSeeds(mass: string, channel: string, s1: int, s2: int, ext: string)
    requires LegacyDefaultName(mass, channel, s1, ext) == LegacyDefaultName(mass, channel, s2, ext)
    ensures s1 == s2
  {
    var pre := "ma1_" + mass + "_" + channel + "_";
    assert LegacyDefaultName(mass, channel, s1, ext) == pre + IntToString(s1) + ext;
    assert LegacyDefaultName(mass, channel, s2, ext) == pre + IntToString(s2) + ext;
    IntToStringInContext(pre, s1, s2, ext);
  }

  /** An empty name is replaced by `dflt`, and the result is given `ext` when it lacks it. */
  function LegacyName(name: string, dflt: string, ext: string): (r: string)
    ensures IsLower(ext) ==> CheckExtension(r, ext)
  {
    WithExtension(if name == "" then dflt else name, ext)
  }

  /**
   * The two steps together: the result ends with `ext` in any case; a non-empty name that
   * already did is kept, one that did not gets `ext` appended, and an empty name becomes the
   * default `stem + ext`, which already carries its extension.
   */
  lemma {:induction false} LegacyNameCases(name: string, stem: string, ext: string)
    requires IsLower(ext)
    ensures CheckExtension(LegacyName(name, stem + ext, ext), ext)
    ensures name != "" && CheckExtension(name, ext) ==> LegacyName(name, stem + ext, ext) == name
    ensures name != "" && !CheckExtension(name, ext) ==> LegacyName(name, stem + ext, ext) == name + ext
    ensures name == "" ==> LegacyName(name, stem + ext, ext) == stem + ext
  {
    CheckExtensionOfAppended(stem, ext);
  }

  class LegacyOpts {
    var printEvent: bool
    var writeToHEPMC: bool
    var writeToLHE: bool
    var nEvents: int
    var filenameHEPMC: string
    var filenameLHE: string
    var mass: real
    var verbose: bool
    var seed: int
    var rootHists: bool
    var cardName: string

    /**
     * The member initialiser list (every switch false, `nEvents_(1)`, `mass_(15.)`,
     * `seed_(0)`, empty names and card), then what `po::notify` writes into the bound members.
     */
    constructor (a: LegacyArgs)
      ensures Snapshot() == LegacyNotified(a)
    {
      printEvent, writeToHEPMC, writeToLHE := Switch(a.printEvent, false), Switch(a.hepmc, false), Switch(a.lhe, false);
      nEvents, filenameHEPMC, filenameLHE := Given(a.number, 1), Given(a.nameHEPMC, ""), Given(a.nameLHE, "");
      mass, verbose, seed := Given(a.mass, 15.0), Switch(a.verbose, false), Given(a.seed, 0);
      rootHists, cardName := Switch(a.root, false), Given(a.card, "");
    }

    function Snapshot(): LegacySettings
      reads this
    {
      LegacySettings(printEvent, writeToHEPMC, writeToLHE, nEvents, filenameHEPMC, filenameLHE, mass, verbose,
                     seed, rootHists, cardName)
    }

    /** The two default names, for the channel `path(cardName_).stem()`. */
    method SetupFilenames(show: real -> string)
      modifies this`filenameHEPMC, this`filenameLHE
      ensures Snapshot() == Defaulted(old(Snapshot()), show)
    {
      var channel := BoostStem(cardName);
      if filenameHEPMC == "" {
        filenameHEPMC := "ma1_" + show(mass) + "_" + channel + "_" + IntToString(seed) + Extension(HepMC);
      }
      if filenameLHE == "" {
        filenameLHE := "ma1_" + show(mass) + "_" + channel + "_" + IntToString(seed) + Extension(LHE);
      }
    }

    /** The two extension checks, on lower-cased copies of the names. */
    method AddExtensions()
      modifies this`filenameHEPMC, this`filenameLHE
      ensures Snapshot() == Extended(old(Snapshot()))
    {
      var filenameHEPMClower := Lower(filenameHEPMC);
      if !EndsWith(filenameHEPMClower, Extension(HepMC)) {
        filenameHEPMC := filenameHEPMC + Extension(HepMC);
      }
      var filenameLHElower := Lower(filenameLHE);
      if !EndsWith(filenameLHElower, Extension(LHE)) {
        filenameLHE := filenameLHE + Extension(LHE);
      }
      CheckExtensionLowered(old(filenameHEPMC), Extension(HepMC));
      CheckExtensionLowered(old(filenameLHE), Extension(LHE));
    }
  }

  /** The members after the initialiser list and `notify`. */
  function LegacyNotified(a: LegacyArgs): LegacySettings
  {
    LegacySettings(Switch(a.printEvent, false), Switch(a.hepmc, false), Switch(a.lhe, false), Given(a.number, 1),
                   Given(a.nameHEPMC, ""), Given(a.nameLHE, ""), Given(a.mass, 15.0), Switch(a.verbose, false),
                   Given(a.seed, 0), Switch(a.root, false), Given(a.card, ""))
  }

  /** The default-name step. */
  function Defaulted(s: LegacySettings, show: real -> string): LegacySettings
  {
    var channel := BoostStem(s.cardName);
    s.(filenameHEPMC := if s.filenameHEPMC == "" then LegacyDefaultName(show(s.mass), channel, s.seed, Extension(HepMC)) else s.filenameHEPMC,
       filenameLHE := if s.filenameLHE == "" then LegacyDefaultName(show(s.mass), channel, s.seed, Extension(LHE)) else s.filenameLHE)
  }

  /** The extension step. */
  function Extended(s: LegacySettings): LegacySettings
  {
    s.(filenameHEPMC := WithExtension(s.filenameHEPMC, Extension(HepMC)), filenameLHE := WithExtension(s.filenameLHE, Extension(LHE)))
  }

  /** The members once the constructor has run to the end. */
  function LegacyResolved(a: LegacyArgs, show: real -> string): (s: LegacySettings)
    ensures s.writeToHEPMC == a.hepmc && s.writeToLHE == a.lhe && s.rootHists == a.root
    ensures s.printEvent == a.printEvent && s.verbose == a.verbose
    ensures s.cardName == Given(a.card, "")
    ensures s.nEvents == Given(a.number, 1) && s.mass == Given(a.mass, 15.0) && s.seed == Given(a.seed, 0)
  {
    Extended(Defaulted(LegacyNotified(a), show))
  }

  /**
   * Each name is an empty-or-absent option replaced by the default for the card's stem, then
   * given its extension, whether or not that format is written; `LegacyNameCases` spells out
   * the cases.
   */
  lemma {:induction false} LegacyResolvedNames(a: LegacyArgs, show: real -> string)
    ensures var s := LegacyResolved(a, show);
      var channel := BoostStem(Given(a.card, ""));
      && s.filenameHEPMC == LegacyName(Given(a.nameHEPMC, ""), LegacyDefaultName(show(s.mass), channel, s.seed, Extension(HepMC)), Extension(HepMC))
      && s.filenameLHE == LegacyName(Given(a.nameLHE, ""), LegacyDefaultName(show(s.mass), channel, s.seed, Extension(LHE)), Extension(LHE))
  {
  }

  /** Both names end with their extension, whatever the options. */
  lemma {:induction false} LegacyResolvedExtensions(a: LegacyArgs, show: real -> string)
    ensures CheckExtension(LegacyResolved(a, show).filenameHEPMC, Extension(HepMC))
    ensures CheckExtension(LegacyResolved(a, show).filenameLHE, Extension(LHE))
  {
    LegacyResolvedNames(a, show);
  }

  /** `PythiaProgramOpts(argc, argv)`, step by step; `--help` exits with status 1. */
  method NewLegacyOpts(a: LegacyArgs, show: real -> string) returns (r: Result<LegacyOpts>)
    ensures r.Err? <==> a.help
    ensures r.Err? ==> r.error == ProgramExit(1)
    ensures r.Ok? ==> fresh(r.value) && r.value.Snapshot() == LegacyResolved(a, show)
  {
    var o := new LegacyOpts(a);
    if a.help {
      return Err(ProgramExit(1));
    }
    o.SetupFilenames(show);
    o.AddExtensions();
    return Ok(o);
  }
}
