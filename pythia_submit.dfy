/**
 * What the two Pythia 8 submitters (HTCondor and PBS) share: the checks made before any
 * job is written, the events-per-job lookup and the setting of the mass in the argument
 * list. The two scripts carry identical copies of this code.
 */
module PythiaSubmit {
  import opened Wrappers
  import opened Text
  import opened Paths
  import opened Lists
  import opened ArgOptions
  import opened JobSpace

  /** The output formats, in the order the writer visits them. */
  const Formats: seq<string> := ["hepmc", "root", "lhe"]

  /** `'%s' % v` for a value read from the argument list. */
  function Show(v: Option<string>): string { if v.Some? then v.value else "None" }

  /** The events-per-job text: `--number`, else `-n`, else 1. */
  function NEventsText(args: seq<string>): (n: string)
    ensures "--number" in args ==> n == Show(GetOption(args, "--number").value)
    ensures "--number" !in args && "-n" in args ==> n == Show(GetOption(args, "-n").value)
    ensures "--number" !in args && "-n" !in args ==> n == "1"
  {
    if "--number" in args then Show(GetOption(args, "--number").value)
    else if "-n" in args then Show(GetOption(args, "-n").value)
    else "1"
  }

  /**
   * The checks the submitter makes before writing anything, in its order: the executable
   * exists, the job-ID range is valid, `--card` is given with a value and names an existing
   * file. On success, the channel: the card's basename without its extension.
   * `files` stands for the paths that are existing regular files.
   */
  function SubmitChecks(args: seq<string>, exe: string, files: set<string>, first: int, last: int): (r: Result<string>)
    ensures exe !in files ==> r == Err(RuntimeError("Executable " + exe + " does not exist"))
    ensures exe in files && !CheckJobIdRange(first, last).Ok? ==> r == Err(CheckJobIdRange(first, last).error)
    ensures exe in files && CheckJobIdRange(first, last).Ok? && "--card" !in args ==> r == Err(KeyError("--card"))
    ensures r.Ok? <==> (exe in files && 1 <= first <= last && "--card" in args &&
      Truthy(GetOption(args, "--card").value) && GetOption(args, "--card").value.value in files)
    ensures r.Ok? ==> r.value == Root(Basename(GetOption(args, "--card").value.value))
  {
    if exe !in files then Err(RuntimeError("Executable " + exe + " does not exist"))
    else
      var _ :- CheckJobIdRange(first, last);
      var card :- GetOption(args, "--card");
      if !Truthy(card) then Err(RuntimeError("You did not specify an input card!"))
      else if card.value !in files then Err(RuntimeError("Input card " + card.value + " does not exist!"))
      else Ok(Root(Basename(card.value)))
  }

  /** The user arguments with the mass set: overwritten when `--mass` is present, appended otherwise. */
  function WithMass(args: seq<string>, mass: string): (r: seq<string>)
    ensures "--mass" in args ==> r == SetOption(args, "--mass", mass).value
    ensures "--mass" !in args ==> r == args + ["--mass", mass]
    ensures "--mass" in r && forall t :: t in args && IsFlagToken(t) ==> t in r
  {
    if "--mass" in args then
      SetKeepsFlags(args, "--mass", mass);
      SetOption(args, "--mass", mass).value
    else
      args + ["--mass", mass]
  }

  /** After `WithMass`, `--mass` reads back as the mass, under the round-trip conditions of the setter. */
  lemma {:induction false} WithMassReadBack(args: seq<string>, mass: string)
    requires mass != "" && !IsFlagToken(mass) && mass != "--mass"
    requires "--mass" in args && args[|args| - 1] == "--mass" ==> IndexOf(args, "--mass") == |args| - 1
    requires "--mass" in args && ValuePos(args, "--mass") < |args| ==> args[ValuePos(args, "--mass")] != ""
    ensures GetOption(WithMass(args, mass), "--mass") == Ok(Some(mass))
  {
    if "--mass" in args {
      GetAfterSet(args, "--mass", mass);
    } else {
      var r := args + ["--mass", mass];
      assert r[|args|] == "--mass";
      assert IndexOf(r, "--mass") == |args|;
    }
  }
}
