# NMSSMPheno batch-job core, modelled in Dafny

NMSSMPheno produces Monte Carlo samples for NMSSM light-pseudoscalar (a1) studies. It splits each workflow into many batch jobs. This project models the string- and list-level logic underneath that machinery, and proves properties of it:

- **The submitters.** Pythia 8 for HTCondor and PBS, the legacy Pythia submitter, MG5_aMC, `submitMG5_dag.py` and Delphes. This covers:
  - the tolerant and strict `get_option_in_args`/`set_option_in_args` helpers;
  - job-ID and mass-range checks and `frange`;
  - per-job node names, seeds and output names;
  - staging options and the DAG text;
  - condor-file templating;
  - the PBS `qsub` command.
- **Card templating.** `make_card` and `get_value_from_card`.
- **The worker scripts.** The Pythia and MG5 `mcJob.py` and `runDelphes.py`. Each is modelled as the sequence of actions it issues (hadoop get/put, file or tree copy, skip, mkdir, chdir, chmod, the program call) over an abstract file system, together with the exception that stops it.
- **MadAnalysis.** File-list selection in `run_ma.py`.
- **The C++ `PythiaProgramOpts`.** All three versions: the one in `src/`, the header-only one in `include/`, and the legacy header. Each is a class whose members the constructor sets step by step, proved against a function of the parsed options.
- **`RootHistManager`.** The current and the legacy version: a class holding a map from names to fill logs and a `store` switch.

The modules follow the repository's files:

| Module | What it models |
|---|---|
| `ArgOptions` | the option helpers |
| `JobSpace` | ID ranges, `frange` and seeds |
| `Dag` | the shared DAG line layout |
| `PythiaSubmit`, `PythiaCondor`, `PythiaPbs`, `LegacyPythia` | the Pythia submitters |
| `Mg5Submit`, `Mg5Card`, `Mg5Dag`, `Mg5Worker` | the MG5_aMC scripts |
| `Cards` | `get_value_from_card` |
| `DelphesSubmit`, `DelphesWorker` | the Delphes scripts |
| `Staging` | worker-side copy dispatch |
| `PythiaWorker` | the Pythia worker |
| `MadAnalysis` | `run_ma.py` |
| `ProgramOpts`, `InlineProgramOpts`, `LegacyProgramOpts` | the options classes |
| `RootHist` | the histogram managers |

`Text`, `Paths`, `Lists`, `FileSystem` and `Wrappers` hold the shared helpers:

- Python's `str` methods;
- `posixpath` and `boost::filesystem::path::stem`;
- list utilities;
- the file-system map;
- `Option`/`Result`.

Imperative code keeps its form. Loops become `while` loops with invariants, and `make_card` rewrites an array in place. Each loop is proved equal to a specification function, and the properties are stated about that function.

## Model

| member | source | states |
|---|---|---|
| ArgOptions.GetOption | Pythia/submit_py8_jobs_htcondor.py:328-354 | KeyError exactly when the flag is absent; `None` exactly when the flag is the last token or the token after its first occurrence starts with `-`; otherwise that token |
| ArgOptions.SetOption | Pythia/submit_py8_jobs_htcondor.py:357-384 | KeyError exactly when the flag is absent; a truthy value is overwritten in place and nothing else changes; with the flag last the value is appended; before a flag token it is inserted; after an empty token the list is left unchanged |
| ArgOptions.GetAfterSet | Pythia/submit_py8_jobs_htcondor.py:357-384 | setting then reading gives the value back, for a non-empty value that does not start with `-`, no `""` after the flag and no repeated last flag |
| ArgOptions.ReadValue | Pythia/submit_py8_jobs_htcondor.py:349-354 | what `get_option_in_args` reads from the token after the flag: None exactly for a token starting with `-`, otherwise the token |
| ArgOptions.ReplaceReadBack | Pythia/submit_py8_jobs_htcondor.py:376-377 | when the flag holds a truthy value the set succeeds and reading gives back the new value, or None when the new value starts with `-` |
| ArgOptions.SetKeepsFlags | Pythia/submit_py8_jobs_htcondor.py:357-384 | setting a flag keeps every flag token of the list |
| ArgOptions.RepeatedLastFlagDefeatsSet | Pythia/submit_py8_jobs_htcondor.py:376-381 | a flag both repeated and last: the value is appended after the second copy while reading still finds the first |
| ArgOptions.EmptyValueDefeatsSet | Pythia/submit_py8_jobs_htcondor.py:376-384 | an empty token after the flag makes setting a no-op |
| ArgOptions.SetKeepsTrailingRun | Pythia/submit_py8_jobs_htcondor.py:245-273 | setting a flag placed before a trailing run that starts with a flag (the appended `--seed <ind>`) leaves that run at the end |
| ArgOptions.SetPlacesValue | Pythia/submit_py8_jobs_htcondor.py:376-384 | when the old value is a non-empty string the new value is in the list; when it is `""` the list is unchanged |
| ArgOptions.SetKeepsFlag | Pythia/submit_py8_jobs_htcondor.py:376-384 | the flag is still in the list after setting |
| ArgOptions.GetOptionStrict | Pythia/submit_mc_jobs_htcondor.py:263-272 | KeyError when the flag is absent, IndexError when it is last, otherwise the next token |
| ArgOptions.SetOptionStrict | Pythia/submit_mc_jobs_htcondor.py:275-283 | ValueError when the flag is absent, IndexError when it is last, otherwise exactly the token after the flag is replaced |
| ArgOptions.StrictGetAfterSet | Pythia/submit_mc_jobs_htcondor.py:263-283 | the strict setter fails exactly when the strict getter does, and reading back after it gives the value |
| Cards.CardValue | MG5_aMC/submit_mg5_jobs_htcondor.py:300-311 | a value found is a non-empty token with no whitespace; the only failure is `split()[-1]` on a blank line, possible only for the empty field |
| Cards.CardValueAt | MG5_aMC/submit_mg5_jobs_htcondor.py:308-311 | the value is the last token of the first line whose stripped text contains the field |
| Cards.CardValueNone | MG5_aMC/submit_mg5_jobs_htcondor.py:308-311 | `None` exactly when no line mentions the field |
| Cards.CardValueSkip | MG5_aMC/submit_mg5_jobs_htcondor.py:308-311 | lines before the first mention do not change the result |
| Cards.GetValueFromCard | MG5_aMC/HTCondor/mcJob.py:151-162 | the loop over the card's lines returns what `CardValue` specifies |
| Cards.EnergyTeV | MG5_aMC/submit_mg5_jobs_htcondor.py:112 | TypeError for a missing `ebeam1`, ValueError for a non-integer token, otherwise the floor of twice the beam energy over 1000 |
| Cards.EnergyExamples | MG5_aMC/HTCondor/mcJob.py:95 | 6500 GeV beams give 13, 4000 give 8, `6500.0` is rejected |
| Cards.EnergyOfRendered | MG5_aMC/HTCondor/mcJob.py:95 | an integer beam energy rendered as text is read back and converted exactly |
| Dag.NodeNameInjective | Pythia/submit_py8_jobs_htcondor.py:234 | distinct job IDs give distinct node names `<ind>_<channel>` |
| Dag.JobLineInjective | Pythia/submit_py8_jobs_htcondor.py:235 | distinct job IDs give distinct `JOB` lines |
| Dag.NodesAt | Pythia/submit_py8_jobs_htcondor.py:233-285 | the k-th job's `JOB` line is at line 2k of the node block and its `VARS` line at 2k+1, two lines per job |
| Dag.NodesErr | Pythia/submit_py8_jobs_htcondor.py:233-285 | the node block fails exactly when building some job's options fails |
| Dag.DagLinesAt | Pythia/submit_py8_jobs_htcondor.py:230-286 | a DAG text is its header, then each job's `JOB` and `VARS` lines in order, then its trailer, of total length header + 2·jobs + trailer |
| Dag.DagLinesDistinct | Pythia/submit_py8_jobs_htcondor.py:233-235 | jobs with different `JOB` lines keep different lines at their positions in the text |
| Dag.DagLinesEmpty | Pythia/submit_py8_jobs_htcondor.py:230-286 | with no jobs the text is the header followed by the trailer |
| Dag.DagLinesErr | Pythia/submit_py8_jobs_htcondor.py:230-286 | the text fails exactly when some job fails |
| Dag.NumberedDagAt | Pythia/submit_py8_jobs_htcondor.py:233-286 | over `first..last` the k-th job ID `first + k` has its `JOB ...` line at header + 2k and its rendered `VARS` line right after; header first, trailer last |
| Dag.NumberedDagDistinct | Pythia/submit_py8_jobs_htcondor.py:233-235 | two different job IDs have different `JOB` lines in the text |
| Dag.NumberedJobsDiffer | Pythia/submit_py8_jobs_htcondor.py:233-235 | the nodes of two different job IDs have different `JOB` lines |
| Dag.NumberedDagErr | Pythia/submit_py8_jobs_htcondor.py:233-285 | the numbered DAG fails exactly when the options of some job ID in the range fail |
| Dag.NumberedDagEmpty | Pythia/submit_py8_jobs_htcondor.py:233 | an empty job range (`last < first`, an empty `xrange`) gives header and trailer only |
| Dag.Triples | MG5_aMC/submit_mg5_jobs_htcondor.py:225-235 | three tokens per copy-map entry |
| Dag.TriplesAt | MG5_aMC/submit_mg5_jobs_htcondor.py:226-227 | entry k of the copy map is the triple `flag src dest` at position 3k |
| Dag.TriplesMember | MG5_aMC/submit_mg5_jobs_htcondor.py:226-227 | every token of the triples is the flag or a string of the map |
| Dag.ExtendTriples | MG5_aMC/submit_mg5_jobs_htcondor.py:226-227 | the `extend` loop appends exactly the triples of the map, in order |
| Dag.NumberedDagCounts | Pythia/submit_py8_jobs_htcondor.py:233-286 | a numbered DAG holds exactly one `JOB ` line and one `VARS ` line per job ID when header and trailer hold none |
| DelphesSubmit.Grouper | Delphes/submit_delphes_jobs_htcondor.py:252-260 | no group when `n` is 0 or there are no items; every group has exactly `n` entries |
| DelphesSubmit.GrouperLength | Delphes/submit_delphes_jobs_htcondor.py:252-260 | there are just enough groups to hold the items (`ceil(len / n)`) |
| DelphesSubmit.GrouperAt | Delphes/submit_delphes_jobs_htcondor.py:252-260 | entry j of group i is item `i*n + j`, or the fill value past the end |
| DelphesSubmit.GrouperFlatten | Delphes/submit_delphes_jobs_htcondor.py:252-260 | concatenated, the groups are the items followed by fewer than `n` fill values |
| DelphesSubmit.GrouperFullBeforeLast | Delphes/submit_delphes_jobs_htcondor.py:252-260 | only the last group can hold padding |
| DelphesSubmit.PairsPadding | Delphes/submit_delphes_jobs_htcondor.py:177-178 | in pairs, an even number of files leaves no padding and an odd number pads only the last pair's second slot |
| DelphesSubmit.PairsFill | Delphes/submit_delphes_jobs_htcondor.py:177-178 | some pair holds a fill value exactly when the number of files is odd |
| DelphesSubmit.EvenPairFull | Delphes/submit_delphes_jobs_htcondor.py:177-178 | with an even number of files every slot holds a file |
| DelphesSubmit.OddPairPadded | Delphes/submit_delphes_jobs_htcondor.py:177-178 | with an odd number of files the last pair's second slot is the fill value |
| DelphesSubmit.StemOfTwoExtensions | Delphes/submit_delphes_jobs_htcondor.py:191-193 | `stem` strips two extensions: `<dir>/<s>.<e1>.<e2>` gives `s` |
| DelphesSubmit.StemCollision | Delphes/submit_delphes_jobs_htcondor.py:191-194 | two seeds of a non-integer mass point (`..._8.5_..._seed1.hepmc`, `..._seed2.hepmc`) get the same output file |
| DelphesSubmit.SecondExtensionLost | Delphes/submit_delphes_jobs_htcondor.py:191-194 | any `<s>.<a>.<e>` and `<s>.<b>.<e>` share an output file |
| DelphesSubmit.OutputStemOfPathJoin | Delphes/submit_delphes_jobs_htcondor.py:191-194 | the corrected stem ignores the directory |
| DelphesSubmit.OutputStemOfPlain | Delphes/submit_delphes_jobs_htcondor.py:191-194 | the corrected stem of an uncompressed `<s>.<e>` keeps all of `s`, dots included |
| DelphesSubmit.OutputStemOfCompressed | Delphes/submit_delphes_jobs_htcondor.py:191-194 | the corrected stem of `<s>.<e>.gz` (such as `X.tar.gz`) is `s` |
| DelphesSubmit.OutputStemSeparatesSeeds | Delphes/submit_delphes_jobs_htcondor.py:191-194 | under the corrected stem the two seeds of the collision keep apart |
| DelphesSubmit.ProcessAsWritten | Delphes/submit_delphes_jobs_htcondor.py:194-196 | as written, a group's `--process` triples fail (AttributeError from `basename(None)`) exactly when the group holds a fill value |
| DelphesSubmit.ProcessSnoc | Delphes/submit_delphes_jobs_htcondor.py:195-196 | one more entry adds its `--process in out` triple, nothing for a fill value |
| DelphesSubmit.ProcessFilesAt | Delphes/submit_delphes_jobs_htcondor.py:195-196 | over real files there is one triple per file, in order, `--process <in> <out(in)>` |
| DelphesSubmit.EveryInputOnce | Delphes/submit_delphes_jobs_htcondor.py:167-196 | across all jobs every input file is processed exactly once, in listing order |
| DelphesSubmit.EndsWithExtension | Delphes/submit_delphes_jobs_htcondor.py:163 | `.tar.gz` in the extension list changes nothing, since such names already end with `.gz` |
| DelphesSubmit.AcceptFileIff | Delphes/submit_delphes_jobs_htcondor.py:161-164 | a file is accepted exactly when it exists and its lower-cased base name ends with `.lhe`, `.hepmc`, `.gz` or `.tgz` |
| DelphesSubmit.InputFiles | Delphes/submit_delphes_jobs_htcondor.py:167 | every collected file is an accepted join of the input directory and a listed name; every accepted listed name is collected |
| DelphesSubmit.ExtendProcess | Delphes/submit_delphes_jobs_htcondor.py:195-196 | the loop over `zip(input_files, output_files)` appends exactly the group's triples |
| DelphesSubmit.OutputFiles | Delphes/submit_delphes_jobs_htcondor.py:194 | the output name of every entry of a group, in order; any fill value in the group makes `stem` raise |
| DelphesSubmit.BuildJobOptions | Delphes/submit_delphes_jobs_htcondor.py:183-209 | a job's options are those of the code as written: `--card`, the optional `--exe`, the group's `--process` triples (a fill value in the group raises AttributeError), then the copy-in and copy-out triples |
| DelphesSubmit.WriteNodes | Delphes/submit_delphes_jobs_htcondor.py:178-215 | the loop over the groups emits exactly the node lines of the code as written, numbered from 0, and stops with the error of the first group holding a fill value |
| DelphesSubmit.WriteDagFile | Delphes/submit_delphes_jobs_htcondor.py:160-217 | `RuntimeError` when no input is acceptable; otherwise the DAG text as written: header, pairs of node lines, status line, failing exactly when the number of inputs is odd |
| DelphesSubmit.DagFile | Delphes/submit_delphes_jobs_htcondor.py:160-217 | no acceptable input raises RuntimeError naming the input directory; otherwise the DAG text fails exactly when the number of acceptable inputs is odd |
| DelphesSubmit.DagTextOk | Delphes/submit_delphes_jobs_htcondor.py:178-215 | with fill values skipped no job fails |
| DelphesSubmit.LayoutAt | Delphes/submit_delphes_jobs_htcondor.py:172-217 | two comment lines, then the k-th job's `JOB` and `VARS` lines, then the `NODE_STATUS_FILE` line |
| DelphesSubmit.LayoutCounts | Delphes/submit_delphes_jobs_htcondor.py:172-217 | exactly one `JOB ` and one `VARS ` line per job |
| DelphesSubmit.DagTextShape | Delphes/submit_delphes_jobs_htcondor.py:172-217 | a DAG text as written that succeeds has the two header lines, then for group k the line `JOB <k>_<card file> <condor file>` and a `VARS` line carrying that group's options as written, then the status line |
| DelphesSubmit.DagNodesDistinct | Delphes/submit_delphes_jobs_htcondor.py:179-180 | in a DAG text as written no two nodes share a `JOB` line |
| DelphesSubmit.DagTextCounts | Delphes/submit_delphes_jobs_htcondor.py:172-217 | a DAG text as written has exactly one `JOB ` line and one `VARS ` line per group |
| DelphesSubmit.LayoutErr | Delphes/submit_delphes_jobs_htcondor.py:178-215 | the writer fails exactly when some job's options fail |
| DelphesSubmit.OptionsAsWrittenErr | Delphes/submit_delphes_jobs_htcondor.py:191-196 | as written, a job's options fail exactly when its group holds a fill value |
| DelphesSubmit.DagTextAsWrittenErr | Delphes/submit_delphes_jobs_htcondor.py:178-215 | as written, the writer fails exactly when some group holds a fill value |
| DelphesSubmit.DagTextAsWrittenOdd | Delphes/submit_delphes_jobs_htcondor.py:177-196 | as written, the writer fails exactly when the number of input files is odd |
| DelphesSubmit.GenerateOutputDirSlash | Delphes/submit_delphes_jobs_htcondor.py:234-242 | trailing slashes on the input directory do not change the output directory |
| DelphesSubmit.GenerateOutputDirShape | Delphes/submit_delphes_jobs_htcondor.py:234-242 | the output directory is `<parent of the input directory>/delphes/<card without extension>` |
| DelphesSubmit.CheckCreateDir | Delphes/submit_delphes_jobs_htcondor.py:220-231 | fails exactly when the path is a file and not a directory; otherwise the path is a directory afterwards and nothing else changes |
| DelphesSubmit.Checks | Delphes/submit_delphes_jobs_htcondor.py:60-67 | the four checks in order, each with its own `RuntimeError` message; passes exactly when all four hold |
| DelphesSubmit.CardOutsideInputCards | Delphes/submit_delphes_jobs_htcondor.py:66-67 | `./input_cards/<card>` is refused and `input_cards/<card>` accepted |
| DelphesSubmit.CreateDirs | Delphes/submit_delphes_jobs_htcondor.py:220-231 | `check_create_dir` on each path in turn succeeds exactly when no path is a regular file; otherwise the error names the first such path; on success every path is a directory and no other path changes |
| DelphesSubmit.DirsThenDag | Delphes/submit_delphes_jobs_htcondor.py:79-124 | the directories are checked first: the first one that is a regular file is the error; with none in the way, the DAG writer's error is the result; success holds exactly when no path is a file and the DAG can be written on the resulting file system, and then the lines are the writer's and only the directories changed |
| DelphesSubmit.OddInputsFail | Delphes/submit_delphes_jobs_htcondor.py:191-196 | with no directory in the way, an odd number of acceptable inputs makes the directories-then-DAG step fail |
| DelphesSubmit.Submit | Delphes/submit_delphes_jobs_htcondor.py:58-124 | a failed check is the result; after the checks, the output, log, stem and zip directories are made in that order through `check_create_dir` and then the DAG is written, and the first error of those is the result; on success the DAG and status names share the time stamp, the two copy-in entries are the zipped installation and the cards, and the DAG lines are those of `write_dag_file` as written on the new file system |
| DelphesSubmit.SubmitSucceeds | Delphes/submit_delphes_jobs_htcondor.py:58-124 | a submission succeeds exactly when the four checks pass, none of the four directories is a regular file and the DAG can be written; it then leaves all four as directories and changes no other path |
| DelphesSubmit.SubmitOddFails | Delphes/submit_delphes_jobs_htcondor.py:191-196 | after passing checks and with no directory in the way, an odd number of acceptable inputs makes the whole submission fail |
| DelphesWorker.CopyFromLocal | Delphes/HTCondor/runDelphes.py:128-139 | raises OSError, leaving the file system as it was, exactly when the destination's parent is neither a directory nor makeable; otherwise the parent is a directory afterwards, `os.makedirs` is issued exactly when it was not one, and the copy of `source` follows, decided on the file system with the parent in place |
| DelphesWorker.BareDestinationFails | Delphes/HTCondor/runDelphes.py:130-131 | a destination without a directory part raises OSError from `os.makedirs('')` and changes nothing |
| DelphesWorker.CopyIntoExistingDir | Delphes/HTCondor/runDelphes.py:128-139 | a destination in an existing directory is copied at once, with no `os.makedirs`, and the file system is unchanged |
| DelphesWorker.StripGzSuffix | Delphes/HTCondor/runDelphes.py:91 | removing ".gz" from `<stem>.gz` leaves the stem when it has no ".gz" of its own |
| DelphesWorker.UnzippedOfCompressed | Delphes/HTCondor/runDelphes.py:82-91 | a `<stem>.gz` input is gunzipped and Delphes reads `<stem>`, the file gunzip leaves |
| DelphesWorker.UnzippedOfPlain | Delphes/HTCondor/runDelphes.py:82-91 | a name without ".gz" is neither gunzipped nor renamed |
| DelphesWorker.UnzippedRenamesPlain | Delphes/HTCondor/runDelphes.py:82-91 | `a.gz.hepmc` is not gunzipped yet Delphes is given `a.hepmc` |
| DelphesWorker.InnerGzRemoved | Delphes/HTCondor/runDelphes.py:91 | `str.replace` removes a ".gz" in the middle of a name |
| DelphesWorker.DetermineExe | Delphes/HTCondor/runDelphes.py:93-99 | `.hepmc` gives DelphesHepMC, `.lhe` and `.lhef` give DelphesLHEF, anything else raises RuntimeError naming the local file |
| DelphesWorker.DetermineExeMatchesSubmitter | Delphes/HTCondor/runDelphes.py:93-99 | the guessed executable is the one the submitter passes for the same `--type` |
| DelphesWorker.ChooseExe | Delphes/HTCondor/runDelphes.py:101 | a non-empty `--exe` wins; otherwise the executable is guessed from the extension |
| DelphesWorker.ChooseExeOfLhe | Delphes/HTCondor/runDelphes.py:101 | a `<name>.lhe` input without `--exe` runs through DelphesLHEF |
| DelphesWorker.StepsPlan | Delphes/HTCondor/runDelphes.py:79-106 | a pair's steps: fetch, gunzip exactly when asked, the Delphes command, the copy back decided on the file system that command left, then both local files deleted; it fails exactly when there is no executable or the copy back fails; the file system after it is the copy back's without the two local files |
| DelphesWorker.ProcessFilePlan | Delphes/HTCondor/runDelphes.py:73-106 | one `--process` pair: fetched under its base name, gunzipped exactly when that name ends with ".gz", Delphes run on the name without ".gz" writing the output's base name, the copy back decided on the file system Delphes left, both local files deleted last; failure exactly when no executable can be chosen or the copy back fails |
| DelphesWorker.PairParts | Delphes/HTCondor/runDelphes.py:76-106 | a finished pair has an executable; its actions are the fetch, the Delphes command, the `copy_from_local` on the file system Delphes left and the two removals; its file system is that copy's without the two local files |
| DelphesWorker.WrittenOutputCopied | Delphes/HTCondor/runDelphes.py:102-104 | a file Delphes wrote under the output's base name is copied with `copy2` to an output outside `/hdfs` |
| DelphesWorker.OutputDirectoryKept | Delphes/HTCondor/runDelphes.py:104-106 | the output directory a finished pair found or made is still a directory after it, unless it is one of the two local files removed |
| DelphesWorker.MissingDirMade | Delphes/HTCondor/runDelphes.py:130-131 | a pair whose output directory Delphes did not leave issues `os.makedirs` for it |
| DelphesWorker.NoMakeDirsAfterDir | Delphes/HTCondor/runDelphes.py:130-131 | a pair whose output directory exists, and a Delphes command that removes no directory, issue no `os.makedirs` for it |
| DelphesWorker.SharedDirectoryMadeOnce | Delphes/HTCondor/runDelphes.py:73-131 | two pairs writing into one directory run one after the other; the first makes the directory when Delphes did not, and the second, on the file system the first left, does not make it again |
| DelphesWorker.ScriptSucceeds | Delphes/HTCondor/runDelphes.py:51-113 | the script finishes exactly when `scratch` is new, `--process` was given, every pair finishes on the file system the pairs before it left, and every copy-out finishes on the file system the process loop left |
| DelphesWorker.ScriptOrder | Delphes/HTCondor/runDelphes.py:51-113 | a run that finishes is the sandbox, staging and unpacking, every pair's actions in order, then every copy-out's actions in order on the file system the pairs left |
| DelphesWorker.ScratchTaken | Delphes/HTCondor/runDelphes.py:51 | an existing `scratch` makes `os.mkdir` raise before anything else happens |
| DelphesWorker.RunDelphesSucceeds | Delphes/HTCondor/runDelphes.py:22-113 | `runDelphes` finishes exactly when the sandbox is new, `--process` was given, no pair raises on the file system the earlier pairs left and no copy-out raises on the file system the pairs left |
| DelphesWorker.RunDelphesOrder | Delphes/HTCondor/runDelphes.py:22-113 | a finished run is the sandbox, staged inputs, Delphes unpacked, every pair in order, then every copy-out in order, the copy-outs seeing the directories the pairs made |
| DelphesWorker.NoProcessList | Delphes/HTCondor/runDelphes.py:73 | without `--process` the loop over None raises TypeError after unpacking; nothing is copied out |
| DelphesWorker.RunScript | Delphes/HTCondor/runDelphes.py:51-113 | the imperative script leaves at the first exception and otherwise equals the specification `Script` |
| DelphesWorker.RunDelphesWorker | Delphes/HTCondor/runDelphes.py:22-113 | `runDelphes` as it runs equals `RunDelphes` |
| JobSpace.CheckJobIdRange | Pythia/submit_py8_jobs_htcondor.py:90-94 | passes exactly when `1 <= first <= last`; the first failing test decides the message |
| JobSpace.JobIds | Pythia/submit_py8_jobs_htcondor.py:233 | `xrange(first, last + 1)`: `last - first + 1` IDs (none when `last < first`), the k-th being `first + k` |
| JobSpace.CheckMassRange | Pythia/submit_py8_jobs_htcondor.py:144-148 | passes exactly when start, end and step are positive and `start <= end`; a non-positive value gives the "mass <= 0" message |
| JobSpace.StepMeasure | Pythia/submit_py8_jobs_htcondor.py:387-392 | each step of `frange` lowers the number of remaining steps by one, so the generator ends |
| JobSpace.Frange | Pythia/submit_py8_jobs_htcondor.py:387-392 | the `while i <= stop` loop yields exactly the values of the specification |
| JobSpace.FrangeShape | Pythia/submit_py8_jobs_htcondor.py:387-392 | the k-th value is `start + k*step`, every value lies in `[start, stop]` and the next one would pass `stop` |
| JobSpace.FrangeFirst | Pythia/submit_py8_jobs_htcondor.py:387-392 | `start` is yielded first exactly when `start <= stop` |
| JobSpace.FrangeConstantStep | Pythia/submit_py8_jobs_htcondor.py:387-392 | consecutive values differ by exactly `step` |
| JobSpace.CheckedMassRangeNonEmpty | Pythia/submit_py8_jobs_htcondor.py:144-149 | a mass range that passes the checks yields at least its start |
| Staging.HadoopCall | Pythia/HTCondor/mcJob.py:45-73 | a hadoop command is `hadoop fs <op> ... <src> <dest>`; only the copy out of the node carries `-f` |
| Staging.HdfsPathOfMounted | Pythia/HTCondor/mcJob.py:44-72 | `/hdfs<rest>` is handed to hadoop as `<rest>` when the rest has no "/hdfs" |
| Staging.HdfsPathCutsInside | Pythia/HTCondor/mcJob.py:44-72 | `str.replace` removes every "/hdfs", also one inside a later directory name |
| Staging.CopyIn | Pythia/HTCondor/mcJob.py:41-50 | an `/hdfs` source is fetched by hadoop; otherwise a file is copied, a directory copied as a tree, and anything else skipped |
| Staging.CopyOut | Pythia/HTCondor/mcJob.py:69-78 | an `/hdfs` destination is written by hadoop; otherwise the source decides between file, tree or nothing |
| Staging.CopyInOutLocal | Pythia/HTCondor/mcJob.py:41-78 | for local paths on both sides a copy in and a copy out do the same thing |
| Staging.StageIn | Pythia/HTCondor/mcJob.py:41-50 | the copy-in loop issues one dispatch per pair, in order |
| Staging.StageOut | Pythia/HTCondor/mcJob.py:69-78 | the copy-out loop issues one dispatch per pair, in order |
| Staging.Then | Pythia/HTCondor/mcJob.py:33-78 | a phase after an exception does nothing; otherwise the actions are concatenated and the later failure kept |
| Staging.ThenAssoc | Pythia/HTCondor/mcJob.py:33-78 | grouping of sequential phases does not matter |
| Staging.ThenAllDone | Pythia/HTCondor/mcJob.py:33-78 | four phases that all finish issue their actions one after the other |
| Staging.EachOk | Delphes/HTCondor/runDelphes.py:73-113 | a loop whose bodies all finish issues every body's actions in order, each body running on the file system the bodies before it left |
| Staging.EachFailExtends | Delphes/HTCondor/runDelphes.py:73-113 | after the loop has raised, later items change nothing |
| Staging.EachFails | Delphes/HTCondor/runDelphes.py:73-113 | the loop raises exactly when some body raises on the file system the bodies before it left |
| Staging.AllOkPrefix | Delphes/HTCondor/runDelphes.py:73-113 | when every body of a loop finishes, so does every body of each of its prefixes |
| Staging.AllOkSplit | Delphes/HTCondor/runDelphes.py:73-113 | every body finishes exactly when those of all but the last item do and then the last one does |
| Staging.EachTwo | Delphes/HTCondor/runDelphes.py:73-113 | a finished loop over two items is the first body's actions then the second's, the second run on the file system the first left |
| Staging.EachStops | Delphes/HTCondor/runDelphes.py:73-113 | the first body that raises, on the file system the earlier bodies left, ends the loop with the earlier actions, its own and its exception |
| Staging.EachSnoc | Delphes/HTCondor/runDelphes.py:73-113 | one more item runs one more body on the file system the loop so far left, unless the loop has already raised |
| Staging.EachLoop | Delphes/HTCondor/runDelphes.py:73-113 | the imperative loop equals the specification `Each` |
| Staging.Sandbox | Delphes/HTCondor/runDelphes.py:51-53 | `os.mkdir('scratch')` raises exactly when `scratch` exists; otherwise the sandbox is made and entered |
| FileSystem.Moved | MG5_aMC/HTCondor/mcJob.py:106-110 | `os.rename`: the destination holds what the source held, the source is gone unless it is the destination, and every other path is unchanged |
| FileSystem.MadeDirKept | Delphes/HTCondor/runDelphes.py:104-106 | a directory made for the copy back survives the removal of two other paths |
| Mg5Submit.Prepare | MG5_aMC/submit_mg5_jobs_htcondor.py:95-112 | the job-ID range, card-given and card-exists checks in that order with their messages; the channel is the card's `output` value and the energy is derived from `ebeam1`; a card without `output` fails at the first path built from it |
| Mg5Submit.SetAttr | MG5_aMC/submit_mg5_jobs_htcondor.py:229 | `mg5_args.iseed = job_ind`: an existing attribute takes the new value in place, a new one goes last, nothing else changes |
| Mg5Submit.SetAttrOverwrite | MG5_aMC/submit_mg5_jobs_htcondor.py:218-229 | setting the seed again overwrites it: reusing one parsed option set across jobs leaks nothing |
| Mg5Submit.AttrTokensMember | MG5_aMC/submit_mg5_jobs_htcondor.py:238-240 | every forwarded token is `--<name>` or the value of an attribute whose name and value are truthy |
| Mg5Submit.AttrFlagPresent | MG5_aMC/submit_mg5_jobs_htcondor.py:238-240 | `--<key>` is forwarded exactly when attribute `key` is truthy |
| Mg5Submit.AttrFlagFollowedBy | MG5_aMC/submit_mg5_jobs_htcondor.py:238-240 | the first `--<key>` is followed by that attribute's value |
| Mg5Submit.Rename | MG5_aMC/submit_mg5_jobs_htcondor.py:246 | `xs[xs.index(flag)] = v`: ValueError when the flag is absent; otherwise only its first occurrence changes |
| Mg5Submit.RenameKeeps | MG5_aMC/submit_mg5_jobs_htcondor.py:246 | renaming one flag keeps the presence and first position of every other token |
| Mg5Submit.RenamesCommute | MG5_aMC/submit_mg5_jobs_htcondor.py:244-246 | the two renames commute, so the dictionary order of `remap` does not matter |
| Mg5Submit.Remap | MG5_aMC/submit_mg5_jobs_htcondor.py:244-247 | the renames and the removal of `--card` fail only with ValueError and otherwise drop exactly one token |
| Mg5Submit.RemapErr | MG5_aMC/submit_mg5_jobs_htcondor.py:244-247 | they fail exactly when `--iseed`, `--pythia8_path` or `--card` is missing |
| Mg5Submit.StagingFree | MG5_aMC/submit_mg5_jobs_htcondor.py:224-237 | a flag the user did not supply as a string does not occur in the staging prefix |
| Mg5Submit.RenderingNotFlag | MG5_aMC/submit_mg5_jobs_htcondor.py:229 | a rendered integer is none of the renamed or removed flags |
| Mg5Submit.SeedAttrs | MG5_aMC/submit_mg5_jobs_htcondor.py:229 | after setting the seed, each attribute is an old one or the seed |
| Mg5Submit.SeedAttrsFree | MG5_aMC/submit_mg5_jobs_htcondor.py:229-240 | setting the seed introduces no forwarded value equal to a flag |
| Mg5Submit.SeedTokens | MG5_aMC/submit_mg5_jobs_htcondor.py:229-240 | in the forwarded tokens `--iseed` is followed by the rendered job ID |
| Mg5Submit.RenameKeepsPair | MG5_aMC/submit_mg5_jobs_htcondor.py:246 | renaming another flag keeps an adjacent pair in place |
| Mg5Submit.RemoveKeepsPair | MG5_aMC/submit_mg5_jobs_htcondor.py:247 | removing another token keeps an adjacent pair together |
| Mg5Submit.RemapKeepsSeed | MG5_aMC/submit_mg5_jobs_htcondor.py:244-247 | the pair `--iseed <s>` survives the remapping as `--seed <s>` |
| Mg5Submit.SeedSurvivesRemap | MG5_aMC/submit_mg5_jobs_htcondor.py:240-247 | a `--iseed <ind>` pair after options without `--iseed` becomes `--seed <ind>` in the final options |
| Mg5Submit.JobSeed | MG5_aMC/submit_mg5_jobs_htcondor.py:229-246 | each node's options carry `--seed <ind>` for its own job index |
| Mg5Submit.MissingPythia8Raises | MG5_aMC/submit_mg5_jobs_htcondor.py:238-246 | without a truthy `pythia8_path` every job's options raise ValueError |
| Mg5Submit.BuildJobOptions | MG5_aMC/submit_mg5_jobs_htcondor.py:224-247 | the loop that builds `job_opts` gives `--oDir`, copy-in triples, copy-out triples, `--args`, the truthy attributes, then the renames and the removal |
| Mg5Submit.WriteDag | MG5_aMC/submit_mg5_jobs_htcondor.py:211-255 | the writer loop, reusing and overwriting one option set, emits exactly `DagText` |
| Mg5Submit.DagTextShape | MG5_aMC/submit_mg5_jobs_htcondor.py:214-255 | two header lines, one JOB and one VARS line per ID in increasing order, then one `NODE_STATUS_FILE <status> 30` |
| Mg5Submit.LayoutAt | MG5_aMC/submit_mg5_jobs_htcondor.py:214-255 | the layout holds for any per-job options |
| Mg5Submit.DagNodesDistinct | MG5_aMC/submit_mg5_jobs_htcondor.py:219-220 | no two nodes share a JOB line |
| Mg5Submit.DagTextErr | MG5_aMC/submit_mg5_jobs_htcondor.py:218-255 | the writer fails exactly when some job's options fail |
| Mg5Submit.DagTextEmpty | MG5_aMC/submit_mg5_jobs_htcondor.py:218 | an empty ID range yields the header and the status line only |
| Mg5Card.LineEnd | MG5_aMC/run_mg5.py:131 | the position where `$` matches lies within the line |
| Mg5Card.Search | MG5_aMC/run_mg5.py:131-139 | `p.search`: a position found is a match and the leftmost one; none is found exactly when no position matches |
| Mg5Card.Group | MG5_aMC/run_mg5.py:139 | `.group(1)` runs from after `name ` to the `$` position |
| Mg5Card.ApplyFields | MG5_aMC/run_mg5.py:129-143 | the rewritten card has as many lines as the template |
| Mg5Card.ApplyFieldsConcat | MG5_aMC/run_mg5.py:129-143 | fields are applied one after another, each on the result of the earlier ones |
| Mg5Card.ApplyFieldsLast | MG5_aMC/run_mg5.py:129-143 | the last field acts on the card the earlier fields produced |
| Mg5Card.ApplyFieldsStep | MG5_aMC/run_mg5.py:129-143 | one more field is one more pass over the current card |
| Mg5Card.ApplyFieldsStop | MG5_aMC/run_mg5.py:129-143 | a pass that fails ends the run with that failure |
| Mg5Card.ApplyFieldsKeeps | MG5_aMC/run_mg5.py:133-136 | empty lines, comments and lines mentioning none of the names come out unchanged |
| Mg5Card.NoFieldsSameText | MG5_aMC/run_mg5.py:126-147 | with no fields the new card's text equals the template's |
| Mg5Card.RewriteLinesStep | MG5_aMC/run_mg5.py:133-143 | one more line rewritten in a field's pass |
| Mg5Card.RewriteLinesStop | MG5_aMC/run_mg5.py:133-143 | the first failing line decides the pass's error |
| Mg5Card.RewriteLinesErrKind | MG5_aMC/run_mg5.py:137-142 | every failure is the AttributeError of `None.group`, which `except IndexError` does not catch |
| Mg5Card.MissingSpaceRaises | MG5_aMC/run_mg5.py:135-142 | a non-comment line that mentions the name but never as `name ` aborts the card with AttributeError |
| Mg5Card.SearchFirst | MG5_aMC/run_mg5.py:139 | `p.search` returns the first position where the pattern matches |
| Mg5Card.GeneventsFound | MG5_aMC/run_mg5.py:131-139 | in `set genevents <d>` for a digit `d`, the pattern for `nevents` matches inside `genevents` and captures `d`, which occurs nowhere else in the line |
| Mg5Card.SubstringRewritten | MG5_aMC/run_mg5.py:131-143 | a name inside a longer word is matched: for the field `nevents`, `set genevents <d>` (any digit `d`, e.g. `5`) becomes `set genevents <value>`, against the documented word match |
| Mg5Card.SubstringAborts | MG5_aMC/run_mg5.py:131-142 | with the field `nevents`, the template line `output genevents`, which the documentation says does not match, aborts the card with AttributeError |
| Mg5Card.WordSearch | MG5_aMC/run_mg5.py:118-120 | the first position where the name stands as a word (at the start of the line or after a space) followed by a space |
| Mg5Card.WordRewriteLine | MG5_aMC/run_mg5.py:118-120 | the documented rewrite: it never aborts, and a line where the name never stands as a word followed by a space is kept |
| Mg5Card.WordSearchFirst | MG5_aMC/run_mg5.py:118-120 | when the first match of the pattern is a word, the word search finds the same position |
| Mg5Card.WordRewriteAgrees | MG5_aMC/run_mg5.py:118-143 | where the first match `make_card` finds is a word, the documented rewrite and the code give the same line |
| Mg5Card.WordRewriteKeepsGenevents | MG5_aMC/run_mg5.py:118-120 | with the word match, `set genevents <d>` (any digit `d`) and `output genevents` are both kept for the field `nevents`, whatever the new value |
| Mg5Card.NoWordInSetGenevents | MG5_aMC/run_mg5.py:118-120 | `nevents` never stands as a word in `set genevents <d>` |
| Mg5Card.NoWordInOutputGenevents | MG5_aMC/run_mg5.py:118-120 | `nevents` never stands as a word in `output genevents`, the documentation's example of a line that does not match |
| Mg5Card.RewriteTail | MG5_aMC/run_mg5.py:139-143 | when the old value occurs once, the rewritten line is the line up to `name`, a space, the new value and the newline if any |
| Mg5Card.LastWordAfterSpace | MG5_aMC/submit_mg5_jobs_htcondor.py:311 | the last token of `x + " " + v`, for a word `v`, is `v` |
| Mg5Card.ReadBackWord | MG5_aMC/submit_mg5_jobs_htcondor.py:308-311 | a line `x + " " + value` that mentions the name reads back as `value` |
| Mg5Card.RewriteReadBack | MG5_aMC/run_mg5.py:139-143 | the value `make_card` writes into a line is what `get_value_from_card` reads back from it |
| Mg5Card.RewriteCard | MG5_aMC/run_mg5.py:133-143 | one field's in-place pass over the card's lines: it stops exactly at the specified error, otherwise the lines are the specified rewrite |
| Mg5Card.MakeCard | MG5_aMC/run_mg5.py:103-147 | the template's lines are rewritten in place, field by field, and the new card's text is the join of the result |
| Mg5Card.TruthyFields | MG5_aMC/run_mg5.py:84 | the dictionary comprehension keeps at most the given variables |
| Mg5Card.TruthyFieldsMember | MG5_aMC/run_mg5.py:84 | a field is set exactly when its variable is truthy, to that variable's rendering |
| Mg5Card.TruthyFieldAt | MG5_aMC/run_mg5.py:84 | for a name with one entry the field is set exactly when that entry is truthy |
| Mg5Card.RunVarAt | MG5_aMC/run_mg5.py:79-84 | each field name appears once, so a field is set exactly when its own variable is truthy, and to that variable's text |
| Mg5Card.RunFieldsContents | MG5_aMC/run_mg5.py:79-84 | the HepMC paths are always set; the event count and seed exactly when non-zero; the Pythia 8 path exactly when non-empty |
| Mg5Card.NewCardDiffers | MG5_aMC/run_mg5.py:89 | the new card name differs from the template's exactly when that contains `.txt` |
| Mg5Card.ApplyFieldsErrKind | MG5_aMC/run_mg5.py:129-143 | every failure of `make_card`'s field loop is the AttributeError of `None.group`, which `except IndexError` does not catch |
| Mg5Card.UntouchedKept | MG5_aMC/run_mg5.py:79-84 | with the fields `run_mg5` builds, lines that are empty, comments or mention none of the five variable names come out of `make_card` unchanged |
| Mg5Card.NewCardLines | MG5_aMC/run_mg5.py:83-90 | the card `run_mg5` writes: a template that cannot be opened raises IOError, a rewrite failure is the AttributeError, otherwise the card has the template's line count and its untouched lines |
| Mg5Card.MakeRunCard | MG5_aMC/run_mg5.py:103-147 | opening the template and rewriting it in place as `run_mg5` calls `make_card` gives `NewCardLines` |
| Mg5Dag.OutputDirShape | MG5_aMC/submitMG5_dag.py:52-53 | the HepMC directory ends in `hepmc` and, for a relative channel, lies under `oDir` |
| Mg5Dag.JobDescriptionOrder | MG5_aMC/submitMG5_dag.py:77-79 | `SEDLOG`, then `SEDOUTPUT`, then `SEDCARD` are replaced, each on the result of the one before |
| Mg5Dag.JobDescriptionNoPlaceholders | MG5_aMC/submitMG5_dag.py:77-79 | a template without placeholders is written unchanged |
| Mg5Dag.OutputDirRewritten | MG5_aMC/submitMG5_dag.py:77-79 | an output directory containing `SEDCARD` is rewritten by the later replacement |
| Mg5Dag.WriteNodes | MG5_aMC/submitMG5_dag.py:95-101 | the loop emits one JOB and one VARS line for each job `0..nJobs-1`, in order |
| Mg5Dag.WriteDagFile | MG5_aMC/submitMG5_dag.py:90-102 | the DAG file's lines are exactly the specified text |
| Mg5Dag.JobLineInjective | MG5_aMC/submitMG5_dag.py:96-97 | distinct job numbers give distinct JOB lines |
| Mg5Dag.Layout | MG5_aMC/submitMG5_dag.py:95-101 | job `k`'s JOB line is `JOB <channel>_<k> <condor file>` and its VARS line carries the common options |
| Mg5Dag.LayoutDistinct | MG5_aMC/submitMG5_dag.py:95-97 | different jobs have different JOB lines whatever surrounds them |
| Mg5Dag.LayoutCounts | MG5_aMC/submitMG5_dag.py:95-101 | exactly one JOB and one VARS line per job |
| Mg5Dag.DagTextShape | MG5_aMC/submitMG5_dag.py:90-102 | four header lines, then per job `k` in `0..nJobs-1` its JOB line and the common `-c <card> -n <nEvents> -o <output dir>` VARS line, then `NODE_STATUS_FILE <status>` without interval |
| Mg5Dag.DagJobsDistinct | MG5_aMC/submitMG5_dag.py:95-97 | no two JOB lines of the DAG coincide |
| Mg5Dag.FramingNotNode | MG5_aMC/submitMG5_dag.py:91-102 | no header or status line starts like a node line |
| Mg5Dag.DagTextCounts | MG5_aMC/submitMG5_dag.py:90-102 | exactly `nJobs` JOB lines and `nJobs` VARS lines, none for a negative count |
| Mg5Dag.DagTextErr | MG5_aMC/submitMG5_dag.py:92-93 | the DAG fails (TypeError of `'%d' % None`) exactly when a count is missing |
| Mg5Dag.Submit | MG5_aMC/submitMG5_dag.py:48-102 | a card that is not a file raises RuntimeError first; otherwise the condor, DAG and status names share the stem `mg5_<channel>_<date>_<time>` and the job description and DAG are the specified ones |
| Mg5Worker.Mg5Matches | MG5_aMC/HTCondor/mcJob.py:66 | `glob('MG5_aMC*')` keeps exactly the listed names that start with `MG5_aMC` |
| Mg5Worker.FindTarball | MG5_aMC/HTCondor/mcJob.py:66-71 | passes exactly when one name matches, and returns that name; more than one match and no match raise their own RuntimeError |
| Mg5Worker.Mg5Dir | MG5_aMC/HTCondor/mcJob.py:76 | the directory is a listed `MG5_aMC*` entry; an empty match raises IndexError |
| Mg5Worker.Mg5Args | MG5_aMC/HTCondor/mcJob.py:80-83 | `--exe <mg5 dir>/bin/mg5_aMC` is appended to the forwarded arguments; without `--args` the `extend` raises AttributeError |
| ArgOptions.AppendedOption | MG5_aMC/HTCondor/mcJob.py:83 | appending `[flag, v]` keeps an earlier `flag` in place and makes `v` the value of a flag that was absent |
| Mg5Worker.ExePathOfArchive | MG5_aMC/HTCondor/mcJob.py:83 | the executable path starts with the unpacked directory's name |
| Mg5Worker.AppendedExe | MG5_aMC/HTCondor/mcJob.py:83 | the appended `--exe` comes after any the user gave |
| Mg5Worker.IntOf | MG5_aMC/HTCondor/mcJob.py:94-96 | `int()` of a card value: None raises TypeError, a non-integer token ValueError, otherwise its value |
| Mg5Worker.Convert | MG5_aMC/HTCondor/mcJob.py:93-96 | the four card values convert in the script's order, the first failure deciding the error |
| Mg5Worker.ReadCardOfRendered | MG5_aMC/HTCondor/mcJob.py:93-96 | a card spelling the four fields as `run_mg5` writes them reads back as those values |
| Mg5Worker.ReadCardMain | MG5_aMC/HTCondor/mcJob.py:93-96 | the four reads, each a loop over the card, give `ReadCard` |
| Mg5Worker.CardInfo | MG5_aMC/HTCondor/mcJob.py:86-96 | the card values come from `run_mg5`'s card: refused arguments stop the script with SystemExit, an unopenable template with IOError, a line `make_card` cannot rewrite with AttributeError; otherwise they are the four reads of the new card |
| Mg5Worker.LaunchOnNewCard | MG5_aMC/run_mg5.py:93-98 | `run_mg5` calls MG5_aMC exactly when `--dry` was not given, with `[os.path.abspath(exe), new card]`, and the new card is not the template whenever the template's name contains `.txt` |
| Mg5Worker.CardRunMain | MG5_aMC/HTCondor/mcJob.py:86-96 | `run_mg5` (the card, then MG5_aMC unless `--dry`) and the card reads, step by step, equal `CardRun` |
| Mg5Worker.NameStemSeparatesSeeds | MG5_aMC/HTCondor/mcJob.py:102 | jobs that differ only in their seed get different archive names |
| Mg5Worker.NameStemNoSlash | MG5_aMC/HTCondor/mcJob.py:102 | an output name without '/' gives a stem without '/' |
| Mg5Worker.Queue | MG5_aMC/HTCondor/mcJob.py:119-122 | the copy-out queue is the user's entries followed by the two archives |
| Mg5Worker.ArchiveDestination | MG5_aMC/HTCondor/mcJob.py:121-122 | an archive goes to `<oDir>/<sub>` under the name it has in the run directory |
| Mg5Worker.ArchiveDestinations | MG5_aMC/HTCondor/mcJob.py:105-122 | the LHE archive `<stem>.lhe.gz` goes to `<oDir>/lhe`, the HepMC archive `<stem>.hepmc.gz` to `<oDir>/hepmc` |
| Mg5Worker.OutputsPlan | MG5_aMC/HTCondor/mcJob.py:100-138 | the outputs finish exactly when the output name and `--oDir` are known and the run directory holds both event archives; they then rename the two archives and copy out the queue, decided on the file system left after the renames |
| Mg5Worker.Mg5RunPlan | MG5_aMC/HTCondor/mcJob.py:66-138 | the MG5 part finishes exactly when there is one archive, it unpacks to an `MG5_aMC*` entry, `--args` was given, `run_mg5` writes a card whose values read (`CardInfo`) and the outputs finish on the file system MG5 left; it then unpacks, runs MG5 with the appended executable unless `--dry` was forwarded, and hands over to the outputs |
| Mg5Worker.ArchiveRequired | MG5_aMC/HTCondor/mcJob.py:45-71 | an existing sandbox stops the script; otherwise a missing or doubled archive stops it right after staging |
| Mg5Worker.Mg5Succeeds | MG5_aMC/HTCondor/mcJob.py:45-138 | the whole script finishes exactly when `scratch` is new, one archive unpacks, `--args` and `--oDir` were given, `run_mg5` accepts the arguments, opens and rewrites the template into a card that reads with an output name, and MG5 left the run directory with both event archives in it |
| Mg5Worker.Assemble | MG5_aMC/HTCondor/mcJob.py:45-138 | the layers of a finished run put end to end |
| Mg5Worker.Mg5Order | MG5_aMC/HTCondor/mcJob.py:45-138 | a finished run: sandbox, copy-ins, unpacking, MG5 (unless `--dry`), the two renames, the user's copy-outs, then the two archives, all copy-outs decided on the file system left after the renames |
| Mg5Worker.LastCopies | MG5_aMC/HTCondor/mcJob.py:128-138 | a run ending in a copy-out loop over `user + last` ends with the copy-outs of `last` |
| Mg5Worker.Mg5CopiesArchivesLast | MG5_aMC/HTCondor/mcJob.py:119-138 | a finished run ends with the copy-outs of the two renamed archives, `.lhe.gz` then `.hepmc.gz`, decided on the file system after the renames |
| Mg5Worker.ArchivesRenamed | MG5_aMC/HTCondor/mcJob.py:105-111 | when MG5 left both event archives as files, the renames succeed and leave files under both new names |
| Mg5Worker.RenamePathsDistinct | MG5_aMC/HTCondor/mcJob.py:105-110 | the four paths of the two renames do not clash: the HepMC archive's paths differ from both LHE paths |
| Mg5Worker.ArchivesShipped | MG5_aMC/HTCondor/mcJob.py:119-138 | the copy-outs of the two renamed archives are hadoop for an `/hdfs` output directory and `copy2` otherwise |
| Mg5Worker.Mg5ShipsArchives | MG5_aMC/HTCondor/mcJob.py:105-138 | when MG5 left both event archives as files, a finished run ends by shipping them, hadoop for `/hdfs` and `copy2` otherwise |
| Mg5Worker.GlobMg5 | MG5_aMC/HTCondor/mcJob.py:66 | the glob loop gives `Mg5Matches` |
| Mg5Worker.OutputsMain | MG5_aMC/HTCondor/mcJob.py:100-138 | the imperative outputs step equals `Outputs` |
| Mg5Worker.Mg5RunMain | MG5_aMC/HTCondor/mcJob.py:66-138 | the imperative MG5 step equals `Mg5Run` |
| Mg5Worker.Mg5Main | MG5_aMC/HTCondor/mcJob.py:24-138 | `main()` step by step equals `RunMg5Job` |
| PythiaSubmit.NEventsText | Pythia/submit_py8_jobs_htcondor.py:213-219 | the events per job are read from `--number`, else `-n`, else 1 |
| PythiaSubmit.SubmitChecks | Pythia/submit_py8_jobs_htcondor.py:87-107 | the executable, job-ID range, `--card` present, card truthy and card a file checks in that order with their errors; on success the channel is the card's base name without extension |
| PythiaSubmit.WithMass | Pythia/submit_py8_jobs_htcondor.py:222-225 | a present `--mass` is overwritten through `set_option_in_args`, otherwise `--mass <mass>` is appended |
| PythiaSubmit.WithMassReadBack | Pythia/submit_py8_jobs_htcondor.py:222-225 | afterwards `--mass` reads back as the mass |
| PythiaCondor.SeededNameNoDirectory | Pythia/submit_py8_jobs_htcondor.py:265-272 | a seeded output name never carries a directory |
| PythiaCondor.SeededNameInjective | Pythia/submit_py8_jobs_htcondor.py:271-272 | jobs with different IDs write differently named files |
| PythiaCondor.SeededDefaultName | Pythia/submit_py8_jobs_htcondor.py:259-272 | a generated default name, once seeded, is `<channel>_ma1_<mass>_<energy>TeV_n<n>_seed<ind>.<fmt>` |
| PythiaCondor.CopyOutTriplesConcat | Pythia/submit_py8_jobs_htcondor.py:276 | copy-out triples marked with the job ID stay so when concatenated |
| PythiaCondor.SeedMarker | Pythia/submit_py8_jobs_htcondor.py:271-272 | a seeded name carries the marker `_seed<ind>.` |
| PythiaCondor.NamedArgs | Pythia/submit_py8_jobs_htcondor.py:261-263 | after replacing a missing value with the generated default, `--<fmt>` is among the arguments |
| PythiaCondor.RenameOutput | Pythia/submit_py8_jobs_htcondor.py:266-276 | fails exactly when `--<fmt>` reads back as None; otherwise the copy-out is `--copyFromLocal <seeded name of that value> <oDir>`, and a non-empty value is replaced by its seeded name, which `--<fmt>` then reads; the trailing seed pair is kept |
| PythiaCondor.RenamedArgs | Pythia/submit_py8_jobs_htcondor.py:266-276 | renaming a present value to its seeded name succeeds; a non-empty value reads back as the seeded name, an empty one leaves the arguments unchanged, and a trailing `--seed <ind>` stays last |
| PythiaCondor.KeepSeedOnRename | Pythia/submit_py8_jobs_htcondor.py:273 | renaming an output keeps the trailing `--seed <ind>` pair |
| PythiaCondor.OutputStep | Pythia/submit_py8_jobs_htcondor.py:250-276 | nothing when `--<fmt>` is absent; KeyError when it is missing from the user's arguments; otherwise the user's name, or the generated default when it reads back, is staged out under its seeded name, which `--<fmt>` then reads; the seed pair stays last |
| PythiaCondor.KeepSeedOnDefault | Pythia/submit_py8_jobs_htcondor.py:263 | setting the default name keeps the trailing seed pair |
| PythiaCondor.SeedFlagShape | Pythia/submit_py8_jobs_htcondor.py:245 | an output flag is neither token of the seed pair |
| PythiaCondor.OutputSteps | Pythia/submit_py8_jobs_htcondor.py:250-276 | the passes in order keep the seed pair last and add only copy-out triples; nothing happens without output flags |
| PythiaCondor.JobOptions | Pythia/submit_py8_jobs_htcondor.py:237-279 | a job's options fail exactly when a format pass fails; otherwise they are the staging prefix, the passes' copy-out triples, `--args` and the executable's arguments, which end in `--seed <ind>` |
| PythiaCondor.Energy | Pythia/submit_py8_jobs_htcondor.py:111-114 | the energy is the integer value of `--energy`, 13 when the flag is absent; a flag without a value raises TypeError and a non-integer value ValueError |
| PythiaCondor.EnergyOfFlag | Pythia/submit_py8_jobs_htcondor.py:111-114 | an energy passed as `--energy <e>` is the energy used |
| PythiaCondor.JobNode | Pythia/submit_py8_jobs_htcondor.py:233-285 | a node is its `JOB <ind>_<channel> <condor file>` line and the VARS line of its options; it fails exactly when they fail |
| PythiaCondor.WriteDag | Pythia/submit_py8_jobs_htcondor.py:212-286 | the writer sets the mass in the shared argument list and emits exactly `DagText` |
| PythiaCondor.DagTextShape | Pythia/submit_py8_jobs_htcondor.py:230-286 | two header lines, per ID in increasing order its JOB and VARS line, then one `NODE_STATUS_FILE <status> 30` |
| PythiaCondor.DagNodesDistinct | Pythia/submit_py8_jobs_htcondor.py:234-235 | no two nodes share a JOB line |
| PythiaCondor.JobNodesDistinct | Pythia/submit_py8_jobs_htcondor.py:234-235 | different job IDs give different JOB lines |
| PythiaCondor.DagTextEmpty | Pythia/submit_py8_jobs_htcondor.py:233 | an empty ID range yields the header and status line only |
| PythiaCondor.DagTextErr | Pythia/submit_py8_jobs_htcondor.py:233-286 | the writer fails exactly when some job's options fail |
| PythiaPbs.BaseArgs | Pythia/submit_py8_jobs_pbs.py:133-135 | the user's arguments stay first and unchanged, and `--seed` with the array-ID placeholder is appended exactly once |
| PythiaPbs.NamedMass | Pythia/submit_py8_jobs_pbs.py:155-156 | without a mass range the single mass is the value of `--mass`; it fails exactly when `--mass` is absent |
| PythiaPbs.SeededBaseNoSlash | Pythia/submit_py8_jobs_pbs.py:197-202 | the seeded file name `<stem>_seed\${PBS_ARRAYID}.<fmt>` carries no directory |
| PythiaPbs.OutNameShape | Pythia/submit_py8_jobs_pbs.py:196-203 | a renamed output lies under the output directory and its base name is the user's base name without extension, then `_seed\${PBS_ARRAYID}`, a dot and the format |
| PythiaPbs.OutputStep | Pythia/submit_py8_jobs_pbs.py:180-204 | a format whose flag is absent leaves the arguments unchanged; a flag in the arguments but not in the base fails with KeyError; a value the user gave, or else the default name when it reads back, is replaced by its renamed output name, which `--<fmt>` then reads; flag tokens are kept |
| PythiaPbs.Rename | Pythia/submit_py8_jobs_pbs.py:196-204 | the rename fails exactly when the flag has no value; an empty value is left as it is; otherwise the renamed output name takes the value's place and is what `--<fmt>` reads afterwards; flag tokens are kept |
| PythiaPbs.OutputSteps | Pythia/submit_py8_jobs_pbs.py:180-187 | the hepmc, root and lhe passes in order; with none of their flags present the arguments are unchanged |
| PythiaPbs.ExeArgsAgree | Pythia/submit_py8_jobs_pbs.py:170-176 | the arguments as written equal the corrected ones except for a range mass without `--mass`, where the written code always fails |
| PythiaPbs.FloatMassBreaksJoin | Pythia/submit_py8_jobs_pbs.py:173-176 | for `--massRange 8 8 1` and arguments without `--mass` the written code raises TypeError when joining, while the corrected one yields `... --mass 8.0` |
| PythiaPbs.ExeArgsMass | Pythia/submit_py8_jobs_pbs.py:173-176 | with the corrected appending, a range mass reads back from `--mass` as `str(mass)` |
| PythiaPbs.VarItems | Pythia/submit_py8_jobs_pbs.py:380 | one `k="v"` item per script variable, in order |
| PythiaPbs.KeptNone | Pythia/submit_py8_jobs_pbs.py:375-377 | when no option value is truthy, no option reaches the command |
| PythiaPbs.Flatten | Pythia/submit_py8_jobs_pbs.py:377 | flag/value pairs laid out flat have twice as many tokens as pairs |
| PythiaPbs.FlattenShape | Pythia/submit_py8_jobs_pbs.py:375-377 | each pair's flag and value sit at positions 2j and 2j+1 |
| PythiaPbs.KeptMembers | Pythia/submit_py8_jobs_pbs.py:375-377 | an option reaches the command exactly when it was given with a non-empty value |
| PythiaPbs.SubmitPbsJob | Pythia/submit_py8_jobs_pbs.py:366-387 | the loop-built command equals the qsub command specification (kept options, `-v` variables, extra options, script) |
| PythiaPbs.QsubShape | Pythia/submit_py8_jobs_pbs.py:369-387 | the command starts with `qsub`, ends with the script and carries the kept options as adjacent flag/value pairs right after `qsub` |
| PythiaPbs.LogOptionsKept | Pythia/submit_py8_jobs_pbs.py:366-367 | the `-o`/`-e` options appear exactly when both the log name and the log directory are truthy, as `<dir>/<name>.out` and `.err` |
| PythiaPbs.QsubBare | Pythia/submit_py8_jobs_pbs.py:369-387 | with every option falsy and no variables or extra options, the command is `qsub <script>` |
| PythiaPbs.SubmitMasses | Pythia/submit_py8_jobs_pbs.py:135-221 | the mass loop yields each mass's command (None under `--dry`), for the arguments as written, in order, reading the base arguments and the events per job once, and stops at the first failing mass (a range mass without `--mass` in the arguments) |
| PythiaPbs.MassesIndependent | Pythia/submit_py8_jobs_pbs.py:170-176 | each mass's command depends only on the base arguments and that mass, because each mass works on its own copy |
| PythiaPbs.DryRunSubmitsNothing | Pythia/submit_py8_jobs_pbs.py:218-221 | a `--dry` run whose masses all build their arguments submits no job |
| PythiaPbs.KeptStdOpts | Pythia/submit_py8_jobs_pbs.py:366-377 | for the mass loop's options the job name, the two log paths when there is a log directory, and the array range reach the command, in that order |
| PythiaPbs.CommandLayout | Pythia/submit_py8_jobs_pbs.py:369-387 | with some options kept and some script variables, the kept flag/value pairs follow `qsub`, then `-v` and the packed variables, and the script comes last |
| PythiaPbs.ExeArgsVars | Pythia/submit_py8_jobs_pbs.py:379-381 | the two script variables are packed as `exe="…",args="…"` |
| PythiaPbs.MassCommandShape | Pythia/submit_py8_jobs_pbs.py:366-387 | the mass loop's command lists `-N <name>`, the log options if any, `-t <range>`, then `-v` with `exe="…",args="…"`, and ends with the script |
| PythiaPbs.SubmissionValue | Pythia/submit_py8_jobs_pbs.py:170-221 | outside a `--dry` run, a mass whose arguments as written could be built is submitted with the `qsub` command for those arguments, its log directory and job name, plus the test-queue options when asked |
| PythiaPbs.Submission | Pythia/submit_py8_jobs_pbs.py:170-221 | a mass is built exactly when its arguments as written are, so a range mass without `--mass` fails when joining, dry run or not; a built mass yields no command exactly when the run is dry |
| PythiaPbs.ExeArgsAsWritten | Pythia/submit_py8_jobs_pbs.py:170-204 | as written, a range mass without `--mass` fails; otherwise the arguments carry `--mass` and keep every flag token of the base |
| PythiaPbs.ExeArgs | Pythia/submit_py8_jobs_pbs.py:170-204 | with the mass appended as a string, the arguments carry `--mass` and keep every flag token of the base |
| LegacyPythia.LegacyChecks | Pythia/submit_mc_jobs_htcondor.py:83-111 | the executable must be a file, `--card` must have a value naming a file and `--mass` must have a value, checked in that order with their errors; on success the channel is the card's base name without extension and the mass is the `--mass` text |
| LegacyPythia.LegacyNEvents | Pythia/submit_mc_jobs_htcondor.py:186-192 | the events per job are the value after `--number`, else after `-n`, else 1; the strict lookup raises IndexError exactly when the flag it reads is the last token |
| LegacyPythia.HepmcNameInjective | Pythia/submit_mc_jobs_htcondor.py:209-212 | jobs with different IDs write differently named HepMC files |
| LegacyPythia.HepmcNameNoDirectory | Pythia/submit_mc_jobs_htcondor.py:208-209 | the numbered HepMC name never carries a directory |
| LegacyPythia.HepmcNameOfDefault | Pythia/submit_mc_jobs_htcondor.py:204-212 | the default name, once numbered, is `<channel>_ma1_<mass>_<n>_<ind>.hepmc` |
| LegacyPythia.WithHepmc | Pythia/submit_mc_jobs_htcondor.py:203-206 | a user `--hepmc` is kept as it is; without one, `--hepmc <default>` is appended |
| LegacyPythia.RenameHepmc | Pythia/submit_mc_jobs_htcondor.py:208-223 | the rename fails with IndexError exactly when `--hepmc` has no value; otherwise the value becomes the job-numbered name, `--seed <ind>` is appended and nothing else changes |
| LegacyPythia.JobArgs | Pythia/submit_mc_jobs_htcondor.py:201-223 | a job's arguments fail exactly when the user gave `--hepmc` as the last token |
| LegacyPythia.JobOptions | Pythia/submit_mc_jobs_htcondor.py:201-224 | the worker options are the twelve-token staging prefix followed by the executable's arguments; the file staged out is the file the executable writes, and it is the `--hepmc` value (the user's, or the default when absent) with its directory dropped and the job ID appended to its stem; the options end with `--seed <ind>` |
| LegacyPythia.Staged | Pythia/submit_mc_jobs_htcondor.py:215-224 | the prefix stages the cards and executable in and the job's HepMC file out to the output directory |
| LegacyPythia.DefaultStagedOut | Pythia/submit_mc_jobs_htcondor.py:204-219 | without a user `--hepmc`, job `ind` stages out `<channel>_ma1_<mass>_<n>_<ind>.hepmc` |
| LegacyPythia.WriteDag | Pythia/submit_mc_jobs_htcondor.py:185-226 | the loop-built DAG lines equal the DAG text specification |
| LegacyPythia.WriteNodes | Pythia/submit_mc_jobs_htcondor.py:198-226 | the node loop over the job IDs yields header, nodes and status line, for any per-job options |
| LegacyPythia.LayoutAt | Pythia/submit_mc_jobs_htcondor.py:196-226 | for any per-job options: two header lines, a JOB and a VARS line per ID in order, one status line |
| LegacyPythia.DagTextShape | Pythia/submit_mc_jobs_htcondor.py:195-226 | the DAG has 2 + 2(last-first+1) + 1 lines; line 2+2k is job first+k's JOB line and line 3+2k its VARS line with that job's options |
| LegacyPythia.DagTextErr | Pythia/submit_mc_jobs_htcondor.py:186-213 | the writer fails exactly when the events lookup fails, or the range is non-empty and `--hepmc` is the last user token |
| LegacyPythia.DagNodesDistinct | Pythia/submit_mc_jobs_htcondor.py:198-200 | no two nodes share a JOB line |
| LegacyPythia.LayoutDistinct | Pythia/submit_mc_jobs_htcondor.py:198-200 | for any per-job options, the JOB lines of different IDs differ |
| LegacyPythia.NodeJobsDiffer | Pythia/submit_mc_jobs_htcondor.py:198-200 | the nodes of two different job IDs have different JOB lines |
| LegacyPythia.DagTextEmpty | Pythia/submit_mc_jobs_htcondor.py:195-226 | an empty or reversed ID range yields only the header and the status line |
| LegacyPythia.CondorFileOrder | Pythia/submit_mc_jobs_htcondor.py:153-154 | the log-file placeholder is filled in on the result of filling the log-directory one |
| LegacyPythia.CondorFileNoPlaceholders | Pythia/submit_mc_jobs_htcondor.py:153-154 | a template without placeholders is written unchanged |
| LegacyPythia.CondorFileOneDir | Pythia/submit_mc_jobs_htcondor.py:153 | a single log-directory placeholder is replaced by the directory and the rest of the template kept |
| LegacyPythia.CondorFileRewritesLogDir | Pythia/submit_mc_jobs_htcondor.py:153-154 | a log directory containing `SEDLOGFILE` is itself rewritten by the second replacement |
| PythiaWorker.Command | Pythia/HTCondor/mcJob.py:57 | the command is `./<exe>` followed by the forwarded arguments; it fails with TypeError exactly when `--args` was not given |
| PythiaWorker.CommandForwardsOptions | Pythia/HTCondor/mcJob.py:57-63 | any option other than the program's own name reads the same from the command line as from `args.args` |
| PythiaWorker.OutputFlags | Pythia/HTCondor/mcJob.py:62-63 | the two lookups fail exactly when `--hepmc` or `--lhe` is missing, with KeyError naming the first missing one |
| PythiaWorker.McJobSucceeds | Pythia/HTCondor/mcJob.py:36-78 | the script finishes exactly when `scratch` does not exist yet, both copy lists and `--args` were given and both output flags are present |
| PythiaWorker.McJobOrder | Pythia/HTCondor/mcJob.py:36-78 | a run that finishes makes and enters the sandbox, copies in, sets mode 0555, runs the program, then copies out, the copy-outs decided on the file system the program left |
| PythiaWorker.AfterRun | Pythia/HTCondor/mcJob.py:62-78 | after the program ran: it finishes exactly when `--hepmc`, `--lhe` and `--copyFromLocal` were given, and its actions are the copy-outs decided on the file system the program left |
| PythiaWorker.WrittenOutputCopied | Pythia/HTCondor/mcJob.py:69-76 | a `--copyFromLocal` source the program wrote as a file is copied with `copy2` to its destination outside `/hdfs` |
| PythiaWorker.MissingOutputFlag | Pythia/HTCondor/mcJob.py:59-63 | a missing `--hepmc` or `--lhe` raises KeyError right after the program ran, before anything is copied out |
| PythiaWorker.NoCopyInList | Pythia/HTCondor/mcJob.py:36-41 | without `--copyToLocal` the loop over None raises TypeError before anything is copied or run |
| PythiaWorker.McJobMain | Pythia/HTCondor/mcJob.py:15-78 | the step-by-step script produces exactly the outcome `RunMcJob` describes |
| MadAnalysis.DirPaths | MadAnalysis/run_ma.py:115-117 | a directory contributes at most one path per entry |
| MadAnalysis.DirPathsMembers | MadAnalysis/run_ma.py:115-117 | a directory contributes exactly the joins of its accepted entries |
| MadAnalysis.DirPathsAppend | MadAnalysis/run_ma.py:115-117 | the entries are taken in listing order |
| MadAnalysis.ScanFailure | MadAnalysis/run_ma.py:113-117 | the generator runs to its end exactly when every directory can be listed; otherwise it stops with the OSError of the first one that cannot |
| MadAnalysis.ScanAppend | MadAnalysis/run_ma.py:114-117 | the directories are listed one after the other, the earlier ones' paths first |
| MadAnalysis.ScanItems | MadAnalysis/run_ma.py:113-117 | every yielded path joins one of the directories with one of its accepted entries |
| MadAnalysis.Lines | MadAnalysis/run_ma.py:125 | one newline-terminated line per path, in order |
| MadAnalysis.Consume | MadAnalysis/run_ma.py:122-125 | a positive `num` caps the lines at `num`; the lines are always a prefix of the yielded paths, all of them when `num` is not positive; the generator's error surfaces exactly when the loop reaches it |
| MadAnalysis.CreateFilelist | MadAnalysis/run_ma.py:100-127 | the list is written to `out_dir/<channel>`; a missing `num`, then a missing `dirs`, raises KeyError |
| MadAnalysis.FilelistContents | MadAnalysis/run_ma.py:119-125 | the lines are the first `.root` paths of the channel's directories, at most `num` of them when `num` is positive and all of them otherwise |
| MadAnalysis.FilelistEntries | MadAnalysis/run_ma.py:113-125 | every line names a `.root` entry of one of the channel's directories |
| MadAnalysis.PrefixEntries | MadAnalysis/run_ma.py:113-125 | each of the first `n` lines of the scan names a `.root` entry of one of the directories |
| MadAnalysis.CapSkipsLaterDirs | MadAnalysis/run_ma.py:122-124 | once the first directories hold more than `num` files, a later directory that cannot be listed is never reached |
| MadAnalysis.UncappedListsAll | MadAnalysis/run_ma.py:121-125 | with every directory listable and no cap, the list holds every `.root` file in order |
| MadAnalysis.ScanSplit | MadAnalysis/run_ma.py:114-117 | the scan splits after any prefix of listable directories |
| MadAnalysis.ScanMissing | MadAnalysis/run_ma.py:115 | the first directory that cannot be listed stops the scan with its OSError |
| MadAnalysis.ListDir | MadAnalysis/run_ma.py:115-125 | the inner loop over one directory's entries either lists all accepted entries within the cap, or breaks exactly at the entry numbered `num` |
| MadAnalysis.ConsumeCapped | MadAnalysis/run_ma.py:122-124 | the consumer stops at item `num` with the first `num` lines |
| MadAnalysis.MissingConsumed | MadAnalysis/run_ma.py:114-115 | a directory that cannot be listed, reached before the cap, fails the list with its OSError |
| MadAnalysis.BrokeConsumed | MadAnalysis/run_ma.py:122-124 | breaking at item `num` writes exactly the paths seen before it |
| MadAnalysis.EndConsumed | MadAnalysis/run_ma.py:121-125 | listing every directory within the cap writes all of their paths |
| MadAnalysis.ConsumeLoop | MadAnalysis/run_ma.py:113-125 | the nested generator loops with the counter and `break` write exactly the lines of `Consume` over the scan |
| MadAnalysis.CreateFilelistLoop | MadAnalysis/run_ma.py:111-127 | the lookups of `num` and `dirs` followed by the loops produce exactly `CreateFilelist` |
| MadAnalysis.Kept | MadAnalysis/run_ma.py:96-97 | the filter keeps at most as many channels as it is given |
| MadAnalysis.KeptMembers | MadAnalysis/run_ma.py:96-97 | a channel gets a list exactly when its name does not start with `#`, `!` or `_` |
| MadAnalysis.GenerateFilelistsKept | MadAnalysis/run_ma.py:95-97 | it succeeds exactly when no channel name is empty and every kept channel's list succeeds, and then yields the kept channels' lists in order |
| MadAnalysis.GenerateFilelists | MadAnalysis/run_ma.py:95-111 | there is at most one list per sample |
| MadAnalysis.KeptChannel | MadAnalysis/run_ma.py:97 | a kept channel's list comes first and its failure stops the comprehension |
| MadAnalysis.EmptyNameAt | MadAnalysis/run_ma.py:97 | an empty name at any position is one the comprehension trips over |
| MadAnalysis.EmptyChannelFails | MadAnalysis/run_ma.py:97 | an empty channel name makes the whole comprehension fail |
| MadAnalysis.GeneratedPaths | MadAnalysis/run_ma.py:95-111 | list i is the i-th kept channel's list, written at `out_dir/<channel>` |
| MadAnalysis.IgnoredPrefixes | MadAnalysis/run_ma.py:97 | names starting with `#`, `!` or `_` are ignored; the empty name and an ordinary channel name are not |
| ProgramOpts.Extension | Pythia/src/PythiaProgramOpts.cc:95-111 | each format's extension is a lower-case suffix starting with a dot |
| ProgramOpts.FoldsToChars | Pythia/src/PythiaProgramOpts.cc:159-162 | a string folds to the extension exactly when, character by character, its lower-cased form equals it |
| ProgramOpts.CheckExtensionChars | Pythia/src/PythiaProgramOpts.cc:159-162 | the extension test holds exactly when the last `|ext|` characters, lower-cased, spell the extension |
| ProgramOpts.CheckExtensionLowered | Pythia/src/PythiaProgramOpts.cc:159-162 | the test equals lower-casing the whole name and then testing the suffix |
| ProgramOpts.CheckExtensionIgnoresCase | Pythia/src/PythiaProgramOpts.cc:159-162 | names that differ only in letter case pass or fail the test together |
| ProgramOpts.CheckExtensionOfAppended | Pythia/src/PythiaProgramOpts.cc:159-162 | a name with a lower-case extension appended passes the test for it |
| ProgramOpts.WithExtension | Pythia/include/PythiaProgramOpts.h:115-118 | afterwards the name passes the test; a name that passed already is unchanged, any other gets the extension appended |
| ProgramOpts.WithExtensionIdempotent | Pythia/include/PythiaProgramOpts.h:115-118 | appending a missing extension twice is the same as once |
| ProgramOpts.Opts.constructor | Pythia/src/PythiaProgramOpts.cc:13-83 | the members hold the initialiser-list values overwritten by every option the parser holds a value for |
| ProgramOpts.Opts.NameHepMC | Pythia/src/PythiaProgramOpts.cc:91-97 | when `--hepmc` was given the flag is set and an empty name becomes the default stem plus `.hepmc`; no other member changes |
| ProgramOpts.Opts.NameLHE | Pythia/src/PythiaProgramOpts.cc:99-105 | the same for `--lhe` and `.lhe` |
| ProgramOpts.Opts.NameROOT | Pythia/src/PythiaProgramOpts.cc:107-113 | the same for `--root` and `.root` |
| ProgramOpts.GenerateFilenameStemSeparatesSeeds | Pythia/src/PythiaProgramOpts.cc:143-148 | runs that differ only in their seed get different default stems |
| ProgramOpts.SubmitterDefaultMatches | Pythia/src/PythiaProgramOpts.cc:143-148 | the HTCondor submitter's seeded default name equals the name the program generates itself for that seed, given the same renderings and the card's stem as channel |
| ProgramOpts.Admission | Pythia/src/PythiaProgramOpts.cc:77-88 | `--help` exits with status 1 before anything else, then a missing `--card` throws, then a card that does not exist throws; it succeeds exactly when none of these applies |
| ProgramOpts.Named | Pythia/src/PythiaProgramOpts.cc:91-113 | one format's block changes only that format's flag and name, and only when the format was requested |
| ProgramOpts.Resolved | Pythia/src/PythiaProgramOpts.cc:13-113 | after the constructor the card, event count (default 1), mass (default 8), seed (default 0), energy (default 13) and switches are the parsed values, and zip is on whatever is given |
| ProgramOpts.ResolvedOutput | Pythia/src/PythiaProgramOpts.cc:91-113 | for each format the write flag is set exactly when the option was given; a given name is kept verbatim; the option given alone gets the default stem and extension; an unrequested format keeps an empty name |
| ProgramOpts.NewOpts | Pythia/src/PythiaProgramOpts.cc:13-114 | the constructor fails exactly as `Admission` says, with its error, and otherwise yields a new object whose members are `Resolved` |
| InlineProgramOpts.GenerateFilenameSeparatesSeeds | Pythia/include/PythiaProgramOpts.h:190-193 | runs that differ only in their seed get different default names |
| InlineProgramOpts.InlineOpts.constructor | Pythia/include/PythiaProgramOpts.h:25-96 | the members hold the initialiser-list values overwritten by every option the parser holds a value for |
| InlineProgramOpts.InlineOpts.NameHepMC | Pythia/include/PythiaProgramOpts.h:109-119 | when `--hepmc` was given the flag is set, an empty name gets the default and a missing `.hepmc` is appended; no other member changes |
| InlineProgramOpts.InlineOpts.NameLHE | Pythia/include/PythiaProgramOpts.h:121-131 | the same for `--lhe` and `.lhe` |
| InlineProgramOpts.InlineOpts.NameROOT | Pythia/include/PythiaProgramOpts.h:133-143 | the same for `--root` and `.root` |
| InlineProgramOpts.InlineAdmission | Pythia/include/PythiaProgramOpts.h:96-106 | a missing `--card` throws first, even with `--help`; then `--help` exits with status 1; then a card that does not exist throws |
| InlineProgramOpts.Normalised | Pythia/include/PythiaProgramOpts.h:109-119 | a requested format is written, under a name that ends with its extension |
| InlineProgramOpts.NormalisedIdempotent | Pythia/include/PythiaProgramOpts.h:109-143 | running a format's block again on its result changes nothing |
| InlineProgramOpts.InlineNamed | Pythia/include/PythiaProgramOpts.h:109-143 | one format's block changes only that format's flag and name, and only when the format was requested |
| InlineProgramOpts.InlineResolved | Pythia/include/PythiaProgramOpts.h:25-143 | after the constructor the card, event count (default 1), mass (default 8), seed (default 0) and switches are the parsed values |
| InlineProgramOpts.InlineResolvedOutput | Pythia/include/PythiaProgramOpts.h:109-143 | the write flag is set exactly when the option was given; every requested name ends with its extension; a given name that had it is kept, one that lacked it gets it appended; the option alone gets the default stem and extension |
| InlineProgramOpts.HelpAloneThrows | Pythia/include/PythiaProgramOpts.h:96-101 | `--help` without `--card` throws the missing-option error here, while the later version exits with status 1 |
| InlineProgramOpts.NewInlineOpts | Pythia/include/PythiaProgramOpts.h:25-145 | the constructor fails exactly as `InlineAdmission` says, with its error, and otherwise yields a new object whose members are `InlineResolved` |
| LegacyProgramOpts.LegacyDefaultSeparatesSeeds | Pythia/PythiaProgramOpts.h:100-107 | runs that differ only in their seed get different default names |
| LegacyProgramOpts.LegacyName | Pythia/PythiaProgramOpts.h:100-121 | a name, once defaulted and given its extension, passes the extension test |
| LegacyProgramOpts.LegacyNameCases | Pythia/PythiaProgramOpts.h:100-121 | a non-empty name with the extension is kept, one without gets it appended, and an empty name becomes the default, which already carries it |
| LegacyProgramOpts.LegacyOpts.constructor | Pythia/PythiaProgramOpts.h:23-88 | the members hold the initialiser-list values (mass 15) overwritten by every option the parser holds a value for |
| LegacyProgramOpts.LegacyOpts.SetupFilenames | Pythia/PythiaProgramOpts.h:95-107 | each empty name becomes `ma1_<mass>_<channel>_<seed>` with its extension, the channel being the card's stem; nothing else changes |
| LegacyProgramOpts.LegacyOpts.AddExtensions | Pythia/PythiaProgramOpts.h:109-121 | each name lacking its extension, compared lower-cased, gets it appended |
| LegacyProgramOpts.LegacyResolved | Pythia/PythiaProgramOpts.h:23-121 | the switches, event count (default 1), mass (default 15), seed (default 0) and card are the parsed values |
| LegacyProgramOpts.LegacyResolvedNames | Pythia/PythiaProgramOpts.h:95-121 | each name is the given one or the default for the card's stem, then given its extension, whether or not that format is written |
| LegacyProgramOpts.LegacyResolvedExtensions | Pythia/PythiaProgramOpts.h:109-121 | both names end with their extension whatever the options |
| LegacyProgramOpts.NewLegacyOpts | Pythia/PythiaProgramOpts.h:23-123 | the constructor exits with status 1 exactly when `--help` is given, and otherwise yields a new object whose members are `LegacyResolved` |
| RootHist.LessIrreflexive | Pythia/RootHistManager.h:83 | no key of the histogram map comes before itself |
| RootHist.LessTransitive | Pythia/RootHistManager.h:83 | the key order is transitive |
| RootHist.LessTotal | Pythia/RootHistManager.h:83 | any two different keys are ordered one way or the other |
| RootHist.LeastExists | Pythia/src/RootHistManager.cc:49 | every non-empty set of keys has a first key, so the iteration can always go on |
| RootHist.Names | Pythia/src/RootHistManager.cc:49-51 | the name of every written histogram is among its names |
| RootHist.IndexOf | Pythia/src/RootHistManager.cc:49-51 | a written name is found at a position holding that histogram |
| RootHist.NamesAppend | Pythia/src/RootHistManager.cc:49-51 | writing one more histogram adds just its name |
| RootHist.WrittenOnce | Pythia/src/RootHistManager.cc:46-52 | no histogram is written twice |
| RootHist.WrittenUnique | Pythia/src/RootHistManager.cc:46-52 | the written sequence is determined by the map: only one order satisfies the write specification |
| RootHist.HeadsAgree | Pythia/src/RootHistManager.cc:49-51 | two increasing sequences of the same names begin with the same name |
| RootHist.FirstNotInRest | Pythia/src/RootHistManager.cc:49-51 | in an increasing sequence the first name does not occur again |
| RootHist.SortedUnique | Pythia/src/RootHistManager.cc:49-51 | two increasing sequences with the same names list them in the same order |
| RootHist.WriteStep | Pythia/src/RootHistManager.cc:49-51 | writing the first remaining key keeps the loop's invariant |
| RootHist.WriteAll | Pythia/src/RootHistManager.cc:46-52 | the loop writes every held histogram with its contents, exactly once, in increasing key order |
| RootHist.Deliver | Pythia/src/RootHistManager.cc:28-43 | a fill keeps the map's keys and the other histograms; with `store` on the named histogram receives the fill at the end, with it off nothing changes |
| RootHist.ReplayKeys | Pythia/RootHistManager.cc:27-40 | a run of fills never adds or removes a histogram |
| RootHist.ReplayLog | Pythia/RootHistManager.cc:27-40 | after a run of fills a held histogram holds its old contents followed by exactly the fills addressed to it, in call order, when `store` is on, and is unchanged when it is off |
| RootHist.ReplayStored | Pythia/RootHistManager.cc:27-40 | with `store` on, a held histogram ends with exactly the fills addressed to it appended, in call order |
| RootHist.ReplayBypassed | Pythia/RootHistManager.cc:27-40 | with `store` off, a run of fills leaves every histogram as it was |
| RootHist.DeliverAt | Pythia/RootHistManager.cc:27-40 | one fill appends to the addressed histogram only when `store` is on |
| RootHist.HistManager.constructor | Pythia/src/RootHistManager.cc:5-8 | the default manager holds no histograms and stores fills |
| RootHist.HistManager.Storing | Pythia/src/RootHistManager.cc:11-14 | the manager holds no histograms and stores fills exactly when asked to |
| RootHist.HistManager.AddHist | Pythia/src/RootHistManager.cc:22-25 | the histogram is held under its name, replacing one of the same name; the others are kept |
| RootHist.HistManager.CheckHistName | Pythia/src/RootHistManager.cc:54-59 | it throws a range error naming the histogram exactly when none of that name is held |
| RootHist.HistManager.FillTH1 | Pythia/src/RootHistManager.cc:28-34 | with `store` on, an unknown name throws the range error and changes nothing; otherwise the fill is delivered to the named histogram; with `store` off nothing happens |
| RootHist.HistManager.FillTH2 | Pythia/src/RootHistManager.cc:37-43 | the same for a two-dimensional fill |
| RootHist.HistManager.Write | Pythia/src/RootHistManager.cc:46-52 | every held histogram is written once, in key order |
| RootHist.LegacyHistManager.constructor | Pythia/RootHistManager.cc:4-7 | the default manager holds no histograms and stores fills |
| RootHist.LegacyHistManager.Storing | Pythia/RootHistManager.cc:10-13 | the manager holds no histograms and stores fills exactly when asked to |
| RootHist.LegacyHistManager.AddHist | Pythia/RootHistManager.cc:21-24 | the histogram is held under its name, replacing one of the same name |
| RootHist.LegacyHistManager.CheckHistName | Pythia/RootHistManager.cc:51-54 | the answer is whether a histogram of that name is held |
| RootHist.LegacyHistManager.FillTH1 | Pythia/RootHistManager.cc:27-32 | the fill is delivered when `store` is on and the name is held, and is ignored otherwise |
| RootHist.LegacyHistManager.FillTH2 | Pythia/RootHistManager.cc:35-40 | the same for a two-dimensional fill |
| RootHist.LegacyHistManager.Write | Pythia/RootHistManager.cc:43-49 | every held histogram is written once, in key order |

## Left out

- Text.ParseInt: Python's `int()` also accepts leading and trailing whitespace; the model reads a string without it, so `PythiaCondor.Energy` (the `--energy` value), `Cards.EnergyTeV` (a run-card token) and the MG5 worker's integer options read a padded value as a ValueError. Run-card tokens come from `split()` and carry no whitespace; a command-line value would have to be quoted with spaces to differ.
- Subprocesses (`hadoop fs`, `condor_submit_dag`, `qsub`, `tar`, `gunzip`, the MG5, Delphes and Pythia executables) are not run. The model records the command or action each call would issue.
- Exit statuses and output of those subprocesses are not modelled.
- The file system is a map from paths to kinds (file or directory). `isfile`/`isdir` and `fs::exists` are membership tests on it.
- What each external program leaves on the file system is a parameter of the worker models, not computed:
  - the Pythia program: `after` in `PythiaWorker`;
  - the MG5 executable: the node's `ran` map in `Mg5Worker`;
  - the Delphes command: `run: Effect` in `DelphesWorker`.
- The map is updated where a later step reads it: `os.rename` (`FileSystem.Moved`), the `os.makedirs` in `copy_from_local`, and `os.remove` of the local files. Each later step in a loop (`Staging.Each`) sees the map the previous step left.
- Some state changes are recorded only as actions, so later steps do not see them in the map: copy destinations, `hadoop fs` transfers, copy-ins and `gunzip`, `mkdir` of the scratch directory, and the ancestors that `os.makedirs` creates.
- `os.remove` of a missing file raising `OSError` is not modelled.
- DelphesWorker.SharedDirectoryMadeOnce: the directory made for the first pair is shown to persist only when the Delphes command does not delete directories (`KeepsDirs`). The source makes no promise about what Delphes deletes.
- Failures of `os.remove`, `os.chmod`, `os.rename`, `tarfile`, `gunzip`, `shutil.copy2` and `shutil.copytree` themselves are not modelled. A local copy is the action `CopyFile` or `CopyTree`, which always completes. In the source, `copy2` into a missing directory raises IOError and `copytree` onto an existing destination raises OSError (Pythia/HTCondor/mcJob.py:47-50 and 75-78, MG5_aMC/HTCondor/mcJob.py:58-61 and 135-138, Delphes/HTCondor/runDelphes.py:122-125 and 136-139). The "finishes exactly when" lemmas below are therefore weaker than the scripts on those inputs.
- PythiaWorker.McJobSucceeds and PythiaWorker.AfterRun: a copy-in or copy-out by `shutil` is taken to succeed, so they claim success where `copy2` or `copytree` raises.
- DelphesWorker.ScriptSucceeds and DelphesWorker.RunDelphesSucceeds: the same for the local copy-ins and copy-outs of `runDelphes.py`. There `copy_from_local` makes the destination's parent first, so the affected cases are a copy-in into a missing directory and a `copytree` onto an existing destination.
- Mg5Worker.OutputsPlan, Mg5Worker.Mg5RunPlan and Mg5Worker.Mg5Succeeds: the same for the MG5 worker. Notably its two archives are copied with `copy2` into `<oDir>/lhe` and `<oDir>/hepmc`, which the script never creates, so a non-`/hdfs` output directory without them raises IOError where the model finishes.
- The worker models key the file-system map by path strings as the scripts write them, resolved against one fixed directory. The `os.chdir` calls are recorded as actions (`ChangeDir`) but do not change how later relative paths are looked up. These calls are: into `scratch` (Pythia/HTCondor/mcJob.py:37, MG5_aMC/HTCondor/mcJob.py:47, Delphes/HTCondor/runDelphes.py:53), into `delphes` (Delphes/HTCondor/runDelphes.py:69) and into the MG5 run directory (MG5_aMC/HTCondor/mcJob.py:100). The MG5 run directory is the one path resolved explicitly (`Mg5Worker.RunAbs`).
- Mg5Worker: what `run_mg5`'s argument parser makes of the forwarded arguments (`parsed`) and the lines of the template card (`template`) are parameters of the node. Writing the new card is taken to succeed.
- `os.makedirs` through a path whose intermediate component is a regular file is not modelled.
- `os.path.abspath` and `os.getcwd()` are parameters (the working directory).
- `strftime` dates and times, `getpass.getuser()` and `LOGNAME` are opaque string parameters.
- Logging and printing are left out, including `printProgramOptions`.
- `--dry` is modelled where it guards an action the model issues: the PBS `qsub` command (`PythiaPbs.Submission`) and the MG5_aMC call of `run_mg5` (`Mg5Worker.Launch`). Its other uses guard `condor_submit_dag`, the `hadoop fs` copy of `input_cards`, the `copy2` of `run_mg5.py` and the MadAnalysis run, none of which the submitter models issue.
- `argparse`, the MG5 argument parser and `boost::program_options` are left out. Each model starts from the parsed values.
- Store-time parse errors of the C++ options classes (`printOptionError`) are left out.
- Floating point:
  - `frange` is modelled over exact reals, so accumulated rounding is not modelled;
  - the renderings `str(mass)`, `'%g' % mass` and `lexical_cast` of mass and energy are opaque strings or an opaque function `show` supplied by the caller.
- Python 2 dict iteration order (copy maps, `mg5_args.__dict__`, `opt_dict`, `script_vars`, the `fields` dictionary of `run_mg5`, the samples JSON) is modelled as the order of a sequence of pairs.
- The duplicated option helpers are modelled once, in `ArgOptions`, because their code is identical. This covers the PBS submitter's copy (Pythia/submit_py8_jobs_pbs.py:270-326) and the worker copies (Pythia/HTCondor/mcJob.py:81-107).
- ArgOptions.GetAfterSet: the read-back after `set_option_in_args` is stated only for a value that is non-empty, does not start with `-` and differs from the flag, where the token after the flag is not `""` and the flag is not both repeated and last. In those two excluded cases the code as written does not give the value back; `RepeatedLastFlagDefeatsSet` and `EmptyValueDefeatsSet` exhibit them.
- In `make_card`, regular-expression metacharacters in field names are treated as literal text.
- The generator programs, ROOT histogramming physics and the plotting scripts are left out.
- `TH1::Fill` and `TH1::Write` are modelled as a log of fills and a sequence of written histograms.
- `RootHist`: the model does not capture that the manager refers to the caller's histograms (`TH1*`) rather than holding copies. A histogram filled through another alias is not seen.
- `RootHist`: the `(TH2*)` cast applied to a one-dimensional histogram is not modelled; the fill is logged as a two-dimensional fill.
- `RootHist`: `file->cd()` and the TFile itself are left out.
- The legacy Pythia/RootHistManager.cc defines `bool checkHistName`, but Pythia/RootHistManager.h declares it `void`. The model follows the `.cc`, whose fills ignore unknown names even though the header documents a `range_error`.
- The repository's documentation describes a copy-in of a missing source as a staging error. The code's `if isfile … elif isdir` chain does nothing for such a source, and the model follows the code (`Skip`).
- The MG5 submitter's directory creation and staging set-up in `main` (MG5_aMC/submit_mg5_jobs_htcondor.py:114-172) is not modelled; its checks, energy derivation and DAG writer are.
- DelphesSubmit.WriteDagFile, DelphesSubmit.DagFile, LegacyPythia.WriteDag, Mg5Submit.WriteDag, PythiaCondor.WriteDag, Mg5Dag.WriteDagFile, Mg5Dag.Submit and MadAnalysis.CreateFilelist: each source writer opens the DAG file first and writes as it goes, so an error raised inside its job loop leaves a partly written file behind. The errors are: in Delphes, `stem(None)` on the padding of an odd input count (Delphes/submit_delphes_jobs_htcondor.py:191-194), after the header, the earlier nodes and the last job's `JOB` line (:180); in the legacy Pythia submitter, the IndexError of the `--hepmc` lookup (Pythia/submit_mc_jobs_htcondor.py:199-213); in the MG5 submitter, the ValueError of the flag remap (MG5_aMC/submit_mg5_jobs_htcondor.py:219-247); in the Pythia HTCondor submitter, the KeyError of the output pass (Pythia/submit_py8_jobs_htcondor.py:234-276). The three last ones fire after the header, the earlier jobs and the failing job's `JOB` line are written. In submitMG5_dag.py a missing `--nJobs` or `--nEvents` raises TypeError at `'%d' %` after the condor file (MG5_aMC/submitMG5_dag.py:81-82) and the DAG's first line (:90-91) are written. In `create_filelist` the list file is opened before `chan_dict['num']` and `chan_dict['dirs']` are read (MadAnalysis/run_ma.py:119-125), so a KeyError leaves an empty file, and an OSError of `listdir` leaves the paths written so far. Every model returns the error and none models the partly written file.
- PythiaCondor: the DAG's energy is a parameter of `DagConfig`. `PythiaCondor.Energy` models how `main` reads it from `--energy` (Pythia/submit_py8_jobs_htcondor.py:111-114), but the DAG writer does not call it.
- The argument list given to the Pythia submitters (`args.args`) is a sequence of strings. The `TypeError` raised when it is `None` (Pythia/submit_py8_jobs_htcondor.py:68, Pythia/submit_py8_jobs_pbs.py:78) is not modelled.
- Mg5Dag.Submit does not model the `os.makedirs` of the output and log directories (MG5_aMC/submitMG5_dag.py:53-65).
- In the Pythia submitters' `main`, output and log directory creation, copying the executable into the output directory, and the time-stamped file stems are not modelled. The checks and the DAG and condor-file writers are.
- `run_ma`'s `main` (the existence checks, `run_dir` and the executable calls) is not modelled. In `create_filelist` only the `.root` extension that the caller passes is considered, and the file writes are modelled as the lines written.

## Findings

| source | as written | input that shows it | evidently intended | confidence | as-written member | corrected member |
|---|---|---|---|---|---|---|
| Pythia/submit_py8_jobs_pbs.py:176 | with `--massRange` and no `--mass`, the float mass is appended to the argument list, and `" ".join` then raises TypeError | `--massRange 8 8 1` with `--args --card ggh.cmnd` | append `str(mass)`, as the overwriting branch does | not executed | PythiaPbs.FloatMassBreaksJoin | PythiaPbs.ExeArgsMass |
| Delphes/submit_delphes_jobs_htcondor.py:194-196 | `grouper` pads the last group with None, and the padding reaches `os.path.basename`, raising AttributeError | three accepted input files, which make two groups of two, the second padded; `SubmitOddFails` carries the failure up to the whole submission | skip the padding entries | not executed | DelphesSubmit.DagTextAsWrittenOdd | DelphesSubmit.EveryInputOnce |
| Delphes/submit_delphes_jobs_htcondor.py:191-194 | `stem` strips two extensions even from an uncompressed file, so names with a dot in them lose part of their stem | `ggh_ma1_8.5_13TeV_n1000_seed1.hepmc` and `..._seed2.hepmc` both give the output `<oDir>/ggh_ma1_8.root` | strip a second extension only after `.gz` | not executed | DelphesSubmit.StemCollision | DelphesSubmit.OutputStemSeparatesSeeds |
| MG5_aMC/run_mg5.py:118-120 | the documentation promises a word match, but `make_card` tests `name in line` and searches `name + r' (.*)$'` with no left boundary (lines 131-142): a name inside a longer word is rewritten, and without a space after it `.group` on None raises AttributeError | `-n 200` with the template lines `set genevents 5`, which becomes `set genevents 200`, and `output genevents`, which aborts the card (`Mg5Card.SubstringAborts`) | rewrite only where the name stands as a word, as the documentation's `nevents`/`genevents` example says | not executed | Mg5Card.SubstringRewritten | Mg5Card.WordRewriteKeepsGenevents |
