# routine_qc scheduler core, in Dafny

`auto_qc.py` watches a sequencer output directory and, on every pass:
- it lists the run directories whose upload is complete (`list_subdirectories`);
- it drops those already analysed (`filter_analyzed_runs`);
- it builds one `nextflow run BCCDC-PHL/routine-qc …` command per remaining run (`build_workflow_command`).

This project models that pass and proves what it does.

- **Paths.** `os.path.basename` and `os.path.join` are modelled on plain strings, with '/' as the separator (`posix_path.dfy`).
- **Regex matching.** The fragment of Python regular expressions used by the run-ID patterns is modelled with `re.match`'s prefix semantics:
  - a backtracking definition (`MatchesFrom`);
  - a greedy matcher (`Match`);
  - a proof that the two agree on the patterns in question (`prefix_regex.dfy`).
- **Classification.** A run ID is classified as MiSeq, then NextSeq, else the type stays Python's `None`. Each outcome is proved equivalent to an independent, character-by-character description of the two run-ID layouts (`run_classifier.dfy`).
- **Scan and filter.**
  - The directory scan is an imperative loop over the `os.scandir` entries. It is proved to return, in scan order, exactly the directories holding `upload_complete.json`.
  - The `RoutineQC` filter keeps, in order, exactly the runs without that directory. Each input occurrence is either kept or dropped, and the filter is idempotent (`run_selection.dfy`).
- **The command.** The command is built from the run directory and a UUID (`workflow_command.dfy`). The model proves several things about it:
  - its exact text;
  - that it is the space-join of sixteen words;
  - what a shell splitting it at spaces sees;
  - that the work and output directories lie inside the run directory;
  - that for one run directory, two commands are equal exactly when their UUIDs are.
- **One pass.** A pass is scan, filter, then one command per eligible run (`flow_pass.dfy`). The model proves:
  - the eligibility condition;
  - that runs which were dispatched and have their output directory are never dispatched again;
  - the two end-to-end scenarios (one completed and one incomplete run; one already analysed run).
- **Two faithful details.**
  - The format string's two halves meet without a space. The `-r` option therefore receives `v0.3.2--run_dir`, and the run directory follows as a separate word. `WorkflowCommand.CommandArguments` states this.
  - An unclassified run is formatted as `--instrument_type None`, Python's rendering of `None`, and not as `unknown`. `WorkflowCommand.UnclassifiedRunPassesNone` states this.

The file system is abstracted to what the pass observes:
- the list of entries `os.scandir` yields, each with its name and `is_dir()`;
- the set of paths for which `os.path.exists` holds.

An entry's path is the parent joined with its name, as `DirEntry.path` is.

The completion test in `list_subdirectories` is modelled as the evident intent: the entry is a directory and `<entry>/upload_complete.json` exists. The line as written lacks a closing parenthesis.

## Model

| member | source | states |
|---|---|---|
| PosixPath.RFind | auto_qc.py:32 | the index of the last separator, or -1 exactly when there is none; no separator follows it |
| PosixPath.Basename | auto_qc.py:32 | the run ID is the longest separator-free suffix of the run directory, preceded by a separator when shorter |
| PosixPath.Join | auto_qc.py:43-45 | an absolute component replaces the directory; otherwise the result starts with the directory, ends with the component, and has a separator between them exactly when the directory is non-empty and does not end in one |
| PosixPath.JoinInjective | auto_qc.py:45 | joining two relative components onto one directory gives equal paths exactly when the components are equal |
| PosixPath.BasenameOfJoin | auto_qc.py:27-32 | the base name of a directory joined with a separator-free name is that name |
| PrefixRegex.MatchesFrom | auto_qc.py:36-38 | `re.match` success: the pattern's elements consume the input from its start, each `+` stopping after any positive number of characters of its class, with anything left over allowed; its behaviour on the two run-ID patterns is stated by RunClassifier.MiSeqPatternShape and RunClassifier.NextSeqPatternShape |
| PrefixRegex.Match | auto_qc.py:36-38 | the executable matcher, each `+` taking the longest run of its class; PrefixRegex.MatchCorrect proves it equal to MatchesFrom |
| PrefixRegex.MatchCorrect | auto_qc.py:36-38 | on patterns where every `+` is followed by a literal outside its class, greedy matching succeeds exactly when some backtracking split of the input matches |
| PrefixRegex.MatchesFromExtend | auto_qc.py:36-38 | `re.match` only constrains a prefix: a matching string still matches with anything appended |
| RunClassifier.InstrumentType.Text | auto_qc.py:35-39 | the text formatted into `--instrument_type` is never empty (`None`, `miseq` or `nextseq`) |
| RunClassifier.Classify | auto_qc.py:33-39 | `miseq` iff the MiSeq pattern prefix-matches; `nextseq` iff MiSeq does not and NextSeq does; `None` iff neither does |
| RunClassifier.PatternsWellFormed | auto_qc.py:33-34 | in both patterns the only `\d+` is followed by a `_` it cannot consume |
| RunClassifier.MiSeqPatternShape | auto_qc.py:33 | the MiSeq regex prefix-matches exactly the strings that start with the MiSeq layout for some run-counter length |
| RunClassifier.NextSeqPatternShape | auto_qc.py:34 | the NextSeq regex prefix-matches exactly the strings that start with the NextSeq layout for some run-counter length |
| RunClassifier.ShapesExclusive | auto_qc.py:36-39 | no run ID has both layouts, so the order of the two tests never decides the type |
| RunClassifier.ClassifyMiSeq | auto_qc.py:33-37 | `miseq` exactly when the run ID starts with: 6 digits, `_M`, 5 digits, `_`, one or more digits, `_`, 9 digits, `-`, 5 of [A-Z0-9] |
| RunClassifier.ClassifyNextSeq | auto_qc.py:34-39 | `nextseq` exactly when the run ID starts with: 6 digits, `_VH`, 5 digits, `_`, one or more digits, `_`, 9 of [A-Z0-9] |
| RunClassifier.ClassifyNone | auto_qc.py:35-39 | the type stays `None` exactly when neither layout starts the run ID |
| RunClassifier.ClassifyAppend | auto_qc.py:36-39 | trailing characters never change a MiSeq or NextSeq classification |
| RunClassifier.ClassifyMiSeqExample | auto_qc.py:33-37 | `201203_M00325_0123_000000000-A1B2C` is `miseq` |
| RunClassifier.ClassifyNextSeqExample | auto_qc.py:34-39 | `201203_VH00123_0045_AB12CD345` is `nextseq` |
| RunClassifier.ClassifyNoneExample | auto_qc.py:35-39 | `randomfolder` stays `None` |
| RunSelection.IsCompletedRun | auto_qc.py:26 | the scan's test: the entry is a directory and `<entry path>/upload_complete.json` exists; stated through RunSelection.CompletedRuns |
| RunSelection.EntryPath | auto_qc.py:27 | `DirEntry.path`, the scanned directory joined with the entry's name; its base name is the entry's name by FlowPass.RunIdIsEntryName |
| RunSelection.CompletedRuns | auto_qc.py:24-28 | a path is listed exactly when some entry is a directory holding `upload_complete.json` and the path is that entry's path; each path occurs as often as there are such entries; the list is an in-order subsequence of the entries' paths, and so no longer than the entries by RunSelection.SubsequenceNoLonger |
| RunSelection.ListSubdirectories | auto_qc.py:23-28 | the scan loop returns exactly the completed runs, in scan order |
| RunSelection.NotAnalyzed | auto_qc.py:52 | the filter's lambda: `<run>/RoutineQC` does not exist; stated through RunSelection.FilterAnalyzedRuns and FlowPass.IneligibleRunNotSelected |
| RunSelection.FilterAnalyzedRuns | auto_qc.py:52 | a run is kept exactly when it was an input and has no `RoutineQC`; each kept run occurs as often as in the input; the output is an in-order subsequence of the input |
| RunSelection.FilterIdempotent | auto_qc.py:52 | filtering the filtered runs again changes nothing |
| WorkflowCommand.RunId | auto_qc.py:32 | the run ID is the base name of the run directory; for a scanned entry it is the entry's name by FlowPass.RunIdIsEntryName |
| WorkflowCommand.OutDir | auto_qc.py:43 | `<run_dir>/RoutineQC`; it lies inside the run directory and its base name is `RoutineQC` by WorkflowCommand.RunPathsInsideRunDir |
| WorkflowCommand.WorkDir | auto_qc.py:44-45 | `<run_dir>/work-<uuid>`; it lies inside the run directory by WorkflowCommand.RunPathsInsideRunDir and is the only part of the command that depends on the UUID by WorkflowCommand.CommandAroundUuid |
| WorkflowCommand.BuildWorkflowCommand | auto_qc.py:31-49 | the command for a run directory and UUID is the space-join of its sixteen words: `nextflow`, `run`, the pipeline, `-profile conda --cache ~/.conda/envs -r`, `v0.3.2--run_dir`, the run directory, `--instrument_type` and the classified type, `-work` and the work directory, `--outdir` and the output directory |
| WorkflowCommand.FormatCommand | auto_qc.py:46-47 | the format string with any run directory, type, work and output directory is the space-join of those sixteen words |
| WorkflowCommand.CommandArguments | auto_qc.py:40-47 | for a non-empty, space-free run directory and UUID, splitting at spaces yields exactly the sixteen words, with `-r` followed by `v0.3.2--run_dir` and then the run directory |
| WorkflowCommand.RunPathsInsideRunDir | auto_qc.py:43-45 | the output and work directories start with the run directory; their base names are `RoutineQC` and `work-<uuid>` |
| WorkflowCommand.CommandAroundUuid | auto_qc.py:44-47 | for one run directory, every command is the same text before and after the UUID |
| WorkflowCommand.CommandDeterminesUuid | auto_qc.py:44-47 | for one run directory, two commands are equal exactly when their UUIDs are |
| WorkflowCommand.UnclassifiedRunPassesNone | auto_qc.py:35-47 | an unclassified run is passed on as `--instrument_type None -work …` |
| FlowPass.EligibleRuns | auto_qc.py:67-68 | a path is eligible exactly when some scanned entry is a directory holding `upload_complete.json` and lacking `RoutineQC`, and the path is that entry's path |
| FlowPass.Pass | auto_qc.py:69 | the pass builds exactly as many commands as there are eligible runs; which command serves which run is stated by the three lemmas below |
| FlowPass.PassCommandsAreForEligibleRuns | auto_qc.py:66-69 | every command of a pass is the command for some completed, unanalysed entry, built with that position's UUID |
| FlowPass.EveryEligibleRunGetsCommand | auto_qc.py:66-69 | every completed, unanalysed entry has a position in the pass whose run is that entry's path and whose command is built for it with that position's UUID |
| FlowPass.EligibleRunsDistinct | auto_qc.py:24-27 | for entries with distinct, separator-free names, as `os.scandir` yields, the eligible runs are distinct, so each is served by exactly one command |
| FlowPass.IneligibleRunNotSelected | auto_qc.py:66-68 | a run lacking the completion marker, or having `RoutineQC`, is never eligible |
| FlowPass.PassesDifferOnlyInUuids | auto_qc.py:66-69 | two passes over one directory state build equally many commands; commands at the same position agree exactly when their UUIDs do |
| FlowPass.DispatchedRunsNotRedispatched | auto_qc.py:66-69 | once every run of a pass has its output directory, no later pass, over any entries, includes any of those runs |
| FlowPass.RunIdIsEntryName | auto_qc.py:27-32 | the run ID of a scanned entry is its name, so its type is the classification of that name |
| FlowPass.OneOfTwoEligible | auto_qc.py:66-69 | of a completed unanalysed entry and an incomplete one, the pass builds exactly one command, for the first |
| FlowPass.AnalyzedRunSkipped | auto_qc.py:66-69 | a lone completed entry that has `RoutineQC` yields no command |
| FlowPass.ScenarioOneCompletedRun | auto_qc.py:66-69 | under `/data`, with `runA` complete and `runB` not, the pass is exactly one command, for `/data/runA`, whose work directory lies inside `/data/runA` |
| FlowPass.ScenarioAnalyzedRun | auto_qc.py:66-69 | under `/data`, with `runC` complete and analysed, the pass builds no command |

## Left out

- Prefect orchestration is not modelled: `Flow`, `IntervalSchedule`, `.map`, `FilterTask` wiring and `flow.run()` (auto_qc.py:61-71,81). Instead, one pass is a function over the listing and the file system, and lemmas relate two passes.
- Dispatch and output are not modelled: `ShellTask`, `build_workflow_task` and `show_output` (auto_qc.py:18-20,55-58). The flow never hands the built commands to `build_workflow_task`.
- `os.scandir`, `is_dir` and `os.path.exists` are not called. Their results are parameters: a list of entries and a set of existing paths. A scan of a missing or unreadable directory, which raises in the source, is not modelled.
- `uuid.uuid4()` is not modelled. Its string is a parameter (`uuidOf(i)` for the `i`-th run of a pass), so uniqueness of fresh UUIDs is assumed, not proved. What is proved is that distinct UUIDs give distinct commands.
- `argparse` and `main` (auto_qc.py:74-84) are process start-up and are not modelled.
- `\d` is taken to be the ASCII digits. Python's `str` patterns also accept other Unicode decimal digits.
- `os.path.join` is modelled for two string components. The scan passes a `DirEntry`, which it treats as the entry's path.
- `os.path.basename` and `os.path.join` are modelled for the POSIX separator only.
- WorkflowCommand.CommandArguments: splitting at spaces approximates the shell. Quoting and `~` expansion are not modelled, and the statement needs a run directory and UUID without spaces.
- The filter's output order is the input order. The scan's order is the `os.scandir` order, modelled as the given list order, which the operating system leaves unspecified.
