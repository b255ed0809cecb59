/**
 * One pass of the `routine_qc` flow: scan the parent directory for completed
 * runs, drop the runs an analysis was already started for, and build one
 * workflow command per remaining run. The scheduler that repeats the pass is
 * not modelled; two passes are related by lemmas instead. `uuidOf(i)` stands
 * for the UUID drawn when the command for the `i`-th run is built.
 */
module FlowPass {
  import opened PosixPath
  import opened RunClassifier
  import opened RunSelection
  import opened WorkflowCommand

  /** The runs the pass builds commands for, in scan order. */
  function EligibleRuns(parent: string, entries: seq<DirEntry>, fs: FileSystem): (runs: seq<string>)
    ensures forall p :: p in runs <==>
      exists e :: e in entries && e.isDir
        && fs.Exists(Join(Join(parent, e.name), CompletionMarker))
        && !fs.Exists(Join(Join(parent, e.name), AnalysisMarker))
        && p == Join(parent, e.name)
  {
    var completed := CompletedRuns(parent, entries, fs);
    var runs := FilterAnalyzedRuns(fs, completed);
    assert forall p :: p in runs <==> p in completed && NotAnalyzed(fs, p);
    runs
  }

  /** `build_workflow_command.map(subdirs_to_analyze)`: the commands of one pass. */
  function Pass(parent: string, entries: seq<DirEntry>, fs: FileSystem, uuidOf: nat -> string): (cmds: seq<string>)
    ensures |cmds| == |EligibleRuns(parent, entries, fs)|
  {
    var runs := EligibleRuns(parent, entries, fs);
    seq(|runs|, i requires 0 <= i < |runs| => BuildWorkflowCommand(runs[i], uuidOf(i)))
  }

  /**
   * Every command of a pass is built for a directory entry that is a completed
   * run without an analysis directory, with the UUID drawn for it.
   */
  lemma PassCommandsAreForEligibleRuns(parent: string, entries: seq<DirEntry>, fs: FileSystem,
                                       uuidOf: nat -> string, i: nat)
    requires i < |Pass(parent, entries, fs, uuidOf)|
    ensures exists e :: e in entries && IsCompletedRun(parent, fs, e) && NotAnalyzed(fs, EntryPath(parent, e))
                        && Pass(parent, entries, fs, uuidOf)[i] == BuildWorkflowCommand(EntryPath(parent, e), uuidOf(i))
  {
    var runs := EligibleRuns(parent, entries, fs);
    assert runs[i] in runs;
    var e :| e in entries && IsCompletedRun(parent, fs, e) && NotAnalyzed(fs, EntryPath(parent, e))
      && runs[i] == EntryPath(parent, e);
  }

  /**
   * Conversely, every completed, unanalysed entry gets a command: at some
   * position of the pass whose run is that entry's path, built with that
   * position's UUID.
   */
  lemma EveryEligibleRunGetsCommand(parent: string, entries: seq<DirEntry>, fs: FileSystem, uuidOf: nat -> string)
    ensures forall e :: e in entries && IsCompletedRun(parent, fs, e) && NotAnalyzed(fs, EntryPath(parent, e)) ==>
      exists i :: 0 <= i < |Pass(parent, entries, fs, uuidOf)|
        && EligibleRuns(parent, entries, fs)[i] == EntryPath(parent, e)
        && Pass(parent, entries, fs, uuidOf)[i] == BuildWorkflowCommand(EntryPath(parent, e), uuidOf(i))
  {
    var runs := EligibleRuns(parent, entries, fs);
    var cmds := Pass(parent, entries, fs, uuidOf);
    forall e | e in entries && IsCompletedRun(parent, fs, e) && NotAnalyzed(fs, EntryPath(parent, e))
      ensures exists i :: 0 <= i < |cmds| && runs[i] == EntryPath(parent, e)
                          && cmds[i] == BuildWorkflowCommand(EntryPath(parent, e), uuidOf(i))
    {
      var p := EntryPath(parent, e);
      assert p in runs;
      var i :| 0 <= i < |runs| && runs[i] == p;
      assert cmds[i] == BuildWorkflowCommand(p, uuidOf(i));
    }
  }

  /**
   * Entry names in one directory are distinct and free of separators, so the
   * eligible runs are distinct: no run is served by two commands of a pass.
   */
  lemma EligibleRunsDistinct(parent: string, entries: seq<DirEntry>, fs: FileSystem)
    requires forall i, j :: 0 <= i < j < |entries| ==> entries[i].name != entries[j].name
    requires forall i :: 0 <= i < |entries| ==> Sep !in entries[i].name
    ensures Distinct(EligibleRuns(parent, entries, fs))
  {
    var paths := EntryPaths(parent, entries);
    forall i, j | 0 <= i < j < |paths|
      ensures paths[i] != paths[j]
    {
      var a, b := entries[i].name, entries[j].name;
      assert !IsAbsolute(a) by { if |a| > 0 { assert a[0] in a; } }
      assert !IsAbsolute(b) by { if |b| > 0 { assert b[0] in b; } }
      JoinInjective(parent, a, b);
    }
    var runs := CompletedRuns(parent, entries, fs);
    SubsequenceDistinct(runs, paths);
    SubsequenceDistinct(FilterAnalyzedRuns(fs, runs), runs);
  }

  /**
   * A run directory lacking the completion marker, or already bearing the
   * analysis directory, is not among the runs the pass builds commands for.
   */
  lemma IneligibleRunNotSelected(parent: string, entries: seq<DirEntry>, fs: FileSystem, runDir: string)
    requires !fs.Exists(Join(runDir, CompletionMarker)) || fs.Exists(Join(runDir, AnalysisMarker))
    ensures runDir !in EligibleRuns(parent, entries, fs)
  {
  }

  /**
   * Two passes over the same directory state build commands for the same runs:
   * command `i` of the two passes agree exactly when their UUIDs do.
   */
  lemma PassesDifferOnlyInUuids(parent: string, entries: seq<DirEntry>, fs: FileSystem,
                                uuidOf1: nat -> string, uuidOf2: nat -> string)
    ensures |Pass(parent, entries, fs, uuidOf1)| == |Pass(parent, entries, fs, uuidOf2)|
    ensures forall i :: 0 <= i < |Pass(parent, entries, fs, uuidOf1)| ==>
      (Pass(parent, entries, fs, uuidOf1)[i] == Pass(parent, entries, fs, uuidOf2)[i] <==> uuidOf1(i) == uuidOf2(i))
  {
    var runs := EligibleRuns(parent, entries, fs);
    forall i | 0 <= i < |runs|
      ensures Pass(parent, entries, fs, uuidOf1)[i] == Pass(parent, entries, fs, uuidOf2)[i] <==> uuidOf1(i) == uuidOf2(i)
    {
      CommandDeterminesUuid(runs[i], uuidOf1(i), uuidOf2(i));
    }
  }

  /**
   * Once the pipeline has created the output directory of every run of a pass,
   * no later pass, over whatever entries, builds a command for any of them.
   */
  lemma DispatchedRunsNotRedispatched(parent: string, entries: seq<DirEntry>, fs: FileSystem,
                                      entries': seq<DirEntry>, fs': FileSystem)
    requires forall r :: r in EligibleRuns(parent, entries, fs) ==> fs'.Exists(OutDir(r))
    ensures forall r :: r in EligibleRuns(parent, entries', fs') ==> r !in EligibleRuns(parent, entries, fs)
  {
    forall r | r in EligibleRuns(parent, entries', fs')
      ensures r !in EligibleRuns(parent, entries, fs)
    {
      assert NotAnalyzed(fs', r);
    }
  }

  /**
   * The run ID the command is classified by is the name of the scanned entry,
   * so the type depends on that name alone.
   */
  lemma RunIdIsEntryName(parent: string, e: DirEntry)
    requires Sep !in e.name
    ensures RunId(EntryPath(parent, e)) == e.name
    ensures Classify(RunId(EntryPath(parent, e))) == Classify(e.name)
  {
    BasenameOfJoin(parent, e.name);
  }

  /** Of a completed, unanalysed run and an incomplete one, only the first gets a command. */
  lemma OneOfTwoEligible(parent: string, a: DirEntry, b: DirEntry, fs: FileSystem, uuidOf: nat -> string)
    requires IsCompletedRun(parent, fs, a) && NotAnalyzed(fs, EntryPath(parent, a))
    requires !IsCompletedRun(parent, fs, b)
    ensures Pass(parent, [a, b], fs, uuidOf) == [BuildWorkflowCommand(EntryPath(parent, a), uuidOf(0))]
  {
    var pa := EntryPath(parent, a);
    assert [a, b][..1] == [a];
    assert CompletedRuns(parent, [a], fs) == [pa];
    assert CompletedRuns(parent, [a, b], fs) == [pa];
    assert [pa][..0] == [];
    assert EligibleRuns(parent, [a, b], fs) == [pa];
  }

  /** A single completed run that was already analysed gets no command. */
  lemma AnalyzedRunSkipped(parent: string, c: DirEntry, fs: FileSystem, uuidOf: nat -> string)
    requires IsCompletedRun(parent, fs, c) && !NotAnalyzed(fs, EntryPath(parent, c))
    ensures Pass(parent, [c], fs, uuidOf) == []
  {
    assert CompletedRuns(parent, [c], fs) == [EntryPath(parent, c)];
  }

  /** The two markers of one run directory are different paths. */
  lemma MarkersDiffer(runDir: string)
    ensures Join(runDir, AnalysisMarker) != Join(runDir, CompletionMarker)
  {
    assert |AnalysisMarker| != |CompletionMarker|;
  }

  // The run directories of the examples, under the root `/data`.

  lemma ExamplePaths()
    ensures EntryPath("/data", DirEntry("runA", true)) == "/data/runA"
    ensures EntryPath("/data", DirEntry("runB", true)) == "/data/runB"
    ensures EntryPath("/data", DirEntry("runC", true)) == "/data/runC"
  {
  }

  lemma RunBIsNotRunA()
    ensures Join("/data/runB", CompletionMarker) != Join("/data/runA", CompletionMarker)
  {
    assert Join("/data/runB", CompletionMarker)[9] == 'B';
    assert Join("/data/runA", CompletionMarker)[9] == 'A';
  }

  /**
   * A root holding `runA`, whose upload is complete, and `runB`, whose upload
   * is not: one command, for `runA`, whose work directory lies inside `runA`.
   */
  lemma ScenarioOneCompletedRun(uuidOf: nat -> string)
    ensures Pass("/data", [DirEntry("runA", true), DirEntry("runB", true)],
                 FileSystem({Join("/data/runA", CompletionMarker)}), uuidOf)
      == [BuildWorkflowCommand("/data/runA", uuidOf(0))]
    ensures "/data/runA" <= WorkDir("/data/runA", uuidOf(0))
  {
    ExamplePaths();
    MarkersDiffer("/data/runA");
    RunBIsNotRunA();
    OneOfTwoEligible("/data", DirEntry("runA", true), DirEntry("runB", true),
      FileSystem({Join("/data/runA", CompletionMarker)}), uuidOf);
    RunPathsInsideRunDir("/data/runA", uuidOf(0));
  }

  /** A root holding only `runC`, complete and already analysed: no command. */
  lemma ScenarioAnalyzedRun(uuidOf: nat -> string)
    ensures Pass("/data", [DirEntry("runC", true)],
                 FileSystem({Join("/data/runC", CompletionMarker), Join("/data/runC", AnalysisMarker)}), uuidOf) == []
  {
    ExamplePaths();
    AnalyzedRunSkipped("/data", DirEntry("runC", true),
      FileSystem({Join("/data/runC", CompletionMarker), Join("/data/runC", AnalysisMarker)}), uuidOf);
  }
}
