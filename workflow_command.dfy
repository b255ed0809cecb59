/**
 * `build_workflow_command`: the Nextflow command line for one run directory.
 * The run ID is the last path component of the run directory and is
 * classified into an instrument type; the output directory is the analysis
 * marker directory inside the run directory and the work directory is a
 * `work-<uuid>` directory beside it. The UUID, drawn from `uuid.uuid4()` in
 * the source, is a parameter here.
 */
module WorkflowCommand {
  import opened PosixPath
  import opened RunClassifier
  import opened ShellWords
  import RunSelection

  const NextflowBaseCmd := "nextflow run"
  const PipelineName := "BCCDC-PHL/routine-qc"
  const PipelineVersion := "v0.3.2"

  /** The run ID: the last component of the run directory's path. */
  function RunId(runDir: string): string {
    Basename(runDir)
  }

  /** `--outdir`: the analysis marker directory of the run. */
  function OutDir(runDir: string): string {
    Join(runDir, RunSelection.AnalysisMarker)
  }

  /** `-work`: a directory inside the run directory named after the UUID. */
  function WorkDir(runDir: string, uuid: string): string {
    Join(runDir, "work-" + uuid)
  }

  /**
   * The command string: its sixteen words joined by single spaces. The two
   * halves of the source's implicit string concatenation are joined without a
   * space, so the pipeline version runs straight into `--run_dir`.
   */
  function BuildWorkflowCommand(runDir: string, uuid: string): (cmd: string)
    ensures cmd == Unwords(CommandWords(runDir, uuid))
  {
    var instrumentType := Classify(RunId(runDir));
    FormatCommand(runDir, instrumentType.Text(), WorkDir(runDir, uuid), OutDir(runDir))
  }

  /**
   * The formatted command for the given run directory, type, work and output
   * directories: whatever they are, it is the space-join of the sixteen words.
   */
  function FormatCommand(runDir: string, instrumentType: string, workDir: string, outDir: string): (cmd: string)
    ensures cmd == Unwords(Argv(runDir, instrumentType, workDir, outDir))
  {
    var cmd := NextflowBaseCmd + " " + PipelineName + " -profile conda --cache ~/.conda/envs -r " + PipelineVersion
      + "--run_dir " + runDir + " --instrument_type " + instrumentType + " -work " + workDir + " --outdir " + outDir;
    var ws := Argv(runDir, instrumentType, workDir, outDir);
    UnwordsOfSixteen(ws);
    BaseWords();
    ProfileWords();
    VersionWords();
    FlagWords();
    Reassemble(NextflowBaseCmd, PipelineName, " -profile conda --cache ~/.conda/envs -r ", PipelineVersion,
      "--run_dir ", runDir, " --instrument_type ", instrumentType, " -work ", workDir, " --outdir ", outDir, ws);
    cmd
  }

  /** The words of the command, as a shell splitting it at spaces would see them. */
  function CommandWords(runDir: string, uuid: string): seq<string> {
    Argv(runDir, Classify(RunId(runDir)).Text(), WorkDir(runDir, uuid), OutDir(runDir))
  }

  function Argv(runDir: string, instrumentType: string, workDir: string, outDir: string): seq<string> {
    ["nextflow", "run", "BCCDC-PHL/routine-qc", "-profile", "conda", "--cache", "~/.conda/envs",
     "-r", "v0.3.2--run_dir", runDir,
     "--instrument_type", instrumentType,
     "-work", workDir,
     "--outdir", outDir]
  }

  // The literal pieces of the format string, split at their spaces.

  lemma BaseWords()
    ensures NextflowBaseCmd == "nextflow" + " " + "run"
  {
  }

  lemma ProfileWords()
    ensures " -profile conda --cache ~/.conda/envs -r "
      == " " + "-profile" + " " + "conda" + " " + "--cache" + " " + "~/.conda/envs" + " " + "-r" + " "
  {
  }

  lemma VersionWords()
    ensures PipelineVersion + "--run_dir " == "v0.3.2--run_dir" + " "
  {
  }

  lemma FlagWords()
    ensures " --instrument_type " == " " + "--instrument_type" + " "
    ensures " -work " == " " + "-work" + " "
    ensures " --outdir " == " " + "--outdir" + " "
  {
  }

  /** The pieces of the format string, regrouped word by word. */
  lemma Reassemble(base: string, name: string, profile: string, version: string, runDirFlag: string,
                   runDir: string, typeFlag: string, t: string, workFlag: string, w: string,
                   outFlag: string, o: string, ws: seq<string>)
    requires |ws| == 16
    requires base == ws[0] + " " + ws[1] && name == ws[2]
    requires profile == " " + ws[3] + " " + ws[4] + " " + ws[5] + " " + ws[6] + " " + ws[7] + " "
    requires version + runDirFlag == ws[8] + " " && runDir == ws[9]
    requires typeFlag == " " + ws[10] + " " && t == ws[11]
    requires workFlag == " " + ws[12] + " " && w == ws[13]
    requires outFlag == " " + ws[14] + " " && o == ws[15]
    ensures base + " " + name + profile + version + runDirFlag + runDir + typeFlag + t + workFlag + w + outFlag + o
      == ws[0] + " " + ws[1] + " " + ws[2] + " " + ws[3] + " " + ws[4] + " " + ws[5] + " " + ws[6] + " " + ws[7]
         + " " + ws[8] + " " + ws[9] + " " + ws[10] + " " + ws[11] + " " + ws[12] + " " + ws[13] + " " + ws[14]
         + " " + ws[15]
  {
    var head := base + " " + name + profile;
    assert head == ws[0] + " " + ws[1] + " " + ws[2] + " " + ws[3] + " " + ws[4] + " " + ws[5] + " " + ws[6]
      + " " + ws[7] + " ";
    assert head + version + runDirFlag == head + (ws[8] + " ");
  }

  /** Both directories handed to the pipeline lie inside the run directory. */
  lemma RunPathsInsideRunDir(runDir: string, uuid: string)
    ensures runDir <= OutDir(runDir) && Basename(OutDir(runDir)) == RunSelection.AnalysisMarker
    ensures runDir <= WorkDir(runDir, uuid)
    ensures Sep !in uuid ==> Basename(WorkDir(runDir, uuid)) == "work-" + uuid
  {
    BasenameOfJoin(runDir, RunSelection.AnalysisMarker);
    if Sep !in uuid {
      assert Sep !in "work-" + uuid;
      BasenameOfJoin(runDir, "work-" + uuid);
    }
  }

  /** A path joined from space-free parts is space-free. */
  lemma JoinWithoutSpace(a: string, b: string)
    requires ' ' !in a && ' ' !in b
    ensures ' ' !in Join(a, b)
  {
    var r := Join(a, b);
    if !IsAbsolute(b) && !(a == [] || a[|a| - 1] == Sep) {
      assert r == a + [Sep] + b;
    }
  }

  /**
   * For a non-empty run directory and a UUID without spaces, splitting the
   * command at spaces gives exactly the reference words: `-r` receives the
   * version fused with the `--run_dir` flag, and the run directory follows as
   * a word of its own.
   */
  lemma CommandArguments(runDir: string, uuid: string)
    requires runDir != [] && ' ' !in runDir && ' ' !in uuid
    ensures Words(BuildWorkflowCommand(runDir, uuid)) == CommandWords(runDir, uuid)
    ensures Words(BuildWorkflowCommand(runDir, uuid))[7..10] == ["-r", "v0.3.2--run_dir", runDir]
  {
    var t, w, o := Classify(RunId(runDir)).Text(), WorkDir(runDir, uuid), OutDir(runDir);
    RunDirsAreWords(runDir, uuid);
    TextIsWord(Classify(RunId(runDir)));
    assert BuildWorkflowCommand(runDir, uuid) == FormatCommand(runDir, t, w, o);
    assert CommandWords(runDir, uuid) == Argv(runDir, t, w, o);
    FormatSplitsIntoArgv(runDir, t, w, o);
    ArgvPlain(runDir, t, w, o);
  }

  /** The work and output directories of a space-free run directory are single words. */
  lemma RunDirsAreWords(runDir: string, uuid: string)
    requires ' ' !in runDir && ' ' !in uuid
    ensures WorkDir(runDir, uuid) != [] && ' ' !in WorkDir(runDir, uuid)
    ensures OutDir(runDir) != [] && ' ' !in OutDir(runDir)
  {
    assert ' ' !in "work-" + uuid;
    JoinWithoutSpace(runDir, "work-" + uuid);
    JoinWithoutSpace(runDir, RunSelection.AnalysisMarker);
  }

  lemma TextIsWord(it: InstrumentType)
    ensures ' ' !in it.Text()
  {
  }

  lemma ArgvPlain(runDir: string, t: string, w: string, o: string)
    requires runDir != [] && t != [] && w != [] && o != []
    requires ' ' !in runDir && ' ' !in t && ' ' !in w && ' ' !in o
    ensures PlainWords(Argv(runDir, t, w, o))
    ensures Argv(runDir, t, w, o)[7..10] == ["-r", "v0.3.2--run_dir", runDir]
  {
  }

  /** Whatever the space-free, non-empty arguments, splitting the command gives its words back. */
  lemma FormatSplitsIntoArgv(runDir: string, t: string, w: string, o: string)
    requires runDir != [] && t != [] && w != [] && o != []
    requires ' ' !in runDir && ' ' !in t && ' ' !in w && ' ' !in o
    ensures Words(FormatCommand(runDir, t, w, o)) == Argv(runDir, t, w, o)
  {
    ArgvPlain(runDir, t, w, o);
    WordsOfUnwords(Argv(runDir, t, w, o));
  }

  /** The command text before and after the work directory. */
  lemma FormatAroundWorkDir(runDir: string, t: string) returns (head: string)
    ensures forall w, o :: FormatCommand(runDir, t, w, o) == head + w + " --outdir " + o
  {
    head := NextflowBaseCmd + " " + PipelineName + " -profile conda --cache ~/.conda/envs -r " + PipelineVersion
      + "--run_dir " + runDir + " --instrument_type " + t + " -work ";
  }

  /** The command is the same text around the UUID, whatever the UUID is. */
  lemma CommandAroundUuid(runDir: string, uuid: string) returns (before: string, after: string)
    ensures BuildWorkflowCommand(runDir, uuid) == before + uuid + after
    ensures forall u :: BuildWorkflowCommand(runDir, u) == before + u + after
  {
    var t, o := Classify(RunId(runDir)).Text(), OutDir(runDir);
    var joint := if runDir == [] || runDir[|runDir| - 1] == Sep then runDir else runDir + [Sep];
    var head := FormatAroundWorkDir(runDir, t);
    before := head + joint + "work-";
    after := " --outdir " + o;
    forall u
      ensures BuildWorkflowCommand(runDir, u) == before + u + after
    {
      var w := WorkDir(runDir, u);
      assert !IsAbsolute("work-" + u);
      assert w == joint + ("work-" + u);
      assert BuildWorkflowCommand(runDir, u) == head + w + " --outdir " + o;
      Regroup(head, joint, "work-", u, " --outdir ", o);
    }
  }

  lemma Regroup(h: string, j: string, x: string, u: string, f: string, o: string)
    ensures h + (j + (x + u)) + f + o == h + j + x + u + (f + o)
  {
  }

  /**
   * For one run directory, two commands are equal exactly when their UUIDs
   * are: a fresh UUID always gives a fresh work directory and command.
   */
  lemma CommandDeterminesUuid(runDir: string, u1: string, u2: string)
    ensures BuildWorkflowCommand(runDir, u1) == BuildWorkflowCommand(runDir, u2) <==> u1 == u2
  {
    var before, after := CommandAroundUuid(runDir, u1);
    var c1, c2 := before + u1 + after, before + u2 + after;
    if c1 == c2 {
      assert |u1| == |u2|;
      assert u1 == c1[|before|..|before| + |u1|];
      assert u2 == c2[|before|..|before| + |u2|];
    }
  }

  /** The command text before and after the type flag and its value. */
  lemma FormatAroundType(runDir: string, t: string, w: string, o: string) returns (before: string)
    ensures FormatCommand(runDir, t, w, o) == before + (" --instrument_type " + t + " -work ") + (w + " --outdir " + o)
  {
    before := NextflowBaseCmd + " " + PipelineName + " -profile conda --cache ~/.conda/envs -r " + PipelineVersion
      + "--run_dir " + runDir;
  }

  lemma NoneFlag()
    ensures " --instrument_type " + "None" + " -work " == " --instrument_type None -work "
  {
  }

  /** An unclassified run is passed on with the literal type `None`. */
  lemma UnclassifiedRunPassesNone(runDir: string, uuid: string) returns (before: string, after: string)
    requires Classify(RunId(runDir)) == None
    ensures BuildWorkflowCommand(runDir, uuid) == before + " --instrument_type None -work " + after
  {
    var t := Classify(RunId(runDir)).Text();
    assert t == "None";
    after := WorkDir(runDir, uuid) + " --outdir " + OutDir(runDir);
    before := FormatAroundType(runDir, t, WorkDir(runDir, uuid), OutDir(runDir));
    NoneFlag();
  }
}
