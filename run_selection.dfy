/**
 * Selection of the runs to analyse in one pass: the scan of the parent
 * directory for run directories whose upload is complete, and the filter that
 * drops the runs an analysis has already been started for.
 *
 * The file system is abstracted to what the two steps observe: the entries
 * `os.scandir` yields for the parent directory, in the order it yields them,
 * and the set of paths for which `os.path.exists` is true.
 */
module RunSelection {
  import opened PosixPath

  /** Marker the sequencer writes into a run directory once its upload is complete. */
  const CompletionMarker := "upload_complete.json"

  /** Directory whose presence in a run directory means an analysis was started. */
  const AnalysisMarker := "RoutineQC"

  /** One entry of `os.scandir(parent)`: its name and whether `is_dir()` holds. */
  datatype DirEntry = DirEntry(name: string, isDir: bool)

  /** The paths `os.path.exists` reports as present. */
  datatype FileSystem = FileSystem(existing: set<string>) {
    predicate Exists(path: string) {
      path in existing
    }
  }

  /** `DirEntry.path`: the scanned directory joined with the entry's name. */
  function EntryPath(parent: string, e: DirEntry): string {
    Join(parent, e.name)
  }

  /** The entry is a directory holding the completion marker. */
  predicate IsCompletedRun(parent: string, fs: FileSystem, e: DirEntry) {
    e.isDir && fs.Exists(Join(EntryPath(parent, e), CompletionMarker))
  }

  /** The paths of all entries, in scan order. */
  function EntryPaths(parent: string, entries: seq<DirEntry>): seq<string> {
    seq(|entries|, i requires 0 <= i < |entries| => EntryPath(parent, entries[i]))
  }

  /** How many of the entries are completed runs whose path is `p`. */
  function CompletedCount(parent: string, entries: seq<DirEntry>, fs: FileSystem, p: string): nat
    decreases |entries|
  {
    if entries == [] then 0
    else
      var last := entries[|entries| - 1];
      CompletedCount(parent, entries[..|entries| - 1], fs, p)
        + if IsCompletedRun(parent, fs, last) && EntryPath(parent, last) == p then 1 else 0
  }

  /**
   * Paths of the completed runs among `entries`, in scan order; specifies
   * `ListSubdirectories`. Each path occurs once per completed entry with that
   * path, and the paths keep the order of the entries.
   */
  function CompletedRuns(parent: string, entries: seq<DirEntry>, fs: FileSystem): (runs: seq<string>)
    ensures forall p :: p in runs <==>
      exists e :: e in entries && IsCompletedRun(parent, fs, e) && p == EntryPath(parent, e)
    ensures forall p :: multiset(runs)[p] == CompletedCount(parent, entries, fs, p)
    ensures IsSubsequence(runs, EntryPaths(parent, entries))
    decreases |entries|
  {
    if entries == [] then []
    else
      var init, last := entries[..|entries| - 1], entries[|entries| - 1];
      var runs := CompletedRuns(parent, init, fs);
      assert entries == init + [last];
      StepKeepsMembers(parent, init, last, fs, runs);
      StepKeepsCounts(parent, init, last, fs, runs);
      StepKeepsOrder(parent, init, last, fs, runs);
      ScanStep(parent, fs, runs, last)
  }

  /** The runs found so far, extended by one more scanned entry if it is a completed run. */
  function ScanStep(parent: string, fs: FileSystem, runs: seq<string>, e: DirEntry): seq<string> {
    if IsCompletedRun(parent, fs, e) then runs + [EntryPath(parent, e)] else runs
  }

  // Scanning one more entry keeps each of the three properties of `CompletedRuns`.

  lemma StepKeepsMembers(parent: string, init: seq<DirEntry>, last: DirEntry, fs: FileSystem, runs: seq<string>)
    requires forall p :: p in runs <==>
      exists e :: e in init && IsCompletedRun(parent, fs, e) && p == EntryPath(parent, e)
    ensures forall p :: p in ScanStep(parent, fs, runs, last) <==>
      exists e :: e in init + [last] && IsCompletedRun(parent, fs, e) && p == EntryPath(parent, e)
  {
  }

  lemma StepKeepsCounts(parent: string, init: seq<DirEntry>, last: DirEntry, fs: FileSystem, runs: seq<string>)
    requires forall p :: multiset(runs)[p] == CompletedCount(parent, init, fs, p)
    ensures forall p ::
      multiset(ScanStep(parent, fs, runs, last))[p] == CompletedCount(parent, init + [last], fs, p)
  {
    assert (init + [last])[..|init|] == init;
  }

  lemma StepKeepsOrder(parent: string, init: seq<DirEntry>, last: DirEntry, fs: FileSystem, runs: seq<string>)
    requires IsSubsequence(runs, EntryPaths(parent, init))
    ensures IsSubsequence(ScanStep(parent, fs, runs, last), EntryPaths(parent, init + [last]))
  {
    var paths := EntryPaths(parent, init + [last]);
    assert paths[..|init|] == EntryPaths(parent, init);
    if IsCompletedRun(parent, fs, last) {
      var runs' := runs + [EntryPath(parent, last)];
      assert runs'[..|runs|] == runs;
    } else {
      SubsequenceOfLonger(runs, paths);
    }
  }

  /** `list_subdirectories`: collects, in scan order, the completed run directories. */
  method ListSubdirectories(parent: string, entries: seq<DirEntry>, fs: FileSystem)
    returns (subdirectories: seq<string>)
    ensures subdirectories == CompletedRuns(parent, entries, fs)
  {
    subdirectories := [];
    for i := 0 to |entries|
      invariant subdirectories == CompletedRuns(parent, entries[..i], fs)
    {
      var f := entries[i];
      if f.isDir && fs.Exists(Join(EntryPath(parent, f), CompletionMarker)) {
        subdirectories := subdirectories + [EntryPath(parent, f)];
      }
      assert entries[..i + 1][..i] == entries[..i];
    }
    assert entries[..|entries|] == entries;
  }

  /** The filter's predicate: no analysis directory exists inside the run directory. */
  predicate NotAnalyzed(fs: FileSystem, runDir: string) {
    !fs.Exists(Join(runDir, AnalysisMarker))
  }

  /** `a` is `b` with some elements left out, the others kept in order. */
  ghost predicate IsSubsequence<T>(a: seq<T>, b: seq<T>)
    decreases |b|
  {
    if a == [] then true
    else if b == [] then false
    else (a[|a| - 1] == b[|b| - 1] && IsSubsequence(a[..|a| - 1], b[..|b| - 1]))
         || IsSubsequence(a, b[..|b| - 1])
  }

  /** No element occurs twice. */
  predicate Distinct<T(==)>(s: seq<T>) {
    forall i, j :: 0 <= i < j < |s| ==> s[i] != s[j]
  }

  lemma {:induction false} SubsequenceMembers<T>(a: seq<T>, b: seq<T>)
    requires IsSubsequence(a, b)
    ensures forall x :: x in a ==> x in b
    decreases |b|
  {
    if a != [] && b != [] {
      if a[|a| - 1] == b[|b| - 1] && IsSubsequence(a[..|a| - 1], b[..|b| - 1]) {
        SubsequenceMembers(a[..|a| - 1], b[..|b| - 1]);
        assert a == a[..|a| - 1] + [a[|a| - 1]];
        assert b == b[..|b| - 1] + [b[|b| - 1]];
      } else {
        SubsequenceMembers(a, b[..|b| - 1]);
        assert b == b[..|b| - 1] + [b[|b| - 1]];
      }
    }
  }

  /** Leaving elements out of a sequence without repetitions cannot create one. */
  lemma {:induction false} SubsequenceDistinct<T>(a: seq<T>, b: seq<T>)
    requires IsSubsequence(a, b) && Distinct(b)
    ensures Distinct(a)
    decreases |b|
  {
    if a != [] && b != [] {
      var a', b' := a[..|a| - 1], b[..|b| - 1];
      assert Distinct(b');
      if a[|a| - 1] == b[|b| - 1] && IsSubsequence(a', b') {
        SubsequenceDistinct(a', b');
        SubsequenceMembers(a', b');
        assert a[|a| - 1] !in b';
        forall i, j | 0 <= i < j < |a|
          ensures a[i] != a[j]
        {
          if j < |a| - 1 {
            assert a[i] == a'[i] && a[j] == a'[j];
          } else {
            assert a[i] == a'[i] && a'[i] in a';
          }
        }
      } else {
        SubsequenceDistinct(a, b');
      }
    }
  }

  /**
   * `filter_analyzed_runs`: keeps, in order, the runs without an analysis
   * directory. Each input occurrence is either kept or dropped, never
   * duplicated.
   */
  function FilterAnalyzedRuns(fs: FileSystem, runs: seq<string>): (kept: seq<string>)
    ensures forall r :: r in kept <==> r in runs && NotAnalyzed(fs, r)
    ensures forall r :: multiset(kept)[r] == if NotAnalyzed(fs, r) then multiset(runs)[r] else 0
    ensures IsSubsequence(kept, runs)
    decreases |runs|
  {
    if runs == [] then []
    else
      var last := runs[|runs| - 1];
      var init := runs[..|runs| - 1];
      assert runs == init + [last];
      var kept := FilterAnalyzedRuns(fs, init);
      if NotAnalyzed(fs, last) then
        assert (kept + [last])[..|kept|] == kept;
        kept + [last]
      else
        assert IsSubsequence(kept, runs) by { SubsequenceOfLonger(kept, runs); }
        kept
  }

  /** A subsequence is no longer than the sequence it is taken from. */
  lemma {:induction false} SubsequenceNoLonger<T>(a: seq<T>, b: seq<T>)
    requires IsSubsequence(a, b)
    ensures |a| <= |b|
    decreases |b|
  {
    if a != [] && b != [] {
      if a[|a| - 1] == b[|b| - 1] && IsSubsequence(a[..|a| - 1], b[..|b| - 1]) {
        SubsequenceNoLonger(a[..|a| - 1], b[..|b| - 1]);
      } else {
        SubsequenceNoLonger(a, b[..|b| - 1]);
      }
    }
  }

  lemma SubsequenceOfLonger<T>(a: seq<T>, b: seq<T>)
    requires b != [] && IsSubsequence(a, b[..|b| - 1])
    ensures IsSubsequence(a, b)
  {
  }

  /** Filtering the already filtered runs changes nothing. */
  lemma {:induction false} FilterIdempotent(fs: FileSystem, runs: seq<string>)
    ensures FilterAnalyzedRuns(fs, FilterAnalyzedRuns(fs, runs)) == FilterAnalyzedRuns(fs, runs)
    decreases |runs|
  {
    if runs != [] {
      var init := runs[..|runs| - 1];
      var last := runs[|runs| - 1];
      var kept := FilterAnalyzedRuns(fs, init);
      FilterIdempotent(fs, init);
      if NotAnalyzed(fs, last) {
        assert (kept + [last])[..|kept|] == kept;
      }
    }
  }
}
