/** Relative paths of private files, as segments. */
module PrivatePaths {
  import opened Wrappers
  import opened PhpStrings

  datatype Path = Path(segments: seq<string>)

  function WithoutEmpty(segments: seq<string>): (kept: seq<string>)
    ensures forall p :: p in kept <==> p in segments && p != ""
  {
    if segments == [] then []
    else if segments[0] == "" then WithoutEmpty(segments[1..])
    else [segments[0]] + WithoutEmpty(segments[1..])
  }

  predicate IsLetter(c: char) { 'a' <= c <= 'z' || 'A' <= c <= 'Z' }

  predicate IsAbsolute(s: string) {
    || (|s| > 0 && s[0] == '/')
    || (|s| > 2 && IsLetter(s[0]) && s[1] == ':' && s[2] == '/')
  }

  /** `normalizeRelativePath` */
  function Normalize(path: string): Option<Path> {
    var normalized := ForwardSlashes(Trim(path));
    var segments := Split(normalized);
    if normalized == "" || IsAbsolute(normalized) || ".." in segments || "." in segments then None
    else Some(Path(WithoutEmpty(segments)))
  }

  /** A normalised path names something below the private root and cannot climb out of it. */
  ghost predicate StaysInside(p: Path) {
    && p.segments != []
    && forall i :: 0 <= i < |p.segments| ==>
         p.segments[i] != "" && p.segments[i] != "." && p.segments[i] != ".." && '/' !in p.segments[i]
  }

  lemma NormalizedStaysInside(path: string)
    requires Normalize(path).Some?
    ensures StaysInside(Normalize(path).value)
  {
    var normalized := ForwardSlashes(Trim(path));
    var segments := Split(normalized);
    var kept := WithoutEmpty(segments);
    assert segments[0] in kept;
    forall i | 0 <= i < |kept| ensures kept[i] != "" && kept[i] != "." && kept[i] != ".." && '/' !in kept[i] {
      assert kept[i] in kept;
      var k :| 0 <= k < |segments| && segments[k] == kept[i];
    }
  }
}

/**
  Permanent deletion of an entity with its private files: the files are moved to
  a trash directory of their own, the row is deleted, the trash is removed.
  Each primitive may fail, the process may stop between any two of them, and
  cleanup runs may come in between.
 */
module Deletion {
  import opened PrivatePaths

  type Files = map<Path, string>

  datatype Status = Staged | Committed | CleanupFailed | Cleaned | Restored

  /** Size and hash of a manifest entry stand for the content. */
  datatype Entry = Entry(source: Path, trash: Path, content: string)

  datatype State = State(files: Files, rowExists: bool, status: Status)

  /** What `buildManifest` establishes in a trash directory that did not exist. */
  ghost predicate ManifestOk(manifest: seq<Entry>, files: Files) {
    && (forall i :: 0 <= i < |manifest| ==>
          && manifest[i].source in files && files[manifest[i].source] == manifest[i].content
          && manifest[i].trash !in files)
    && (forall i, j :: 0 <= i < j < |manifest| ==>
          manifest[i].source != manifest[j].source && manifest[i].trash != manifest[j].trash)
  }

  function Moved(files: Files, from: Path, to: Path): Files
    requires from in files
  {
    (files - {from})[to := files[from]]
  }

  predicate TrashEmpty(manifest: seq<Entry>, files: Files) {
    forall i :: 0 <= i < |manifest| ==> manifest[i].trash !in files
  }

  predicate AllStaged(manifest: seq<Entry>, files: Files) {
    forall i :: 0 <= i < |manifest| ==> manifest[i].trash in files
  }

  /** What any process may do to an operation: the deleting process, and cleanup runs. */
  datatype Step =
    | Stage(i: nat)
    | Unstage(i: nat)
    | DropRow
    | MarkRestored
    | MarkCommitted
    | RemoveTrash(removed: set<Path>)
    | MarkCleaned
    | MarkCleanupFailed

  predicate IsCommitted(status: Status) {
    status == Committed || status == CleanupFailed || status == Cleaned
  }

  predicate Enabled(manifest: seq<Entry>, s: State, step: Step) {
    match step
    case Stage(i) => s.status == Staged && s.rowExists && i < |manifest| && manifest[i].source in s.files
    case Unstage(i) =>
      && s.status == Staged && s.rowExists && i < |manifest|
      && manifest[i].trash in s.files && manifest[i].source !in s.files
    case DropRow => s.status == Staged && s.rowExists && AllStaged(manifest, s.files)
    case MarkRestored => s.status == Staged && s.rowExists && TrashEmpty(manifest, s.files)
    case MarkCommitted => s.status == Staged && !s.rowExists
    case RemoveTrash(removed) =>
      IsCommitted(s.status) && forall p :: p in removed ==> exists i :: 0 <= i < |manifest| && manifest[i].trash == p
    case MarkCleaned => IsCommitted(s.status) && TrashEmpty(manifest, s.files)
    case MarkCleanupFailed => IsCommitted(s.status)
  }

  function Apply(manifest: seq<Entry>, s: State, step: Step): State
    requires Enabled(manifest, s, step)
  {
    match step
    case Stage(i) => s.(files := Moved(s.files, manifest[i].source, manifest[i].trash))
    case Unstage(i) => s.(files := Moved(s.files, manifest[i].trash, manifest[i].source))
    case DropRow => s.(rowExists := false)
    case MarkRestored => s.(status := Restored)
    case MarkCommitted => s.(status := Committed)
    case RemoveTrash(removed) => s.(files := s.files - removed)
    case MarkCleaned => s.(status := Cleaned)
    case MarkCleanupFailed => s.(status := CleanupFailed)
  }

  ghost predicate Follows(manifest: seq<Entry>, s: State, t: State) {
    exists step :: Enabled(manifest, s, step) && Apply(manifest, s, step) == t
  }

  /** A sequence of states of one operation, from its start. */
  ghost predicate IsHistory(manifest: seq<Entry>, before: Files, history: seq<State>) {
    && history != []
    && (if |history| == 1 then history[0] == State(before, true, Staged)
        else
          && IsHistory(manifest, before, history[..|history| - 1])
          && Follows(manifest, history[|history| - 2], history[|history| - 1]))
  }

  predicate IsRun(manifest: seq<Entry>, s: State, steps: seq<Step>)
    decreases |steps|
  {
    steps == [] || (Enabled(manifest, s, steps[0]) && IsRun(manifest, Apply(manifest, s, steps[0]), steps[1..]))
  }

  function After(manifest: seq<Entry>, s: State, steps: seq<Step>): State
    requires IsRun(manifest, s, steps)
    decreases |steps|
  {
    if steps == [] then s else After(manifest, Apply(manifest, s, steps[0]), steps[1..])
  }

  // ---------- conservation ----------

  /** The entry's file is at exactly one of its two places, unchanged. */
  ghost predicate AtOnePlace(e: Entry, files: Files) {
    || (e.source in files && files[e.source] == e.content && e.trash !in files)
    || (e.trash in files && files[e.trash] == e.content && e.source !in files)
  }

  function Places(manifest: seq<Entry>): set<Path> {
    (set i | 0 <= i < |manifest| :: manifest[i].source) + (set i | 0 <= i < |manifest| :: manifest[i].trash)
  }

  ghost predicate OthersUntouched(manifest: seq<Entry>, before: Files, files: Files) {
    forall p :: p !in Places(manifest) ==> (p in files <==> p in before) && (p in before ==> files[p] == before[p])
  }

  ghost predicate Conserved(manifest: seq<Entry>, before: Files, s: State) {
    && OthersUntouched(manifest, before, s.files)
    && (s.rowExists ==> forall i :: 0 <= i < |manifest| ==> AtOnePlace(manifest[i], s.files))
    && (!s.rowExists ==> forall i :: 0 <= i < |manifest| ==> manifest[i].source !in s.files)
    && (s.status == Restored ==> s.rowExists && s.files == before)
    && (IsCommitted(s.status) ==> !s.rowExists)
    && (s.status == Cleaned ==> TrashEmpty(manifest, s.files))
  }

  /** No source is also a trash path: sources existed before, trash paths did not. */
  lemma PlacesApart(manifest: seq<Entry>, before: Files, i: nat, j: nat)
    requires ManifestOk(manifest, before) && i < |manifest| && j < |manifest|
    ensures manifest[i].source != manifest[j].trash
    ensures i != j ==> manifest[i].source != manifest[j].source && manifest[i].trash != manifest[j].trash
  {
  }

  lemma MoveKeepsPlaces(manifest: seq<Entry>, before: Files, files: Files, i: nat, from: Path, to: Path)
    requires ManifestOk(manifest, before) && i < |manifest|
    requires (from == manifest[i].source && to == manifest[i].trash) ||
             (from == manifest[i].trash && to == manifest[i].source)
    requires from in files && forall k :: 0 <= k < |manifest| ==> AtOnePlace(manifest[k], files)
    requires OthersUntouched(manifest, before, files)
    ensures forall k :: 0 <= k < |manifest| ==> AtOnePlace(manifest[k], Moved(files, from, to))
    ensures OthersUntouched(manifest, before, Moved(files, from, to))
  {
    var after := Moved(files, from, to);
    PlacesApart(manifest, before, i, i);
    assert AtOnePlace(manifest[i], files);
    forall k | 0 <= k < |manifest| ensures AtOnePlace(manifest[k], after) {
      assert AtOnePlace(manifest[k], files);
      PlacesApart(manifest, before, i, k);
      PlacesApart(manifest, before, k, i);
    }
    assert from in Places(manifest) && to in Places(manifest);
  }

  lemma EmptyTrashMeansRestored(manifest: seq<Entry>, before: Files, files: Files)
    requires ManifestOk(manifest, before) && OthersUntouched(manifest, before, files)
    requires TrashEmpty(manifest, files)
    requires forall i :: 0 <= i < |manifest| ==> AtOnePlace(manifest[i], files)
    ensures files == before
  {
    forall p ensures (p in files <==> p in before) && (p in before ==> p in files && files[p] == before[p]) {
      if p in Places(manifest) {
        var i :| 0 <= i < |manifest| && (manifest[i].source == p || manifest[i].trash == p);
        assert AtOnePlace(manifest[i], files);
      }
    }
  }

  lemma StepConserves(manifest: seq<Entry>, before: Files, s: State, step: Step)
    requires ManifestOk(manifest, before) && Conserved(manifest, before, s) && Enabled(manifest, s, step)
    ensures Conserved(manifest, before, Apply(manifest, s, step))
  {
    match step
    case Stage(i) =>
      PlacesApart(manifest, before, i, i);
      MoveKeepsPlaces(manifest, before, s.files, i, manifest[i].source, manifest[i].trash);
    case Unstage(i) =>
      PlacesApart(manifest, before, i, i);
      MoveKeepsPlaces(manifest, before, s.files, i, manifest[i].trash, manifest[i].source);
    case DropRow =>
      forall i | 0 <= i < |manifest| ensures manifest[i].source !in s.files {
        assert AtOnePlace(manifest[i], s.files);
      }
    case MarkRestored => EmptyTrashMeansRestored(manifest, before, s.files);
    case RemoveTrash(removed) =>
    case _ =>
  }

  /**
    In every state of every run, the deleting process and cleanup runs in any
    order and stopping anywhere: while the row exists no manifest file is lost or
    changed, Restored means everything as before, Cleaned means nothing left.
   */
  lemma {:induction false} FilesAreConserved(manifest: seq<Entry>, before: Files, s: State, steps: seq<Step>)
    requires ManifestOk(manifest, before) && Conserved(manifest, before, s) && IsRun(manifest, s, steps)
    ensures Conserved(manifest, before, After(manifest, s, steps))
    decreases |steps|
  {
    if steps != [] {
      StepConserves(manifest, before, s, steps[0]);
      FilesAreConserved(manifest, before, Apply(manifest, s, steps[0]), steps[1..]);
    }
  }

  lemma StartIsConserved(manifest: seq<Entry>, before: Files)
    requires ManifestOk(manifest, before)
    ensures Conserved(manifest, before, State(before, true, Staged))
  {
  }

  /** The same for the states an operation really went through, each of them a place to crash. */
  lemma {:induction false} HistoryIsConserved(manifest: seq<Entry>, before: Files, history: seq<State>)
    requires ManifestOk(manifest, before) && IsHistory(manifest, before, history)
    ensures forall i :: 0 <= i < |history| ==> Conserved(manifest, before, history[i])
  {
    if |history| > 1 {
      var front := history[..|history| - 1];
      HistoryIsConserved(manifest, before, front);
      var s := front[|front| - 1];
      assert s == history[|history| - 2];
      var step :| Enabled(manifest, s, step) && Apply(manifest, s, step) == history[|history| - 1];
      StepConserves(manifest, before, s, step);
      forall i | 0 <= i < |history| ensures Conserved(manifest, before, history[i]) {
        if i < |front| {
          assert history[i] == front[i];
        }
      }
    } else {
      StartIsConserved(manifest, before);
    }
  }

  // ---------- staging and undoing a prefix ----------

  /** Exactly the first `n` entries are in the trash, everything else where it was. */
  ghost predicate StagedUpTo(manifest: seq<Entry>, before: Files, files: Files, n: nat) {
    && (forall k :: 0 <= k < |manifest| ==> AtOnePlace(manifest[k], files))
    && (forall k :: 0 <= k < |manifest| ==> (manifest[k].trash in files <==> k < n))
    && OthersUntouched(manifest, before, files)
  }

  lemma StagingOneMore(manifest: seq<Entry>, before: Files, files: Files, n: nat)
    requires ManifestOk(manifest, before) && n < |manifest| && StagedUpTo(manifest, before, files, n)
    ensures manifest[n].source in files
    ensures StagedUpTo(manifest, before, Moved(files, manifest[n].source, manifest[n].trash), n + 1)
  {
    assert AtOnePlace(manifest[n], files);
    MoveKeepsPlaces(manifest, before, files, n, manifest[n].source, manifest[n].trash);
    var after := Moved(files, manifest[n].source, manifest[n].trash);
    forall k | 0 <= k < |manifest| ensures manifest[k].trash in after <==> k < n + 1 {
      PlacesApart(manifest, before, n, k);
    }
  }

  lemma UndoingTheLast(manifest: seq<Entry>, before: Files, files: Files, n: nat)
    requires ManifestOk(manifest, before) && n < |manifest| && StagedUpTo(manifest, before, files, n + 1)
    ensures manifest[n].trash in files && manifest[n].source !in files
    ensures StagedUpTo(manifest, before, Moved(files, manifest[n].trash, manifest[n].source), n)
  {
    assert AtOnePlace(manifest[n], files);
    MoveKeepsPlaces(manifest, before, files, n, manifest[n].trash, manifest[n].source);
    var after := Moved(files, manifest[n].trash, manifest[n].source);
    forall k | 0 <= k < |manifest| ensures manifest[k].trash in after <==> k < n {
      PlacesApart(manifest, before, n, k);
    }
  }

  /** A staged prefix determines the whole file map; the empty prefix is the initial one. */
  lemma StagedPrefixIsUnique(manifest: seq<Entry>, before: Files, f: Files, g: Files, n: nat)
    requires ManifestOk(manifest, before)
    requires StagedUpTo(manifest, before, f, n) && StagedUpTo(manifest, before, g, n)
    ensures f == g
    ensures n == 0 ==> f == before
  {
    forall p ensures (p in f <==> p in g) && (p in f && p in g ==> f[p] == g[p]) {
      if p in Places(manifest) {
        var i :| 0 <= i < |manifest| && (manifest[i].source == p || manifest[i].trash == p);
        assert AtOnePlace(manifest[i], f) && AtOnePlace(manifest[i], g);
      }
    }
    if n == 0 {
      EmptyTrashMeansRestored(manifest, before, f);
    }
  }

  /** The files once the first `n` entries have been moved to the trash, one after the other. */
  function StagedFiles(manifest: seq<Entry>, before: Files, n: nat): Files
    requires n <= |manifest|
  {
    if n == 0 then before
    else
      var files := StagedFiles(manifest, before, n - 1);
      if manifest[n - 1].source in files then Moved(files, manifest[n - 1].source, manifest[n - 1].trash) else files
  }

  lemma StagedOneMore(manifest: seq<Entry>, before: Files, k: nat, n: nat)
    requires ManifestOk(manifest, before) && n == k + 1 <= |manifest|
    requires StagedUpTo(manifest, before, StagedFiles(manifest, before, k), k)
    ensures StagedUpTo(manifest, before, StagedFiles(manifest, before, n), n)
  {
    var f, g := StagedFiles(manifest, before, k), StagedFiles(manifest, before, n);
    StagingOneMore(manifest, before, f, k);
    assert g == Moved(f, manifest[k].source, manifest[k].trash);
  }

  lemma NoneStaged(manifest: seq<Entry>, before: Files)
    requires ManifestOk(manifest, before)
    ensures StagedUpTo(manifest, before, StagedFiles(manifest, before, 0), 0)
  {
  }

  lemma {:induction false} StagedFilesAre(manifest: seq<Entry>, before: Files, n: nat)
    requires ManifestOk(manifest, before) && n <= |manifest|
    ensures StagedUpTo(manifest, before, StagedFiles(manifest, before, n), n)
    decreases n, 1
  {
    if n == 0 {
      NoneStaged(manifest, before);
    } else {
      MoreStagedFilesAre(manifest, before, n);
    }
  }

  lemma {:induction false} MoreStagedFilesAre(manifest: seq<Entry>, before: Files, n: nat)
    requires ManifestOk(manifest, before) && 0 < n <= |manifest|
    ensures StagedUpTo(manifest, before, StagedFiles(manifest, before, n), n)
    decreases n, 0
  {
    StagedFilesAre(manifest, before, n - 1);
    StagedOneMore(manifest, before, n - 1, n);
  }

  /** Moving the last staged file back gives the files of one fewer. */
  lemma StagedThenUndone(manifest: seq<Entry>, before: Files, n: nat)
    requires ManifestOk(manifest, before) && n < |manifest|
    ensures var f, g := StagedFiles(manifest, before, n), StagedFiles(manifest, before, n + 1);
            && manifest[n].source in f && g == Moved(f, manifest[n].source, manifest[n].trash)
            && manifest[n].trash in g && manifest[n].source !in g
            && Moved(g, manifest[n].trash, manifest[n].source) == f
  {
    var f, g := StagedFiles(manifest, before, n), StagedFiles(manifest, before, n + 1);
    StagedFilesAre(manifest, before, n);
    StagedFilesAre(manifest, before, n + 1);
    StagingOneMore(manifest, before, f, n);
    UndoingTheLast(manifest, before, g, n);
    StagedPrefixIsUnique(manifest, before, f, Moved(g, manifest[n].trash, manifest[n].source), n);
  }

  lemma ReachedTrash(manifest: seq<Entry>, before: Files, n: nat, i: nat)
    requires ManifestOk(manifest, before) && i < |manifest| && n <= |manifest|
    ensures manifest[i].trash in StagedFiles(manifest, before, n) <==> i < n
    ensures manifest[i].source in StagedFiles(manifest, before, n) <==> n <= i
  {
    StagedFilesAre(manifest, before, n);
    assert AtOnePlace(manifest[i], StagedFiles(manifest, before, n));
  }

  lemma AllHaveReachedTrash(manifest: seq<Entry>, before: Files)
    requires ManifestOk(manifest, before)
    ensures AllStaged(manifest, StagedFiles(manifest, before, |manifest|))
  {
    StagedFilesAre(manifest, before, |manifest|);
  }
}

/** The deletion as it runs, every primitive free to fail. */
module DeletionSaga {
  import opened Wrappers
  import opened PrivatePaths
  import opened Deletion

  datatype Outcome =
    | Refused                     // nothing was started
    | Finished(status: Status)
    | UndoneAndThrown             // the failure was compensated, the exception rethrown
    | CompensationFailed
    | StatusNotRecorded           // the row is gone, the status write failed

  /** What goes wrong for an operation: the writes that fail, and the files that cannot be moved or removed. */
  datatype Faults = Faults(
    unrecorded: bool,           // the operation cannot be recorded
    unmovable: set<Path>,       // files that cannot be moved to the trash
    rowStays: bool,             // the row cannot be deleted
    unrestorable: set<Path>,    // files that cannot be moved back
    undoUnrecorded: bool,       // the status after an undone deletion cannot be written
    commitUnrecorded: bool,     // the status after the row's deletion cannot be written
    irremovable: set<Path>,     // files that cannot be removed from the trash
    endUnrecorded: bool)        // the last status cannot be written

  const NO_FAULTS := Faults(false, {}, false, {}, false, false, {}, false)

  /** How many files reach the trash: those before the first that cannot be moved. */
  function StagedBefore(entries: seq<Entry>, unmovable: set<Path>): (n: nat)
    ensures n <= |entries|
  {
    if entries == [] || entries[0].source in unmovable then 0 else 1 + StagedBefore(entries[1..], unmovable)
  }

  lemma {:induction false} StagedBeforeIs(entries: seq<Entry>, unmovable: set<Path>)
    ensures var n := StagedBefore(entries, unmovable);
            && (n < |entries| ==> entries[n].source in unmovable)
            && forall i :: 0 <= i < n ==> entries[i].source !in unmovable
  {
    if entries != [] && entries[0].source !in unmovable {
      StagedBeforeIs(entries[1..], unmovable);
      assert forall i :: 1 <= i < |entries| ==> entries[i] == entries[1..][i - 1];
    }
  }

  lemma StagingStops(entries: seq<Entry>, unmovable: set<Path>, n: nat)
    requires n < |entries| && n <= StagedBefore(entries, unmovable)
    ensures entries[n].source in unmovable <==> n == StagedBefore(entries, unmovable)
  {
    StagedBeforeIs(entries, unmovable);
  }

  /** How many of the first n files stay in the trash: those up to the last that cannot be moved back. */
  function HeldUpTo(entries: seq<Entry>, unrestorable: set<Path>, n: nat): (m: nat)
    requires n <= |entries|
    ensures m <= n
  {
    if n == 0 || entries[n - 1].source in unrestorable then n else HeldUpTo(entries, unrestorable, n - 1)
  }

  lemma HeldStep(entries: seq<Entry>, unrestorable: set<Path>, i: nat)
    requires i < |entries|
    ensures HeldUpTo(entries, unrestorable, i + 1) ==
              if entries[i].source in unrestorable then i + 1 else HeldUpTo(entries, unrestorable, i)
  {
  }

  lemma {:induction false} HeldUpToIs(entries: seq<Entry>, unrestorable: set<Path>, n: nat)
    requires n <= |entries|
    ensures HeldUpTo(entries, unrestorable, n) == 0 <==> forall i :: 0 <= i < n ==> entries[i].source !in unrestorable
  {
    if n > 0 && entries[n - 1].source !in unrestorable {
      HeldUpToIs(entries, unrestorable, n - 1);
    }
  }

  lemma RowGoesExactly(entries: seq<Entry>, faults: Faults)
    ensures RowGoes(entries, faults) <==> !faults.rowStays && StagedBefore(entries, faults.unmovable) == |entries|
  {
    StagedBeforeIs(entries, faults.unmovable);
  }

  lemma CanUndoExactly(entries: seq<Entry>, faults: Faults)
    ensures CanUndo(entries, faults) <==> StillStaged(entries, faults) == 0
  {
    HeldUpToIs(entries, faults.unrestorable, StagedBefore(entries, faults.unmovable));
  }

  /** All files can be moved to the trash and the row can be deleted. */
  predicate RowGoes(entries: seq<Entry>, faults: Faults) {
    !faults.rowStays && forall i :: 0 <= i < |entries| ==> entries[i].source !in faults.unmovable
  }

  /** Every file that has reached the trash can be moved back. */
  predicate CanUndo(entries: seq<Entry>, faults: Faults) {
    forall i :: 0 <= i < StagedBefore(entries, faults.unmovable) ==> entries[i].source !in faults.unrestorable
  }

  /** What a failed compensation leaves in the trash. */
  function StillStaged(entries: seq<Entry>, faults: Faults): nat {
    HeldUpTo(entries, faults.unrestorable, StagedBefore(entries, faults.unmovable))
  }

  predicate TrashCanGo(entries: seq<Entry>, faults: Faults) {
    forall i :: 0 <= i < |entries| ==> entries[i].trash !in faults.irremovable
  }

  function TrashOf(entries: seq<Entry>): set<Path> {
    set i | 0 <= i < |entries| :: entries[i].trash
  }

  function Removed(files: Files, p: Path, irremovable: set<Path>): Files {
    if p in irremovable then files else files - {p}
  }

  function Emptied(files: Files, entries: seq<Entry>, irremovable: set<Path>): Files {
    if entries == [] then files
    else Removed(Emptied(files, entries[..|entries| - 1], irremovable), entries[|entries| - 1].trash, irremovable)
  }

  lemma {:induction false} EmptiedIs(files: Files, entries: seq<Entry>, irremovable: set<Path>)
    ensures Emptied(files, entries, irremovable) == files - (TrashOf(entries) - irremovable)
  {
    if entries != [] {
      var n := |entries| - 1;
      EmptiedIs(files, entries[..n], irremovable);
      assert entries == entries[..n] + [entries[n]];
      assert TrashOf(entries) == TrashOf(entries[..n]) + {entries[n].trash};
    }
  }

  lemma EmptiedOneMore(files: Files, before: Files, entries: seq<Entry>, i: nat, irremovable: set<Path>)
    requires ManifestOk(entries, before) && i < |entries|
    ensures var f, g := Emptied(files, entries[..i], irremovable), Emptied(files, entries[..i + 1], irremovable);
            && g == Removed(f, entries[i].trash, irremovable)
            && (TrashEmpty(entries[..i + 1], g) <==> TrashEmpty(entries[..i], f) && entries[i].trash !in g)
  {
    var front, more := entries[..i], entries[..i + 1];
    assert more[..i] == front && more[i] == entries[i];
    assert forall k :: 0 <= k < i ==> more[k] == front[k] && more[k].trash != entries[i].trash;
  }

  function Sources(entries: seq<Entry>): set<Path> {
    set i | 0 <= i < |entries| :: entries[i].source
  }

  /** Once the row and the trash are gone, everything but the sources is as it was. */
  lemma OnlySourcesAreGone(manifest: seq<Entry>, before: Files, s: State)
    requires ManifestOk(manifest, before) && Conserved(manifest, before, s)
    requires !s.rowExists && TrashEmpty(manifest, s.files)
    ensures s.files == before - Sources(manifest)
  {
    forall p ensures p in s.files <==> p in before && p !in Sources(manifest) {
      if p in Places(manifest) {
        var i :| 0 <= i < |manifest| && (manifest[i].source == p || manifest[i].trash == p);
      }
    }
    forall p | p in s.files ensures s.files[p] == before[p] {
      assert p !in Places(manifest);
    }
  }

  lemma HistoryGrows(manifest: seq<Entry>, before: Files, history: seq<State>, step: Step, t: State)
    requires IsHistory(manifest, before, history)
    requires Enabled(manifest, history[|history| - 1], step) && Apply(manifest, history[|history| - 1], step) == t
    ensures IsHistory(manifest, before, history + [t])
  {
    var longer := history + [t];
    assert longer[..|longer| - 1] == history && longer[|longer| - 2] == history[|history| - 1];
    assert Follows(manifest, history[|history| - 1], t);
  }

  class DeletionWorld {
    var files: Files
    var rowExists: bool
    var status: Status
    ghost var manifest: seq<Entry>
    ghost var history: seq<State>

    ghost function Now(): State
      reads this
    {
      State(files, rowExists, status)
    }

    /** The operation got here from its start by legal steps alone. */
    ghost predicate Legal(before: Files)
      reads this
    {
      && ManifestOk(manifest, before)
      && IsHistory(manifest, before, history)
      && history[|history| - 1] == Now()
      && Conserved(manifest, before, Now())
    }

    /** One legal step has been taken. */
    ghost method Took(before: Files, step: Step)
      requires ManifestOk(manifest, before) && IsHistory(manifest, before, history)
      requires Conserved(manifest, before, history[|history| - 1])
      requires Enabled(manifest, history[|history| - 1], step)
      requires Now() == Apply(manifest, history[|history| - 1], step)
      modifies this`history
      ensures Legal(before)
    {
      StepConserves(manifest, before, history[|history| - 1], step);
      HistoryGrows(manifest, before, history, step, Now());
      history := history + [Now()];
    }

    /** `move`, as a step of the operation. */
    method Move(from: Path, to: Path, ghost before: Files, ghost step: Step)
      requires Legal(before) && from in files && Enabled(manifest, Now(), step)
      requires Apply(manifest, Now(), step) == Now().(files := Moved(files, from, to))
      modifies this`files, this`history
      ensures Legal(before) && files == Moved(old(files), from, to)
    {
      files := Moved(files, from, to);
      Took(before, step);
    }

    /** The move of one file to the trash. */
    method StageFile(entry: Entry, ghost before: Files, ghost n: nat)
      requires Legal(before) && n < |manifest| && entry == manifest[n]
      requires rowExists && status == Staged && files == StagedFiles(manifest, before, n)
      modifies this`files, this`history
      ensures Legal(before) && files == StagedFiles(manifest, before, n + 1)
    {
      StagedThenUndone(manifest, before, n);
      Move(entry.source, entry.trash, before, Stage(n));
    }

    /** `stageFiles` */
    method StageFiles(entries: seq<Entry>, unmovable: set<Path>, ghost before: Files) returns (staged: nat, ok: bool)
      requires Legal(before) && manifest == entries
      requires rowExists && status == Staged && files == StagedFiles(manifest, before, 0)
      modifies this`files, this`history
      ensures Legal(before)
      ensures staged == StagedBefore(entries, unmovable) && files == StagedFiles(manifest, before, staged)
      ensures ok <==> staged == |entries|
    {
      staged := 0;
      while staged < |entries|
        invariant Legal(before) && staged <= |entries|
        invariant files == StagedFiles(manifest, before, staged)
        invariant staged <= StagedBefore(entries, unmovable)
      {
        StagingStops(entries, unmovable, staged);
        if entries[staged].source in unmovable {
          return staged, false;
        }
        StageFile(entries[staged], before, staged);
        staged := staged + 1;
      }
      ok := true;
    }

    /** The move of one file back. */
    method UnstageFile(entry: Entry, ghost before: Files, ghost n: nat)
      requires Legal(before) && n < |manifest| && entry == manifest[n]
      requires rowExists && status == Staged && files == StagedFiles(manifest, before, n + 1)
      modifies this`files, this`history
      ensures Legal(before) && files == StagedFiles(manifest, before, n)
    {
      StagedThenUndone(manifest, before, n);
      Move(entry.trash, entry.source, before, Unstage(n));
    }

    /** One round of the loop of `restoreFiles`. */
    method UndoOne(entries: seq<Entry>, unrestorable: set<Path>, ghost before: Files, i: nat, ghost left: nat)
      returns (undone: bool, ghost next: nat)
      requires Legal(before) && manifest == entries && i < |entries| && left <= i + 1
      requires rowExists && status == Staged && files == StagedFiles(manifest, before, left)
      modifies this`files, this`history
      ensures Legal(before) && next <= |entries| && files == StagedFiles(manifest, before, next)
      ensures HeldUpTo(entries, unrestorable, left) == HeldUpTo(entries, unrestorable, next)
      ensures undone ==> next == if left <= i then left else i
      ensures !undone ==> HeldUpTo(entries, unrestorable, left) == next == i + 1
    {
      next := left;
      ReachedTrash(manifest, before, left, i);
      if entries[i].trash !in files {
        return true, left;
      }
      HeldStep(entries, unrestorable, i);
      if entries[i].source in files || entries[i].source in unrestorable {
        return false, left;
      }
      UnstageFile(entries[i], before, i);
      return true, i;
    }

    /** `restoreFiles`: back to front, skipping what never reached the trash. */
    method RestoreFiles(entries: seq<Entry>, unrestorable: set<Path>, ghost before: Files, ghost staged: nat)
      returns (ok: bool)
      requires Legal(before) && manifest == entries && staged <= |manifest|
      requires rowExists && status == Staged && files == StagedFiles(manifest, before, staged)
      modifies this`files, this`history
      ensures Legal(before)
      ensures files == StagedFiles(manifest, before, HeldUpTo(entries, unrestorable, staged))
      ensures ok <==> HeldUpTo(entries, unrestorable, staged) == 0
      ensures ok ==> files == before
    {
      ghost var left := staged;
      var i := |entries|;
      while i > 0
        invariant Legal(before) && 0 <= i <= |entries|
        invariant left == if staged < i then staged else i
        invariant files == StagedFiles(manifest, before, left)
        invariant HeldUpTo(entries, unrestorable, staged) == HeldUpTo(entries, unrestorable, left)
      {
        i := i - 1;
        var undone;
        undone, left := UndoOne(entries, unrestorable, before, i, left);
        if !undone {
          return false;
        }
      }
      ok := true;
    }

    /** `deleteDirectory` on the operation's trash: it may stop half way, and says so. */
    method DeleteTrash(entries: seq<Entry>, irremovable: set<Path>, ghost before: Files) returns (ok: bool)
      requires Legal(before) && manifest == entries && IsCommitted(status)
      modifies this`files, this`history
      ensures Legal(before)
      ensures files == old(files) - (TrashOf(entries) - irremovable)
      ensures ok <==> TrashEmpty(manifest, files)
    {
      ok := true;
      for i := 0 to |entries|
        invariant Legal(before)
        invariant files == Emptied(old(files), entries[..i], irremovable)
        invariant ok <==> TrashEmpty(entries[..i], files)
      {
        var removed := RemoveFromTrash(entries[i], irremovable, i, before);
        ok := ok && removed;
        EmptiedOneMore(old(files), before, entries, i, irremovable);
      }
      assert entries[..|entries|] == entries;
      EmptiedIs(old(files), entries, irremovable);
    }

    method RemoveFromTrash(entry: Entry, irremovable: set<Path>, ghost i: nat, ghost before: Files)
      returns (removed: bool)
      requires Legal(before) && i < |manifest| && manifest[i] == entry && IsCommitted(status)
      modifies this`files, this`history
      ensures Legal(before)
      ensures files == Removed(old(files), entry.trash, irremovable)
      ensures removed <==> entry.trash !in files
    {
      if entry.trash !in irremovable {
        files := files - {entry.trash};
        Took(before, RemoveTrash({entry.trash}));
      }
      removed := entry.trash !in files;
    }

    /**
      `CleanupDeletionOperations::cleanup` of this operation, when a cleanup run
      picks it.  Its own faults: a trash path that does not pass, files that cannot
      be removed, and the two status writes.
     */
    method CleanUp(entries: seq<Entry>, pathValid: bool, irremovable: set<Path>, recorded: bool, noted: bool,
                   ghost before: Files)
      returns (cleaned: bool)
      requires Legal(before) && manifest == entries
      modifies this`files, this`status, this`history
      ensures Legal(before)
      ensures old(IsCommitted(status)) <==> IsCommitted(status)
      ensures old(status != Committed && status != CleanupFailed) ==> !cleaned && Now() == old(Now())
      ensures old(status == Committed || status == CleanupFailed) ==>
                && files == (if pathValid then old(files) - (TrashOf(entries) - irremovable) else old(files))
                && (cleaned <==> pathValid && recorded && TrashEmpty(manifest, files))
                && status == if cleaned then Cleaned else if noted then CleanupFailed else old(status)
    {
      if status != Committed && status != CleanupFailed {
        return false;
      }
      cleaned := TryCleanUp(entries, pathValid, irremovable, recorded, before);
      if !cleaned && noted {
        status := CleanupFailed;
        Took(before, MarkCleanupFailed);
      }
    }

    /** The try block of `cleanup`. */
    method TryCleanUp(entries: seq<Entry>, pathValid: bool, irremovable: set<Path>, recorded: bool, ghost before: Files)
      returns (cleaned: bool)
      requires Legal(before) && manifest == entries && IsCommitted(status)
      modifies this`files, this`status, this`history
      ensures Legal(before) && IsCommitted(status)
      ensures files == if pathValid then old(files) - (TrashOf(entries) - irremovable) else old(files)
      ensures cleaned <==> pathValid && recorded && TrashEmpty(manifest, files)
      ensures status == if cleaned then Cleaned else old(status)
    {
      if !pathValid {
        return false;
      }
      var removed := DeleteTrash(entries, irremovable, before);
      if !removed || !recorded {
        return false;
      }
      status := Cleaned;
      Took(before, MarkCleaned);
      return true;
    }

    /** Any number of cleanup runs by other processes. */
    method OthersCleanUp(entries: seq<Entry>, ghost before: Files)
      requires Legal(before) && manifest == entries && IsCommitted(status)
      modifies this`files, this`status, this`history
      ensures Legal(before) && IsCommitted(status)
      ensures forall p :: p in files ==> p in old(files) && files[p] == old(files)[p]
    {
      var runs: nat :| true;
      for i := 0 to runs
        invariant Legal(before) && IsCommitted(status)
        invariant forall p :: p in files ==> p in old(files) && files[p] == old(files)[p]
      {
        var pathValid: bool, irremovable: set<Path>, recorded: bool, noted: bool := *, *, *, *;
        var cleaned := CleanUp(entries, pathValid, irremovable, recorded, noted, before);
      }
    }

    /** `compensateStagingFailure` and `compensateDatabaseFailure` */
    method Compensate(entries: seq<Entry>, faults: Faults, ghost before: Files, ghost staged: nat)
      returns (outcome: Outcome)
      requires Legal(before) && manifest == entries && staged <= |manifest|
      requires rowExists && status == Staged && files == StagedFiles(manifest, before, staged)
      modifies this`files, this`status, this`history
      ensures Legal(before)
      ensures outcome == UndoneAndThrown || outcome == CompensationFailed
      ensures outcome == UndoneAndThrown <==>
                !faults.undoUnrecorded && HeldUpTo(entries, faults.unrestorable, staged) == 0
      ensures files == StagedFiles(manifest, before, HeldUpTo(entries, faults.unrestorable, staged))
      ensures outcome == UndoneAndThrown ==> files == before && rowExists && status == Restored
      ensures outcome == CompensationFailed ==> rowExists && status == Staged
    {
      var restored := RestoreFiles(entries, faults.unrestorable, before, staged);
      if !restored || faults.undoUnrecorded {
        return CompensationFailed;
      }
      RecordRestored(before);
      return UndoneAndThrown;
    }

    method RecordRestored(ghost before: Files)
      requires Legal(before) && rowExists && status == Staged && files == before
      modifies this`status, this`history
      ensures Legal(before) && status == Restored
    {
      status := Restored;
      Took(before, MarkRestored);
    }

    /** Removal of the trash once the deletion is committed, with cleanup runs around it. */
    method FinishCommitted(entries: seq<Entry>, faults: Faults, ghost before: Files) returns (outcome: Outcome)
      requires Legal(before) && manifest == entries && status == Committed
      modifies this`files, this`status, this`history
      ensures Legal(before) && !rowExists
      ensures outcome == if faults.endUnrecorded then StatusNotRecorded else Finished(status)
      ensures outcome == Finished(status) ==> status == Cleaned || status == CleanupFailed
      ensures TrashCanGo(entries, faults) ==> TrashEmpty(manifest, files) && (outcome.Finished? ==> status == Cleaned)
    {
      OthersCleanUp(entries, before);
      var removed := DeleteTrash(entries, faults.irremovable, before);
      OthersCleanUp(entries, before);
      if faults.endUnrecorded {
        return StatusNotRecorded;
      }
      RecordEnd(entries, before, removed);
      return Finished(status);
    }

    /** The last status of a committed deletion. */
    method RecordEnd(entries: seq<Entry>, ghost before: Files, removed: bool)
      requires Legal(before) && manifest == entries && IsCommitted(status) && (removed ==> TrashEmpty(manifest, files))
      modifies this`status, this`history
      ensures Legal(before) && status == if removed then Cleaned else CleanupFailed
    {
      if removed {
        status := Cleaned;
        Took(before, MarkCleaned);
      } else {
        status := CleanupFailed;
        Took(before, MarkCleanupFailed);
      }
    }

    /** `permanentlyDelete`, once its operation is recorded: every outcome, and exactly when it is that. */
    method StageDeleteCommit(entries: seq<Entry>, faults: Faults, ghost before: Files) returns (outcome: Outcome)
      requires Legal(before) && manifest == entries && Now() == State(before, true, Staged)
      modifies this`files, this`rowExists, this`status, this`history
      ensures Legal(before) && outcome != Refused
      ensures !rowExists <==> RowGoes(entries, faults)
      ensures outcome.Finished? <==> RowGoes(entries, faults) && !faults.commitUnrecorded && !faults.endUnrecorded
      ensures outcome == StatusNotRecorded <==>
                RowGoes(entries, faults) && (faults.commitUnrecorded || faults.endUnrecorded)
      ensures outcome == UndoneAndThrown <==>
                !RowGoes(entries, faults) && CanUndo(entries, faults) && !faults.undoUnrecorded
      ensures outcome == CompensationFailed <==>
                !RowGoes(entries, faults) && (!CanUndo(entries, faults) || faults.undoUnrecorded)
      ensures outcome == UndoneAndThrown ==> files == before && status == Restored
      ensures outcome == CompensationFailed ==>
                status == Staged && files == StagedFiles(manifest, before, StillStaged(entries, faults))
      ensures outcome.Finished? ==> outcome.status == status && (status == Cleaned || status == CleanupFailed)
      ensures outcome.Finished? && TrashCanGo(entries, faults) ==> status == Cleaned
    {
      AllHaveReachedTrash(entries, before);
      RowGoesExactly(entries, faults);
      CanUndoExactly(entries, faults);
      var staged, moved := StageFiles(entries, faults.unmovable, before);
      if !moved {
        outcome := Compensate(entries, faults, before, staged);
        return;
      }
      if faults.rowStays {
        outcome := Compensate(entries, faults, before, staged);
        return;
      }
      outcome := CommitAndFinish(entries, faults, before);
    }

    method DeleteRow(ghost before: Files)
      requires Legal(before) && rowExists && status == Staged && AllStaged(manifest, files)
      modifies this`rowExists, this`history
      ensures Legal(before) && !rowExists
    {
      rowExists := false;
      Took(before, DropRow);
    }

    method RecordCommitted(ghost before: Files)
      requires Legal(before) && !rowExists && status == Staged
      modifies this`status, this`history
      ensures Legal(before) && status == Committed
    {
      status := Committed;
      Took(before, MarkCommitted);
    }

    /** The row is deleted; from here on nothing is undone. */
    method CommitAndFinish(entries: seq<Entry>, faults: Faults, ghost before: Files) returns (outcome: Outcome)
      requires Legal(before) && manifest == entries
      requires rowExists && status == Staged && AllStaged(manifest, files)
      modifies this`files, this`rowExists, this`status, this`history
      ensures Legal(before) && !rowExists
      ensures outcome ==
                if faults.commitUnrecorded || faults.endUnrecorded then StatusNotRecorded else Finished(status)
      ensures outcome == Finished(status) ==> status == Cleaned || status == CleanupFailed
      ensures outcome.Finished? && TrashCanGo(entries, faults) ==> status == Cleaned
    {
      DeleteRow(before);
      if faults.commitUnrecorded {
        return StatusNotRecorded;
      }
      RecordCommitted(before);
      outcome := FinishCommitted(entries, faults, before);
    }

    /** `permanentlyDelete`; `unreadable` are the files that cannot be hashed. */
    method PermanentlyDelete(paths: seq<string>, trashDirectory: Path, unreadable: set<Path>, faults: Faults)
      returns (outcome: Outcome)
      requires rowExists
      requires forall p :: p in files ==> !(trashDirectory.segments <= p.segments)
      modifies this
      ensures outcome == Refused <==>
                !Deletable(paths, old(files)) || !Readable(paths, unreadable) || faults.unrecorded
      ensures outcome == Refused ==> files == old(files) && rowExists
      ensures outcome != Refused ==> Legal(old(files)) && Names(manifest, paths)
      ensures outcome != Refused ==>
                && (!rowExists <==> RowGoes(manifest, faults))
                && (outcome == UndoneAndThrown <==>
                      !RowGoes(manifest, faults) && CanUndo(manifest, faults) && !faults.undoUnrecorded)
                && (outcome == StatusNotRecorded <==>
                      RowGoes(manifest, faults) && (faults.commitUnrecorded || faults.endUnrecorded))
                && (outcome.Finished? <==>
                      RowGoes(manifest, faults) && !faults.commitUnrecorded && !faults.endUnrecorded)
      ensures outcome == UndoneAndThrown ==> files == old(files) && rowExists && status == Restored
      ensures outcome == CompensationFailed ==>
                && rowExists && status == Staged
                && files == StagedFiles(manifest, old(files), StillStaged(manifest, faults))
                && forall i :: 0 <= i < |manifest| ==> AtOnePlace(manifest[i], files)
      ensures outcome.Finished? ==> outcome.status == status && (status == Cleaned || status == CleanupFailed)
      ensures outcome.Finished? && TrashCanGo(manifest, faults) ==> outcome == Finished(Cleaned)
      ensures outcome == Finished(Cleaned) ==> files == old(files) - Sources(manifest)
      ensures faults == NO_FAULTS && Deletable(paths, old(files)) && Readable(paths, unreadable) ==>
                outcome == Finished(Cleaned) && !rowExists && files == old(files) - Sources(manifest)
    {
      var built := BuildManifest(paths, trashDirectory, unreadable);
      if built.None? || faults.unrecorded {
        return Refused;
      }
      manifest, status := built.value, Staged;
      history := [Now()];
      StartIsConserved(built.value, files);
      outcome := StageDeleteCommit(built.value, faults, files);
      if outcome == Finished(Cleaned) {
        OnlySourcesAreGone(manifest, old(files), Now());
      }
    }

    /** One round of the loop of `buildManifest`. */
    method CollectPath(trashDirectory: Path, paths: seq<string>, i: nat, entries: seq<Entry>, seen: set<Path>,
                       unreadable: set<Path>)
      returns (entry: Option<Entry>)
      requires i < |paths| && Collected(trashDirectory, paths[..i], entries, seen, files)
      requires Readable(paths[..i], unreadable)
      ensures entry.Some? ==>
                && Collected(trashDirectory, paths[..i + 1], entries + [entry.value], seen +
                  {entry.value.source}, files)
                && Readable(paths[..i + 1], unreadable)
      ensures entry.None? ==> !Deletable(paths, files) || !Readable(paths, unreadable)
    {
      var normalized := Normalize(paths[i]);
      if normalized.None? || normalized.value in seen || normalized.value !in files {
        DeletablePrefix(paths, i, files, entries);
        return None;
      }
      if normalized.value in unreadable {
        return None;
      }
      CollectOne(trashDirectory, paths, i, entries, seen, files);
      assert paths[..i + 1] == paths[..i] + [paths[i]];
      return Some(EntryFor(trashDirectory, normalized.value, files));
    }

    /** `buildManifest`; `files` are the regular files, so a link is not among them. */
    method BuildManifest(paths: seq<string>, trashDirectory: Path, unreadable: set<Path>)
      returns (built: Option<seq<Entry>>)
      requires forall p :: p in files ==> !(trashDirectory.segments <= p.segments)
      ensures built.Some? <==> Deletable(paths, files) && Readable(paths, unreadable)
      ensures built.Some? ==> ManifestOk(built.value, files)
      ensures built.Some? ==> Names(built.value, paths)
    {
      var entries: seq<Entry>, seen: set<Path> := [], {};
      for i := 0 to |paths|
        invariant Collected(trashDirectory, paths[..i], entries, seen, files)
        invariant Readable(paths[..i], unreadable)
      {
        var entry := CollectPath(trashDirectory, paths, i, entries, seen, unreadable);
        if entry.None? {
          return None;
        }
        entries := entries + [entry.value];
        seen := seen + {entry.value.source};
      }
      assert paths[..|paths|] == paths;
      EntriesMakeManifest(trashDirectory, paths, entries, files);
      return Some(entries);
    }
  }

  function EntryFor(trashDirectory: Path, source: Path, files: Files): Entry {
    Entry(source, InTrash(trashDirectory, source), if source in files then files[source] else "")
  }

  /** What the manifest loop has collected from the paths it has seen. */
  ghost predicate Collected(trashDirectory: Path, paths: seq<string>, entries: seq<Entry>, seen: set<Path>,
                            files: Files) {
    && Deletable(paths, files) && Names(entries, paths)
    && (forall k :: 0 <= k < |entries| ==> entries[k] == EntryFor(trashDirectory, entries[k].source, files))
    && seen == Sources(entries)
  }

  lemma CollectOne(trashDirectory: Path, paths: seq<string>, i: nat, entries: seq<Entry>, seen: set<Path>, files: Files)
    requires i < |paths| && Collected(trashDirectory, paths[..i], entries, seen, files)
    requires Normalize(paths[i]).Some? && Normalize(paths[i]).value in files && Normalize(paths[i]).value !in seen
    ensures var p := Normalize(paths[i]).value;
            Collected(trashDirectory, paths[..i + 1], entries + [EntryFor(trashDirectory, p, files)], seen + {p}, files)
  {
    var p := Normalize(paths[i]).value;
    var e := EntryFor(trashDirectory, p, files);
    assert paths[..i + 1] == paths[..i] + [paths[i]];
    forall k | 0 <= k < i ensures Normalize(paths[..i][k]) != Some(p) {
      assert entries[k].source in Sources(entries);
    }
    DeletableAppend(paths[..i], paths[i], files);
    NamesAppend(entries, paths[..i], e, paths[i]);
    SourcesAppend(entries, e);
    assert forall k :: 0 <= k < |entries| ==> (entries + [e])[k] == entries[k];
  }

  lemma DeletableAppend(paths: seq<string>, path: string, files: Files)
    requires Deletable(paths, files) && Normalize(path).Some? && Normalize(path).value in files
    requires forall k :: 0 <= k < |paths| ==> Normalize(paths[k]) != Normalize(path)
    ensures Deletable(paths + [path], files)
  {
  }

  lemma NamesAppend(entries: seq<Entry>, paths: seq<string>, e: Entry, path: string)
    requires Names(entries, paths) && Normalize(path) == Some(e.source)
    ensures Names(entries + [e], paths + [path])
  {
  }

  lemma SourcesAppend(entries: seq<Entry>, e: Entry)
    ensures Sources(entries + [e]) == Sources(entries) + {e.source}
  {
    var longer := entries + [e];
    assert longer[|entries|] == e && forall k :: 0 <= k < |entries| ==> longer[k] == entries[k];
  }

  lemma DeletablePrefix(paths: seq<string>, i: nat, files: Files, entries: seq<Entry>)
    requires i < |paths| && Names(entries, paths[..i])
    requires var p := Normalize(paths[i]);
             p.None? || p.value !in files || exists k :: 0 <= k < i && entries[k].source == p.value
    ensures !Deletable(paths, files)
  {
    if Normalize(paths[i]).Some? && Normalize(paths[i]).value in files {
      var k :| 0 <= k < i && entries[k].source == Normalize(paths[i]).value;
      assert paths[..i][k] == paths[k];
    }
  }

  lemma EntriesMakeManifest(trashDirectory: Path, paths: seq<string>, entries: seq<Entry>, files: Files)
    requires Deletable(paths, files) && Names(entries, paths)
    requires forall p :: p in files ==> !(trashDirectory.segments <= p.segments)
    requires forall k :: 0 <= k < |entries| ==> entries[k] == EntryFor(trashDirectory, entries[k].source, files)
    ensures ManifestOk(entries, files)
  {
    forall k | 0 <= k < |entries| ensures entries[k].trash !in files {
      assert trashDirectory.segments <= entries[k].trash.segments;
    }
    forall i, j | 0 <= i < j < |entries|
      ensures entries[i].source != entries[j].source && entries[i].trash != entries[j].trash
    {
      assert Normalize(paths[i]) != Normalize(paths[j]);
      InTrashInjective(trashDirectory, entries[i].source, entries[j].source);
    }
  }

  /** The private paths can all be deleted: well-formed, different, and existing files. */
  predicate Deletable(paths: seq<string>, files: Files) {
    && (forall i :: 0 <= i < |paths| ==> Normalize(paths[i]).Some? && Normalize(paths[i]).value in files)
    && (forall i, j :: 0 <= i < j < |paths| ==> Normalize(paths[i]) != Normalize(paths[j]))
  }

  predicate Readable(paths: seq<string>, unreadable: set<Path>) {
    forall i :: 0 <= i < |paths| && Normalize(paths[i]).Some? ==> Normalize(paths[i]).value !in unreadable
  }

  /** The manifest lists the given paths, normalised, in their order. */
  predicate Names(manifest: seq<Entry>, paths: seq<string>) {
    |manifest| == |paths| && forall i :: 0 <= i < |paths| ==> Normalize(paths[i]) == Some(manifest[i].source)
  }

  function InTrash(trashDirectory: Path, source: Path): Path {
    Path(trashDirectory.segments + source.segments)
  }

  lemma InTrashInjective(trashDirectory: Path, p: Path, q: Path)
    ensures InTrash(trashDirectory, p) == InTrash(trashDirectory, q) ==> p == q
  {
    assert InTrash(trashDirectory, p).segments[|trashDirectory.segments|..] == p.segments;
    assert InTrash(trashDirectory, q).segments[|trashDirectory.segments|..] == q.segments;
  }
}
