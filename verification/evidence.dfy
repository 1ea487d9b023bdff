/**
  Evidence files of one assessment: the quota is checked and the files are
  written before the save lock is taken, the rows are committed under the lock
  and only if the assessment is still at the expected version.
 */
module EvidenceQuota {

  datatype File = File(path: nat, size: nat)

  /** A save between its preparation and its commit. */
  datatype Ticket = Ticket(expected: nat, files: seq<File>)

  /** Paths are UUID based: those below `nextPath` have been used. */
  datatype State = State(
    version: nat,
    rows: seq<File>,
    tickets: map<nat, Ticket>,
    disk: set<nat>,
    logged: set<nat>,
    nextPath: nat)

  datatype Step =
    | Prepare(ticket: nat, expected: nat, sizes: seq<nat>)
    // `partial`: the put that failed left a file at its path all the same
    | PrepareFails(written: nat, undeleted: set<nat>, partial: bool)
    | Commit(ticket: nat)
    | Abandon(ticket: nat, undeleted: set<nat>)
    | Store(size: nat, expected: nat)
    | OtherChange
    | RemoveRow(row: nat)

  function Bytes(files: seq<File>): nat {
    if files == [] then 0 else Bytes(files[..|files| - 1]) + files[|files| - 1].size
  }

  function Paths(files: seq<File>): set<nat> {
    set i | 0 <= i < |files| :: files[i].path
  }

  function FreshFiles(sizes: seq<nat>, firstPath: nat): seq<File> {
    seq(|sizes|, i requires 0 <= i < |sizes| => File(firstPath + i, sizes[i]))
  }

  predicate Enabled(limit: nat, s: State, step: Step) {
    match step
    case Prepare(t, _, sizes) =>
      t !in s.tickets && Bytes(s.rows) + Bytes(FreshFiles(sizes, s.nextPath)) <= limit
    case PrepareFails(written, undeleted, _) =>
      forall p :: p in undeleted ==> s.nextPath <= p < s.nextPath + written
    case Commit(t) => t in s.tickets && s.tickets[t].expected == s.version
    case Abandon(t, undeleted) => t in s.tickets && undeleted <= Paths(s.tickets[t].files)
    case Store(size, expected) => expected == s.version && Bytes(s.rows) + size <= limit
    case OtherChange => true
    case RemoveRow(i) => i < |s.rows|
  }

  function Apply(limit: nat, s: State, step: Step): State
    requires Enabled(limit, s, step)
  {
    match step
    case Prepare(t, expected, sizes) =>
      var files := FreshFiles(sizes, s.nextPath);
      s.(tickets := s.tickets[t := Ticket(expected, files)],
         disk := s.disk + Paths(files),
         nextPath := s.nextPath + |sizes|)
    case PrepareFails(written, undeleted, partial) =>
      s.(disk := s.disk + undeleted + (if partial then {s.nextPath + written} else {}),
         logged := s.logged + undeleted, nextPath := s.nextPath + written + 1)
    case Commit(t) =>
      s.(version := s.version + 1, rows := s.rows + s.tickets[t].files, tickets := s.tickets - {t})
    case Abandon(t, undeleted) =>
      s.(tickets := s.tickets - {t},
         disk := s.disk - (Paths(s.tickets[t].files) - undeleted),
         logged := s.logged + undeleted)
    case Store(size, _) =>
      s.(version := s.version + 1, rows := s.rows + [File(s.nextPath, size)],
         disk := s.disk + {s.nextPath}, nextPath := s.nextPath + 1)
    case OtherChange => s.(version := s.version + 1)
    case RemoveRow(i) =>
      s.(rows := s.rows[..i] + s.rows[i + 1..], disk := s.disk - {s.rows[i].path})
  }

  /** The expected version of a save was handed out by the server. */
  predicate Issued(s: State, step: Step) {
    step.Prepare? ==> step.expected <= s.version
  }

  predicate IsRun(limit: nat, s: State, steps: seq<Step>)
    decreases |steps|
  {
    steps == [] ||
    (Enabled(limit, s, steps[0]) && Issued(s, steps[0]) && IsRun(limit, Apply(limit, s, steps[0]), steps[1..]))
  }

  function After(limit: nat, s: State, steps: seq<Step>): State
    requires IsRun(limit, s, steps)
    decreases |steps|
  {
    if steps == [] then s else After(limit, Apply(limit, s, steps[0]), steps[1..])
  }

  // ---------- bytes ----------

  lemma {:induction false} BytesConcat(a: seq<File>, b: seq<File>)
    ensures Bytes(a + b) == Bytes(a) + Bytes(b)
  {
    if b == [] {
      assert a + b == a;
    } else {
      BytesConcat(a, b[..|b| - 1]);
      assert (a + b)[..|a + b| - 1] == a + b[..|b| - 1];
    }
  }

  lemma {:induction false} BytesWithout(rows: seq<File>, i: nat)
    requires i < |rows|
    ensures Bytes(rows[..i] + rows[i + 1..]) + rows[i].size == Bytes(rows)
    decreases |rows|
  {
    var n := |rows| - 1;
    var without := rows[..i] + rows[i + 1..];
    if i == n {
      assert without == rows[..n];
    } else {
      BytesWithout(rows[..n], i);
      assert without[..n - 1] == rows[..n][..i] + rows[..n][i + 1..];
    }
  }

  /**
    The quota holds, and a save that could still commit would not break it:
    every addition moves the version, so its check is still good.
   */
  ghost predicate QuotaOk(limit: nat, s: State) {
    && Bytes(s.rows) <= limit
    && (forall t :: t in s.tickets ==> s.tickets[t].expected <= s.version)
    && (forall t :: t in s.tickets && s.tickets[t].expected == s.version ==>
          Bytes(s.rows) + Bytes(s.tickets[t].files) <= limit)
  }

  lemma StepKeepsQuota(limit: nat, s: State, step: Step)
    requires QuotaOk(limit, s) && Enabled(limit, s, step) && Issued(s, step)
    ensures QuotaOk(limit, Apply(limit, s, step))
  {
    match step
    case Commit(t) => BytesConcat(s.rows, s.tickets[t].files);
    case Store(size, _) => assert (s.rows + [File(s.nextPath, size)])[..|s.rows|] == s.rows;
    case RemoveRow(i) => BytesWithout(s.rows, i);
    case _ =>
  }

  /** Over any interleaving of saves, uploads and other changes, committed evidence never exceeds the limit. */
  lemma {:induction false} QuotaHolds(limit: nat, s: State, steps: seq<Step>)
    requires QuotaOk(limit, s) && IsRun(limit, s, steps)
    ensures QuotaOk(limit, After(limit, s, steps))
    decreases |steps|
  {
    if steps != [] {
      StepKeepsQuota(limit, s, steps[0]);
      QuotaHolds(limit, Apply(limit, s, steps[0]), steps[1..]);
    }
  }

  // ---------- a version nobody issued ----------

  function OtherChanges(n: nat): seq<Step> {
    if n == 0 then [] else [OtherChange] + OtherChanges(n - 1)
  }

  lemma {:induction false} WaitAndCommit(limit: nat, s: State, t: nat)
    requires t in s.tickets && s.version <= s.tickets[t].expected
    ensures var steps := OtherChanges(s.tickets[t].expected - s.version) + [Commit(t)];
            && IsRun(limit, s, steps)
            && After(limit, s, steps).rows == s.rows + s.tickets[t].files
    decreases s.tickets[t].expected - s.version
  {
    var n := s.tickets[t].expected - s.version;
    var steps := OtherChanges(n) + [Commit(t)];
    if n == 0 {
      assert steps == [Commit(t)];
      assert steps[1..] == [];
      assert IsRun(limit, Apply(limit, s, Commit(t)), []);
    } else {
      var next := Apply(limit, s, OtherChange);
      WaitAndCommit(limit, next, t);
      assert steps[1..] == OtherChanges(n - 1) + [Commit(t)];
    }
  }

  /** With a version from the future, filling the quota first and committing later exceeds it. */
  lemma FutureVersionBreaksQuota(limit: nat, s: State, t: nat)
    requires QuotaOk(limit, s.(tickets := s.tickets - {t}))
    requires t in s.tickets && s.tickets[t].expected > s.version && Bytes(s.tickets[t].files) > 0
    ensures exists steps :: IsRun(limit, s, steps) && Bytes(After(limit, s, steps).rows) > limit
  {
    var fill := Store(limit - Bytes(s.rows), s.version);
    var next := Apply(limit, s, fill);
    WaitAndCommit(limit, next, t);
    var rest := OtherChanges(s.tickets[t].expected - next.version) + [Commit(t)];
    var steps := [fill] + rest;
    assert steps[1..] == rest;
    BytesConcat(next.rows, s.tickets[t].files);
    assert next.rows[..|s.rows|] == s.rows;
    assert IsRun(limit, s, steps) && Bytes(After(limit, s, steps).rows) > limit;
  }

  /** The exact condition: a prepared save can never exceed the quota just when its expected version was issued. */
  lemma QuotaHoldsExactlyForIssuedVersions(limit: nat, s: State, t: nat, expected: nat, sizes: seq<nat>)
    requires QuotaOk(limit, s) && Enabled(limit, s, Prepare(t, expected, sizes))
    requires Bytes(FreshFiles(sizes, s.nextPath)) > 0
    ensures var prepared := Apply(limit, s, Prepare(t, expected, sizes));
            (forall steps :: IsRun(limit, prepared, steps) ==> Bytes(After(limit, prepared, steps).rows) <= limit)
            <==> expected <= s.version
  {
    var prepared := Apply(limit, s, Prepare(t, expected, sizes));
    if expected <= s.version {
      StepKeepsQuota(limit, s, Prepare(t, expected, sizes));
      forall steps | IsRun(limit, prepared, steps) ensures Bytes(After(limit, prepared, steps).rows) <= limit {
        QuotaHolds(limit, prepared, steps);
      }
    } else {
      assert prepared.(tickets := prepared.tickets - {t}).tickets == s.tickets;
      FutureVersionBreaksQuota(limit, prepared, t);
    }
  }

  // ---------- files ----------

  predicate PathsDistinct(files: seq<File>) {
    forall i, j :: 0 <= i < j < |files| ==> files[i].path != files[j].path
  }

  predicate Below(paths: set<nat>, n: nat) {
    forall p :: p in paths ==> p < n
  }

  ghost predicate Apart(s: State) {
    && (forall t :: t in s.tickets ==>
          && PathsDistinct(s.tickets[t].files)
          && Paths(s.tickets[t].files) !! Paths(s.rows)
          && Paths(s.tickets[t].files) !! s.logged
          && Below(Paths(s.tickets[t].files), s.nextPath))
    && (forall t, u :: t in s.tickets && u in s.tickets && t != u ==>
          Paths(s.tickets[t].files) !! Paths(s.tickets[u].files))
    && PathsDistinct(s.rows)
    && Paths(s.rows) !! s.logged
    && Below(Paths(s.rows) + s.logged, s.nextPath)
  }

  ghost predicate Pending(s: State, p: nat) {
    exists t :: t in s.tickets && p in Paths(s.tickets[t].files)
  }

  /**
    Every file on disk is referenced by a row, belongs to a save in flight, or its
    failed removal was logged; and every file a row refers to is on disk.
   */
  ghost predicate FilesOk(s: State) {
    && Apart(s)
    && (forall p :: p in s.disk ==> p in Paths(s.rows) || p in s.logged || Pending(s, p))
    && Paths(s.rows) <= s.disk
    && (forall t :: t in s.tickets ==> Paths(s.tickets[t].files) <= s.disk)
  }

  lemma FreshPaths(sizes: seq<nat>, firstPath: nat)
    ensures PathsDistinct(FreshFiles(sizes, firstPath))
    ensures forall p :: p in Paths(FreshFiles(sizes, firstPath)) ==> firstPath <= p < firstPath + |sizes|
  {
  }

  lemma PathsConcat(a: seq<File>, b: seq<File>)
    ensures Paths(a + b) == Paths(a) + Paths(b)
  {
    forall p | p in Paths(a) + Paths(b) ensures p in Paths(a + b) {
      if p in Paths(a) {
        var i :| 0 <= i < |a| && a[i].path == p;
        assert (a + b)[i].path == p;
      } else {
        var i :| 0 <= i < |b| && b[i].path == p;
        assert (a + b)[|a| + i].path == p;
      }
    }
  }

  lemma DistinctConcat(a: seq<File>, b: seq<File>)
    requires PathsDistinct(a) && PathsDistinct(b) && Paths(a) !! Paths(b)
    ensures PathsDistinct(a + b)
  {
    forall i, j | 0 <= i < j < |a + b| ensures (a + b)[i].path != (a + b)[j].path {
      if i < |a| <= j {
        assert a[i].path in Paths(a) && b[j - |a|].path in Paths(b);
      }
    }
  }

  lemma PrepareKeepsFiles(limit: nat, s: State, t: nat, expected: nat, sizes: seq<nat>)
    requires FilesOk(s) && Enabled(limit, s, Prepare(t, expected, sizes))
    ensures FilesOk(Apply(limit, s, Prepare(t, expected, sizes)))
  {
    var v := Apply(limit, s, Prepare(t, expected, sizes));
    FreshPaths(sizes, s.nextPath);
    forall p | Pending(s, p) ensures Pending(v, p) {
      var u :| u in s.tickets && p in Paths(s.tickets[u].files);
      assert u in v.tickets && p in Paths(v.tickets[u].files);
    }
    forall p | p in Paths(v.tickets[t].files) ensures Pending(v, p) {
      assert t in v.tickets;
    }
  }

  lemma CommitKeepsFiles(limit: nat, s: State, t: nat)
    requires FilesOk(s) && Enabled(limit, s, Commit(t))
    ensures FilesOk(Apply(limit, s, Commit(t)))
  {
    var v := Apply(limit, s, Commit(t));
    PathsConcat(s.rows, s.tickets[t].files);
    DistinctConcat(s.rows, s.tickets[t].files);
    forall p | Pending(s, p) && p !in Paths(s.tickets[t].files) ensures Pending(v, p) {
      var u :| u in s.tickets && p in Paths(s.tickets[u].files);
      assert u in v.tickets && p in Paths(v.tickets[u].files);
    }
  }

  lemma AbandonKeepsFiles(limit: nat, s: State, t: nat, undeleted: set<nat>)
    requires FilesOk(s) && Enabled(limit, s, Abandon(t, undeleted))
    ensures FilesOk(Apply(limit, s, Abandon(t, undeleted)))
  {
    var v := Apply(limit, s, Abandon(t, undeleted));
    forall p | Pending(s, p) && p !in Paths(s.tickets[t].files) ensures Pending(v, p) {
      var u :| u in s.tickets && p in Paths(s.tickets[u].files);
      assert u in v.tickets && p in Paths(v.tickets[u].files);
    }
  }

  lemma StoreKeepsFiles(limit: nat, s: State, size: nat, expected: nat)
    requires FilesOk(s) && Enabled(limit, s, Store(size, expected))
    ensures FilesOk(Apply(limit, s, Store(size, expected)))
  {
    var v := Apply(limit, s, Store(size, expected));
    var file := File(s.nextPath, size);
    PathsConcat(s.rows, [file]);
    assert Paths([file]) == {s.nextPath} by { assert [file][0].path == s.nextPath; }
    DistinctConcat(s.rows, [file]);
    assert forall p :: Pending(s, p) <==> Pending(v, p);
  }

  lemma RemoveKeepsFiles(limit: nat, s: State, row: nat)
    requires FilesOk(s) && Enabled(limit, s, RemoveRow(row))
    ensures FilesOk(Apply(limit, s, RemoveRow(row)))
  {
    var v := Apply(limit, s, RemoveRow(row));
    var front, back := s.rows[..row], s.rows[row + 1..];
    assert s.rows == front + [s.rows[row]] + back;
    PathsConcat(front + [s.rows[row]], back);
    PathsConcat(front, [s.rows[row]]);
    PathsConcat(front, back);
    assert Paths([s.rows[row]]) == {s.rows[row].path} by { assert [s.rows[row]][0].path == s.rows[row].path; }
    assert s.rows[row].path !in Paths(v.rows);
    assert forall p :: Pending(s, p) <==> Pending(v, p);
  }

  /** A put that failed left a file all the same; nothing will ever refer to it, remove it or log it. */
  predicate LeavesPart(step: Step) {
    step.PrepareFails? && step.partial
  }

  ghost predicate Orphan(s: State, p: nat) {
    p in s.disk && p < s.nextPath && p !in Paths(s.rows) && p !in s.logged && !Pending(s, p)
  }

  lemma PartIsOrphan(limit: nat, s: State, step: Step)
    requires FilesOk(s) && Enabled(limit, s, step) && LeavesPart(step)
    ensures Orphan(Apply(limit, s, step), s.nextPath + step.written)
  {
    assert forall t :: t in s.tickets ==> Below(Paths(s.tickets[t].files), s.nextPath);
  }

  lemma StepKeepsOrphan(limit: nat, s: State, step: Step, p: nat)
    requires Orphan(s, p) && Enabled(limit, s, step)
    ensures Orphan(Apply(limit, s, step), p)
  {
    var v := Apply(limit, s, step);
    match step
    case Prepare(_, _, sizes) => FreshPaths(sizes, s.nextPath);
    case Commit(t) =>
      PathsConcat(s.rows, s.tickets[t].files);
      assert p in Paths(s.tickets[t].files) ==> Pending(s, p);
    case Abandon(t, _) => assert p in Paths(s.tickets[t].files) ==> Pending(s, p);
    case Store(size, _) => PathsConcat(s.rows, [File(s.nextPath, size)]);
    case RemoveRow(i) => assert s.rows[i].path in Paths(s.rows);
    case _ =>
    forall t | t in v.tickets ensures p !in Paths(v.tickets[t].files) {
      if t in s.tickets && v.tickets[t] == s.tickets[t] {
        assert p in Paths(s.tickets[t].files) ==> Pending(s, p);
      }
    }
  }

  lemma StepKeepsFiles(limit: nat, s: State, step: Step)
    requires FilesOk(s) && Enabled(limit, s, step) && !LeavesPart(step)
    ensures FilesOk(Apply(limit, s, step))
  {
    match step
    case Prepare(t, expected, sizes) => PrepareKeepsFiles(limit, s, t, expected, sizes);
    case Commit(t) => CommitKeepsFiles(limit, s, t);
    case Abandon(t, undeleted) => AbandonKeepsFiles(limit, s, t, undeleted);
    case Store(size, expected) => StoreKeepsFiles(limit, s, size, expected);
    case RemoveRow(row) => RemoveKeepsFiles(limit, s, row);
    case _ => assert forall p :: Pending(s, p) <==> Pending(Apply(limit, s, step), p);
  }

  predicate NoPartsLeft(steps: seq<Step>) {
    forall i :: 0 <= i < |steps| ==> !LeavesPart(steps[i])
  }

  lemma {:induction false} RunKeepsOrphan(limit: nat, s: State, steps: seq<Step>, p: nat)
    requires Orphan(s, p) && IsRun(limit, s, steps)
    ensures Orphan(After(limit, s, steps), p)
    decreases |steps|
  {
    if steps != [] {
      StepKeepsOrphan(limit, s, steps[0], p);
      RunKeepsOrphan(limit, Apply(limit, s, steps[0]), steps[1..], p);
    }
  }

  lemma {:induction false} FilesAfter(limit: nat, s: State, steps: seq<Step>)
    requires FilesOk(s) && IsRun(limit, s, steps)
    ensures NoPartsLeft(steps) ==> FilesOk(After(limit, s, steps))
    ensures !NoPartsLeft(steps) ==> exists p :: Orphan(After(limit, s, steps), p)
    decreases |steps|
  {
    if steps != [] {
      var next := Apply(limit, s, steps[0]);
      assert NoPartsLeft(steps) <==> !LeavesPart(steps[0]) && NoPartsLeft(steps[1..]) by {
        assert forall i :: 0 < i < |steps| ==> steps[i] == steps[1..][i - 1];
      }
      if LeavesPart(steps[0]) {
        var p := s.nextPath + steps[0].written;
        PartIsOrphan(limit, s, steps[0]);
        RunKeepsOrphan(limit, next, steps[1..], p);
        assert Orphan(After(limit, s, steps), p);
      } else {
        StepKeepsFiles(limit, s, steps[0]);
        FilesAfter(limit, next, steps[1..]);
        if !NoPartsLeft(steps[1..]) {
          var p :| Orphan(After(limit, next, steps[1..]), p);
          assert Orphan(After(limit, s, steps), p);
        }
      }
    }
  }

  /**
    Once no save is in flight, every file ever written is referenced by a
    committed row, has been removed, or its failed removal was logged: exactly in
    the runs where no failed put leaves a file.
   */
  lemma FilesAreAccountedForExactly(limit: nat, s: State, steps: seq<Step>)
    requires FilesOk(s) && IsRun(limit, s, steps)
    ensures FilesOk(After(limit, s, steps)) <==> NoPartsLeft(steps)
    ensures var v := After(limit, s, steps);
            v.tickets == map[] ==> (Paths(v.rows) <= v.disk <= Paths(v.rows) + v.logged <==> NoPartsLeft(steps))
  {
    FilesAfter(limit, s, steps);
  }

  /** The shortest such run: the first put ever fails and leaves its part. */
  lemma OneFailedPut(limit: nat)
    ensures var s := State(0, [], map[], {}, {}, 0);
            var steps := [PrepareFails(0, {}, true)];
            && FilesOk(s) && IsRun(limit, s, steps)
            && After(limit, s, steps).disk == {0} && After(limit, s, steps).logged == {}
            && !FilesOk(After(limit, s, steps))
  {
    var s, step := State(0, [], map[], {}, {}, 0), PrepareFails(0, {}, true);
    assert [step][1..] == [];
    assert IsRun(limit, Apply(limit, s, step), []);
    FilesAreAccountedForExactly(limit, s, [step]);
    assert LeavesPart([step][0]);
  }
}

/** `PrepareEvidenceFiles` as it runs: checks first, then writes, undone when one of them fails. */
module EvidencePreparation {
  import opened Wrappers
  import opened EvidenceQuota

  /** An upload as declared by the request and as found on disk. */
  datatype Upload = Upload(declaredSize: nat, declaredHash: string, actualSize: nat, actualHash: string)

  datatype Refusal = PayloadMismatch | Duplicate | AssessmentSize | WriteFailed

  predicate Genuine(u: Upload) {
    u.actualSize == u.declaredSize && u.actualHash == u.declaredHash
  }

  function Sizes(uploads: seq<Upload>): seq<nat> {
    seq(|uploads|, i requires 0 <= i < |uploads| => uploads[i].declaredSize)
  }

  function Total(uploads: seq<Upload>): nat {
    if uploads == [] then 0 else Total(uploads[..|uploads| - 1]) + uploads[|uploads| - 1].declaredSize
  }

  /** What a batch must be to be written: genuine, new, and within the quota. */
  predicate Acceptable(uploads: seq<Upload>, existing: set<string>, existingBytes: nat, limit: nat) {
    BatchOk(uploads, existing) && existingBytes + Total(uploads) <= limit
  }

  predicate BatchOk(uploads: seq<Upload>, existing: set<string>) {
    && (forall i :: 0 <= i < |uploads| ==> Genuine(uploads[i]) && uploads[i].declaredHash !in existing)
    && (forall i, j :: 0 <= i < j < |uploads| ==> uploads[i].declaredHash != uploads[j].declaredHash)
  }

  function Hashes(uploads: seq<Upload>): set<string> {
    set i | 0 <= i < |uploads| :: uploads[i].declaredHash
  }

  lemma BatchOneMore(uploads: seq<Upload>, i: nat, existing: set<string>)
    requires i < |uploads| && BatchOk(uploads[..i], existing)
    ensures BatchOk(uploads[..i + 1], existing) <==>
              && Genuine(uploads[i])
              && uploads[i].declaredHash !in Hashes(uploads[..i]) && uploads[i].declaredHash !in existing
    ensures Hashes(uploads[..i + 1]) == Hashes(uploads[..i]) + {uploads[i].declaredHash}
    ensures Total(uploads[..i + 1]) == Total(uploads[..i]) + uploads[i].declaredSize
    ensures !BatchOk(uploads[..i + 1], existing) ==> !BatchOk(uploads, existing)
  {
    var front, more := uploads[..i], uploads[..i + 1];
    assert more[..i] == front && more[i] == uploads[i];
    assert forall k :: 0 <= k < i ==> front[k] == more[k] == uploads[k];
  }

  /** The first upload that is not what it was declared to be, or not new. */
  ghost predicate FirstBad(uploads: seq<Upload>, existing: set<string>, i: int) {
    0 <= i < |uploads| && BatchOk(uploads[..i], existing) && !BatchOk(uploads[..i + 1], existing)
  }

  lemma {:induction false} TotalIsBytes(uploads: seq<Upload>, firstPath: nat)
    ensures Bytes(FreshFiles(Sizes(uploads), firstPath)) == Total(uploads)
  {
    if uploads != [] {
      var front := uploads[..|uploads| - 1];
      TotalIsBytes(front, firstPath);
      assert FreshFiles(Sizes(uploads), firstPath)[..|front|] == FreshFiles(Sizes(front), firstPath);
    }
  }

  /** What goes wrong on the disk: puts that fail, those of them that leave a part, and files that cannot be deleted. */
  datatype Faults = Faults(unwritable: set<nat>, partial: set<nat>, undeletable: set<nat>)

  /** How many files are written: those before the first put that fails. */
  function WrittenBefore(first: nat, count: nat, unwritable: set<nat>): (n: nat)
    ensures n <= count
    decreases count
  {
    if count == 0 || first in unwritable then 0 else 1 + WrittenBefore(first + 1, count - 1, unwritable)
  }

  lemma {:induction false} WritingStops(first: nat, count: nat, unwritable: set<nat>, n: nat)
    requires n < count && n <= WrittenBefore(first, count, unwritable)
    ensures first + n in unwritable <==> n == WrittenBefore(first, count, unwritable)
    decreases count
  {
    if n > 0 {
      WritingStops(first + 1, count - 1, unwritable, n - 1);
    }
  }

  class PrivateDisk {
    var disk: set<nat>
    var logged: set<nat>
    var nextPath: nat

    /** `compensate`: a file that cannot be deleted is logged. */
    method Compensate(files: seq<File>, undeletable: set<nat>)
      requires PathsDistinct(files)
      modifies this`disk, this`logged
      ensures logged == old(logged) + Paths(files) * undeletable
      ensures disk == old(disk) - (Paths(files) - undeletable)
    {
      for i := 0 to |files|
        invariant logged == old(logged) + Paths(files[..i]) * undeletable
        invariant disk == old(disk) - (Paths(files[..i]) - undeletable)
      {
        PathsConcat(files[..i], [files[i]]);
        assert files[..i + 1] == files[..i] + [files[i]];
        assert Paths([files[i]]) == {files[i].path} by { assert [files[i]][0].path == files[i].path; }
        if files[i].path !in undeletable {
          disk := disk - {files[i].path};
        } else {
          logged := logged + {files[i].path};
        }
      }
      assert files[..|files|] == files;
    }

    /** The first loop of `handle`, and the quota check after it. */
    method Check(uploads: seq<Upload>, existing: set<string>, existingBytes: nat, limit: nat)
      returns (refusal: Option<Refusal>)
      ensures refusal.None? <==> Acceptable(uploads, existing, existingBytes, limit)
      ensures refusal == Some(AssessmentSize) ==>
                BatchOk(uploads, existing) && existingBytes + Total(uploads) > limit
      ensures refusal == Some(PayloadMismatch) || refusal == Some(Duplicate) ==>
                exists i :: FirstBad(uploads, existing, i) &&
                            (refusal == Some(PayloadMismatch) <==> !Genuine(uploads[i]))
      ensures refusal != Some(WriteFailed)
    {
      var batchBytes: nat, batchHashes: set<string> := 0, {};
      for i := 0 to |uploads|
        invariant batchBytes == Total(uploads[..i]) && batchHashes == Hashes(uploads[..i])
        invariant BatchOk(uploads[..i], existing)
      {
        BatchOneMore(uploads, i, existing);
        if !Genuine(uploads[i]) {
          assert FirstBad(uploads, existing, i);
          return Some(PayloadMismatch);
        }
        if uploads[i].declaredHash in batchHashes || uploads[i].declaredHash in existing {
          assert FirstBad(uploads, existing, i);
          return Some(Duplicate);
        }
        batchHashes := batchHashes + {uploads[i].declaredHash};
        batchBytes := batchBytes + uploads[i].declaredSize;
      }
      assert uploads[..|uploads|] == uploads;
      return if existingBytes + batchBytes > limit then Some(AssessmentSize) else None;
    }

    /**
      `put`: the file is there when it succeeds, and may be there in part when it
      fails, which nothing records.
     */
    method Put(path: nat, faults: Faults) returns (written: bool)
      modifies this`disk
      ensures written <==> path !in faults.unwritable
      ensures disk == if written || path in faults.partial then old(disk) + {path} else old(disk)
    {
      written := path !in faults.unwritable;
      if written || path in faults.partial {
        disk := disk + {path};
      }
    }

    /**
      `handle`: an acceptable batch whose puts succeed is written under fresh paths;
      what is not acceptable changes nothing; a put that fails undoes those before
      it, and leaves what could not be deleted, logged, and its own part, which is
      not.
     */
    method Handle(uploads: seq<Upload>, existing: set<string>, existingBytes: nat, limit: nat, faults: Faults)
      returns (result: Result<seq<File>, Refusal>)
      requires forall p :: p in disk + logged ==> p < nextPath
      modifies this
      ensures result.Ok? <==>
                || uploads == []
                || (Acceptable(uploads, existing, existingBytes, limit) &&
                    WrittenBefore(old(nextPath), |uploads|, faults.unwritable) == |uploads|)
      ensures result == Err(WriteFailed) <==>
                uploads != [] && Acceptable(uploads, existing, existingBytes, limit) &&
                WrittenBefore(old(nextPath), |uploads|, faults.unwritable) < |uploads|
      ensures result.Ok? ==>
                && result.value == FreshFiles(Sizes(uploads), old(nextPath))
                && disk == old(disk) + Paths(result.value) && logged == old(logged)
                && nextPath == old(nextPath) + |uploads|
                && (uploads != [] ==> existingBytes + Bytes(result.value) <= limit)
      ensures result == Err(WriteFailed) ==>
                && Undone(old(disk), disk, old(logged), logged, old(nextPath), |uploads|, faults)
                && nextPath == old(nextPath) + WrittenBefore(old(nextPath), |uploads|, faults.unwritable) + 1
                && (disk - old(disk) <= logged <==>
                      old(nextPath) + WrittenBefore(old(nextPath), |uploads|, faults.unwritable) !in faults.partial)
      ensures result.Err? && result.error != WriteFailed ==>
                && disk == old(disk) && logged == old(logged) && nextPath == old(nextPath)
                && !Acceptable(uploads, existing, existingBytes, limit)
      ensures forall p :: p in disk + logged ==> p < nextPath
    {
      if uploads == [] {
        assert FreshFiles(Sizes(uploads), nextPath) == [];
        return Ok([]);
      }
      var refusal := Check(uploads, existing, existingBytes, limit);
      if refusal.Some? {
        return Err(refusal.value);
      }
      TotalIsBytes(uploads, nextPath);
      result := WriteAll(uploads, faults);
    }

    /** The compensation after the put of file `n` has failed. */
    method UndoPrepared(prepared: seq<File>, ghost uploads: seq<Upload>, ghost first: nat, ghost n: nat,
                        faults: Faults, ghost disk0: set<nat>)
      requires n <= |uploads| && prepared == FreshFiles(Sizes(uploads[..n]), first)
      requires forall p :: p in disk0 + logged ==> p < first
      requires disk == disk0 + From(first, n) + if first + n in faults.partial then {first + n} else {}
      modifies this`disk, this`logged
      ensures disk == disk0 + From(first, n) * faults.undeletable + {first + n} * faults.partial
      ensures logged == old(logged) + From(first, n) * faults.undeletable
      ensures disk - disk0 <= logged <==> first + n !in faults.partial
      ensures forall p :: p in disk + logged ==> p < first + n + 1
    {
      FreshPathsAre(uploads[..n], first);
      Compensate(prepared, faults.undeletable);
      UndoLeaves(disk0, old(logged), first, n, faults, disk, logged);
    }

    /** The second loop of `handle`. */
    method WriteAll(uploads: seq<Upload>, faults: Faults) returns (result: Result<seq<File>, Refusal>)
      requires forall p :: p in disk + logged ==> p < nextPath
      modifies this
      ensures result.Ok? <==> WrittenBefore(old(nextPath), |uploads|, faults.unwritable) == |uploads|
      ensures result.Ok? ==>
                && result.value == FreshFiles(Sizes(uploads), old(nextPath))
                && disk == old(disk) + Paths(result.value) && logged == old(logged)
                && nextPath == old(nextPath) + |uploads|
      ensures result.Err? ==>
                && result.error == WriteFailed
                && Undone(old(disk), disk, old(logged), logged, old(nextPath), |uploads|, faults)
                && nextPath == old(nextPath) + WrittenBefore(old(nextPath), |uploads|, faults.unwritable) + 1
                && (disk - old(disk) <= logged <==>
                      old(nextPath) + WrittenBefore(old(nextPath), |uploads|, faults.unwritable) !in faults.partial)
      ensures forall p :: p in disk + logged ==> p < nextPath
    {
      var prepared: seq<File> := [];
      ghost var first := nextPath;
      for i := 0 to |uploads|
        invariant prepared == FreshFiles(Sizes(uploads[..i]), first)
        invariant nextPath == first + i && logged == old(logged)
        invariant disk == old(disk) + From(first, i)
        invariant i <= WrittenBefore(first, |uploads|, faults.unwritable)
      {
        var file := File(nextPath, uploads[i].declaredSize);
        nextPath := nextPath + 1;
        WritingStops(first, |uploads|, faults.unwritable, i);
        var written := Put(file.path, faults);
        if !written {
          UndoPrepared(prepared, uploads, first, i, faults, old(disk));
          return Err(WriteFailed);
        }
        OneMoreFile(uploads, i, first);
        prepared := prepared + [file];
      }
      assert uploads[..|uploads|] == uploads;
      FreshPathsAre(uploads, first);
      AllBelow(old(disk), logged, first, |uploads|);
      return Ok(prepared);
    }
  }

  /** The paths of so many new files. */
  function From(first: nat, count: nat): set<nat> {
    if count == 0 then {} else From(first, count - 1) + {first + count - 1}
  }

  lemma {:induction false} FromIs(first: nat, count: nat)
    ensures forall p :: p in From(first, count) <==> first <= p < first + count
  {
    if count > 0 {
      FromIs(first, count - 1);
    }
  }

  lemma AllBelow(disk: set<nat>, logged: set<nat>, first: nat, count: nat)
    requires forall p :: p in disk + logged ==> p < first
    ensures forall p :: p in disk + From(first, count) + logged ==> p < first + count
  {
    FromIs(first, count);
    assert forall p :: p in disk || p in logged ==> p in disk + logged;
  }

  lemma FreshPathsAre(uploads: seq<Upload>, first: nat)
    ensures PathsDistinct(FreshFiles(Sizes(uploads), first))
    ensures Paths(FreshFiles(Sizes(uploads), first)) == From(first, |uploads|)
  {
    var files := FreshFiles(Sizes(uploads), first);
    FreshPaths(Sizes(uploads), first);
    FromIs(first, |uploads|);
    forall p | p in From(first, |uploads|) ensures p in Paths(files) {
      assert files[p - first].path == p;
    }
  }

  lemma OneMoreFile(uploads: seq<Upload>, i: nat, first: nat)
    requires i < |uploads|
    ensures FreshFiles(Sizes(uploads[..i + 1]), first) ==
              FreshFiles(Sizes(uploads[..i]), first) + [File(first + i, uploads[i].declaredSize)]
    ensures From(first, i + 1) == From(first, i) + {first + i}
  {
  }

  /** What a failed batch leaves: the files that could not be deleted again, logged, and the part of the failed put. */
  predicate Undone(disk0: set<nat>, disk: set<nat>, logged0: set<nat>, logged: set<nat>, first: nat, count: nat,
                   faults: Faults)
  {
    var n := WrittenBefore(first, count, faults.unwritable);
    && disk == disk0 + From(first, n) * faults.undeletable + {first + n} * faults.partial
    && logged == logged0 + From(first, n) * faults.undeletable
  }

  /** What a failed batch does is the failed preparation of the quota's runs. */
  lemma UndoneIsAStep(limit: nat, s: State, count: nat, faults: Faults, disk: set<nat>, logged: set<nat>)
    requires Undone(s.disk, disk, s.logged, logged, s.nextPath, count, faults)
    ensures var n := WrittenBefore(s.nextPath, count, faults.unwritable);
            var step := PrepareFails(n, From(s.nextPath, n) * faults.undeletable, s.nextPath + n in faults.partial);
            && Enabled(limit, s, step)
            && Apply(limit, s, step) == s.(disk := disk, logged := logged, nextPath := s.nextPath + n + 1)
  {
    var n := WrittenBefore(s.nextPath, count, faults.unwritable);
    FromIs(s.nextPath, n);
    assert {s.nextPath + n} * faults.partial == if s.nextPath + n in faults.partial then {s.nextPath + n} else {};
  }

  lemma UndoLeaves(disk0: set<nat>, logged0: set<nat>, first: nat, n: nat, faults: Faults,
                   disk: set<nat>, logged: set<nat>)
    requires forall p :: p in disk0 + logged0 ==> p < first
    requires disk == disk0 + From(first, n) + (if first + n in faults.partial then {first + n} else {})
                     - (From(first, n) - faults.undeletable)
    requires logged == logged0 + From(first, n) * faults.undeletable
    ensures disk == disk0 + From(first, n) * faults.undeletable + {first + n} * faults.partial
    ensures disk - disk0 <= logged <==> first + n !in faults.partial
    ensures forall p :: p in disk + logged ==> p < first + n + 1
  {
    FromIs(first, n);
    assert forall p :: p in disk0 || p in logged0 ==> p in disk0 + logged0;
    var kept := From(first, n) * faults.undeletable;
    assert {first + n} * faults.partial == if first + n in faults.partial then {first + n} else {};
    assert (disk0 + From(first, n)) - (From(first, n) - faults.undeletable) == disk0 + kept;
    assert first + n !in From(first, n);
    assert first + n !in disk0 && first + n !in logged0;
  }
}
