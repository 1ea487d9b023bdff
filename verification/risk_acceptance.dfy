/** Exactly which checked saves of a risk profile the unique indexes let through. */
module RiskAcceptance {
  import opened Wrappers
  import opened SetFacts
  import opened RiskProfiles
  import opened RiskAnswers

  /** The unique index on profile and code. */
  ghost predicate CodesUnique(levels: Levels, profile: nat) {
    forall x, y ::
      (x in levels && y in levels && levels[x].profile == profile && levels[y].profile == profile
       && levels[x].code == levels[y].code) ==> x == y
  }

  ghost predicate Unique(levels: Levels, profile: nat, scored: bool) {
    CodesUnique(levels, profile) && (scored ==> ScoresUnique(levels, profile))
  }

  /** Two levels the indexes keep apart: their codes differ, and their scores where these count. */
  predicate Differ(code: string, score: int, other: string, otherScore: int, scored: bool) {
    code != other && (scored ==> score != otherScore)
  }

  /** A known row keeps its level's score; a new one has a code and a score that no level of the profile has. */
  ghost predicate RowFits(levels: Levels, profile: nat, row: Row, scored: bool) {
    match row.id
    case Some(x) => x in levels && levels[x].profile == profile && (scored ==> levels[x].score == row.score)
    case None =>
      forall y :: y in levels && levels[y].profile == profile ==>
        Differ(row.code, row.score, levels[y].code, levels[y].score, scored)
  }

  ghost predicate NewRowsDiffer(rows: seq<Row>, scored: bool) {
    forall i, j :: 0 <= i < j < |rows| && rows[i].id.None? && rows[j].id.None? ==>
      Differ(rows[i].code, rows[i].score, rows[j].code, rows[j].score, scored)
  }

  ghost predicate RowsFit(levels: Levels, profile: nat, rows: seq<Row>, scored: bool) {
    NewRowsDiffer(rows, scored) && forall i :: 0 <= i < |rows| ==> RowFits(levels, profile, rows[i], scored)
  }

  // ---------- rows that fit are saved ----------

  /** A level that was there has its code still, and its score where it counts. */
  ghost predicate OldIs(levels: Levels, sofar: Levels, y: nat, scored: bool)
    requires y in levels
  {
    && y in sofar && sofar[y].profile == levels[y].profile && sofar[y].code == levels[y].code
    && (scored ==> sofar[y].score == levels[y].score)
  }

  /** A level that is new is of one of the first n rows. */
  ghost predicate NewIs(sofar: Levels, profile: nat, rows: seq<Row>, n: nat, next: nat, y: nat)
    requires n <= |rows| && y in sofar
  {
    && next <= y < next + n && rows[y - next].id.None? && sofar[y].profile == profile
    && sofar[y].code == rows[y - next].code && sofar[y].score == rows[y - next].score
  }

  ghost predicate Traced(levels: Levels, sofar: Levels, profile: nat, rows: seq<Row>, n: nat, next: nat, scored: bool)
    requires n <= |rows|
  {
    && (forall y :: y in levels ==> OldIs(levels, sofar, y, scored))
    && (forall y :: y in sofar && y !in levels ==> NewIs(sofar, profile, rows, n, next, y))
  }

  lemma NextRowDiffers(levels: Levels, sofar: Levels, profile: nat, rows: seq<Row>, n: nat, next: nat, scored: bool,
                       y: nat)
    requires n < |rows| && IdsBelow(levels, next) && Unique(levels, profile, scored)
    requires RowFits(levels, profile, rows[n], scored) && NewRowsDiffer(rows, scored)
    requires forall i :: 0 <= i < n ==> RowFits(levels, profile, rows[i], scored)
    requires Traced(levels, sofar, profile, rows, n, next, scored)
    requires y in sofar && y != RowId(rows[n], next + n) && sofar[y].profile == profile
    ensures LevelFor(sofar, profile, rows[n]).Some?
    ensures var level := LevelFor(sofar, profile, rows[n]).value;
            Differ(level.code, level.score, sofar[y].code, sofar[y].score, scored)
  {
    if rows[n].id.Some? {
      assert OldIs(levels, sofar, rows[n].id.value, scored);
    }
    if y in levels {
      assert OldIs(levels, sofar, y, scored);
    } else {
      assert NewIs(sofar, profile, rows, n, next, y);
      assert RowFits(levels, profile, rows[y - next], scored);
    }
  }

  lemma NextRowFits(levels: Levels, sofar: Levels, profile: nat, rows: seq<Row>, n: nat, next: nat, scored: bool)
    requires n < |rows| && IdsBelow(levels, next) && Unique(levels, profile, scored)
    requires RowsFit(levels, profile, rows, scored) && Traced(levels, sofar, profile, rows, n, next, scored)
    ensures SaveRow(sofar, profile, rows[n], next + n, scored).Some?
  {
    assert RowFits(levels, profile, rows[n], scored);
    if rows[n].id.Some? {
      assert OldIs(levels, sofar, rows[n].id.value, scored);
    }
    var level := LevelFor(sofar, profile, rows[n]).value;
    forall y | y in sofar && y != RowId(rows[n], next + n) && sofar[y].profile == profile
      ensures Differ(level.code, level.score, sofar[y].code, sofar[y].score, scored)
    {
      NextRowDiffers(levels, sofar, profile, rows, n, next, scored, y);
    }
    assert level.profile == profile;
    assert !Conflict(sofar, RowId(rows[n], next + n), level, scored);
  }

  lemma NextRowIsTraced(levels: Levels, sofar: Levels, profile: nat, rows: seq<Row>, n: nat, next: nat, scored: bool)
    requires n < |rows| && IdsBelow(levels, next) && RowFits(levels, profile, rows[n], scored)
    requires Traced(levels, sofar, profile, rows, n, next, scored)
    requires SaveRow(sofar, profile, rows[n], next + n, scored).Some?
    ensures Traced(levels, SaveRow(sofar, profile, rows[n], next + n, scored).value, profile, rows, n + 1, next, scored)
  {
    var saved := SaveRow(sofar, profile, rows[n], next + n, scored).value;
    forall y | y in levels ensures OldIs(levels, saved, y, scored) {
      assert OldIs(levels, sofar, y, scored);
    }
    forall y | y in saved && y !in levels ensures NewIs(saved, profile, rows, n + 1, next, y) {
      assert y in sofar ==> NewIs(sofar, profile, rows, n, next, y);
    }
  }

  lemma {:induction false} FittingRowsAreSaved(levels: Levels, profile: nat, rows: seq<Row>, n: nat, next: nat,
                                               scored: bool)
    requires n <= |rows| && IdsBelow(levels, next) && Unique(levels, profile, scored)
    requires RowsFit(levels, profile, rows, scored)
    ensures var saved := SaveRows(levels, profile, rows[..n], next, scored);
            saved.Some? && Traced(levels, saved.value, profile, rows, n, next, scored)
  {
    if n > 0 {
      FittingRowsAreSaved(levels, profile, rows, n - 1, next, scored);
      OneMoreRow(levels, profile, rows, n - 1, next, scored);
    }
  }

  lemma OneMoreRow(levels: Levels, profile: nat, rows: seq<Row>, n: nat, next: nat, scored: bool)
    requires n < |rows| && SaveRows(levels, profile, rows[..n], next, scored).Some?
    requires IdsBelow(levels, next) && Unique(levels, profile, scored) && RowsFit(levels, profile, rows, scored)
    requires Traced(levels, SaveRows(levels, profile, rows[..n], next, scored).value, profile, rows, n, next, scored)
    ensures var saved := SaveRows(levels, profile, rows[..n + 1], next, scored);
            saved.Some? && Traced(levels, saved.value, profile, rows, n + 1, next, scored)
  {
    var sofar := SaveRows(levels, profile, rows[..n], next, scored).value;
    NextRowFits(levels, sofar, profile, rows, n, next, scored);
    NextRowIsTraced(levels, sofar, profile, rows, n, next, scored);
    assert rows[..n + 1][..n] == rows[..n] && rows[..n + 1][n] == rows[n];
    assert SaveRows(levels, profile, rows[..n + 1], next, scored) ==
             SaveRow(sofar, profile, rows[n], next + n, scored);
  }

  // ---------- rows that are saved fit ----------

  lemma SavedRowKeepsCodes(sofar: Levels, profile: nat, row: Row, unused: nat, scored: bool)
    requires SaveRow(sofar, profile, row, unused, scored).Some? && CodesUnique(sofar, profile)
    ensures CodesUnique(SaveRow(sofar, profile, row, unused, scored).value, profile)
  {
    var level := LevelFor(sofar, profile, row).value;
    assert !Conflict(sofar, RowId(row, unused), level, scored);
  }

  lemma {:induction false} SavedRowsKeepCodes(levels: Levels, profile: nat, rows: seq<Row>, next: nat, scored: bool)
    requires SaveRows(levels, profile, rows, next, scored).Some? && CodesUnique(levels, profile)
    ensures CodesUnique(SaveRows(levels, profile, rows, next, scored).value, profile)
  {
    if rows != [] {
      var n := |rows| - 1;
      SavedRowsKeepCodes(levels, profile, rows[..n], next, scored);
      SavedRowKeepsCodes(SaveRows(levels, profile, rows[..n], next, scored).value, profile, rows[n], next + n, scored);
    }
  }

  lemma OldCodeStays(levels: Levels, profile: nat, rows: seq<Row>, next: nat, scored: bool, y: nat)
    requires SaveRows(levels, profile, rows, next, scored).Some?
    requires Distinct(RowIds(rows, next)) && IdsBelow(levels, next) && y in levels && levels[y].profile == profile
    ensures var saved := SaveRows(levels, profile, rows, next, scored).value;
            y in saved && saved[y].profile == profile && saved[y].code == levels[y].code
  {
    SavedKeys(levels, profile, rows, next, scored);
    SavedRowsCarry(levels, profile, rows, next, scored);
    if y in Elements(RowIds(rows, next)) {
      var i :| 0 <= i < |rows| && RowIds(rows, next)[i] == y;
      assert Carries(levels, SaveRows(levels, profile, rows, next, scored).value, profile, rows[i], y);
    }
  }

  lemma NewCodeFits(levels: Levels, profile: nat, rows: seq<Row>, next: nat, scored: bool, i: nat, y: nat)
    requires SaveRows(levels, profile, rows, next, scored).Some? && CodesUnique(levels, profile)
    requires Distinct(RowIds(rows, next)) && IdsBelow(levels, next) && i < |rows| && rows[i].id.None?
    requires y in levels && levels[y].profile == profile
    ensures rows[i].code != levels[y].code
  {
    OldCodeStays(levels, profile, rows, next, scored, y);
    SavedRowsKeepCodes(levels, profile, rows, next, scored);
    SavedRowsCarry(levels, profile, rows, next, scored);
    assert Carries(levels, SaveRows(levels, profile, rows, next, scored).value, profile, rows[i],
           RowIds(rows, next)[i]);
  }

  lemma NewCodesDiffer(levels: Levels, profile: nat, rows: seq<Row>, next: nat, scored: bool, i: nat, j: nat)
    requires SaveRows(levels, profile, rows, next, scored).Some? && CodesUnique(levels, profile)
    requires Distinct(RowIds(rows, next)) && IdsBelow(levels, next) && i < j < |rows|
    requires rows[i].id.None? && rows[j].id.None?
    ensures rows[i].code != rows[j].code
  {
    SavedRowsKeepCodes(levels, profile, rows, next, scored);
    SavedRowsCarry(levels, profile, rows, next, scored);
    var saved := SaveRows(levels, profile, rows, next, scored).value;
    assert Carries(levels, saved, profile, rows[i], RowIds(rows, next)[i]);
    assert Carries(levels, saved, profile, rows[j], RowIds(rows, next)[j]);
  }

  /** Where the four scores are taken, only known rows with their scores pass; a new profile has only new rows. */
  lemma SavedScoresFit(levels: Levels, profile: nat, rows: seq<Row>, next: nat, owner: Option<nat>)
    requires SaveRows(levels, profile, rows, next, true).Some? && IdsBelow(levels, next)
    requires IdsOk(rows, levels, owner) && (owner.Some? ==> owner.value == profile)
    requires ScoredRowsOk(rows) && NewOrComplete(levels, profile)
    ensures forall i :: 0 <= i < |rows| && rows[i].id.Some? ==> levels[rows[i].id.value].score == rows[i].score
    ensures (forall i :: 0 <= i < |rows| ==> rows[i].id.Some?) ||
            forall y :: y in levels ==> levels[y].profile != profile
  {
    if ScoresOk(levels, profile) {
      FrozenRows(levels, profile, rows, next);
    }
  }

  lemma SavedRowsFit(levels: Levels, profile: nat, rows: seq<Row>, next: nat, scored: bool, owner: Option<nat>)
    requires SaveRows(levels, profile, rows, next, scored).Some? && CodesUnique(levels, profile)
    requires Distinct(RowIds(rows, next)) && IdsBelow(levels, next)
    requires IdsOk(rows, levels, owner) && (owner.Some? ==> owner.value == profile)
    requires scored ==> ScoredRowsOk(rows) && NewOrComplete(levels, profile)
    ensures RowsFit(levels, profile, rows, scored)
  {
    if scored {
      SavedScoresFit(levels, profile, rows, next, owner);
    }
    forall i | 0 <= i < |rows| ensures RowFits(levels, profile, rows[i], scored) {
      if rows[i].id.None? {
        forall y | y in levels && levels[y].profile == profile
          ensures Differ(rows[i].code, rows[i].score, levels[y].code, levels[y].score, scored)
        {
          NewCodeFits(levels, profile, rows, next, scored, i, y);
        }
      }
    }
    forall i, j | 0 <= i < j < |rows| && rows[i].id.None? && rows[j].id.None?
      ensures Differ(rows[i].code, rows[i].score, rows[j].code, rows[j].score, scored)
    {
      NewCodesDiffer(levels, profile, rows, next, scored, i, j);
    }
  }

  lemma SyncsExactly(levels: Levels, profile: nat, rows: seq<Row>, next: nat, scored: bool, owner: Option<nat>)
    requires CodesUnique(levels, profile) && IdsBelow(levels, next) && IdentitiesOk(rows)
    requires IdsOk(rows, levels, owner) && (owner.Some? ==> owner.value == profile)
    requires scored ==> ScoredRowsOk(rows) && NewOrComplete(levels, profile)
    ensures Sync(levels, profile, rows, next, scored).Some? <==> RowsFit(levels, profile, rows, scored)
  {
    RowIdsDistinct(rows, levels, owner, next);
    if RowsFit(levels, profile, rows, scored) {
      FittingRowsAreSaved(levels, profile, rows, |rows|, next, scored);
      assert rows[..|rows|] == rows;
    }
    if SaveRows(levels, profile, rows, next, scored).Some? {
      SavedRowsFit(levels, profile, rows, next, scored, owner);
    }
  }

  // ---------- the save ----------

  /** No two levels of one profile have the same code. */
  ghost predicate CodesOk(s: State) {
    forall p :: CodesUnique(s.consequences, p) && CodesUnique(s.likelihoods, p) && CodesUnique(s.priorities, p)
  }

  /** The submitted rows fit the levels there are. */
  ghost predicate Fits(s: State, call: Call) {
    && RowsFit(s.consequences, Target(s, call), call.data.consequences, true)
    && RowsFit(s.likelihoods, Target(s, call), call.data.likelihoods, true)
    && RowsFit(s.priorities, Target(s, call), call.data.priorities, false)
  }

  lemma SavesWhenSynced(s: State, call: Call)
    requires Checked(s, call)
    ensures var p, next, data := Target(s, call), s.nextId + 1, call.data;
            Save(s, call).Some? <==>
              && Sync(s.consequences, p, data.consequences, next, true).Some?
              && Sync(s.likelihoods, p, data.likelihoods, next, true).Some?
              && Sync(s.priorities, p, data.priorities, next, false).Some?
  {
  }

  lemma SyncsWhenFit(s: State, call: Call)
    requires StateOk(s) && CodesOk(s) && CallOk(s, call) && DataOk(call.data, s, call.profile)
    ensures var p, next, data := Target(s, call), s.nextId + 1, call.data;
            && (Sync(s.consequences, p, data.consequences, next, true).Some? <==>
                  RowsFit(s.consequences, p, data.consequences, true))
            && (Sync(s.likelihoods, p, data.likelihoods, next, true).Some? <==>
                  RowsFit(s.likelihoods, p, data.likelihoods, true))
            && (Sync(s.priorities, p, data.priorities, next, false).Some? <==>
                  RowsFit(s.priorities, p, data.priorities, false))
  {
    var p, next, data := Target(s, call), s.nextId + 1, call.data;
    StartsNewOrComplete(s, call);
    SyncsExactly(s.consequences, p, data.consequences, next, true, call.profile);
    SyncsExactly(s.likelihoods, p, data.likelihoods, next, true, call.profile);
    SyncsExactly(s.priorities, p, data.priorities, next, false, call.profile);
  }

  /** A save is accepted just when it passes the validation and its rows fit. */
  lemma SaveIsAcceptedExactly(s: State, call: Call)
    requires StateOk(s) && CodesOk(s)
    ensures Save(s, call).Some? <==> Checked(s, call) && Fits(s, call)
  {
    if Checked(s, call) {
      SavesWhenSynced(s, call);
      SyncsWhenFit(s, call);
    }
  }

  lemma SyncKeepsCodes(levels: Levels, profile: nat, rows: seq<Row>, next: nat, scored: bool, owner: Option<nat>,
                       q: nat)
    requires Sync(levels, profile, rows, next, scored).Some? && CodesUnique(levels, q)
    requires IdsBelow(levels, next) && IdsOk(rows, levels, owner) && IdentitiesOk(rows)
    requires owner.Some? ==> owner.value == profile
    ensures CodesUnique(Sync(levels, profile, rows, next, scored).value, q)
  {
    if q == profile {
      SavedRowsKeepCodes(levels, profile, rows, next, scored);
    } else {
      SyncKeepsOtherProfile(levels, profile, rows, next, scored, owner, q);
    }
  }

  lemma SaveKeepsCodes(s: State, call: Call, after: State)
    requires StateOk(s) && CodesOk(s) && Save(s, call) == Some(after)
    ensures CodesOk(after)
  {
    SaveIs(s, call, after);
    var p, next, data := Target(s, call), s.nextId + 1, call.data;
    forall q
      ensures CodesUnique(after.consequences, q) && CodesUnique(after.likelihoods, q)
      ensures CodesUnique(after.priorities, q)
    {
      SyncKeepsCodes(s.consequences, p, data.consequences, next, true, call.profile, q);
      SyncKeepsCodes(s.likelihoods, p, data.likelihoods, next, true, call.profile, q);
      SyncKeepsCodes(s.priorities, p, data.priorities, next, false, call.profile, q);
    }
  }

  lemma {:induction false} RunKeepsCodes(s: State, calls: seq<Call>)
    requires StateOk(s) && CodesOk(s)
    ensures StateOk(Run(s, calls)) && CodesOk(Run(s, calls))
  {
    RunKeepsState(s, calls);
    if calls != [] {
      var n := |calls| - 1;
      RunKeepsCodes(s, calls[..n]);
      if Save(Run(s, calls[..n]), calls[n]).Some? {
        SaveKeepsCodes(Run(s, calls[..n]), calls[n], Save(Run(s, calls[..n]), calls[n]).value);
      }
    }
  }

  /** So it is for every save, after any run from the empty store. */
  lemma EverySaveIsAcceptedExactly(calls: seq<Call>, call: Call)
    ensures Save(Run(EMPTY, calls), call).Some? <==>
              Checked(Run(EMPTY, calls), call) && Fits(Run(EMPTY, calls), call)
  {
    RunKeepsCodes(EMPTY, calls);
    SaveIsAcceptedExactly(Run(EMPTY, calls), call);
  }
}
