/**
  What a saved risk profile answers: every submitted row is stored, and looking up
  two of its levels gives the priority submitted for that pair.
 */
module RiskAnswers {
  import opened Wrappers
  import opened SetFacts
  import opened RiskProfiles

  // ---------- rows are stored ----------

  /**
    Level `x` is what the row asked for: the row's own level, or a new one with
    the row's code; with the row's score, content and flag.
   */
  ghost predicate Carries(before: Levels, after: Levels, profile: nat, row: Row, x: nat) {
    && x in after && after[x].profile == profile
    && after[x].score == row.score && after[x].content == row.content && after[x].enabled == row.enabled
    && match row.id
       case Some(id) => x == id && id in before && after[x].code == before[id].code
       case None => x !in before && after[x].code == row.code
  }

  ghost predicate AllCarried(before: Levels, after: Levels, profile: nat, rows: seq<Row>, next: nat) {
    forall i :: 0 <= i < |rows| ==> Carries(before, after, profile, rows[i], RowIds(rows, next)[i])
  }

  lemma SavedRowCarries(before: Levels, sofar: Levels, profile: nat, row: Row, unused: nat, scored: bool)
    requires SaveRow(sofar, profile, row, unused, scored).Some? && unused !in before
    requires row.id.Some? && row.id.value in sofar ==>
              row.id.value in before && sofar[row.id.value] == before[row.id.value]
    ensures Carries(before, SaveRow(sofar, profile, row, unused, scored).value, profile, row, RowId(row, unused))
  {
  }

  lemma CarriedStays(before: Levels, sofar: Levels, saved: Levels, profile: nat, rows: seq<Row>, next: nat)
    requires rows != [] && Distinct(RowIds(rows, next)) && AllCarried(before, sofar, profile, rows[..|rows| - 1], next)
    requires Carries(before, saved, profile, rows[|rows| - 1], RowIds(rows, next)[|rows| - 1])
    requires forall y :: y in sofar && y != RowIds(rows, next)[|rows| - 1] ==> y in saved && saved[y] == sofar[y]
    ensures AllCarried(before, saved, profile, rows, next)
  {
    var n, ids := |rows| - 1, RowIds(rows, next);
    forall i | 0 <= i < n ensures Carries(before, saved, profile, rows[i], ids[i]) {
      assert RowIds(rows[..n], next)[i] == ids[i] && rows[..n][i] == rows[i];
      assert Carries(before, sofar, profile, rows[..n][i], RowIds(rows[..n], next)[i]);
      assert ids[i] != ids[n];
    }
  }

  lemma OneMoreCarried(levels: Levels, sofar: Levels, profile: nat, rows: seq<Row>, next: nat, scored: bool)
    requires rows != [] && Distinct(RowIds(rows, next)) && IdsBelow(levels, next)
    requires AllCarried(levels, sofar, profile, rows[..|rows| - 1], next)
    requires sofar.Keys == levels.Keys + Elements(RowIds(rows[..|rows| - 1], next))
    requires forall x :: x in levels && x !in Elements(RowIds(rows[..|rows| - 1], next)) ==> sofar[x] == levels[x]
    requires SaveRow(sofar, profile, rows[|rows| - 1], next + |rows| - 1, scored).Some?
    ensures AllCarried(levels, SaveRow(sofar, profile, rows[|rows| - 1], next + |rows| - 1, scored).value,
                       profile, rows, next)
  {
    var n, ids := |rows| - 1, RowIds(rows, next);
    assert RowIds(rows[..n], next) == ids[..n] && ids[n] !in Elements(ids[..n]);
    SavedRowCarries(levels, sofar, profile, rows[n], next + n, scored);
    SavedRow(sofar, profile, rows[n], next + n, scored);
    CarriedStays(levels, sofar, SaveRow(sofar, profile, rows[n], next + n, scored).value, profile, rows, next);
  }

  lemma {:induction false} SavedRowsCarry(levels: Levels, profile: nat, rows: seq<Row>, next: nat, scored: bool)
    requires SaveRows(levels, profile, rows, next, scored).Some?
    requires Distinct(RowIds(rows, next)) && IdsBelow(levels, next)
    ensures AllCarried(levels, SaveRows(levels, profile, rows, next, scored).value, profile, rows, next)
  {
    if rows != [] {
      var n := |rows| - 1;
      IdsOneMore(rows, next);
      assert RowIds(rows[..n], next) == RowIds(rows, next)[..n];
      SavedRowsCarry(levels, profile, rows[..n], next, scored);
      SavedKeys(levels, profile, rows[..n], next, scored);
      OneMoreCarried(levels, SaveRows(levels, profile, rows[..n], next, scored).value, profile, rows, next, scored);
    }
  }

  /** What was not submitted stays, disabled. */
  ghost predicate RestDisabled(before: Levels, after: Levels, profile: nat, ids: set<nat>) {
    forall x :: x in before && before[x].profile == profile && x !in ids ==>
      x in after && after[x] == before[x].(enabled := false)
  }

  /** The levels of a profile after its rows have been saved: one for each row, and the rest disabled. */
  lemma SyncStores(levels: Levels, profile: nat, rows: seq<Row>, next: nat, scored: bool)
    requires Sync(levels, profile, rows, next, scored).Some?
    requires Distinct(RowIds(rows, next)) && IdsBelow(levels, next)
    ensures var after := Sync(levels, profile, rows, next, scored).value;
            && AllCarried(levels, after, profile, rows, next)
            && RestDisabled(levels, after, profile, Elements(RowIds(rows, next)))
  {
    var saved, ids := SaveRows(levels, profile, rows, next, scored).value, RowIds(rows, next);
    SavedRowsCarry(levels, profile, rows, next, scored);
    SavedKeys(levels, profile, rows, next, scored);
    RetireChangesNoScore(saved, profile, Elements(ids));
    forall i | 0 <= i < |rows|
      ensures Carries(levels, Retire(saved, profile, Elements(ids)), profile, rows[i], ids[i])
    {
      assert Carries(levels, saved, profile, rows[i], ids[i]) && ids[i] in Elements(ids);
    }
  }

  /** Every row of a save is stored: for each there is a level that carries it. */
  lemma SavedRowsAreStored(s: State, call: Call, after: State)
    requires StateOk(s) && Save(s, call) == Some(after)
    ensures var p, next, data := Target(s, call), s.nextId + 1, call.data;
            && AllCarried(s.consequences, after.consequences, p, data.consequences, next)
            && AllCarried(s.likelihoods, after.likelihoods, p, data.likelihoods, next)
            && AllCarried(s.priorities, after.priorities, p, data.priorities, next)
            && RestDisabled(s.priorities, after.priorities, p, Elements(RowIds(data.priorities, next)))
  {
    SaveIs(s, call, after);
    ScoredIdsDistinct(s, call);
    var p, next, data := Target(s, call), s.nextId + 1, call.data;
    RowIdsDistinct(data.priorities, s.priorities, call.profile, next);
    SyncStores(s.consequences, p, data.consequences, next, true);
    SyncStores(s.likelihoods, p, data.likelihoods, next, true);
    SyncStores(s.priorities, p, data.priorities, next, false);
  }

  // ---------- the submitted pair ----------

  /** A level of the profile that carries a scored row is the only one. */
  lemma CarrierIsUnique(before: Levels, after: Levels, profile: nat, row: Row, x: nat, y: nat)
    requires ScoresOk(after, profile)
    requires Carries(before, after, profile, row, x) && Carries(before, after, profile, row, y)
    ensures x == y
  {
  }

  lemma SyncedAt(matrix: map<Cell, nat>, p: nat, cs: seq<nat>, ls: seq<nat>, choice: seq<seq<nat>>, i: nat, j: nat)
    requires Shape(choice, |cs|, |ls|) && Distinct(cs) && Distinct(ls) && i < |cs| && j < |ls|
    ensures var after := SyncedMatrix(matrix, p, cs, ls, choice);
            Cell(p, cs[i], ls[j]) in after && after[Cell(p, cs[i], ls[j])] == choice[i][j]
  {
    IndexOfAt(cs, i);
    IndexOfAt(ls, j);
    assert cs[i] in Elements(cs) && ls[j] in Elements(ls);
  }

  /** The submitted priority of rows i and j is row k. */
  predicate Submitted(data: Data, i: nat, j: nat, k: int)
    requires MatrixOk(data) && i < |data.consequences| && j < |data.likelihoods|
  {
    && 0 <= k < |data.priorities|
    && Identities(data.consequences)[i] in data.matrix
    && Identities(data.likelihoods)[j] in data.matrix[Identities(data.consequences)[i]]
    && Identity(data.priorities[k]) == data.matrix[Identity(data.consequences[i])][Identity(data.likelihoods[j])]
  }

  /** The lookup of two levels gives the level that carries the priority submitted for them. */
  ghost predicate AnswersAs(s: State, after: State, p: nat, data: Data, i: nat, j: nat, x: nat, y: nat)
    requires MatrixOk(data) && i < |data.consequences| && j < |data.likelihoods|
    requires x in after.consequences && y in after.likelihoods
  {
    && Lookup(after, x, y).Ok?
    && exists k :: Submitted(data, i, j, k) &&
                   Carries(s.priorities, after.priorities, p, data.priorities[k], Lookup(after, x, y).value)
  }

  lemma SavedCell(s: State, call: Call, after: State, i: nat, j: nat)
    requires StateOk(s) && SavedAs(s, call, after)
    requires i < |call.data.consequences| && j < |call.data.likelihoods|
    ensures var next, data := s.nextId + 1, call.data;
            var cell := Cell(Target(s, call), RowIds(data.consequences, next)[i], RowIds(data.likelihoods, next)[j]);
            && cell in after.matrix
            && after.matrix[cell] == RowIds(data.priorities, next)[PriorityOf(data, i, j)]
  {
    ScoredIdsDistinct(s, call);
    var next, data := s.nextId + 1, call.data;
    SyncedAt(s.matrix, Target(s, call), RowIds(data.consequences, next), RowIds(data.likelihoods, next),
             Choices(data, RowIds(data.priorities, next)), i, j);
  }

  lemma SubmittedIs(data: Data, i: nat, j: nat)
    requires MatrixOk(data) && i < |data.consequences| && j < |data.likelihoods|
    ensures Submitted(data, i, j, PriorityOf(data, i, j))
  {
    assert Identities(data.consequences)[i] in Elements(Identities(data.consequences));
    assert Identities(data.likelihoods)[j] in Elements(Identities(data.likelihoods));
  }

  /**
    After an accepted save, for every pair of rows: looking up the levels that
    carry them gives the level that carries the priority submitted for the pair.
   */
  lemma LookupAnswersAsSubmitted(s: State, call: Call, after: State, i: nat, j: nat, x: nat, y: nat)
    requires StateOk(s) && Save(s, call) == Some(after)
    requires i < |call.data.consequences| && j < |call.data.likelihoods|
    requires Carries(s.consequences, after.consequences, Target(s, call), call.data.consequences[i], x)
    requires Carries(s.likelihoods, after.likelihoods, Target(s, call), call.data.likelihoods[j], y)
    ensures AnswersAs(s, after, Target(s, call), call.data, i, j, x, y)
  {
    var p, next, data := Target(s, call), s.nextId + 1, call.data;
    SaveIs(s, call, after);
    SavedRowsAreStored(s, call, after);
    SavedProfileOk(s, call);
    CarrierIsUnique(s.consequences, after.consequences, p, data.consequences[i], x, RowIds(data.consequences, next)[i]);
    CarrierIsUnique(s.likelihoods, after.likelihoods, p, data.likelihoods[j], y, RowIds(data.likelihoods, next)[j]);
    SavedCell(s, call, after, i, j);
    SubmittedIs(data, i, j);
    var k := PriorityOf(data, i, j);
    assert Carries(s.priorities, after.priorities, p, data.priorities[k], RowIds(data.priorities, next)[k]);
  }

  // ---------- later saves ----------

  /** Two levels of one profile. */
  predicate PairOf(s: State, p: nat, x: nat, y: nat) {
    x in s.consequences && y in s.likelihoods && s.consequences[x].profile == p && s.likelihoods[y].profile == p
  }

  lemma SameAnswersAlong(a: State, b: State, c: State, p: nat)
    requires SameAnswers(a, b, p) && SameAnswers(b, c, p)
    requires SameScoresOf(a.consequences, b.consequences, p) && SameScoresOf(a.likelihoods, b.likelihoods, p)
    ensures SameAnswers(a, c, p)
  {
    assert forall x, y :: PairOf(a, p, x, y) ==> PairOf(b, p, x, y);
  }

  lemma CallKeepsAnswers(s: State, before: State, call: Call, p: nat)
    requires StateOk(before) && p in before.profiles && call.profile != Some(p) && SameAnswers(s, before, p)
    requires SameScoresOf(s.consequences, before.consequences, p) && SameScoresOf(s.likelihoods, before.likelihoods, p)
    ensures SameAnswers(s, SaveOrSkip(before, call), p)
  {
    if Save(before, call).Some? {
      assert p != Target(before, call);
      OtherSaveKeepsAnswers(before, call, Save(before, call).value, p);
      SameAnswersAlong(s, before, Save(before, call).value, p);
    }
  }

  /** The answers for two levels of a profile are the same in both states. */
  ghost predicate SameAnswers(a: State, b: State, p: nat) {
    forall x, y :: PairOf(a, p, x, y) ==>
      x in b.consequences && y in b.likelihoods && Lookup(b, x, y) == Lookup(a, x, y)
  }

  lemma OtherSaveKeepsAnswers(s: State, call: Call, after: State, p: nat)
    requires StateOk(s) && Save(s, call) == Some(after) && p in s.profiles && p != Target(s, call)
    ensures SameAnswers(s, after, p)
  {
    SaveIs(s, call, after);
    OtherCellsSame(s, call, after, p);
    OtherLevelsSame(s, call, after, p);
    assert ProfileOk(s, p);
    forall x, y | PairOf(s, p, x, y)
      ensures x in after.consequences && y in after.likelihoods && Lookup(after, x, y) == Lookup(s, x, y)
    {
      assert Cell(p, x, y) in after.matrix <==> Cell(p, x, y) in s.matrix;
    }
  }

  predicate OfOthers(calls: seq<Call>, p: nat) {
    forall i :: 0 <= i < |calls| ==> calls[i].profile != Some(p)
  }

  /** No run of saves of other profiles, new ones or existing, changes what a profile answers. */
  lemma {:induction false} OthersKeepAnswers(s: State, calls: seq<Call>, p: nat)
    requires StateOk(s) && p in s.profiles && OfOthers(calls, p)
    ensures SameAnswers(s, Run(s, calls), p)
  {
    if calls != [] {
      var n := |calls| - 1;
      var before, call := Run(s, calls[..n]), calls[n];
      OthersKeepAnswers(s, calls[..n], p);
      RunKeepsState(s, calls[..n]);
      RunKeepsProfiles(s, calls[..n], p);
      RunFreezesScores(s, calls[..n], p);
      CallKeepsAnswers(s, before, call, p);
    }
  }

  /** So the answers of a profile are those of its last accepted save, whatever is saved elsewhere since. */
  lemma LastSaveAnswers(s: State, call: Call, after: State, later: seq<Call>, i: nat, j: nat, x: nat, y: nat)
    requires StateOk(s) && Save(s, call) == Some(after) && OfOthers(later, Target(s, call))
    requires i < |call.data.consequences| && j < |call.data.likelihoods|
    requires Carries(s.consequences, after.consequences, Target(s, call), call.data.consequences[i], x)
    requires Carries(s.likelihoods, after.likelihoods, Target(s, call), call.data.likelihoods[j], y)
    ensures AnswersAs(s, after, Target(s, call), call.data, i, j, x, y)
    ensures var u := Run(after, later);
            x in u.consequences && y in u.likelihoods && Lookup(u, x, y) == Lookup(after, x, y)
  {
    LookupAnswersAsSubmitted(s, call, after, i, j, x, y);
    SaveKeepsState(s, call);
    SaveIs(s, call, after);
    OthersKeepAnswers(after, later, Target(s, call));
  }

  // ---------- the profile itself ----------

  /** A save that would disable the active profile is refused, and so is one that leaves it no default of its own. */
  lemma RefusedFlags(s: State, call: Call)
    requires call.profile.Some? && call.loaded.Some?
    ensures call.isActive && !call.data.isEnabled ==> Save(s, call).None?
    ensures call.loaded.value.isDefault && !call.data.isDefault ==> Save(s, call).None?
    ensures call.data.isDefault && !call.data.isEnabled ==> Save(s, call).None?
  {
  }

  /** The active profile is enabled after its save, unless it was disabled behind a copy that shows it enabled. */
  lemma ActiveStaysEnabledExactly(s: State, call: Call, after: State)
    requires Save(s, call) == Some(after) && call.profile.Some? && call.isActive
    ensures var p := call.profile.value;
            !after.profiles[p].isEnabled <==> !s.profiles[p].isEnabled && call.loaded.value.isEnabled
  {
    SaveIs(s, call, after);
    RefusedFlags(s, call);
  }

  /** A new profile is stored as submitted, and so is an existing one saved from a copy that is current. */
  lemma ProfileIsStored(s: State, call: Call, after: State)
    requires Save(s, call) == Some(after)
    requires call.profile.Some? ==> s.profiles[call.profile.value] == call.loaded.value
    ensures var p, data := Target(s, call), call.data;
            && p in after.profiles && after.profiles[p] == Profile(data.isDefault, data.isEnabled, data.content)
            && forall q :: q in s.profiles && q != p ==>
                 q in after.profiles && after.profiles[q].content == s.profiles[q].content &&
                 after.profiles[q].isEnabled == s.profiles[q].isEnabled &&
                 after.profiles[q].isDefault == (s.profiles[q].isDefault && !data.isDefault)
  {
    SaveIs(s, call, after);
  }
}
