/**
  Risk profiles: levels, the matrix over them, and the single default profile,
  saved as one aggregate in one transaction.
 */
module RiskProfiles {
  import opened Wrappers
  import opened SetFacts
  import N = Numerals

  /** A consequence, likelihood or priority level; a priority's score is not used. */
  datatype Level = Level(profile: nat, code: string, score: int, content: string, enabled: bool)

  type Levels = map<nat, Level>

  datatype Profile = Profile(isDefault: bool, isEnabled: bool, content: string)

  datatype Cell = Cell(profile: nat, consequence: nat, likelihood: nat)

  datatype State = State(
    profiles: map<nat, Profile>,
    consequences: Levels,
    likelihoods: Levels,
    priorities: Levels,
    matrix: map<Cell, nat>,
    nextId: nat)

  /** A submitted row after its code is settled. */
  datatype Row = Row(id: Option<nat>, formKey: string, code: string, score: int, content: string, enabled: bool)

  /** `textOk` stands for the rules on texts, colours and sort orders. */
  datatype Data = Data(
    isDefault: bool,
    isEnabled: bool,
    content: string,
    consequences: seq<Row>,
    likelihoods: seq<Row>,
    priorities: seq<Row>,
    matrix: map<string, map<string, string>>,
    textOk: bool)

  // ---------- validation ----------

  function Identity(row: Row): string {
    match row.id
    case Some(id) => N.Print(id)
    case None => row.formKey
  }

  function Identities(rows: seq<Row>): (r: seq<string>)
    ensures |r| == |rows| && forall i :: 0 <= i < |r| ==> r[i] == Identity(rows[i])
  {
    seq(|rows|, i requires 0 <= i < |rows| => Identity(rows[i]))
  }

  /** `levelIdentities`: every row can be told apart from the others. */
  predicate IdentitiesOk(rows: seq<Row>) {
    Distinct(Identities(rows)) && "" !in Identities(rows)
  }

  /** Submitted ids are levels of the profile being saved; a new profile has none. */
  predicate IdsOk(rows: seq<Row>, levels: Levels, profile: Option<nat>) {
    forall i :: 0 <= i < |rows| && rows[i].id.Some? ==>
      profile.Some? && rows[i].id.value in levels && levels[rows[i].id.value].profile == profile.value
  }

  /** The rules for consequence and likelihood rows. */
  predicate ScoredRowsOk(rows: seq<Row>) {
    && |rows| == 4
    && (forall i :: 0 <= i < 4 ==> rows[i].enabled && 1 <= rows[i].score <= 4)
    && (forall i, j :: 0 <= i < j < 4 ==> rows[i].score != rows[j].score)
  }

  /** `validateMatrixState`: a cell for every pair of rows, holding the identity of a priority row. */
  predicate MatrixOk(data: Data) {
    && data.matrix.Keys == Elements(Identities(data.consequences))
    && forall c :: c in data.matrix ==>
         && data.matrix[c].Keys == Elements(Identities(data.likelihoods))
         && forall l :: l in data.matrix[c] ==> data.matrix[c][l] in Identities(data.priorities)
  }

  predicate DataOk(data: Data, s: State, profile: Option<nat>) {
    && data.textOk
    && IdsOk(data.consequences, s.consequences, profile)
    && IdentitiesOk(data.consequences) && ScoredRowsOk(data.consequences)
    && IdsOk(data.likelihoods, s.likelihoods, profile)
    && IdentitiesOk(data.likelihoods) && ScoredRowsOk(data.likelihoods)
    && IdsOk(data.priorities, s.priorities, profile) && IdentitiesOk(data.priorities) && data.priorities != []
    && MatrixOk(data)
  }

  /** The rules on the default and the active profile, on the copy of the profile that was loaded. */
  predicate FlagsOk(data: Data, loaded: Option<Profile>, isActive: bool) {
    && (data.isDefault ==> data.isEnabled)
    && (loaded.Some? && loaded.value.isDefault ==> data.isDefault)
    && (loaded.Some? && isActive ==> data.isEnabled)
  }

  // ---------- levels ----------

  function RowId(row: Row, unused: nat): nat {
    match row.id
    case Some(id) => id
    case None => unused
  }

  function RowIds(rows: seq<Row>, next: nat): (r: seq<nat>)
    ensures |r| == |rows| && forall i :: 0 <= i < |r| ==> r[i] == RowId(rows[i], next + i)
  {
    seq(|rows|, i requires 0 <= i < |rows| => RowId(rows[i], next + i))
  }

  /** The unique indexes on profile and code, and for scored levels on profile and score. */
  predicate Conflict(levels: Levels, x: nat, level: Level, scored: bool) {
    exists y :: y in levels && y != x && levels[y].profile == level.profile
                && (levels[y].code == level.code || (scored && levels[y].score == level.score))
  }

  function LevelFor(levels: Levels, profile: nat, row: Row): Option<Level> {
    match row.id
    case None => Some(Level(profile, row.code, row.score, row.content, row.enabled))
    case Some(x) =>
      if x in levels && levels[x].profile == profile
      then Some(levels[x].(score := row.score, content := row.content, enabled := row.enabled))
      else None
  }

  /** One row of `syncScoredLevels` or `syncPriorityLevels`; none when the row or an index refuses it. */
  function SaveRow(levels: Levels, profile: nat, row: Row, unused: nat, scored: bool): Option<Levels> {
    match LevelFor(levels, profile, row)
    case None => None
    case Some(level) =>
      if Conflict(levels, RowId(row, unused), level, scored) then None
      else Some(levels[RowId(row, unused) := level])
  }

  function SaveRows(levels: Levels, profile: nat, rows: seq<Row>, next: nat, scored: bool): Option<Levels> {
    if rows == [] then Some(levels)
    else
      match SaveRows(levels, profile, rows[..|rows| - 1], next, scored)
      case None => None
      case Some(sofar) => SaveRow(sofar, profile, rows[|rows| - 1], next + |rows| - 1, scored)
  }

  /** Levels that were not submitted are disabled, not deleted. */
  function Retire(levels: Levels, profile: nat, kept: set<nat>): Levels {
    map x | x in levels ::
      if levels[x].profile == profile && x !in kept then levels[x].(enabled := false) else levels[x]
  }

  function Sync(levels: Levels, profile: nat, rows: seq<Row>, next: nat, scored: bool): Option<Levels> {
    match SaveRows(levels, profile, rows, next, scored)
    case None => None
    case Some(saved) => Some(Retire(saved, profile, Elements(RowIds(rows, next))))
  }

  // ---------- the matrix ----------

  function IndexOf<T(==)>(s: seq<T>, x: T): (k: nat)
    requires x in s
    ensures k < |s| && s[k] == x
  {
    if s[0] == x then 0 else 1 + IndexOf(s[1..], x)
  }

  function PriorityOf(data: Data, c: nat, l: nat): (k: nat)
    requires MatrixOk(data) && c < |data.consequences| && l < |data.likelihoods|
    ensures k < |data.priorities|
    ensures Identity(data.priorities[k]) ==
            data.matrix[Identities(data.consequences)[c]][Identities(data.likelihoods)[l]]
  {
    IndexOf(Identities(data.priorities), data.matrix[Identities(data.consequences)[c]][Identities(data.likelihoods)[l]])
  }

  function CellsOf(profile: nat, consequences: set<nat>, likelihoods: set<nat>): set<Cell> {
    set c, l | c in consequences && l in likelihoods :: Cell(profile, c, l)
  }

  ghost predicate Shape(choice: seq<seq<nat>>, rows: nat, columns: nat) {
    |choice| == rows && forall i :: 0 <= i < rows ==> |choice[i]| == columns
  }

  /** The priority chosen for each pair of rows. */
  function Choices(data: Data, ps: seq<nat>): (r: seq<seq<nat>>)
    requires MatrixOk(data) && |ps| == |data.priorities|
    ensures Shape(r, |data.consequences|, |data.likelihoods|)
    ensures forall i, j :: 0 <= i < |data.consequences| && 0 <= j < |data.likelihoods| ==>
              r[i][j] == ps[PriorityOf(data, i, j)]
  {
    seq(|data.consequences|, i requires 0 <= i < |data.consequences| =>
      seq(|data.likelihoods|, j requires 0 <= j < |data.likelihoods| => ps[PriorityOf(data, i, j)]))
  }

  /** `syncMatrix`: the other profiles' cells, and one cell for every submitted pair. */
  function SyncedMatrix(matrix: map<Cell, nat>, profile: nat, cs: seq<nat>, ls: seq<nat>, choice: seq<seq<nat>>)
    : map<Cell, nat>
    requires Shape(choice, |cs|, |ls|)
  {
    map cell | cell in matrix.Keys + CellsOf(profile, Elements(cs), Elements(ls))
               && (cell.profile == profile ==> cell.consequence in cs && cell.likelihood in ls) ::
      if cell.profile != profile then matrix[cell]
      else choice[IndexOf(cs, cell.consequence)][IndexOf(ls, cell.likelihood)]
  }

  // ---------- the save ----------

  /** Only changed attributes of a loaded model are written. */
  function Written<T(==)>(stored: T, loaded: T, value: T): T {
    if value != loaded then value else stored
  }

  function SavedProfiles(profiles: map<nat, Profile>, p: nat, loaded: Option<Profile>, data: Data): map<nat, Profile> {
    var others := map x | x in profiles ::
      if data.isDefault && x != p then profiles[x].(isDefault := false) else profiles[x];
    if loaded.Some? && p in profiles then
      others[p := Profile(Written(profiles[p].isDefault, loaded.value.isDefault, data.isDefault),
                          Written(profiles[p].isEnabled, loaded.value.isEnabled, data.isEnabled),
                          Written(profiles[p].content, loaded.value.content, data.content))]
    else others[p := Profile(data.isDefault, data.isEnabled, data.content)]
  }

  /** What a save is called with: the profile as it was loaded, none for a new one. */
  datatype Call = Call(profile: Option<nat>, loaded: Option<Profile>, data: Data, isActive: bool)

  predicate CallOk(s: State, call: Call) {
    && (call.profile.Some? <==> call.loaded.Some?)
    && (call.profile.Some? ==> call.profile.value in s.profiles)
  }

  function Target(s: State, call: Call): nat {
    match call.profile
    case Some(p) => p
    case None => s.nextId
  }

  /** The state an accepted save leaves, given its synchronised levels and chosen priorities. */
  function Outcome(s: State, call: Call, cs: Levels, ls: Levels, ps: Levels, choice: seq<seq<nat>>): State
    requires Shape(choice, |call.data.consequences|, |call.data.likelihoods|)
  {
    var p, next, data := Target(s, call), s.nextId + 1, call.data;
    State(
      SavedProfiles(s.profiles, p, call.loaded, data), cs, ls, ps,
      SyncedMatrix(s.matrix, p, RowIds(data.consequences, next), RowIds(data.likelihoods, next), choice),
      next + |data.consequences| + |data.likelihoods| + |data.priorities|)
  }

  /** The transaction of `handle`; none when it is rolled back. */
  function Committed(s: State, call: Call): Option<State>
    requires MatrixOk(call.data)
  {
    var p, next, data := Target(s, call), s.nextId + 1, call.data;
    var cs := Sync(s.consequences, p, data.consequences, next, true);
    var ls := Sync(s.likelihoods, p, data.likelihoods, next, true);
    var ps := Sync(s.priorities, p, data.priorities, next, false);
    if cs.None? || ls.None? || ps.None? then None
    else Some(Outcome(s, call, cs.value, ls.value, ps.value, Choices(data, RowIds(data.priorities, next))))
  }

  /** The validations before the transaction. */
  predicate Checked(s: State, call: Call) {
    CallOk(s, call) && DataOk(call.data, s, call.profile) && FlagsOk(call.data, call.loaded, call.isActive)
  }

  /** The state after `handle`, or none when it throws and nothing changes. */
  function Save(s: State, call: Call): Option<State> {
    if Checked(s, call) then Committed(s, call) else None
  }

  // ---------- invariants ----------

  ghost predicate IdsBelow(levels: Levels, next: nat) {
    forall x :: x in levels ==> x < next
  }

  /** The enabled levels of a profile. */
  function Enabled(levels: Levels, profile: nat): set<nat> {
    set x | x in levels && levels[x].profile == profile && levels[x].enabled
  }

  ghost predicate HasScore(levels: Levels, profile: nat, k: int) {
    exists x :: x in levels && levels[x].profile == profile && levels[x].score == k
  }

  ghost predicate ScoresUnique(levels: Levels, profile: nat) {
    forall x, y ::
      (x in levels && y in levels && levels[x].profile == profile && levels[y].profile == profile
       && levels[x].score == levels[y].score) ==> x == y
  }

  /** Each of the scores 1 to 4 belongs to exactly one level of the profile, and all of its levels are enabled. */
  ghost predicate ScoresOk(levels: Levels, profile: nat) {
    && (forall x :: x in levels && levels[x].profile == profile ==> 1 <= levels[x].score <= 4 && levels[x].enabled)
    && ScoresUnique(levels, profile)
    && (forall k :: 1 <= k <= 4 ==> HasScore(levels, profile, k))
  }

  /** The cells of a profile are exactly its enabled consequences times its enabled likelihoods. */
  ghost predicate CellsOk(s: State, p: nat) {
    forall c, l :: Cell(p, c, l) in s.matrix <==> c in Enabled(s.consequences, p) && l in Enabled(s.likelihoods, p)
  }

  ghost predicate PrioritiesOk(s: State, p: nat) {
    forall c, l :: Cell(p, c, l) in s.matrix ==>
      s.matrix[Cell(p, c, l)] in s.priorities && s.priorities[s.matrix[Cell(p, c, l)]].profile == p
  }

  ghost predicate ProfileOk(s: State, p: nat) {
    ScoresOk(s.consequences, p) && ScoresOk(s.likelihoods, p) && CellsOk(s, p) && PrioritiesOk(s, p)
  }

  ghost predicate LevelsBelong(levels: Levels, profiles: map<nat, Profile>) {
    forall x :: x in levels ==> levels[x].profile in profiles
  }

  ghost predicate StateOk(s: State) {
    && IdsBelow(s.consequences, s.nextId) && IdsBelow(s.likelihoods, s.nextId) && IdsBelow(s.priorities, s.nextId)
    && (forall p :: p in s.profiles ==> p < s.nextId)
    && (forall cell :: cell in s.matrix ==> cell.profile in s.profiles)
    && LevelsBelong(s.consequences, s.profiles) && LevelsBelong(s.likelihoods, s.profiles)
    && LevelsBelong(s.priorities, s.profiles)
    && (forall p :: p in s.profiles ==> ProfileOk(s, p))
  }

  // ---------- rows and their ids ----------

  lemma PrintIsInjective(m: nat, n: nat)
    ensures N.Print(m) == N.Print(n) <==> m == n
  {
    N.NumberOfPrint(m);
    N.NumberOfPrint(n);
  }

  lemma RowIdsDistinct(rows: seq<Row>, levels: Levels, profile: Option<nat>, next: nat)
    requires IdsOk(rows, levels, profile) && IdentitiesOk(rows) && IdsBelow(levels, next)
    ensures Distinct(RowIds(rows, next))
    ensures forall i :: 0 <= i < |rows| && rows[i].id.None? ==> RowIds(rows, next)[i] !in levels
  {
    var ids := RowIds(rows, next);
    forall i, j | 0 <= i < j < |rows| ensures ids[i] != ids[j] {
      assert Identities(rows)[i] != Identities(rows)[j];
      if rows[i].id.Some? && rows[j].id.Some? {
        PrintIsInjective(rows[i].id.value, rows[j].id.value);
      }
    }
  }

  ghost predicate RowIsIn(levels: Levels, x: nat, profile: nat, row: Row) {
    && x in levels && levels[x].profile == profile
    && levels[x].score == row.score && levels[x].enabled == row.enabled
  }

  lemma SavedRow(levels: Levels, profile: nat, row: Row, unused: nat, scored: bool)
    requires SaveRow(levels, profile, row, unused, scored).Some?
    ensures var saved, x := SaveRow(levels, profile, row, unused, scored).value, RowId(row, unused);
            && saved.Keys == levels.Keys + {x} && RowIsIn(saved, x, profile, row)
            && forall y :: y in levels && y != x ==> saved[y] == levels[y]
  {
  }

  lemma IdsOneMore(rows: seq<Row>, next: nat)
    requires rows != []
    ensures var n := |rows| - 1;
            && RowIds(rows, next) == RowIds(rows[..n], next) + [RowId(rows[n], next + n)]
            && Elements(RowIds(rows, next)) == Elements(RowIds(rows[..n], next)) + {RowId(rows[n], next + n)}
  {
    var n := |rows| - 1;
    assert RowIds(rows, next) == RowIds(rows[..n], next) + [RowId(rows[n], next + n)];
    ElementsAppend(RowIds(rows[..n], next), RowId(rows[n], next + n));
  }

  lemma {:induction false} SavedKeys(levels: Levels, profile: nat, rows: seq<Row>, next: nat, scored: bool)
    requires SaveRows(levels, profile, rows, next, scored).Some?
    ensures var saved, ids := SaveRows(levels, profile, rows, next, scored).value, RowIds(rows, next);
            && saved.Keys == levels.Keys + Elements(ids)
            && forall x :: x in levels && x !in Elements(ids) ==> saved[x] == levels[x]
  {
    if rows != [] {
      var n := |rows| - 1;
      SavedKeys(levels, profile, rows[..n], next, scored);
      IdsOneMore(rows, next);
      SavedRow(SaveRows(levels, profile, rows[..n], next, scored).value, profile, rows[n], next + n, scored);
    }
  }

  /** The rows of a sequence are in the levels, each under its id. */
  ghost predicate RowsAreIn(levels: Levels, profile: nat, rows: seq<Row>, next: nat) {
    forall i :: 0 <= i < |rows| ==> RowIsIn(levels, RowIds(rows, next)[i], profile, rows[i])
  }

  lemma OneMoreIsIn(sofar: Levels, saved: Levels, profile: nat, rows: seq<Row>, next: nat)
    requires rows != [] && Distinct(RowIds(rows, next)) && RowsAreIn(sofar, profile, rows[..|rows| - 1], next)
    requires RowIsIn(saved, RowIds(rows, next)[|rows| - 1], profile, rows[|rows| - 1])
    requires forall y :: y in sofar && y != RowIds(rows, next)[|rows| - 1] ==> y in saved && saved[y] == sofar[y]
    ensures RowsAreIn(saved, profile, rows, next)
  {
    var n, ids := |rows| - 1, RowIds(rows, next);
    forall i | 0 <= i < n ensures RowIsIn(saved, ids[i], profile, rows[i]) {
      assert RowIds(rows[..n], next)[i] == ids[i] && rows[..n][i] == rows[i];
      assert RowIsIn(sofar, RowIds(rows[..n], next)[i], profile, rows[..n][i]);
      assert ids[i] != ids[n];
    }
  }

  lemma {:induction false} SavedRowsAreIn(levels: Levels, profile: nat, rows: seq<Row>, next: nat, scored: bool)
    requires SaveRows(levels, profile, rows, next, scored).Some? && Distinct(RowIds(rows, next))
    ensures RowsAreIn(SaveRows(levels, profile, rows, next, scored).value, profile, rows, next)
  {
    if rows != [] {
      var n := |rows| - 1;
      var sofar := SaveRows(levels, profile, rows[..n], next, scored).value;
      assert RowIds(rows[..n], next) == RowIds(rows, next)[..n];
      SavedRowsAreIn(levels, profile, rows[..n], next, scored);
      SavedRow(sofar, profile, rows[n], next + n, scored);
      OneMoreIsIn(sofar, SaveRows(levels, profile, rows, next, scored).value, profile, rows, next);
    }
  }

  /** What the rows leave, row by row. */
  lemma SavedRows(levels: Levels, profile: nat, rows: seq<Row>, next: nat, scored: bool)
    requires SaveRows(levels, profile, rows, next, scored).Some? && Distinct(RowIds(rows, next))
    ensures var saved, ids := SaveRows(levels, profile, rows, next, scored).value, RowIds(rows, next);
            && saved.Keys == levels.Keys + Elements(ids)
            && (forall x :: x in levels && x !in Elements(ids) ==> saved[x] == levels[x])
            && forall i :: 0 <= i < |rows| ==> RowIsIn(saved, ids[i], profile, rows[i])
  {
    SavedKeys(levels, profile, rows, next, scored);
    SavedRowsAreIn(levels, profile, rows, next, scored);
    assert RowsAreIn(SaveRows(levels, profile, rows, next, scored).value, profile, rows, next);
  }

  lemma RetireChangesNoScore(levels: Levels, profile: nat, kept: set<nat>)
    ensures Retire(levels, profile, kept).Keys == levels.Keys
    ensures forall x :: x in levels ==>
              Retire(levels, profile, kept)[x] == levels[x].(enabled := Retire(levels, profile, kept)[x].enabled)
    ensures forall x :: x in levels && (levels[x].profile != profile || x in kept) ==>
              Retire(levels, profile, kept)[x] == levels[x]
  {
  }

  // ---------- scores are frozen ----------

  lemma FrozenRow(levels: Levels, profile: nat, row: Row, unused: nat)
    requires SaveRow(levels, profile, row, unused, true).Some? && HasScore(levels, profile, row.score)
    requires unused !in levels
    ensures row.id.Some? && row.id.value in levels && levels[row.id.value].profile == profile
    ensures levels[row.id.value].score == row.score
  {
    var y :| y in levels && levels[y].profile == profile && levels[y].score == row.score;
    assert y == RowId(row, unused);
  }

  ghost predicate SameScores(a: Levels, b: Levels) {
    && a.Keys == b.Keys
    && forall x :: x in a ==> a[x].profile == b[x].profile && a[x].score == b[x].score && a[x].code == b[x].code
  }

  lemma StillHasScore(a: Levels, b: Levels, profile: nat, k: int)
    requires SameScores(b, a) && HasScore(a, profile, k)
    ensures HasScore(b, profile, k)
  {
    var y :| y in a && a[y].profile == profile && a[y].score == k;
    assert y in b && b[y].profile == profile && b[y].score == k;
  }

  /**
    Once a profile has a level for every score, the unique index lets a save
    through only if every submitted row is the level that already has its score.
   */
  lemma {:induction false} FrozenRows(levels: Levels, profile: nat, rows: seq<Row>, next: nat)
    requires SaveRows(levels, profile, rows, next, true).Some? && IdsBelow(levels, next)
    requires forall i :: 0 <= i < |rows| ==> HasScore(levels, profile, rows[i].score)
    ensures SameScores(SaveRows(levels, profile, rows, next, true).value, levels)
    ensures forall i :: 0 <= i < |rows| ==>
              && rows[i].id.Some? && rows[i].id.value in levels && levels[rows[i].id.value].profile == profile
              && levels[rows[i].id.value].score == rows[i].score
  {
    if rows != [] {
      var n := |rows| - 1;
      FrozenRows(levels, profile, rows[..n], next);
      var sofar := SaveRows(levels, profile, rows[..n], next, true).value;
      StillHasScore(levels, sofar, profile, rows[n].score);
      FrozenRow(sofar, profile, rows[n], next + n);
      assert forall i :: 0 <= i < n ==> rows[..n][i] == rows[i];
    }
  }

  // ---------- levels after a save ----------

  lemma FourScoresCoverAll(rows: seq<Row>, k: int)
    requires ScoredRowsOk(rows) && 1 <= k <= 4
    ensures exists i :: 0 <= i < 4 && rows[i].score == k
  {
    assert rows[0].score == k || rows[1].score == k || rows[2].score == k || rows[3].score == k;
  }

  /** All levels of the profile are among the saved rows. */
  ghost predicate OnlyThese(levels: Levels, profile: nat, ids: set<nat>) {
    forall x :: x in levels && levels[x].profile == profile ==> x in ids
  }

  lemma RowsMakeScoresOk(saved: Levels, profile: nat, rows: seq<Row>, ids: seq<nat>)
    requires ScoredRowsOk(rows) && |ids| == 4 && OnlyThese(saved, profile, Elements(ids))
    requires forall i :: 0 <= i < 4 ==> RowIsIn(saved, ids[i], profile, rows[i])
    ensures ScoresOk(saved, profile) && Enabled(saved, profile) == Elements(ids)
    ensures Retire(saved, profile, Elements(ids)) == saved
  {
    forall k | 1 <= k <= 4 ensures HasScore(saved, profile, k) {
      FourScoresCoverAll(rows, k);
      var i :| 0 <= i < 4 && rows[i].score == k;
      assert RowIsIn(saved, ids[i], profile, rows[i]);
    }
    forall x | x in saved && saved[x].profile == profile
      ensures exists i :: 0 <= i < 4 && x == ids[i] && RowIsIn(saved, x, profile, rows[i])
    {
      var i :| 0 <= i < 4 && ids[i] == x;
      assert RowIsIn(saved, ids[i], profile, rows[i]);
    }
  }

  lemma NewProfileHasOnlyItsRows(levels: Levels, profile: nat, rows: seq<Row>, next: nat)
    requires SaveRows(levels, profile, rows, next, true).Some? && Distinct(RowIds(rows, next))
    requires forall x :: x in levels ==> levels[x].profile != profile
    ensures OnlyThese(SaveRows(levels, profile, rows, next, true).value, profile, Elements(RowIds(rows, next)))
  {
    SavedRows(levels, profile, rows, next, true);
  }

  lemma KnownProfileHasOnlyItsRows(levels: Levels, profile: nat, rows: seq<Row>, next: nat)
    requires SaveRows(levels, profile, rows, next, true).Some? && IdsBelow(levels, next)
    requires ScoresOk(levels, profile) && ScoredRowsOk(rows)
    ensures OnlyThese(SaveRows(levels, profile, rows, next, true).value, profile, Elements(RowIds(rows, next)))
    ensures SameScores(SaveRows(levels, profile, rows, next, true).value, levels)
  {
    FrozenRows(levels, profile, rows, next);
    var ids := RowIds(rows, next);
    forall x | x in levels && levels[x].profile == profile ensures x in Elements(ids) {
      FourScoresCoverAll(rows, levels[x].score);
      var i :| 0 <= i < 4 && rows[i].score == levels[x].score;
      assert rows[i].id.value == x && ids[i] == x;
    }
  }

  /** A profile's levels are new, or its four scores are taken. */
  ghost predicate NewOrComplete(levels: Levels, profile: nat) {
    (forall x :: x in levels ==> levels[x].profile != profile) || ScoresOk(levels, profile)
  }

  lemma SyncMakesScoresOk(levels: Levels, profile: nat, rows: seq<Row>, next: nat, owner: Option<nat>)
    requires Sync(levels, profile, rows, next, true).Some? && IdsBelow(levels, next)
    requires IdsOk(rows, levels, owner) && IdentitiesOk(rows) && ScoredRowsOk(rows) && NewOrComplete(levels, profile)
    ensures ScoresOk(Sync(levels, profile, rows, next, true).value, profile)
    ensures Enabled(Sync(levels, profile, rows, next, true).value, profile) == Elements(RowIds(rows, next))
  {
    var ids := RowIds(rows, next);
    RowIdsDistinct(rows, levels, owner, next);
    SavedRows(levels, profile, rows, next, true);
    if ScoresOk(levels, profile) {
      KnownProfileHasOnlyItsRows(levels, profile, rows, next);
    } else {
      NewProfileHasOnlyItsRows(levels, profile, rows, next);
    }
    RowsMakeScoresOk(SaveRows(levels, profile, rows, next, true).value, profile, rows, ids);
  }

  /** A later save can change neither which levels a profile has, nor their scores, nor disable one. */
  lemma LaterSavesKeepScores(levels: Levels, profile: nat, rows: seq<Row>, next: nat, owner: Option<nat>)
    requires Sync(levels, profile, rows, next, true).Some? && IdsBelow(levels, next)
    requires IdsOk(rows, levels, owner) && IdentitiesOk(rows) && ScoredRowsOk(rows) && ScoresOk(levels, profile)
    ensures SameScores(Sync(levels, profile, rows, next, true).value, levels)
    ensures Enabled(Sync(levels, profile, rows, next, true).value, profile) == Enabled(levels, profile)
  {
    KnownProfileHasOnlyItsRows(levels, profile, rows, next);
    RetireChangesNoScore(SaveRows(levels, profile, rows, next, true).value, profile, Elements(RowIds(rows, next)));
    SyncMakesScoresOk(levels, profile, rows, next, owner);
  }

  /** Other profiles' levels stay as they were. */
  lemma SyncLeavesOthers(levels: Levels, profile: nat, rows: seq<Row>, next: nat, scored: bool, owner: Option<nat>)
    requires Sync(levels, profile, rows, next, scored).Some? && IdsBelow(levels, next)
    requires IdsOk(rows, levels, owner) && IdentitiesOk(rows) && (owner.Some? ==> owner.value == profile)
    ensures var after := Sync(levels, profile, rows, next, scored).value;
            && after.Keys == levels.Keys + Elements(RowIds(rows, next))
            && IdsBelow(after, next + |rows|)
            && (forall x :: x in levels && levels[x].profile != profile ==> after[x] == levels[x])
            && (forall x :: x in after && (x in levels ==> levels[x].profile == profile) ==>
                  after[x].profile == profile)
            && (forall i :: 0 <= i < |rows| ==>
                  RowIds(rows, next)[i] in after && after[RowIds(rows, next)[i]].profile == profile)
  {
    var ids := RowIds(rows, next);
    RowIdsDistinct(rows, levels, owner, next);
    SavedRows(levels, profile, rows, next, scored);
    var saved := SaveRows(levels, profile, rows, next, scored).value;
    RetireChangesNoScore(saved, profile, Elements(ids));
    forall i | 0 <= i < |rows| ensures RowIsIn(saved, ids[i], profile, rows[i]) {
    }
    forall x | x in Elements(ids)
      ensures saved[x].profile == profile && (x in levels ==> levels[x].profile == profile) && x < next + |rows|
    {
      var i :| 0 <= i < |rows| && ids[i] == x;
      assert RowIsIn(saved, ids[i], profile, rows[i]);
    }
  }

  // ---------- the aggregate after a save ----------

  /** The levels of profile `q` are the same in both. */
  ghost predicate SameLevelsOf(a: Levels, b: Levels, q: nat) {
    && (forall x :: x in a && a[x].profile == q ==> x in b && b[x] == a[x])
    && (forall x :: x in b && b[x].profile == q ==> x in a && b[x] == a[x])
  }

  lemma SyncKeepsOtherProfile(levels: Levels, profile: nat, rows: seq<Row>, next: nat, scored: bool,
                              owner: Option<nat>, q: nat)
    requires Sync(levels, profile, rows, next, scored).Some? && IdsBelow(levels, next) && q != profile
    requires IdsOk(rows, levels, owner) && IdentitiesOk(rows) && (owner.Some? ==> owner.value == profile)
    ensures SameLevelsOf(levels, Sync(levels, profile, rows, next, scored).value, q)
  {
    SyncLeavesOthers(levels, profile, rows, next, scored, owner);
  }

  lemma SameLevelsSameScores(a: Levels, b: Levels, q: nat)
    requires SameLevelsOf(a, b, q) && ScoresOk(a, q)
    ensures ScoresOk(b, q) && Enabled(a, q) == Enabled(b, q)
  {
    forall k | 1 <= k <= 4 ensures HasScore(b, q, k) {
      assert HasScore(a, q, k);
      var x :| x in a && a[x].profile == q && a[x].score == k;
      assert x in b;
    }
  }

  lemma SyncedCells(matrix: map<Cell, nat>, p: nat, cs: seq<nat>, ls: seq<nat>, choice: seq<seq<nat>>, c: nat, l: nat)
    requires Shape(choice, |cs|, |ls|)
    ensures var after := SyncedMatrix(matrix, p, cs, ls, choice);
            && (Cell(p, c, l) in after <==> c in Elements(cs) && l in Elements(ls))
            && (Cell(p, c, l) in after ==>
                  exists i, j :: 0 <= i < |cs| && 0 <= j < |ls| && after[Cell(p, c, l)] == choice[i][j])
  {
    assert c in cs <==> c in Elements(cs);
    assert l in ls <==> l in Elements(ls);
  }

  lemma SyncedOtherCells(matrix: map<Cell, nat>, p: nat, cs: seq<nat>, ls: seq<nat>, choice: seq<seq<nat>>, cell: Cell)
    requires Shape(choice, |cs|, |ls|) && cell.profile != p
    ensures var after := SyncedMatrix(matrix, p, cs, ls, choice);
            (cell in after <==> cell in matrix) && (cell in after ==> after[cell] == matrix[cell])
  {
  }

  /** What an accepted save has checked, and the state it leaves. */
  ghost predicate SavedAs(s: State, call: Call, after: State) {
    var p, next, data := Target(s, call), s.nextId + 1, call.data;
    && CallOk(s, call) && DataOk(data, s, call.profile)
    && Sync(s.consequences, p, data.consequences, next, true) == Some(after.consequences)
    && Sync(s.likelihoods, p, data.likelihoods, next, true) == Some(after.likelihoods)
    && Sync(s.priorities, p, data.priorities, next, false) == Some(after.priorities)
    && after.profiles == SavedProfiles(s.profiles, p, call.loaded, data)
    && after.matrix == SyncedMatrix(s.matrix, p, RowIds(data.consequences, next), RowIds(data.likelihoods, next),
                                    Choices(data, RowIds(data.priorities, next)))
    && after.nextId == next + |data.consequences| + |data.likelihoods| + |data.priorities|
  }

  lemma SaveIs(s: State, call: Call, after: State)
    requires Save(s, call) == Some(after)
    ensures SavedAs(s, call, after)
  {
  }

  lemma StartsNewOrComplete(s: State, call: Call)
    requires StateOk(s) && CallOk(s, call)
    ensures NewOrComplete(s.consequences, Target(s, call)) && NewOrComplete(s.likelihoods, Target(s, call))
  {
    if call.profile.Some? {
      assert ProfileOk(s, call.profile.value);
    }
  }

  lemma SavedCellsOk(s: State, call: Call)
    requires StateOk(s) && Save(s, call).Some?
    ensures CellsOk(Save(s, call).value, Target(s, call))
  {
    var p, next, data, after := Target(s, call), s.nextId + 1, call.data, Save(s, call).value;
    StartsNewOrComplete(s, call);
    SyncMakesScoresOk(s.consequences, p, data.consequences, next, call.profile);
    SyncMakesScoresOk(s.likelihoods, p, data.likelihoods, next, call.profile);
    var cs, ls := RowIds(data.consequences, next), RowIds(data.likelihoods, next);
    forall c, l ensures Cell(p, c, l) in after.matrix <==> c in Elements(cs) && l in Elements(ls) {
      SyncedCells(s.matrix, p, cs, ls, Choices(data, RowIds(data.priorities, next)), c, l);
    }
  }

  ghost predicate AllOf(priorities: Levels, p: nat, choice: seq<seq<nat>>) {
    forall i, j :: 0 <= i < |choice| && 0 <= j < |choice[i]| ==>
      choice[i][j] in priorities && priorities[choice[i][j]].profile == p
  }

  lemma ChoicesBelong(data: Data, ps: seq<nat>, priorities: Levels, p: nat)
    requires MatrixOk(data) && |ps| == |data.priorities|
    requires forall k :: 0 <= k < |ps| ==> ps[k] in priorities && priorities[ps[k]].profile == p
    ensures AllOf(priorities, p, Choices(data, ps))
  {
  }

  lemma SyncedPriorities(matrix: map<Cell, nat>, p: nat, cs: seq<nat>, ls: seq<nat>, choice: seq<seq<nat>>,
                         priorities: Levels)
    requires Shape(choice, |cs|, |ls|) && AllOf(priorities, p, choice)
    ensures var after := SyncedMatrix(matrix, p, cs, ls, choice);
            forall c, l :: Cell(p, c, l) in after ==>
              after[Cell(p, c, l)] in priorities && priorities[after[Cell(p, c, l)]].profile == p
  {
    var after := SyncedMatrix(matrix, p, cs, ls, choice);
    forall c, l | Cell(p, c, l) in after
      ensures after[Cell(p, c, l)] in priorities && priorities[after[Cell(p, c, l)]].profile == p
    {
      SyncedCells(matrix, p, cs, ls, choice, c, l);
      var i, j :| 0 <= i < |cs| && 0 <= j < |ls| && after[Cell(p, c, l)] == choice[i][j];
    }
  }

  lemma SavedPrioritiesOk(s: State, call: Call)
    requires StateOk(s) && Save(s, call).Some?
    ensures PrioritiesOk(Save(s, call).value, Target(s, call))
  {
    var p, next, data, priorities := Target(s, call), s.nextId + 1, call.data, Save(s, call).value.priorities;
    SyncLeavesOthers(s.priorities, p, data.priorities, next, false, call.profile);
    ChoicesBelong(data, RowIds(data.priorities, next), priorities, p);
    SyncedPriorities(s.matrix, p, RowIds(data.consequences, next), RowIds(data.likelihoods, next),
                     Choices(data, RowIds(data.priorities, next)), priorities);
  }

  lemma SavedProfileOk(s: State, call: Call)
    requires StateOk(s) && Save(s, call).Some?
    ensures ProfileOk(Save(s, call).value, Target(s, call))
  {
    var p, next, data := Target(s, call), s.nextId + 1, call.data;
    StartsNewOrComplete(s, call);
    SyncMakesScoresOk(s.consequences, p, data.consequences, next, call.profile);
    SyncMakesScoresOk(s.likelihoods, p, data.likelihoods, next, call.profile);
    SavedCellsOk(s, call);
    SavedPrioritiesOk(s, call);
  }

  lemma OtherCellsSame(s: State, call: Call, after: State, q: nat)
    requires SavedAs(s, call, after) && q != Target(s, call)
    ensures SameCellsOf(s, after, q)
  {
    var next, data := s.nextId + 1, call.data;
    forall c, l
      ensures Cell(q, c, l) in after.matrix <==> Cell(q, c, l) in s.matrix
      ensures Cell(q, c, l) in after.matrix ==> after.matrix[Cell(q, c, l)] == s.matrix[Cell(q, c, l)]
    {
      SyncedOtherCells(s.matrix, Target(s, call), RowIds(data.consequences, next), RowIds(data.likelihoods, next),
                       Choices(data, RowIds(data.priorities, next)), Cell(q, c, l));
    }
  }

  ghost predicate SameCellsOf(a: State, b: State, q: nat) {
    forall c, l ::
      && (Cell(q, c, l) in b.matrix <==> Cell(q, c, l) in a.matrix)
      && (Cell(q, c, l) in b.matrix ==> b.matrix[Cell(q, c, l)] == a.matrix[Cell(q, c, l)])
  }

  lemma SameProfileOk(a: State, b: State, q: nat)
    requires ProfileOk(a, q) && SameCellsOf(a, b, q) && SameLevelsOf(a.consequences, b.consequences, q)
    requires SameLevelsOf(a.likelihoods, b.likelihoods, q) && SameLevelsOf(a.priorities, b.priorities, q)
    ensures ProfileOk(b, q)
  {
    SameLevelsSameScores(a.consequences, b.consequences, q);
    SameLevelsSameScores(a.likelihoods, b.likelihoods, q);
  }

  lemma OtherLevelsSame(s: State, call: Call, after: State, q: nat)
    requires StateOk(s) && SavedAs(s, call, after) && q != Target(s, call)
    ensures SameLevelsOf(s.consequences, after.consequences, q) && SameLevelsOf(s.likelihoods, after.likelihoods, q)
    ensures SameLevelsOf(s.priorities, after.priorities, q)
  {
    var p, next, data := Target(s, call), s.nextId + 1, call.data;
    SyncKeepsOtherProfile(s.consequences, p, data.consequences, next, true, call.profile, q);
    SyncKeepsOtherProfile(s.likelihoods, p, data.likelihoods, next, true, call.profile, q);
    SyncKeepsOtherProfile(s.priorities, p, data.priorities, next, false, call.profile, q);
  }

  lemma OtherProfileOk(s: State, call: Call, q: nat)
    requires StateOk(s) && Save(s, call).Some? && q in s.profiles && q != Target(s, call)
    ensures ProfileOk(Save(s, call).value, q)
  {
    SaveIs(s, call, Save(s, call).value);
    OtherProfileStaysOk(s, call, Save(s, call).value, q);
  }

  lemma OtherProfileStaysOk(s: State, call: Call, after: State, q: nat)
    requires StateOk(s) && SavedAs(s, call, after) && q in s.profiles && q != Target(s, call)
    ensures ProfileOk(after, q)
  {
    assert ProfileOk(s, q);
    OtherCellsSame(s, call, after, q);
    OtherLevelsSame(s, call, after, q);
    SameProfileOk(s, after, q);
  }

  lemma SyncBelongs(levels: Levels, profile: nat, rows: seq<Row>, next: nat, scored: bool, owner: Option<nat>,
                    profiles: map<nat, Profile>, after: map<nat, Profile>, bound: nat)
    requires Sync(levels, profile, rows, next, scored).Some? && IdsBelow(levels, next) && next + |rows| <= bound
    requires IdsOk(rows, levels, owner) && IdentitiesOk(rows) && (owner.Some? ==> owner.value == profile)
    requires LevelsBelong(levels, profiles) && after.Keys == profiles.Keys + {profile}
    ensures LevelsBelong(Sync(levels, profile, rows, next, scored).value, after)
    ensures IdsBelow(Sync(levels, profile, rows, next, scored).value, bound)
  {
    SyncLeavesOthers(levels, profile, rows, next, scored, owner);
  }

  lemma SavedProfilesKeys(profiles: map<nat, Profile>, p: nat, loaded: Option<Profile>, data: Data)
    ensures SavedProfiles(profiles, p, loaded, data).Keys == profiles.Keys + {p}
  {
  }

  ghost predicate Bookkept(s: State, call: Call, after: State) {
    && after.profiles.Keys == s.profiles.Keys + {Target(s, call)}
    && IdsBelow(after.consequences, after.nextId) && IdsBelow(after.likelihoods, after.nextId)
    && IdsBelow(after.priorities, after.nextId)
    && LevelsBelong(after.consequences, after.profiles) && LevelsBelong(after.likelihoods, after.profiles)
    && LevelsBelong(after.priorities, after.profiles)
  }

  lemma SavedBookkeeping(s: State, call: Call, after: State)
    requires StateOk(s) && SavedAs(s, call, after)
    ensures Bookkept(s, call, after)
  {
    var p, next, data := Target(s, call), s.nextId + 1, call.data;
    SavedProfilesKeys(s.profiles, p, call.loaded, data);
    SyncBelongs(s.consequences, p, data.consequences, next, true, call.profile, s.profiles, after.profiles,
                after.nextId);
    SyncBelongs(s.likelihoods, p, data.likelihoods, next, true, call.profile, s.profiles, after.profiles, after.nextId);
    SyncBelongs(s.priorities, p, data.priorities, next, false, call.profile, s.profiles, after.profiles, after.nextId);
  }

  lemma SavedCellsBelong(s: State, call: Call)
    requires StateOk(s) && Save(s, call).Some?
    ensures forall cell :: cell in Save(s, call).value.matrix ==> cell.profile in Save(s, call).value.profiles
  {
    var p, next, data, after := Target(s, call), s.nextId + 1, call.data, Save(s, call).value;
    forall cell: Cell | cell in after.matrix ensures cell.profile in after.profiles {
      if cell.profile != p {
        SyncedOtherCells(s.matrix, p, RowIds(data.consequences, next), RowIds(data.likelihoods, next),
                         Choices(data, RowIds(data.priorities, next)), cell);
      }
    }
  }

  lemma SavedProfilesOk(s: State, call: Call)
    requires StateOk(s) && Save(s, call).Some?
    ensures forall q :: q in Save(s, call).value.profiles ==> ProfileOk(Save(s, call).value, q)
  {
    var after := Save(s, call).value;
    SaveIs(s, call, after);
    SavedBookkeeping(s, call, after);
    forall q | q in after.profiles ensures ProfileOk(after, q) {
      if q == Target(s, call) {
        SavedProfileOk(s, call);
      } else {
        OtherProfileOk(s, call, q);
      }
    }
  }

  lemma SavedIdsBelow(s: State, call: Call)
    requires StateOk(s) && Save(s, call).Some?
    ensures forall p :: p in Save(s, call).value.profiles ==> p < Save(s, call).value.nextId
  {
  }

  /** Every accepted save keeps the matrix of every profile complete, and nothing in it foreign. */
  lemma SaveKeepsState(s: State, call: Call)
    requires StateOk(s) && Save(s, call).Some?
    ensures StateOk(Save(s, call).value)
  {
    SaveIs(s, call, Save(s, call).value);
    SavedBookkeeping(s, call, Save(s, call).value);
    SavedProfilesOk(s, call);
    SavedCellsBelong(s, call);
    SavedIdsBelow(s, call);
  }

  /** After its first save, a profile's scored levels are fixed: same levels, same scores, all enabled. */
  lemma ScoresAreFrozen(s: State, call: Call)
    requires StateOk(s) && Save(s, call).Some? && call.profile.Some?
    ensures var p, after := call.profile.value, Save(s, call).value;
            && SameScores(after.consequences, s.consequences) && SameScores(after.likelihoods, s.likelihoods)
            && Enabled(after.consequences, p) == Enabled(s.consequences, p)
            && Enabled(after.likelihoods, p) == Enabled(s.likelihoods, p)
  {
    SaveIs(s, call, Save(s, call).value);
    SavedScoresAreFrozen(s, call, Save(s, call).value, call.profile.value);
  }

  lemma SavedScoresAreFrozen(s: State, call: Call, after: State, p: nat)
    requires StateOk(s) && SavedAs(s, call, after) && call.profile == Some(p)
    ensures SameScores(after.consequences, s.consequences) && SameScores(after.likelihoods, s.likelihoods)
    ensures Enabled(after.consequences, p) == Enabled(s.consequences, p)
    ensures Enabled(after.likelihoods, p) == Enabled(s.likelihoods, p)
  {
    var next := s.nextId + 1;
    assert ProfileOk(s, p);
    LaterSavesKeepScores(s.consequences, p, call.data.consequences, next, call.profile);
    LaterSavesKeepScores(s.likelihoods, p, call.data.likelihoods, next, call.profile);
  }

  // ---------- runs ----------

  function SaveOrSkip(s: State, call: Call): State {
    match Save(s, call)
    case Some(after) => after
    case None => s
  }

  function Run(s: State, calls: seq<Call>): State {
    if calls == [] then s else SaveOrSkip(Run(s, calls[..|calls| - 1]), calls[|calls| - 1])
  }

  const EMPTY := State(map[], map[], map[], map[], map[], 0)

  lemma {:induction false} RunKeepsState(s: State, calls: seq<Call>)
    requires StateOk(s)
    ensures StateOk(Run(s, calls))
  {
    if calls != [] {
      var before, call := Run(s, calls[..|calls| - 1]), calls[|calls| - 1];
      RunKeepsState(s, calls[..|calls| - 1]);
      if Save(before, call).Some? {
        SaveKeepsState(before, call);
      }
    }
  }

  /** The scored levels of a profile: the same ids, profiles, codes and scores, all of them still enabled. */
  ghost predicate SameScoresOf(a: Levels, b: Levels, p: nat) {
    && (forall x :: x in a && a[x].profile == p ==>
          x in b && b[x].profile == p && b[x].score == a[x].score && b[x].code == a[x].code)
    && (forall x :: x in b && b[x].profile == p ==> x in a && a[x].profile == p)
    && Enabled(a, p) == Enabled(b, p)
  }

  lemma SameLevelsFreeze(a: Levels, b: Levels, p: nat)
    requires SameLevelsOf(a, b, p) && ScoresOk(a, p)
    ensures SameScoresOf(a, b, p)
  {
    SameLevelsSameScores(a, b, p);
  }

  lemma SaveFreezesOthersScores(s: State, call: Call, after: State, p: nat)
    requires StateOk(s) && SavedAs(s, call, after) && p in s.profiles && p != Target(s, call)
    ensures SameScoresOf(s.consequences, after.consequences, p) && SameScoresOf(s.likelihoods, after.likelihoods, p)
  {
    assert ProfileOk(s, p);
    OtherLevelsSame(s, call, after, p);
    SameLevelsFreeze(s.consequences, after.consequences, p);
    SameLevelsFreeze(s.likelihoods, after.likelihoods, p);
  }

  lemma SameScoresFreeze(a: Levels, b: Levels, p: nat)
    requires SameScores(b, a) && Enabled(b, p) == Enabled(a, p)
    ensures SameScoresOf(a, b, p)
  {
  }

  lemma SaveFreezesScoresOf(s: State, call: Call, after: State, p: nat)
    requires StateOk(s) && SavedAs(s, call, after) && p in s.profiles
    ensures SameScoresOf(s.consequences, after.consequences, p) && SameScoresOf(s.likelihoods, after.likelihoods, p)
  {
    if call.profile == Some(p) {
      SavedScoresAreFrozen(s, call, after, p);
      SameScoresFreeze(s.consequences, after.consequences, p);
      SameScoresFreeze(s.likelihoods, after.likelihoods, p);
    } else {
      SaveFreezesOthersScores(s, call, after, p);
    }
  }

  lemma {:induction false} RunKeepsProfiles(s: State, calls: seq<Call>, p: nat)
    requires p in s.profiles
    ensures p in Run(s, calls).profiles
  {
    if calls != [] {
      RunKeepsProfiles(s, calls[..|calls| - 1], p);
    }
  }

  lemma FrozenAlong(a: Levels, b: Levels, c: Levels, p: nat)
    requires SameScoresOf(a, b, p) && SameScoresOf(b, c, p)
    ensures SameScoresOf(a, c, p)
  {
  }

  lemma CallFreezes(s: State, before: State, call: Call, p: nat)
    requires StateOk(before) && p in before.profiles
    requires SameScoresOf(s.consequences, before.consequences, p) && SameScoresOf(s.likelihoods, before.likelihoods, p)
    ensures SameScoresOf(s.consequences, SaveOrSkip(before, call).consequences, p)
    ensures SameScoresOf(s.likelihoods, SaveOrSkip(before, call).likelihoods, p)
  {
    if Save(before, call).Some? {
      var after := Save(before, call).value;
      SaveIs(before, call, after);
      SaveFreezesScoresOf(before, call, after, p);
      FrozenAlong(s.consequences, before.consequences, after.consequences, p);
      FrozenAlong(s.likelihoods, before.likelihoods, after.likelihoods, p);
    }
  }

  /** Once a profile exists, no run of saves changes its scored levels, their codes or scores, or disables one. */
  lemma {:induction false} RunFreezesScores(s: State, calls: seq<Call>, p: nat)
    requires StateOk(s) && p in s.profiles
    ensures SameScoresOf(s.consequences, Run(s, calls).consequences, p)
    ensures SameScoresOf(s.likelihoods, Run(s, calls).likelihoods, p)
  {
    if calls != [] {
      var before, call := Run(s, calls[..|calls| - 1]), calls[|calls| - 1];
      RunKeepsState(s, calls[..|calls| - 1]);
      RunKeepsProfiles(s, calls[..|calls| - 1], p);
      RunFreezesScores(s, calls[..|calls| - 1], p);
      CallFreezes(s, before, call, p);
    }
  }

  // ---------- the lookup ----------

  /** `CalculateFindingPriority`: the priority level of two levels, by their ids. */
  function Lookup(s: State, c: nat, l: nat): Result<nat, string>
    requires c in s.consequences && l in s.likelihoods
  {
    if s.consequences[c].profile != s.likelihoods[l].profile then
      Err("Consequence and likelihood levels must belong to the same risk profile.")
    else
      var cell := Cell(s.consequences[c].profile, c, l);
      if cell !in s.matrix then Err("The selected risk profile has no matrix entry for these levels.")
      else if s.matrix[cell] !in s.priorities then Err("No query results.")
      else Ok(s.matrix[cell])
  }

  lemma LookupInProfile(s: State, p: nat, c: nat, l: nat)
    requires CellsOk(s, p) && PrioritiesOk(s, p) && c in s.consequences && l in s.likelihoods
    requires s.consequences[c].profile == p && s.likelihoods[l].profile == p
    ensures Lookup(s, c, l).Ok? <==> s.consequences[c].enabled && s.likelihoods[l].enabled
    ensures Lookup(s, c, l).Ok? ==>
              Lookup(s, c, l).value in s.priorities && s.priorities[Lookup(s, c, l).value].profile == p
  {
    assert Cell(p, c, l) in s.matrix <==> c in Enabled(s.consequences, p) && l in Enabled(s.likelihoods, p);
  }

  lemma LookupInState(s: State, c: nat, l: nat)
    requires StateOk(s) && c in s.consequences && l in s.likelihoods
    ensures Lookup(s, c, l).Ok? <==>
              s.consequences[c].profile == s.likelihoods[l].profile && s.consequences[c].enabled &&
              s.likelihoods[l].enabled
    ensures Lookup(s, c, l).Ok? ==>
              Lookup(s, c, l).value in s.priorities
              && s.priorities[Lookup(s, c, l).value].profile == s.consequences[c].profile
  {
    var p := s.consequences[c].profile;
    if s.likelihoods[l].profile == p {
      assert ProfileOk(s, p);
      LookupInProfile(s, p, c, l);
    }
  }

  /** After any saves the lookup succeeds exactly for enabled levels of one profile, with a priority of that profile. */
  lemma LookupIsTotalOnEnabledPairs(calls: seq<Call>, c: nat, l: nat)
    requires c in Run(EMPTY, calls).consequences && l in Run(EMPTY, calls).likelihoods
    ensures var s := Run(EMPTY, calls);
            && (Lookup(s, c, l).Ok? <==>
                  s.consequences[c].profile == s.likelihoods[l].profile && s.consequences[c].enabled &&
                  s.likelihoods[l].enabled)
            && (Lookup(s, c, l).Ok? ==>
                  Lookup(s, c, l).value in s.priorities
                  && s.priorities[Lookup(s, c, l).value].profile == s.consequences[c].profile)
  {
    RunKeepsState(EMPTY, calls);
    LookupInState(Run(EMPTY, calls), c, l);
  }

  // ---------- the loops ----------

  lemma {:induction false} IndexOfAt<T>(s: seq<T>, k: nat)
    requires Distinct(s) && k < |s|
    ensures IndexOf(s, s[k]) == k
  {
    if k > 0 {
      assert s[1..][k - 1] == s[k];
      IndexOfAt(s[1..], k - 1);
    }
  }

  /** The pair has been written once the loops stand at row `i`, column `j`. */
  predicate Visited(cs: seq<nat>, ls: seq<nat>, i: nat, j: nat, c: nat, l: nat) {
    c in cs && l in ls && (IndexOf(cs, c) < i || (IndexOf(cs, c) == i && IndexOf(ls, l) < j))
  }

  /** The matrix while it is being written. */
  ghost predicate PartlySynced(before: map<Cell, nat>, matrix: map<Cell, nat>, p: nat,
                               cs: seq<nat>, ls: seq<nat>, choice: seq<seq<nat>>, i: nat, j: nat)
    requires Shape(choice, |cs|, |ls|)
  {
    forall cell: Cell ::
      if cell.profile == p && Visited(cs, ls, i, j, cell.consequence, cell.likelihood)
      then cell in matrix
           && matrix[cell] == choice[IndexOf(cs, cell.consequence)][IndexOf(ls, cell.likelihood)]
      else (cell in matrix <==> cell in before) && (cell in matrix ==> matrix[cell] == before[cell])
  }

  lemma OneMoreCell(p: nat, c: nat, ls: seq<nat>, j: nat)
    requires j < |ls|
    ensures CellsOf(p, {c}, Elements(ls[..j + 1])) == CellsOf(p, {c}, Elements(ls[..j])) + {Cell(p, c, ls[j])}
  {
    assert ls[..j + 1] == ls[..j] + [ls[j]];
    ElementsAppend(ls[..j], ls[j]);
  }

  lemma NextCell(before: map<Cell, nat>, matrix: map<Cell, nat>, p: nat,
                 cs: seq<nat>, ls: seq<nat>, choice: seq<seq<nat>>, i: nat, j: nat)
    requires Shape(choice, |cs|, |ls|) && Distinct(cs) && Distinct(ls)
    requires i < |cs| && j < |ls| && PartlySynced(before, matrix, p, cs, ls, choice, i, j)
    ensures PartlySynced(before, matrix[Cell(p, cs[i], ls[j]) := choice[i][j]], p, cs, ls, choice, i, j + 1)
  {
    IndexOfAt(cs, i);
    IndexOfAt(ls, j);
    forall c, l ensures Visited(cs, ls, i, j + 1, c, l) <==> Visited(cs, ls, i, j, c, l) || (c == cs[i] && l == ls[j]) {
    }
  }

  lemma RowDone(before: map<Cell, nat>, matrix: map<Cell, nat>, p: nat,
                cs: seq<nat>, ls: seq<nat>, choice: seq<seq<nat>>, i: nat)
    requires Shape(choice, |cs|, |ls|)
    requires i < |cs| && PartlySynced(before, matrix, p, cs, ls, choice, i, |ls|)
    ensures PartlySynced(before, matrix, p, cs, ls, choice, i + 1, 0)
  {
    forall c, l ensures Visited(cs, ls, i + 1, 0, c, l) <==> Visited(cs, ls, i, |ls|, c, l) {
    }
  }

  lemma DeletingTheRest(before: map<Cell, nat>, matrix: map<Cell, nat>, p: nat,
                        cs: seq<nat>, ls: seq<nat>, choice: seq<seq<nat>>, kept: set<Cell>)
    requires Shape(choice, |cs|, |ls|)
    requires PartlySynced(before, matrix, p, cs, ls, choice, |cs|, 0) && kept == CellsOf(p, Elements(cs), Elements(ls))
    ensures (map cell | cell in matrix && (cell.profile == p ==> cell in kept) :: matrix[cell]) ==
            SyncedMatrix(before, p, cs, ls, choice)
  {
    forall c ensures c in cs <==> c in Elements(cs) {
    }
    forall l ensures l in ls <==> l in Elements(ls) {
    }
    forall c, l ensures Visited(cs, ls, |cs|, 0, c, l) <==> c in cs && l in ls {
    }
  }

  lemma ScoredIdsDistinct(s: State, call: Call)
    requires StateOk(s) && DataOk(call.data, s, call.profile)
    ensures Distinct(RowIds(call.data.consequences, s.nextId + 1))
    ensures Distinct(RowIds(call.data.likelihoods, s.nextId + 1))
  {
    RowIdsDistinct(call.data.consequences, s.consequences, call.profile, s.nextId + 1);
    RowIdsDistinct(call.data.likelihoods, s.likelihoods, call.profile, s.nextId + 1);
  }

  lemma CommittedIs(s: State, call: Call, cs: Option<Levels>, ls: Option<Levels>, ps: Option<Levels>)
    requires MatrixOk(call.data)
    requires Sync(s.consequences, Target(s, call), call.data.consequences, s.nextId + 1, true) == cs
    requires Sync(s.likelihoods, Target(s, call), call.data.likelihoods, s.nextId + 1, true) == ls
    requires Sync(s.priorities, Target(s, call), call.data.priorities, s.nextId + 1, false) == ps
    ensures Committed(s, call) ==
            if cs.None? || ls.None? || ps.None? then None
            else Some(Outcome(s, call, cs.value, ls.value, ps.value,
                              Choices(call.data, RowIds(call.data.priorities, s.nextId + 1))))
  {
  }

  lemma OutcomeIs(s: State, call: Call, cs: Levels, ls: Levels, ps: Levels, choice: seq<seq<nat>>, after: State)
    requires Shape(choice, |call.data.consequences|, |call.data.likelihoods|)
    requires after.profiles == SavedProfiles(s.profiles, Target(s, call), call.loaded, call.data)
    requires after.consequences == cs && after.likelihoods == ls && after.priorities == ps
    requires after.matrix == SyncedMatrix(s.matrix, Target(s, call), RowIds(call.data.consequences, s.nextId + 1),
                                          RowIds(call.data.likelihoods, s.nextId + 1), choice)
    requires after.nextId == s.nextId + 1 + |call.data.consequences| + |call.data.likelihoods| + |call.data.priorities|
    ensures after == Outcome(s, call, cs, ls, ps, choice)
  {
  }

  class RiskStore {
    var profiles: map<nat, Profile>
    var consequences: Levels
    var likelihoods: Levels
    var priorities: Levels
    var matrix: map<Cell, nat>
    var nextId: nat

    function View(): State
      reads this
    {
      State(profiles, consequences, likelihoods, priorities, matrix, nextId)
    }

    /** `syncScoredLevels` and `syncPriorityLevels`. */
    method SyncLevels(levels: Levels, profile: nat, rows: seq<Row>, next: nat, scored: bool) returns (r: Option<Levels>)
      ensures r == Sync(levels, profile, rows, next, scored)
    {
      var sofar := levels;
      var kept: set<nat> := {};
      for n := 0 to |rows|
        invariant SaveRows(levels, profile, rows[..n], next, scored) == Some(sofar)
        invariant kept == Elements(RowIds(rows[..n], next))
      {
        SavingOneMore(levels, profile, rows, next, scored, n);
        var saved := SaveRow(sofar, profile, rows[n], next + n, scored);
        if saved.None? {
          FailureStays(levels, profile, rows, next, scored, n + 1);
          return None;
        }
        sofar := saved.value;
        kept := kept + {RowId(rows[n], next + n)};
      }
      assert rows[..|rows|] == rows;
      return Some(Retire(sofar, profile, kept));
    }

    /** The inner loop of `syncMatrix`. */
    method SyncMatrixRow(p: nat, cs: seq<nat>, ls: seq<nat>, choice: seq<seq<nat>>, i: nat,
                         ghost before: map<Cell, nat>)
      returns (kept: set<Cell>)
      requires Shape(choice, |cs|, |ls|) && Distinct(cs) && Distinct(ls) && i < |cs|
      requires PartlySynced(before, matrix, p, cs, ls, choice, i, 0)
      modifies this`matrix
      ensures PartlySynced(before, matrix, p, cs, ls, choice, i + 1, 0)
      ensures kept == CellsOf(p, {cs[i]}, Elements(ls))
    {
      kept := {};
      for j := 0 to |ls|
        invariant PartlySynced(before, matrix, p, cs, ls, choice, i, j)
        invariant kept == CellsOf(p, {cs[i]}, Elements(ls[..j]))
      {
        NextCell(before, matrix, p, cs, ls, choice, i, j);
        OneMoreCell(p, cs[i], ls, j);
        matrix := matrix[Cell(p, cs[i], ls[j]) := choice[i][j]];
        kept := kept + {Cell(p, cs[i], ls[j])};
      }
      assert ls[..|ls|] == ls;
      RowDone(before, matrix, p, cs, ls, choice, i);
    }

    /** `syncMatrix` */
    method SyncMatrix(p: nat, cs: seq<nat>, ls: seq<nat>, choice: seq<seq<nat>>)
      requires Shape(choice, |cs|, |ls|) && Distinct(cs) && Distinct(ls)
      modifies this`matrix
      ensures matrix == SyncedMatrix(old(matrix), p, cs, ls, choice)
    {
      var kept: set<Cell> := {};
      for i := 0 to |cs|
        invariant PartlySynced(old(matrix), matrix, p, cs, ls, choice, i, 0)
        invariant kept == CellsOf(p, Elements(cs[..i]), Elements(ls))
      {
        assert cs[..i + 1] == cs[..i] + [cs[i]];
        ElementsAppend(cs[..i], cs[i]);
        var row := SyncMatrixRow(p, cs, ls, choice, i, old(matrix));
        kept := kept + row;
      }
      assert cs[..|cs|] == cs;
      DeletingTheRest(old(matrix), matrix, p, cs, ls, choice, kept);
      matrix := map cell | cell in matrix && (cell.profile == p ==> cell in kept) :: matrix[cell];
    }

    /** The writes of the transaction. */
    method Write(call: Call, cs: Levels, ls: Levels, ps: Levels, choice: seq<seq<nat>>)
      requires Shape(choice, |call.data.consequences|, |call.data.likelihoods|)
      requires Distinct(RowIds(call.data.consequences, nextId + 1))
      requires Distinct(RowIds(call.data.likelihoods, nextId + 1))
      modifies this
      ensures profiles == SavedProfiles(old(profiles), Target(old(View()), call), call.loaded, call.data)
      ensures consequences == cs && likelihoods == ls && priorities == ps
      ensures matrix == SyncedMatrix(old(matrix), Target(old(View()), call),
                                     RowIds(call.data.consequences, old(nextId) + 1),
                                     RowIds(call.data.likelihoods, old(nextId) + 1), choice)
      ensures nextId == old(nextId) + 1 + |call.data.consequences| + |call.data.likelihoods| + |call.data.priorities|
    {
      var p, next, data := Target(View(), call), nextId + 1, call.data;
      SyncMatrix(p, RowIds(data.consequences, next), RowIds(data.likelihoods, next), choice);
      profiles := SavedProfiles(profiles, p, call.loaded, data);
      consequences, likelihoods, priorities := cs, ls, ps;
      nextId := next + |data.consequences| + |data.likelihoods| + |data.priorities|;
    }

    /** The transaction: the levels, then the rest, or nothing if a row is refused. */
    method Transaction(call: Call) returns (ok: bool)
      requires MatrixOk(call.data)
      requires Distinct(RowIds(call.data.consequences, nextId + 1))
      requires Distinct(RowIds(call.data.likelihoods, nextId + 1))
      modifies this
      ensures ok <==> Committed(old(View()), call).Some?
      ensures View() == if ok then Committed(old(View()), call).value else old(View())
    {
      ghost var before := View();
      var p, next := Target(View(), call), nextId + 1;
      var cs := SyncLevels(consequences, p, call.data.consequences, next, true);
      var ls := SyncLevels(likelihoods, p, call.data.likelihoods, next, true);
      var ps := SyncLevels(priorities, p, call.data.priorities, next, false);
      CommittedIs(before, call, cs, ls, ps);
      if cs.None? || ls.None? || ps.None? {
        return false;
      }
      var choice := Choices(call.data, RowIds(call.data.priorities, next));
      Write(call, cs.value, ls.value, ps.value, choice);
      OutcomeIs(before, call, cs.value, ls.value, ps.value, choice, View());
      assert Committed(before, call) == Some(View());
      return true;
    }

    /** `handle`, after the codes are settled: the whole aggregate, or nothing. */
    method Handle(call: Call) returns (ok: bool)
      requires StateOk(View())
      modifies this
      ensures ok <==> Save(old(View()), call).Some?
      ensures View() == SaveOrSkip(old(View()), call)
    {
      if !Checked(View(), call) {
        return false;
      }
      ScoredIdsDistinct(View(), call);
      ok := Transaction(call);
    }
  }

  lemma SavingOneMore(levels: Levels, profile: nat, rows: seq<Row>, next: nat, scored: bool, n: nat)
    requires n < |rows| && SaveRows(levels, profile, rows[..n], next, scored).Some?
    ensures SaveRows(levels, profile, rows[..n + 1], next, scored) ==
            SaveRow(SaveRows(levels, profile, rows[..n], next, scored).value, profile, rows[n], next + n, scored)
    ensures Elements(RowIds(rows[..n + 1], next)) == Elements(RowIds(rows[..n], next)) + {RowId(rows[n], next + n)}
  {
    assert rows[..n + 1][..n] == rows[..n] && rows[..n + 1][n] == rows[n];
    IdsOneMore(rows[..n + 1], next);
  }

  lemma {:induction false} FailureStays(levels: Levels, profile: nat, rows: seq<Row>, next: nat, scored: bool, n: nat)
    requires n <= |rows| && SaveRows(levels, profile, rows[..n], next, scored).None?
    ensures SaveRows(levels, profile, rows, next, scored).None?
    decreases |rows|
  {
    if n < |rows| {
      assert rows[..|rows| - 1][..n] == rows[..n];
      FailureStays(levels, profile, rows[..|rows| - 1], next, scored, n);
    } else {
      assert rows[..n] == rows;
    }
  }
}
