/**
  The default risk profile: at most one, enabled, and once there is one there
  always is.  A save writes only the attributes that differ from the copy it
  loaded, so a stale copy can break this; here is exactly when.
 */
module RiskDefaults {
  import opened Wrappers
  import opened SetFacts
  import opened RiskProfiles
  import N = Numerals

  /** At most one profile is the default, and it is enabled. */
  ghost predicate DefaultOk(profiles: map<nat, Profile>) {
    && (forall x, y :: x in profiles && y in profiles && profiles[x].isDefault && profiles[y].isDefault ==> x == y)
    && forall x :: x in profiles && profiles[x].isDefault ==> profiles[x].isEnabled
  }

  ghost predicate HasDefault(profiles: map<nat, Profile>) {
    exists x :: x in profiles && profiles[x].isDefault
  }

  // ---------- one save ----------

  /** The save leaves a default profile that is disabled. */
  predicate DisablesDefault(stored: Profile, loaded: Profile, data: Data) {
    if data.isDefault then (!loaded.isDefault || stored.isDefault) && loaded.isEnabled && !stored.isEnabled
    else stored.isDefault && loaded.isEnabled && !data.isEnabled
  }

  /** The save takes the default from the others and does not write it to its own profile. */
  predicate DropsDefault(stored: Profile, loaded: Profile, data: Data) {
    data.isDefault && loaded.isDefault && !stored.isDefault
  }

  lemma DefaultsOfSavedProfiles(profiles: map<nat, Profile>, p: nat, loaded: Profile, data: Data)
    requires p in profiles && DefaultOk(profiles) && FlagsOk(data, Some(loaded), false)
    ensures var after := SavedProfiles(profiles, p, Some(loaded), data);
            && (DefaultOk(after) <==> !DisablesDefault(profiles[p], loaded, data))
            && (HasDefault(after) <==>
                  !DropsDefault(profiles[p], loaded, data) && (data.isDefault || HasDefault(profiles)))
  {
    if data.isDefault {
      DefaultIsTaken(profiles, p, loaded, data);
    } else {
      DefaultIsLeft(profiles, p, loaded, data);
    }
  }

  lemma DefaultIsTaken(profiles: map<nat, Profile>, p: nat, loaded: Profile, data: Data)
    requires p in profiles && data.isDefault && data.isEnabled
    ensures var after := SavedProfiles(profiles, p, Some(loaded), data);
            && (DefaultOk(after) <==> !DisablesDefault(profiles[p], loaded, data))
            && (HasDefault(after) <==> !DropsDefault(profiles[p], loaded, data))
  {
    var after := SavedProfiles(profiles, p, Some(loaded), data);
    assert after.Keys == profiles.Keys;
    assert forall x :: x in after && x != p ==> !after[x].isDefault;
    assert after[p].isDefault ==> HasDefault(after);
  }

  lemma DefaultIsLeft(profiles: map<nat, Profile>, p: nat, loaded: Profile, data: Data)
    requires p in profiles && DefaultOk(profiles) && !data.isDefault && !loaded.isDefault
    ensures var after := SavedProfiles(profiles, p, Some(loaded), data);
            && (DefaultOk(after) <==> !DisablesDefault(profiles[p], loaded, data))
            && (HasDefault(after) <==> HasDefault(profiles))
  {
    var after := SavedProfiles(profiles, p, Some(loaded), data);
    assert after.Keys == profiles.Keys;
    assert forall x :: x in after && x != p ==> after[x] == profiles[x];
    assert after[p].isDefault == profiles[p].isDefault;
    if HasDefault(profiles) {
      var d :| d in profiles && profiles[d].isDefault;
      assert after[d].isDefault;
    }
  }

  /**
    Whether there was a default or not: the one default is enabled after a save just when the save
    does not disable it.
   */
  lemma DefaultStaysEnabledExactly(s: State, call: Call)
    requires Save(s, call).Some? && call.profile.Some? && DefaultOk(s.profiles)
    ensures DefaultOk(Save(s, call).value.profiles) <==>
            !DisablesDefault(s.profiles[call.profile.value], call.loaded.value, call.data)
  {
    DefaultsOfSavedProfiles(s.profiles, call.profile.value, call.loaded.value, call.data);
  }

  /** There is a default after a save just when there was one or one was asked for, and the save does not drop it. */
  lemma DefaultIsThereExactly(s: State, call: Call)
    requires Save(s, call).Some? && call.profile.Some? && DefaultOk(s.profiles)
    ensures HasDefault(Save(s, call).value.profiles) <==>
            && !DropsDefault(s.profiles[call.profile.value], call.loaded.value, call.data)
            && (call.data.isDefault || HasDefault(s.profiles))
  {
    DefaultsOfSavedProfiles(s.profiles, call.profile.value, call.loaded.value, call.data);
  }

  lemma NewProfileKeepsDefault(s: State, call: Call)
    requires Save(s, call).Some? && call.profile.None? && DefaultOk(s.profiles) && s.nextId !in s.profiles
    ensures DefaultOk(Save(s, call).value.profiles)
    ensures HasDefault(Save(s, call).value.profiles) <==> HasDefault(s.profiles) || call.data.isDefault
  {
    var after := Save(s, call).value.profiles;
    if call.data.isDefault {
      assert after[s.nextId].isDefault;
    } else if HasDefault(s.profiles) {
      var x :| x in s.profiles && s.profiles[x].isDefault;
      assert after[x].isDefault;
    }
  }

  /** With a current copy, no save can lose, double or disable the default. */
  lemma CurrentCopyKeepsDefault(s: State, call: Call)
    requires Save(s, call).Some? && call.profile.Some? && call.loaded == Some(s.profiles[call.profile.value])
    requires DefaultOk(s.profiles)
    ensures DefaultOk(Save(s, call).value.profiles)
    ensures HasDefault(s.profiles) ==> HasDefault(Save(s, call).value.profiles)
  {
    DefaultStaysEnabledExactly(s, call);
    DefaultIsThereExactly(s, call);
  }

  // ---------- runs ----------

  /** In every state of a run at most one default, enabled, and once there is one there is one. */
  ghost predicate DefaultKeptThroughout(s: State, calls: seq<Call>) {
    && DefaultOk(Run(s, calls).profiles)
    && (calls != [] ==>
          && DefaultKeptThroughout(s, calls[..|calls| - 1])
          && (HasDefault(Run(s, calls[..|calls| - 1]).profiles) ==> HasDefault(Run(s, calls).profiles)))
  }

  /** The call is accepted, and its copy is stale in a way that disables the default or drops the one there is. */
  ghost predicate Harms(s: State, call: Call) {
    && Save(s, call).Some? && call.profile.Some?
    && (|| DisablesDefault(s.profiles[call.profile.value], call.loaded.value, call.data)
        || (HasDefault(s.profiles) && DropsDefault(s.profiles[call.profile.value], call.loaded.value, call.data)))
  }

  ghost predicate NoCallHarms(s: State, calls: seq<Call>) {
    calls != [] ==>
      && NoCallHarms(s, calls[..|calls| - 1])
      && !Harms(Run(s, calls[..|calls| - 1]), calls[|calls| - 1])
  }

  lemma CallKeepsDefaultExactly(s: State, call: Call)
    requires StateOk(s) && DefaultOk(s.profiles)
    ensures var after := SaveOrSkip(s, call);
            DefaultOk(after.profiles) && (HasDefault(s.profiles) ==> HasDefault(after.profiles)) <==> !Harms(s, call)
  {
    if Save(s, call).Some? {
      if call.profile.Some? {
        DefaultStaysEnabledExactly(s, call);
        DefaultIsThereExactly(s, call);
      } else {
        NewProfileKeepsDefault(s, call);
      }
    }
  }

  /** The promise holds all through a run just when no accepted call of it harms. */
  lemma {:induction false} RunKeepsDefaultExactly(s: State, calls: seq<Call>)
    requires StateOk(s) && DefaultOk(s.profiles)
    ensures DefaultKeptThroughout(s, calls) <==> NoCallHarms(s, calls)
  {
    if calls != [] {
      var before, call := Run(s, calls[..|calls| - 1]), calls[|calls| - 1];
      RunKeepsDefaultExactly(s, calls[..|calls| - 1]);
      if NoCallHarms(s, calls[..|calls| - 1]) {
        RunKeepsState(s, calls[..|calls| - 1]);
        CallKeepsDefaultExactly(before, call);
      }
    }
  }

  /** Calls of a run whose loaded copies are current when they are made. */
  ghost predicate AllCurrent(s: State, calls: seq<Call>) {
    calls != [] ==>
      (var before, call := Run(s, calls[..|calls| - 1]), calls[|calls| - 1];
       && AllCurrent(s, calls[..|calls| - 1])
       && (call.profile.Some? && call.profile.value in before.profiles ==>
             call.loaded == Some(before.profiles[call.profile.value])))
  }

  lemma {:induction false} CurrentCopiesDoNotHarm(s: State, calls: seq<Call>)
    requires StateOk(s) && DefaultOk(s.profiles) && AllCurrent(s, calls)
    ensures NoCallHarms(s, calls)
  {
    if calls != [] {
      var before, call := Run(s, calls[..|calls| - 1]), calls[|calls| - 1];
      CurrentCopiesDoNotHarm(s, calls[..|calls| - 1]);
      RunKeepsDefaultExactly(s, calls[..|calls| - 1]);
      if Save(before, call).Some? && call.profile.Some? {
        CurrentCopyKeepsDefault(before, call);
        DefaultStaysEnabledExactly(before, call);
      }
    }
  }

  /** Over any run with current copies: at most one default, enabled, and once there is one there always is. */
  lemma RunKeepsDefault(s: State, calls: seq<Call>)
    requires StateOk(s) && DefaultOk(s.profiles) && AllCurrent(s, calls)
    ensures DefaultKeptThroughout(s, calls)
  {
    CurrentCopiesDoNotHarm(s, calls);
    RunKeepsDefaultExactly(s, calls);
  }

  // ---------- saves that are accepted ----------

  function LevelAt(p: nat, i: nat): Level {
    Level(p, N.Print(i), i + 1, "", true)
  }

  /** Rows of a new profile, under the form keys of the page. */
  function NewRows(keys: seq<string>): (r: seq<Row>)
    ensures |r| == |keys|
    ensures forall i :: 0 <= i < |r| ==> r[i] == Row(None, keys[i], N.Print(i), i + 1, "", true)
  {
    seq(|keys|, i requires 0 <= i < |keys| => Row(None, keys[i], N.Print(i), i + 1, "", true))
  }

  /** The same rows as they come back from the page once saved. */
  function KnownRows(n: nat, first: nat): (r: seq<Row>)
    ensures |r| == n
    ensures forall i :: 0 <= i < n ==> r[i] == Row(Some(first + i), "", N.Print(i), i + 1, "", true)
  {
    seq(n, i requires 0 <= i => Row(Some(first + i), "", N.Print(i), i + 1, "", true))
  }

  /** The profile has exactly these levels, under consecutive ids. */
  ghost predicate Holds(levels: Levels, p: nat, n: nat, first: nat) {
    && (forall x :: first <= x < first + n ==> x in levels && levels[x] == LevelAt(p, x - first))
    && (forall x :: x in levels && levels[x].profile == p ==> first <= x < first + n)
  }

  lemma NewRowDiffers(levels: Levels, p: nat, n: nat, first: nat, y: nat)
    requires Holds(levels, p, n, first) && y in levels && levels[y].profile == p
    ensures levels[y].code != N.Print(n) && levels[y].score != n + 1
  {
    assert levels[y] == LevelAt(p, y - first);
    PrintIsInjective(y - first, n);
  }

  lemma NewRowFits(levels: Levels, p: nat, n: nat, first: nat, scored: bool, row: Row)
    requires Holds(levels, p, n, first) && first + n !in levels
    requires row.id == None && row.code == N.Print(n) && row.score == n + 1 && row.content == "" && row.enabled
    ensures SaveRow(levels, p, row, first + n, scored) == Some(levels[first + n := LevelAt(p, n)])
    ensures Holds(levels[first + n := LevelAt(p, n)], p, n + 1, first)
  {
    forall y | y in levels && levels[y].profile == p
      ensures levels[y].code != row.code && levels[y].score != row.score
    {
      NewRowDiffers(levels, p, n, first, y);
    }
    assert !Conflict(levels, first + n, LevelAt(p, n), scored);
  }

  lemma LastNewRow(levels: Levels, p: nat, keys: seq<string>, next: nat, scored: bool, sofar: Levels)
    requires keys != [] && SaveRows(levels, p, NewRows(keys)[..|keys| - 1], next, scored) == Some(sofar)
    ensures SaveRows(levels, p, NewRows(keys), next, scored) ==
              SaveRow(sofar, p, NewRows(keys)[|keys| - 1], next + |keys| - 1, scored)
  {
  }

  lemma OneMoreNewRow(levels: Levels, p: nat, keys: seq<string>, next: nat, scored: bool, sofar: Levels)
    requires keys != [] && IdsBelow(levels, next) && Holds(sofar, p, |keys| - 1, next)
    requires SaveRows(levels, p, NewRows(keys)[..|keys| - 1], next, scored) == Some(sofar)
    requires forall x :: x in sofar ==> x in levels || next <= x < next + |keys| - 1
    ensures var saved := SaveRows(levels, p, NewRows(keys), next, scored);
            && saved.Some? && Holds(saved.value, p, |keys|, next)
            && forall x :: x in saved.value ==> x in levels || next <= x < next + |keys|
  {
    var n := |keys| - 1;
    NewRowFits(sofar, p, n, next, scored, NewRows(keys)[n]);
    LastNewRow(levels, p, keys, next, scored, sofar);
  }

  lemma {:induction false} NewRowsAreSaved(levels: Levels, p: nat, keys: seq<string>, next: nat, scored: bool)
    requires IdsBelow(levels, next) && forall x :: x in levels ==> levels[x].profile != p
    ensures var saved := SaveRows(levels, p, NewRows(keys), next, scored);
            && saved.Some? && Holds(saved.value, p, |keys|, next)
            && forall x :: x in saved.value ==> x in levels || next <= x < next + |keys|
  {
    if keys != [] {
      var n := |keys| - 1;
      var rows := NewRows(keys);
      assert rows[..n] == NewRows(keys[..n]);
      NewRowsAreSaved(levels, p, keys[..n], next, scored);
      OneMoreNewRow(levels, p, keys, next, scored, SaveRows(levels, p, rows[..n], next, scored).value);
    }
  }

  lemma KnownRowFits(levels: Levels, p: nat, n: nat, first: nat, scored: bool, i: nat)
    requires Holds(levels, p, n, first) && i < n
    ensures SaveRow(levels, p, KnownRows(n, first)[i], 0, scored) == Some(levels)
  {
    var x := first + i;
    assert levels[x] == LevelAt(p, i);
    forall y | y in levels && y != x && levels[y].profile == p
      ensures levels[y].code != levels[x].code && levels[y].score != levels[x].score
    {
      assert levels[y] == LevelAt(p, y - first);
      PrintIsInjective(y - first, i);
    }
    assert !Conflict(levels, x, LevelAt(p, i), scored);
    assert levels[x := levels[x]] == levels;
  }

  lemma {:induction false} KnownRowsAreSaved(levels: Levels, p: nat, n: nat, first: nat, next: nat, scored: bool,
                                             k: nat)
    requires Holds(levels, p, n, first) && k <= n
    ensures SaveRows(levels, p, KnownRows(n, first)[..k], next, scored) == Some(levels)
  {
    if k > 0 {
      var rows := KnownRows(n, first);
      KnownRowsAreSaved(levels, p, n, first, next, scored, k - 1);
      assert rows[..k][..k - 1] == rows[..k - 1] && rows[..k][k - 1] == rows[k - 1];
      KnownRowFits(levels, p, n, first, scored, k - 1);
    }
  }

  lemma RetireNone(levels: Levels, p: nat, n: nat, first: nat, kept: set<nat>)
    requires Holds(levels, p, n, first) && forall x :: first <= x < first + n ==> x in kept
    ensures Retire(levels, p, kept) == levels
  {
  }

  lemma NewRowsSync(levels: Levels, p: nat, keys: seq<string>, next: nat, scored: bool)
    requires IdsBelow(levels, next) && forall x :: x in levels ==> levels[x].profile != p
    ensures var saved := Sync(levels, p, NewRows(keys), next, scored);
            saved.Some? && Holds(saved.value, p, |keys|, next)
  {
    NewRowsAreSaved(levels, p, keys, next, scored);
    var ids := RowIds(NewRows(keys), next);
    forall x | next <= x < next + |keys| ensures x in Elements(ids) {
      assert ids[x - next] == x;
    }
    var saved := SaveRows(levels, p, NewRows(keys), next, scored).value;
    RetireNone(saved, p, |keys|, next, Elements(ids));
  }

  lemma KnownRowsSync(levels: Levels, p: nat, n: nat, first: nat, next: nat, scored: bool)
    requires Holds(levels, p, n, first)
    ensures Sync(levels, p, KnownRows(n, first), next, scored) == Some(levels)
  {
    var rows := KnownRows(n, first);
    KnownRowsAreSaved(levels, p, n, first, next, scored, n);
    assert rows[..n] == rows;
    var ids := RowIds(rows, next);
    forall x | first <= x < first + n ensures x in Elements(ids) {
      assert ids[x - first] == x;
    }
    RetireNone(levels, p, n, first, Elements(ids));
  }

  /** Every pair of levels gets the one priority. */
  function Uniform(cs: seq<Row>, ls: seq<Row>, priority: Row): map<string, map<string, string>> {
    map c | c in Elements(Identities(cs)) :: map l | l in Elements(Identities(ls)) :: Identity(priority)
  }

  function DataOf(isDefault: bool, isEnabled: bool, levels: seq<Row>, priority: Row): Data {
    Data(isDefault, isEnabled, "", levels, levels, [priority], Uniform(levels, levels, priority), true)
  }

  predicate KeysOk(keys: seq<string>) {
    |keys| == 4 && Distinct(keys) && "" !in keys
  }

  function NewCall(isDefault: bool, isEnabled: bool, keys: seq<string>): Call
    requires KeysOk(keys)
  {
    Call(None, None, DataOf(isDefault, isEnabled, NewRows(keys), NewRows(keys)[0]), false)
  }

  function AgainCall(p: nat, loaded: Profile, isDefault: bool, isEnabled: bool, first: nat): Call {
    Call(Some(p), Some(loaded), DataOf(isDefault, isEnabled, KnownRows(4, first), KnownRows(4, first)[0]), false)
  }

  ghost predicate Carries(s: State, p: nat, first: nat) {
    Holds(s.consequences, p, 4, first) && Holds(s.likelihoods, p, 4, first) && Holds(s.priorities, p, 1, first)
  }

  lemma UniformIsOk(isDefault: bool, isEnabled: bool, levels: seq<Row>, priority: Row)
    ensures MatrixOk(DataOf(isDefault, isEnabled, levels, priority))
  {
    assert Identities([priority])[0] == Identity(priority);
  }

  lemma NewDataOk(s: State, isDefault: bool, isEnabled: bool, keys: seq<string>)
    requires KeysOk(keys)
    ensures DataOk(NewCall(isDefault, isEnabled, keys).data, s, None)
  {
    var rows := NewRows(keys);
    assert Identities(rows) == keys;
    assert Identities([rows[0]]) == [keys[0]];
    UniformIsOk(isDefault, isEnabled, rows, rows[0]);
  }

  lemma KnownIdentities(n: nat, first: nat)
    ensures IdentitiesOk(KnownRows(n, first))
  {
    var ids := Identities(KnownRows(n, first));
    forall i | 0 <= i < n ensures ids[i] != "" && ids[i] == N.Print(first + i) {
      N.NumberOfPrint(first + i);
    }
    forall i, j | 0 <= i < j < n ensures ids[i] != ids[j] {
      PrintIsInjective(first + i, first + j);
    }
  }

  lemma AgainDataOk(s: State, p: nat, loaded: Profile, isDefault: bool, isEnabled: bool, first: nat)
    requires Carries(s, p, first)
    ensures DataOk(AgainCall(p, loaded, isDefault, isEnabled, first).data, s, Some(p))
  {
    var rows := KnownRows(4, first);
    KnownIdentities(4, first);
    KnownIdentities(1, first);
    assert KnownRows(1, first) == [rows[0]];
    UniformIsOk(isDefault, isEnabled, rows, rows[0]);
  }

  lemma AcceptedIs(s: State, call: Call, cs: Levels, ls: Levels, ps: Levels)
    requires CallOk(s, call) && DataOk(call.data, s, call.profile) && FlagsOk(call.data, call.loaded, call.isActive)
    requires Sync(s.consequences, Target(s, call), call.data.consequences, s.nextId + 1, true) == Some(cs)
    requires Sync(s.likelihoods, Target(s, call), call.data.likelihoods, s.nextId + 1, true) == Some(ls)
    requires Sync(s.priorities, Target(s, call), call.data.priorities, s.nextId + 1, false) == Some(ps)
    ensures Save(s, call).Some?
    ensures var t := Save(s, call).value;
            && t.profiles == SavedProfiles(s.profiles, Target(s, call), call.loaded, call.data)
            && t.consequences == cs && t.likelihoods == ls && t.priorities == ps
            && t.nextId == s.nextId + 1 + |call.data.consequences| + |call.data.likelihoods| + |call.data.priorities|
  {
  }

  lemma NewIsAccepted(s: State, isDefault: bool, isEnabled: bool, keys: seq<string>)
    requires StateOk(s) && KeysOk(keys) && (isDefault ==> isEnabled)
    ensures var call := NewCall(isDefault, isEnabled, keys);
            && Save(s, call).Some?
            && var after := Save(s, call).value;
            && after.profiles == SavedProfiles(s.profiles, s.nextId, None, call.data)
            && Carries(after, s.nextId, s.nextId + 1)
            && after.nextId == s.nextId + 10
  {
    var p, next, call := s.nextId, s.nextId + 1, NewCall(isDefault, isEnabled, keys);
    NewDataOk(s, isDefault, isEnabled, keys);
    NewRowsSync(s.consequences, p, keys, next, true);
    NewRowsSync(s.likelihoods, p, keys, next, true);
    NewRowsSync(s.priorities, p, keys[..1], next, false);
    assert NewRows(keys[..1]) == [NewRows(keys)[0]];
    AcceptedIs(s, call, Sync(s.consequences, p, call.data.consequences, next, true).value,
               Sync(s.likelihoods, p, call.data.likelihoods, next, true).value,
               Sync(s.priorities, p, call.data.priorities, next, false).value);
  }

  lemma AgainIsAccepted(s: State, p: nat, loaded: Profile, isDefault: bool, isEnabled: bool, first: nat)
    requires p in s.profiles && Carries(s, p, first) && (isDefault ==> isEnabled) && (loaded.isDefault ==> isDefault)
    ensures var call := AgainCall(p, loaded, isDefault, isEnabled, first);
            && Save(s, call).Some?
            && Save(s, call).value.profiles == SavedProfiles(s.profiles, p, Some(loaded), call.data)
            && Carries(Save(s, call).value, p, first)
  {
    var next, call := s.nextId + 1, AgainCall(p, loaded, isDefault, isEnabled, first);
    AgainDataOk(s, p, loaded, isDefault, isEnabled, first);
    KnownRowsSync(s.consequences, p, 4, first, next, true);
    KnownRowsSync(s.likelihoods, p, 4, first, next, true);
    KnownRowsSync(s.priorities, p, 1, first, next, false);
    assert KnownRows(1, first) == [KnownRows(4, first)[0]];
    AcceptedIs(s, call, s.consequences, s.likelihoods, s.priorities);
  }

  lemma SameLevelsHold(a: Levels, b: Levels, p: nat, n: nat, first: nat)
    requires SameLevelsOf(a, b, p) && Holds(a, p, n, first)
    ensures Holds(b, p, n, first)
  {
    assert forall x :: first <= x < first + n ==> a[x].profile == p;
  }

  lemma OthersAreCarried(s: State, call: Call, q: nat, first: nat)
    requires StateOk(s) && Save(s, call).Some? && q != Target(s, call) && Carries(s, q, first)
    ensures Carries(Save(s, call).value, q, first)
  {
    var p, next, data := Target(s, call), s.nextId + 1, call.data;
    SyncKeepsOtherProfile(s.consequences, p, data.consequences, next, true, call.profile, q);
    SyncKeepsOtherProfile(s.likelihoods, p, data.likelihoods, next, true, call.profile, q);
    SyncKeepsOtherProfile(s.priorities, p, data.priorities, next, false, call.profile, q);
    SameLevelsHold(s.consequences, Sync(s.consequences, p, data.consequences, next, true).value, q, 4, first);
    SameLevelsHold(s.likelihoods, Sync(s.likelihoods, p, data.likelihoods, next, true).value, q, 4, first);
    SameLevelsHold(s.priorities, Sync(s.priorities, p, data.priorities, next, false).value, q, 1, first);
  }

  // ---------- runs that break the promise ----------

  lemma RunOneMore(s: State, calls: seq<Call>, call: Call)
    ensures Run(s, calls + [call]) == SaveOrSkip(Run(s, calls), call)
  {
    assert (calls + [call])[..|calls|] == calls;
  }

  lemma RunOfThree(s: State, a: Call, b: Call, c: Call)
    ensures Run(s, [a, b]) == SaveOrSkip(SaveOrSkip(s, a), b)
    ensures Run(s, [a, b, c]) == SaveOrSkip(SaveOrSkip(SaveOrSkip(s, a), b), c)
  {
    RunOneMore(s, [], a);
    RunOneMore(s, [a], b);
    RunOneMore(s, [a, b], c);
    assert [] + [a] == [a] && [a] + [b] == [a, b] && [a, b] + [c] == [a, b, c];
  }

  lemma ThreeSaves(s: State, a: Call, b: Call, c: Call, s1: State, s2: State, s3: State)
    requires Save(s, a) == Some(s1) && Save(s1, b) == Some(s2) && Save(s2, c) == Some(s3)
    ensures Run(s, [a, b]) == s2 && Run(s, [a, b, c]) == s3
  {
    RunOfThree(s, a, b, c);
  }

  lemma FirstProfileIs(profiles: map<nat, Profile>, id: nat, data: Data)
    requires profiles == map[] && data.content == ""
    ensures SavedProfiles(profiles, id, None, data) == map[id := Profile(data.isDefault, data.isEnabled, "")]
  {
  }

  /** A call about a profile, from a page that loaded it like this, that asks for these flags. */
  predicate Asks(call: Call, profile: Option<nat>, loaded: Option<Profile>, isDefault: bool, isEnabled: bool) {
    && call.profile == profile && call.loaded == loaded
    && call.data.isDefault == isDefault && call.data.isEnabled == isEnabled && call.data.content == ""
  }

  lemma SavedStateOk(s: State, call: Call, t: State)
    requires StateOk(s) && Save(s, call) == Some(t)
    ensures StateOk(t)
  {
    SaveKeepsState(s, call);
  }

  lemma NewIsSaved(s: State, isDefault: bool, isEnabled: bool, keys: seq<string>) returns (call: Call, t: State)
    requires StateOk(s) && KeysOk(keys) && (isDefault ==> isEnabled)
    ensures Asks(call, None, None, isDefault, isEnabled) && Save(s, call) == Some(t) && StateOk(t)
    ensures t.profiles == SavedProfiles(s.profiles, s.nextId, None, call.data)
    ensures Carries(t, s.nextId, s.nextId + 1) && t.nextId == s.nextId + 10
  {
    call := NewCall(isDefault, isEnabled, keys);
    NewIsAccepted(s, isDefault, isEnabled, keys);
    t := Save(s, call).value;
    SavedStateOk(s, call, t);
  }

  lemma AgainIsSaved(s: State, p: nat, loaded: Profile, isDefault: bool, isEnabled: bool, first: nat)
    returns (call: Call, t: State)
    requires p in s.profiles && Carries(s, p, first) && (isDefault ==> isEnabled) && (loaded.isDefault ==> isDefault)
    ensures Asks(call, Some(p), Some(loaded), isDefault, isEnabled) && Save(s, call) == Some(t) && Carries(t, p, first)
    ensures t.profiles == SavedProfiles(s.profiles, p, Some(loaded), call.data)
  {
    call := AgainCall(p, loaded, isDefault, isEnabled, first);
    AgainIsAccepted(s, p, loaded, isDefault, isEnabled, first);
    t := Save(s, call).value;
  }

  /** The first profile ever created, with these flags. */
  lemma FirstProfile(s: State, isDefault: bool, isEnabled: bool, keys: seq<string>) returns (call: Call, t: State)
    requires StateOk(s) && s.profiles == map[] && KeysOk(keys) && (isDefault ==> isEnabled)
    ensures Asks(call, None, None, isDefault, isEnabled) && Save(s, call) == Some(t) && StateOk(t)
    ensures t.profiles == map[s.nextId := Profile(isDefault, isEnabled, "")]
    ensures Carries(t, s.nextId, s.nextId + 1) && t.nextId == s.nextId + 10
  {
    call, t := NewIsSaved(s, isDefault, isEnabled, keys);
    FirstProfileIs(s.profiles, s.nextId, call.data);
  }

  lemma OneProfileIs(profiles: map<nat, Profile>, stored: Profile, loaded: Profile, data: Data)
    requires profiles == map[0 := stored] && stored.content == "" == loaded.content && data.content == ""
    ensures SavedProfiles(profiles, 0, Some(loaded), data) ==
            map[0 := Profile(Written(stored.isDefault, loaded.isDefault, data.isDefault),
                             Written(stored.isEnabled, loaded.isEnabled, data.isEnabled), "")]
  {
  }

  lemma SaveAgain(s: State, stored: Profile, loaded: Profile, isDefault: bool, isEnabled: bool)
    returns (call: Call, t: State)
    requires s.profiles == map[0 := stored] && stored.content == "" == loaded.content && Carries(s, 0, 1)
    requires (isDefault ==> isEnabled) && (loaded.isDefault ==> isDefault)
    ensures Asks(call, Some(0), Some(loaded), isDefault, isEnabled) && Save(s, call) == Some(t) && Carries(t, 0, 1)
    ensures t.profiles == map[0 := Profile(Written(stored.isDefault, loaded.isDefault, isDefault),
                                           Written(stored.isEnabled, loaded.isEnabled, isEnabled), "")]
  {
    call, t := AgainIsSaved(s, 0, loaded, isDefault, isEnabled, 1);
    OneProfileIs(s.profiles, stored, loaded, call.data);
  }

  lemma DisabledDefault(profiles: map<nat, Profile>)
    requires profiles == map[0 := Profile(true, false, "")]
    ensures !DefaultOk(profiles)
  {
    assert 0 in profiles;
  }

  /**
    The default is left disabled: the profile is disabled, and then saved from a
    page that loaded it enabled, as the enabled default.
   */
  lemma StaleCopyDisablesDefault(keys: seq<string>) returns (created: Call, disabled: Call, stale: Call)
    requires KeysOk(keys)
    ensures Asks(created, None, None, false, true)
    ensures Asks(disabled, Some(0), Some(Profile(false, true, "")), false, false)
    ensures Asks(stale, Some(0), Some(Profile(false, true, "")), true, true)
    ensures !DefaultOk(Run(EMPTY, [created, disabled, stale]).profiles)
  {
    var s1, s2, s3;
    created, s1 := FirstProfile(EMPTY, false, true, keys);
    disabled, s2 := SaveAgain(s1, Profile(false, true, ""), Profile(false, true, ""), false, false);
    stale, s3 := SaveAgain(s2, Profile(false, false, ""), Profile(false, true, ""), true, true);
    ThreeSaves(EMPTY, created, disabled, stale, s1, s2, s3);
    DisabledDefault(s3.profiles);
  }

  lemma SecondDefaultIs(profiles: map<nat, Profile>, data: Data)
    requires profiles == map[0 := Profile(true, true, "")] && data.isDefault && data.isEnabled && data.content == ""
    ensures SavedProfiles(profiles, 10, None, data) == map[0 := Profile(false, true, ""), 10 := Profile(true, true, "")]
  {
  }

  lemma SecondDefault(s: State, keys: seq<string>) returns (call: Call, t: State)
    requires StateOk(s) && KeysOk(keys) && s.profiles == map[0 := Profile(true, true, "")] && s.nextId == 10
    requires Carries(s, 0, 1)
    ensures Asks(call, None, None, true, true) && Save(s, call) == Some(t) && Carries(t, 0, 1)
    ensures t.profiles == map[0 := Profile(false, true, ""), 10 := Profile(true, true, "")]
  {
    call, t := NewIsSaved(s, true, true, keys);
    OthersAreCarried(s, call, 0, 1);
    SecondDefaultIs(s.profiles, call.data);
  }

  lemma FirstAgainIs(profiles: map<nat, Profile>, loaded: Profile, data: Data)
    requires profiles == map[0 := Profile(false, true, ""), 10 := Profile(true, true, "")]
    requires loaded == Profile(true, true, "") && data.isDefault && data.isEnabled && data.content == ""
    ensures HasDefault(profiles) && !HasDefault(SavedProfiles(profiles, 0, Some(loaded), data))
  {
    assert profiles[10].isDefault;
  }

  lemma FirstAgain(s: State, loaded: Profile) returns (call: Call, t: State)
    requires s.profiles == map[0 := Profile(false, true, ""), 10 := Profile(true, true, "")] && Carries(s, 0, 1)
    requires loaded == Profile(true, true, "")
    ensures Asks(call, Some(0), Some(loaded), true, true) && Save(s, call) == Some(t)
    ensures HasDefault(s.profiles) && !HasDefault(t.profiles)
  {
    call, t := AgainIsSaved(s, 0, loaded, true, true, 1);
    FirstAgainIs(s.profiles, loaded, call.data);
  }

  /**
    No default is left: a second profile becomes the default, and then the first
    is saved from a page that loaded it while it was.
   */
  lemma StaleCopyDropsDefault(keys: seq<string>) returns (first: Call, second: Call, stale: Call)
    requires KeysOk(keys)
    ensures Asks(first, None, None, true, true) && Asks(second, None, None, true, true)
    ensures Asks(stale, Some(0), Some(Profile(true, true, "")), true, true)
    ensures HasDefault(Run(EMPTY, [first, second]).profiles) && !HasDefault(Run(EMPTY, [first, second, stale]).profiles)
  {
    var s1, s2, s3;
    first, s1 := FirstProfile(EMPTY, true, true, keys);
    second, s2 := SecondDefault(s1, keys);
    stale, s3 := FirstAgain(s2, Profile(true, true, ""));
    ThreeSaves(EMPTY, first, second, stale, s1, s2, s3);
  }
}
