/**
  Backup retention: one greedy pass over the backups, newest file name first,
  against the rule it stands for.
 */
module Retention {
  import opened Wrappers
  import opened SetFacts

  /** Calendar keys of a file name's date; the week is the ISO 8601 week date (ISO 8601-1:2019, section 5.2.4). */
  datatype Keys = Keys(day: int, week: int, month: int)

  /** `name` is the rank of the file name; a name whose date cannot be read has no keys. */
  datatype Backup = Backup(name: nat, date: Option<Keys>)

  datatype Kind = Day | Week | Month

  datatype Limits = Limits(daily: int, weekly: int, monthly: int)

  function Key(b: Backup, kind: Kind): int
    requires b.date.Some?
  {
    match kind
    case Day => b.date.value.day
    case Week => b.date.value.week
    case Month => b.date.value.month
  }

  function LimitOf(limits: Limits, kind: Kind): int {
    match kind
    case Day => limits.daily
    case Week => limits.weekly
    case Month => limits.monthly
  }

  /** Names identify files, and a later name never has an earlier day, week or month. */
  predicate InOrder(x: Backup, y: Backup) {
    && (x.name == y.name ==> x == y)
    && (x.name > y.name && x.date.Some? && y.date.Some? ==>
          && Key(x, Day) >= Key(y, Day) && Key(x, Week) >= Key(y, Week) && Key(x, Month) >= Key(y, Month))
  }

  ghost predicate WellNamed(files: set<Backup>) {
    forall x, y {:trigger InOrder(x, y)} :: x in files && y in files ==> InOrder(x, y)
  }

  // ---------- the rule ----------

  function KeysOf(files: set<Backup>, kind: Kind): set<int> {
    set b | b in files && b.date.Some? :: Key(b, kind)
  }

  function Above(keys: set<int>, k: int): set<int> {
    set x | x in keys && x > k
  }

  ghost predicate NewestOfItsKey(files: set<Backup>, kind: Kind, b: Backup) {
    && b in files && b.date.Some?
    && forall x :: x in files && x.date.Some? && Key(x, kind) == Key(b, kind) ==> x.name <= b.name
  }

  /** The newest file of one of the newest `limit` days, weeks or months. */
  ghost predicate KeptBy(files: set<Backup>, limits: Limits, kind: Kind, b: Backup) {
    NewestOfItsKey(files, kind, b) && |Above(KeysOf(files, kind), Key(b, kind))| < LimitOf(limits, kind)
  }

  ghost predicate Kept(files: set<Backup>, limits: Limits, b: Backup) {
    KeptBy(files, limits, Day, b) || KeptBy(files, limits, Week, b) || KeptBy(files, limits, Month, b)
  }

  ghost function KeepSet(files: set<Backup>, limits: Limits): set<Backup> {
    set b | b in files && Kept(files, limits, b)
  }

  ghost function KeptOfKind(files: set<Backup>, limits: Limits, kind: Kind): set<Backup> {
    set b | b in files && KeptBy(files, limits, kind, b)
  }

  function Capacity(limit: int): nat {
    if limit < 0 then 0 else limit
  }

  /** The rule in terms of days, weeks and months and their three limits. */
  lemma KeptExactly(files: set<Backup>, limits: Limits, b: Backup)
    requires b in files && b.date.Some?
    ensures var d := b.date.value;
            b in KeepSet(files, limits) <==>
              || (&& (forall x :: x in files && x.date.Some? && x.date.value.day == d.day ==> x.name <= b.name)
                  && |set x | x in files && x.date.Some? &&
                    x.date.value.day > d.day :: x.date.value.day| < limits.daily)
              || (&& (forall x :: x in files && x.date.Some? && x.date.value.week == d.week ==> x.name <= b.name)
                  && |set x | x in files && x.date.Some? &&
                    x.date.value.week > d.week :: x.date.value.week| < limits.weekly)
              || (&& (forall x :: x in files && x.date.Some? && x.date.value.month == d.month ==> x.name <= b.name)
                  && |set x | x in files && x.date.Some? &&
                    x.date.value.month > d.month :: x.date.value.month| < limits.monthly)
  {
    var d := b.date.value;
    assert Above(KeysOf(files, Day), d.day) ==
             set x | x in files && x.date.Some? && x.date.value.day > d.day :: x.date.value.day;
    assert Above(KeysOf(files, Week), d.week) ==
             set x | x in files && x.date.Some? && x.date.value.week > d.week :: x.date.value.week;
    assert Above(KeysOf(files, Month), d.month) ==
             set x | x in files && x.date.Some? && x.date.value.month > d.month :: x.date.value.month;
  }

  // ---------- what the rule keeps ----------

  lemma {:induction false} NewestExists(files: set<Backup>, kind: Kind, k: int)
    requires k in KeysOf(files, kind)
    ensures exists b :: NewestOfItsKey(files, kind, b) && Key(b, kind) == k
    decreases |files|
  {
    var b :| b in files && b.date.Some? && Key(b, kind) == k;
    var rest := files - {b};
    if k in KeysOf(rest, kind) {
      NewestExists(rest, kind, k);
      var n :| NewestOfItsKey(rest, kind, n) && Key(n, kind) == k;
      assert NewestOfItsKey(files, kind, if n.name >= b.name then n else b);
    } else {
      assert forall x :: x in rest && x.date.Some? ==> Key(x, kind) in KeysOf(rest, kind);
      assert NewestOfItsKey(files, kind, b);
    }
  }

  lemma SomeElement(s: set<int>)
    ensures s == {} || exists x: int :: x in s
  {
    if !exists x: int :: x in s {
      assert s == {};
    }
  }

  lemma {:induction false} MaxExists(s: set<int>)
    requires s != {}
    ensures exists m :: m in s && forall x :: x in s ==> x <= m
    decreases |s|
  {
    SomeElement(s);
    var x: int :| x in s;
    var rest := s - {x};
    if rest != {} {
      MaxExists(rest);
      var m :| m in rest && forall y :: y in rest ==> y <= m;
      assert forall y :: y in s ==> y == x || y in rest;
      assert (if m > x then m else x) in s;
    } else {
      assert forall y :: y in s ==> y == x;
    }
  }

  /** The elements of a set with fewer than `n` greater ones. */
  function Top(s: set<int>, n: int): set<int> {
    set x | x in s && |Above(s, x)| < n
  }

  lemma TopOfRest(s: set<int>, m: int, n: nat, x: int)
    requires m in s && n > 0 && x in Top(s - {m}, n - 1) && forall y :: y in s ==> y <= m
    ensures x in Top(s, n)
  {
    assert Above(s, x) == Above(s - {m}, x) + {m};
  }

  lemma {:induction false} TopIsFull(s: set<int>, n: nat)
    requires |s| >= n
    ensures |Top(s, n)| >= n
    decreases n
  {
    if n > 0 {
      MaxExists(s);
      var m :| m in s && forall x :: x in s ==> x <= m;
      var rest := s - {m};
      TopIsFull(rest, n - 1);
      assert Above(s, m) == {};
      forall x | x in Top(rest, n - 1) ensures x in Top(s, n) {
        TopOfRest(s, m, n, x);
      }
      SubsetSize(Top(rest, n - 1) + {m}, Top(s, n));
    }
  }

  lemma {:induction false} MinExists(s: set<int>)
    requires s != {}
    ensures exists m :: m in s && forall x :: x in s ==> m <= x
    decreases |s|
  {
    SomeElement(s);
    var x: int :| x in s;
    var rest := s - {x};
    if rest != {} {
      MinExists(rest);
      var m :| m in rest && forall y :: y in rest ==> m <= y;
      assert forall y :: y in s ==> y == x || y in rest;
      assert (if m < x then m else x) in s;
    } else {
      assert forall y :: y in s ==> y == x;
    }
  }

  lemma {:induction false} KeysCount(files: set<Backup>, kind: Kind)
    requires forall x :: x in files ==> x.date.Some?
    requires forall x, y :: x in files && y in files && x != y ==> Key(x, kind) != Key(y, kind)
    ensures |KeysOf(files, kind)| == |files|
    decreases |files|
  {
    if files != {} {
      var b :| b in files;
      var rest := files - {b};
      KeysCount(rest, kind);
      assert KeysOf(files, kind) == KeysOf(rest, kind) + {Key(b, kind)};
    }
  }

  lemma KeptOfKindAreNewest(files: set<Backup>, limits: Limits, kind: Kind, x: Backup, y: Backup)
    requires WellNamed(files)
    requires KeptBy(files, limits, kind, x) && KeptBy(files, limits, kind, y) && Key(x, kind) == Key(y, kind)
    ensures x == y
  {
    assert x.name <= y.name && y.name <= x.name;
    assert InOrder(x, y);
  }

  /** Every one of the newest days, weeks or months keeps exactly one file for itself, its newest. */
  lemma EachRecentKeyKeepsOneFile(files: set<Backup>, limits: Limits, kind: Kind, k: int)
    requires WellNamed(files)
    requires k in KeysOf(files, kind) && |Above(KeysOf(files, kind), k)| < LimitOf(limits, kind)
    ensures exists b :: b in KeepSet(files, limits) && KeptBy(files, limits, kind, b) && Key(b, kind) == k
                        && forall x :: KeptBy(files, limits, kind, x) && Key(x, kind) == k ==> x == b
  {
    NewestExists(files, kind, k);
    var b :| NewestOfItsKey(files, kind, b) && Key(b, kind) == k;
    assert KeptBy(files, limits, kind, b);
    forall x | KeptBy(files, limits, kind, x) && Key(x, kind) == k ensures x == b {
      KeptOfKindAreNewest(files, limits, kind, x, b);
    }
    assert b in KeepSet(files, limits);
  }

  lemma LeastKept(files: set<Backup>, limits: Limits, kind: Kind, keys: set<int>, m: int)
    requires keys == KeysOf(KeptOfKind(files, limits, kind), kind)
    requires m in keys && forall x :: x in keys ==> m <= x
    ensures |keys| <= LimitOf(limits, kind)
  {
    var b :| b in KeptOfKind(files, limits, kind) && b.date.Some? && Key(b, kind) == m;
    assert KeptBy(files, limits, kind, b);
    SubsetSize(keys - {m}, Above(KeysOf(files, kind), m));
  }

  /** Each kind keeps no more files than its limit. */
  lemma KindKeepsAtMostItsLimit(files: set<Backup>, limits: Limits, kind: Kind)
    requires WellNamed(files)
    ensures |KeptOfKind(files, limits, kind)| <= Capacity(LimitOf(limits, kind))
  {
    var kept := KeptOfKind(files, limits, kind);
    var keys := KeysOf(kept, kind);
    forall x, y | x in kept && y in kept && x != y ensures Key(x, kind) != Key(y, kind) {
      if Key(x, kind) == Key(y, kind) {
        KeptOfKindAreNewest(files, limits, kind, x, y);
      }
    }
    KeysCount(kept, kind);
    if keys != {} {
      MinExists(keys);
      var m :| m in keys && forall x :: x in keys ==> m <= x;
      LeastKept(files, limits, kind, keys, m);
    }
  }

  /** At most D + W + M files survive. */
  lemma KeepsAtMostTheLimits(files: set<Backup>, limits: Limits)
    requires WellNamed(files)
    ensures |KeepSet(files, limits)| <= Capacity(limits.daily) + Capacity(limits.weekly) + Capacity(limits.monthly)
  {
    var d, w, m := KeptOfKind(files, limits, Day), KeptOfKind(files, limits, Week), KeptOfKind(files, limits, Month);
    KindKeepsAtMostItsLimit(files, limits, Day);
    KindKeepsAtMostItsLimit(files, limits, Week);
    KindKeepsAtMostItsLimit(files, limits, Month);
    assert KeepSet(files, limits) == d + w + m;
    assert |d + w| <= |d| + |w|;
    assert |d + w + m| <= |d + w| + |m|;
  }

  /** The newest backup survives whenever any limit is positive. */
  lemma NewestIsKept(files: set<Backup>, limits: Limits, b: Backup)
    requires WellNamed(files) && b in files && b.date.Some?
    requires forall x :: x in files && x.date.Some? ==> x.name <= b.name
    requires limits.daily > 0 || limits.weekly > 0 || limits.monthly > 0
    ensures b in KeepSet(files, limits)
  {
    forall kind ensures NewestOfItsKey(files, kind, b) && Above(KeysOf(files, kind), Key(b, kind)) == {} {
      forall x | x in files && x.date.Some? ensures Key(x, kind) <= Key(b, kind) {
        assert InOrder(b, x);
      }
    }
  }

  // ---------- stability ----------

  lemma KeysAboveSurvive(files: set<Backup>, remaining: set<Backup>, limits: Limits, kind: Kind, k: int)
    requires KeepSet(files, limits) <= remaining <= files
    requires LimitOf(limits, kind) >= 0 && |Above(KeysOf(files, kind), k)| >= LimitOf(limits, kind)
    ensures |Above(KeysOf(remaining, kind), k)| >= LimitOf(limits, kind)
  {
    var above := Above(KeysOf(files, kind), k);
    var top := Top(above, LimitOf(limits, kind));
    TopIsFull(above, LimitOf(limits, kind));
    forall g | g in top ensures g in Above(KeysOf(remaining, kind), k) {
      assert Above(KeysOf(files, kind), g) == Above(above, g);
      NewestExists(files, kind, g);
      var b :| NewestOfItsKey(files, kind, b) && Key(b, kind) == g;
      assert KeptBy(files, limits, kind, b);
      assert b in KeepSet(files, limits);
    }
    SubsetSize(top, Above(KeysOf(remaining, kind), k));
  }

  lemma KeptStaysKept(files: set<Backup>, remaining: set<Backup>, limits: Limits, kind: Kind, b: Backup)
    requires KeepSet(files, limits) <= remaining <= files && KeptBy(files, limits, kind, b)
    ensures KeptBy(remaining, limits, kind, b)
  {
    assert b in KeepSet(files, limits);
    SubsetSize(Above(KeysOf(remaining, kind), Key(b, kind)), Above(KeysOf(files, kind), Key(b, kind)));
  }

  lemma NothingNewIsKept(files: set<Backup>, remaining: set<Backup>, limits: Limits, kind: Kind, b: Backup)
    requires WellNamed(files) && KeepSet(files, limits) <= remaining <= files && KeptBy(remaining, limits, kind, b)
    ensures KeptBy(files, limits, kind, b)
  {
    var k := Key(b, kind);
    if LimitOf(limits, kind) <= |Above(KeysOf(files, kind), k)| {
      KeysAboveSurvive(files, remaining, limits, kind, k);
    }
    NewestExists(files, kind, k);
    var n :| NewestOfItsKey(files, kind, n) && Key(n, kind) == k;
    assert KeptBy(files, limits, kind, n);
    assert n in KeepSet(files, limits);
    assert InOrder(n, b);
  }

  lemma KindIsStable(files: set<Backup>, remaining: set<Backup>, limits: Limits, kind: Kind, b: Backup)
    requires WellNamed(files) && KeepSet(files, limits) <= remaining <= files
    ensures KeptBy(files, limits, kind, b) <==> KeptBy(remaining, limits, kind, b)
  {
    if KeptBy(files, limits, kind, b) {
      KeptStaysKept(files, remaining, limits, kind, b);
    }
    if KeptBy(remaining, limits, kind, b) {
      NothingNewIsKept(files, remaining, limits, kind, b);
    }
  }

  /**
    Whatever part of the superseded files is gone, the rule keeps the same files:
    pruning again, even after deletions that failed, chooses nothing else.
   */
  lemma KeepSetIsStable(files: set<Backup>, remaining: set<Backup>, limits: Limits)
    requires WellNamed(files) && KeepSet(files, limits) <= remaining <= files
    ensures KeepSet(remaining, limits) == KeepSet(files, limits)
  {
    forall b ensures b in KeepSet(remaining, limits) <==> b in KeepSet(files, limits) {
      KindIsStable(files, remaining, limits, Day, b);
      KindIsStable(files, remaining, limits, Week, b);
      KindIsStable(files, remaining, limits, Month, b);
    }
  }

  // ---------- the greedy pass ----------

  /** Newest name first. */
  ghost predicate Newest(backups: seq<Backup>) {
    forall i, j :: 0 <= i < j < |backups| ==> backups[i].name > backups[j].name
  }

  function Dated(backups: seq<Backup>): set<Backup> {
    set i | 0 <= i < |backups| :: backups[i]
  }

  /** The keys met in the first `n` files of the pass. */
  function Met(backups: seq<Backup>, n: nat, kind: Kind): set<int>
    requires n <= |backups|
  {
    KeysOf(Dated(backups[..n]), kind)
  }

  /** One of the three counters after `n` files: the keys met, until the limit is reached. */
  ghost predicate CounterOk(backups: seq<Backup>, n: nat, limits: Limits, kind: Kind, seen: set<int>)
    requires n <= |backups|
  {
    && seen <= Met(backups, n, kind)
    && (|seen| < LimitOf(limits, kind) ==> seen == Met(backups, n, kind))
  }

  ghost predicate CountersOk(backups: seq<Backup>, n: nat, limits: Limits, daily: set<int>, weekly: set<int>,
                             monthly: set<int>)
    requires n <= |backups|
  {
    && CounterOk(backups, n, limits, Day, daily)
    && CounterOk(backups, n, limits, Week, weekly)
    && CounterOk(backups, n, limits, Month, monthly)
  }

  lemma KeptAreFiles(files: set<Backup>, limits: Limits)
    ensures KeepSet(files, limits) <= files
  {
  }

  lemma OneMoreKept(files: set<Backup>, limits: Limits, some: set<Backup>, b: Backup)
    requires b in files
    ensures (some + {b}) * KeepSet(files, limits) ==
            some * KeepSet(files, limits) + if Kept(files, limits, b) then {b} else {}
  {
  }

  lemma OneMore(backups: seq<Backup>, n: nat)
    requires n < |backups|
    ensures Dated(backups[..n + 1]) == Dated(backups[..n]) + {backups[n]}
    ensures backups[n] in Dated(backups)
  {
    var s, t := backups[..n], backups[..n + 1];
    assert t[n] == backups[n];
    forall b | b in Dated(s) ensures b in Dated(t) {
      var i :| 0 <= i < |s| && s[i] == b;
      assert t[i] == b;
    }
  }

  lemma UndatedKeepsCounter(backups: seq<Backup>, n: nat, limits: Limits, kind: Kind, seen: set<int>)
    requires n < |backups| && backups[n].date.None? && CounterOk(backups, n, limits, kind, seen)
    ensures CounterOk(backups, n + 1, limits, kind, seen)
  {
    MetGrows(backups, n, kind);
  }

  /** A file without a date meets no key, so it moves no counter. */
  lemma UndatedChangesNothing(backups: seq<Backup>, n: nat, limits: Limits, daily: set<int>, weekly: set<int>,
                              monthly: set<int>)
    requires n < |backups| && backups[n].date.None? && CountersOk(backups, n, limits, daily, weekly, monthly)
    ensures CountersOk(backups, n + 1, limits, daily, weekly, monthly)
  {
    UndatedKeepsCounter(backups, n, limits, Day, daily);
    UndatedKeepsCounter(backups, n, limits, Week, weekly);
    UndatedKeepsCounter(backups, n, limits, Month, monthly);
  }

  lemma MetGrows(backups: seq<Backup>, n: nat, kind: Kind)
    requires n < |backups|
    ensures Met(backups, n + 1, kind) ==
            Met(backups, n, kind) + if backups[n].date.Some? then {Key(backups[n], kind)} else {}
  {
    OneMore(backups, n);
    assert backups[n] in Dated(backups[..n + 1]);
  }

  lemma LaterKeyIsMet(backups: seq<Backup>, n: nat, kind: Kind, k: int)
    requires WellNamed(Dated(backups)) && Newest(backups) && n < |backups| && backups[n].date.Some?
    requires k in KeysOf(Dated(backups), kind) && k > Key(backups[n], kind)
    ensures k in Met(backups, n, kind)
  {
    var x :| x in Dated(backups) && x.date.Some? && Key(x, kind) == k;
    var j :| 0 <= j < |backups| && backups[j] == x;
    assert backups[n] in Dated(backups);
    assert InOrder(backups[n], x);
    assert j < n;
    assert x == backups[..n][j];
  }

  lemma MetKeyIsLater(backups: seq<Backup>, n: nat, kind: Kind, k: int)
    requires WellNamed(Dated(backups)) && Newest(backups) && n < |backups| && backups[n].date.Some?
    requires k in Met(backups, n, kind)
    ensures k in KeysOf(Dated(backups), kind) && k >= Key(backups[n], kind)
  {
    var x :| x in Dated(backups[..n]) && x.date.Some? && Key(x, kind) == k;
    var j :| 0 <= j < n && backups[j] == x;
    assert x in Dated(backups) && backups[n] in Dated(backups);
    assert InOrder(x, backups[n]);
  }

  /** Apart from its own key, the keys met before a file are exactly the later ones. */
  lemma LaterKeysComeFirst(backups: seq<Backup>, n: nat, kind: Kind)
    requires Newest(backups) && WellNamed(Dated(backups)) && n < |backups| && backups[n].date.Some?
    ensures Met(backups, n, kind) - {Key(backups[n], kind)} ==
              Above(KeysOf(Dated(backups), kind), Key(backups[n], kind))
  {
    var keys, met, own := KeysOf(Dated(backups), kind), Met(backups, n, kind), Key(backups[n], kind);
    forall k ensures k in keys && k > own <==> k in met && k != own {
      if k in keys && k > own {
        LaterKeyIsMet(backups, n, kind, k);
      }
      if k in met {
        MetKeyIsLater(backups, n, kind, k);
      }
    }
  }

  /** A file is the newest of its key exactly when the pass has not met the key before it. */
  lemma NewestIsFirst(backups: seq<Backup>, n: nat, kind: Kind)
    requires Newest(backups) && n < |backups| && backups[n].date.Some?
    ensures NewestOfItsKey(Dated(backups), kind, backups[n]) <==> Key(backups[n], kind) !in Met(backups, n, kind)
  {
    var files, b := Dated(backups), backups[n];
    assert b in files;
    if Key(b, kind) in Met(backups, n, kind) {
      var x :| x in Dated(backups[..n]) && x.date.Some? && Key(x, kind) == Key(b, kind);
      var j :| 0 <= j < n && backups[j] == x;
      assert x in files && x.name > b.name;
    } else {
      forall x | x in files && x.date.Some? && Key(x, kind) == Key(b, kind) ensures x.name <= b.name {
        var j :| 0 <= j < |backups| && backups[j] == x;
        assert backups[j] !in Dated(backups[..n]);
        assert forall i :: 0 <= i < n ==> backups[..n][i] == backups[i];
      }
    }
  }

  /** The pass takes a file for a kind exactly when the rule keeps it for that kind. */
  lemma GreedyChoice(backups: seq<Backup>, n: nat, limits: Limits, kind: Kind, seen: set<int>)
    requires Newest(backups) && WellNamed(Dated(backups)) && n < |backups| && backups[n].date.Some?
    requires CounterOk(backups, n, limits, kind, seen)
    ensures (|seen| < LimitOf(limits, kind) && Key(backups[n], kind) !in seen) <==>
              KeptBy(Dated(backups), limits, kind, backups[n])
  {
    var met, key := Met(backups, n, kind), Key(backups[n], kind);
    LaterKeysComeFirst(backups, n, kind);
    NewestIsFirst(backups, n, kind);
    SubsetSize(seen, met);
    assert key !in met ==> met - {key} == met;
  }

  /** The files once the deletion of some has been tried. */
  function Remaining(all: set<Backup>, tried: set<Backup>, keep: set<Backup>, undeletable: set<Backup>): set<Backup> {
    all - (tried - keep - undeletable)
  }

  lemma TriesOneMore(all: set<Backup>, tried: set<Backup>, b: Backup, keep: set<Backup>, undeletable: set<Backup>)
    requires b in all && b !in tried
    ensures b in Remaining(all, tried, keep, undeletable)
    ensures Remaining(all, tried + {b}, keep, undeletable) ==
              Remaining(all, tried, keep, undeletable) - (if b in keep || b in undeletable then {} else {b})
  {
  }

  lemma AllTried(all: set<Backup>, keep: set<Backup>, undeletable: set<Backup>)
    requires keep <= all
    ensures Remaining(all, all, keep, undeletable) == keep + all * undeletable
  {
  }

  lemma ComesOnce(backups: seq<Backup>, n: nat)
    requires Newest(backups) && n < |backups|
    ensures backups[n] !in Dated(backups[..n])
  {
    assert forall i :: 0 <= i < n ==> backups[..n][i].name > backups[n].name;
  }

  class BackupDirectory {
    var files: set<Backup>

    /** `sortByDesc` on the file name */
    method SortByNameDescending() returns (backups: seq<Backup>)
      requires WellNamed(files)
      ensures Newest(backups) && Dated(backups) == files
    {
      backups := [];
      var rest := files;
      while rest != {}
        invariant rest <= files && Dated(backups) == files - rest
        invariant Newest(backups)
        invariant forall i, x :: 0 <= i < |backups| && x in rest ==> backups[i].name > x.name
        decreases rest
      {
        var newest :| newest in rest;
        var todo := rest - {newest};
        while todo != {}
          invariant todo <= rest && newest in rest
          invariant forall x :: x in rest - todo ==> x.name <= newest.name
          decreases todo
        {
          var x :| x in todo;
          assert InOrder(x, newest);
          if x.name > newest.name {
            newest := x;
          }
          todo := todo - {x};
        }
        forall x | x in rest ensures InOrder(x, newest) {
        }
        ghost var before := backups;
        backups := backups + [newest];
        rest := rest - {newest};
        assert Dated(backups) == Dated(before) + {newest} by {
          assert backups[|before|] == newest;
          forall b | b in Dated(before) ensures b in Dated(backups) {
            var i :| 0 <= i < |before| && before[i] == b;
            assert backups[i] == b;
          }
        }
      }
    }

    /** One of the three tests of the loop, with its counter. */
    method Take(backups: seq<Backup>, n: nat, limits: Limits, kind: Kind, seen: set<int>)
      returns (taken: bool, counter: set<int>)
      requires Newest(backups) && WellNamed(Dated(backups)) && n < |backups| && backups[n].date.Some?
      requires CounterOk(backups, n, limits, kind, seen)
      ensures taken <==> KeptBy(Dated(backups), limits, kind, backups[n])
      ensures CounterOk(backups, n + 1, limits, kind, counter)
    {
      GreedyChoice(backups, n, limits, kind, seen);
      MetGrows(backups, n, kind);
      taken := |seen| < LimitOf(limits, kind) && Key(backups[n], kind) !in seen;
      counter := if taken then seen + {Key(backups[n], kind)} else seen;
    }

    /** One round of the counting loop. */
    method TakeAny(backups: seq<Backup>, n: nat, limits: Limits, daily: set<int>, weekly: set<int>, monthly: set<int>)
      returns (kept: bool, days: set<int>, weeks: set<int>, months: set<int>)
      requires Newest(backups) && WellNamed(Dated(backups)) && n < |backups|
      requires CountersOk(backups, n, limits, daily, weekly, monthly)
      ensures kept <==> Kept(Dated(backups), limits, backups[n])
      ensures CountersOk(backups, n + 1, limits, days, weeks, months)
    {
      days, weeks, months := daily, weekly, monthly;
      if backups[n].date.None? {
        UndatedChangesNothing(backups, n, limits, daily, weekly, monthly);
        kept := false;
        return;
      }
      var byDay, byWeek, byMonth;
      byDay, days := Take(backups, n, limits, Day, daily);
      byWeek, weeks := Take(backups, n, limits, Week, weekly);
      byMonth, months := Take(backups, n, limits, Month, monthly);
      kept := byDay || byWeek || byMonth;
    }

    /** The counting loop of `handle`. */
    method Choose(backups: seq<Backup>, limits: Limits) returns (keep: set<Backup>)
      requires Newest(backups) && WellNamed(Dated(backups))
      ensures keep == KeepSet(Dated(backups), limits)
    {
      keep := {};
      var daily: set<int>, weekly: set<int>, monthly: set<int> := {}, {}, {};
      for n := 0 to |backups|
        invariant CountersOk(backups, n, limits, daily, weekly, monthly)
        invariant keep == Dated(backups[..n]) * KeepSet(Dated(backups), limits)
      {
        var kept;
        kept, daily, weekly, monthly := TakeAny(backups, n, limits, daily, weekly, monthly);
        OneMore(backups, n);
        OneMoreKept(Dated(backups), limits, Dated(backups[..n]), backups[n]);
        if kept {
          keep := keep + {backups[n]};
        }
      }
      KeptAreFiles(Dated(backups), limits);
      assert backups[..|backups|] == backups;
    }

    /** The deleting loop of `handle`; `undeletable` are the files whose deletion fails. */
    method DeleteSuperseded(backups: seq<Backup>, keep: set<Backup>, undeletable: set<Backup>) returns (deleted: nat)
      requires Newest(backups) && Dated(backups) == files && keep <= files
      modifies this
      ensures files == keep + old(files) * undeletable
      ensures deleted == |old(files)| - |files|
    {
      deleted := 0;
      for n := 0 to |backups|
        invariant files == Remaining(old(files), Dated(backups[..n]), keep, undeletable)
        invariant deleted == |old(files)| - |files|
      {
        OneMore(backups, n);
        ComesOnce(backups, n);
        TriesOneMore(old(files), Dated(backups[..n]), backups[n], keep, undeletable);
        var gone := DeleteOne(backups[n], keep, undeletable);
        deleted := deleted + gone;
      }
      assert backups[..|backups|] == backups;
      AllTried(old(files), keep, undeletable);
    }

    method DeleteOne(b: Backup, keep: set<Backup>, undeletable: set<Backup>) returns (gone: nat)
      requires b in files
      modifies this
      ensures files == old(files) - (if b in keep || b in undeletable then {} else {b})
      ensures gone == |old(files)| - |files|
    {
      gone := 0;
      if b !in keep && b !in undeletable {
        files := files - {b};
        gone := 1;
      }
    }

    /** `handle`: deletes exactly what the rule does not keep, as far as it can be deleted. */
    method Prune(limits: Limits, undeletable: set<Backup>) returns (deleted: nat)
      requires WellNamed(files)
      modifies this
      ensures files == Pruned(old(files), limits, undeletable)
      ensures undeletable == {} ==> files == KeepSet(old(files), limits)
      ensures deleted == |old(files)| - |files|
      ensures KeepSet(files, limits) == KeepSet(old(files), limits)
      ensures old(files) == KeepSet(old(files), limits) ==> deleted == 0 && files == old(files)
    {
      ghost var before := files;
      var backups := SortByNameDescending();
      var keep := Choose(backups, limits);
      KeptAreFiles(before, limits);
      deleted := DeleteSuperseded(backups, keep, undeletable);
      KeepSetIsStable(before, files, limits);
    }
  }

  /** What a prune leaves: the files the rule keeps, and those that cannot be deleted. */
  ghost function Pruned(files: set<Backup>, limits: Limits, undeletable: set<Backup>): set<Backup>
    requires WellNamed(files)
  {
    KeepSet(files, limits) + files * undeletable
  }

  /** A second prune, whatever could not be deleted in the first, finds nothing more that it can delete. */
  lemma PruningAgainChangesNothing(files: set<Backup>, limits: Limits, undeletable: set<Backup>)
    requires WellNamed(files)
    ensures WellNamed(Pruned(files, limits, undeletable))
    ensures Pruned(Pruned(files, limits, undeletable), limits, undeletable) == Pruned(files, limits, undeletable)
  {
    KeptAreFiles(files, limits);
    KeepSetIsStable(files, Pruned(files, limits, undeletable), limits);
  }

  /** A second prune, after one whose deletions all succeeded, finds nothing to delete. */
  lemma SecondPruneKeepsAll(files: set<Backup>, limits: Limits)
    requires WellNamed(files)
    ensures KeepSet(KeepSet(files, limits), limits) == KeepSet(files, limits)
  {
    KeepSetIsStable(files, KeepSet(files, limits), limits);
  }
}
