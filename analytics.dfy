// AnalyticsService: counting projections over the alert, delivery and preference
// stores. The three totals are lengths of `findAll()` snapshots; the snoozed
// counts and the severity breakdown each build a fresh `Map<string, number>` with
// a `forEach` loop that does `counts.set(key, (counts.get(key) || 0) + 1)` once
// per element. Those loops are methods proved against `Tally`, the same fold
// written as a function, and the lemmas below say what `Tally` computes: its
// keys are the keys that occur, in order of first occurrence, each with its
// number of occurrences, and the counts add up to the number of elements.
module Analytics {
  import opened Prelude
  import opened Domain
  import opened Tables
  import opened Repository

  // ------------------------------------------------------------------
  // Counting by key

  /** The sum of a sequence of counts. */
  function Sum(s: seq<nat>): nat
    decreases |s|
  {
    if s == [] then 0 else Sum(s[..|s| - 1]) + s[|s| - 1]
  }

  /** `counts.get(k) || 0`: a missing key reads as 0 (and a stored 0 would
      read as 0 as well). */
  function Prior(counts: Table<nat>, k: Id): nat {
    if k in counts.data then counts.data[k] else 0
  }

  /** `counts.set(k, (counts.get(k) || 0) + 1)`. */
  function Bump(counts: Table<nat>, k: Id): Table<nat> {
    counts.Set(k, Prior(counts, k) + 1)
  }

  /** The Map the `forEach` loop leaves behind after bumping each key of `ks`
      in turn, starting from an empty Map. */
  function Tally(ks: seq<Id>): (t: Table<nat>)
    ensures t.Valid()
    decreases |ks|
  {
    if ks == [] then Empty() else Bump(Tally(ks[..|ks| - 1]), ks[|ks| - 1])
  }

  function IsKey(k: Id): Id -> bool {
    (x: Id) => x == k
  }

  /** The number of times `k` occurs in `ks`. */
  function Count(ks: seq<Id>, k: Id): nat {
    |Filter(ks, IsKey(k))|
  }

  /** The distinct elements of `ks`, each at its first occurrence. */
  function FirstOccurrences(ks: seq<Id>): seq<Id>
    decreases |ks|
  {
    if ks == [] then []
    else
      var init := ks[..|ks| - 1];
      FirstOccurrences(init) + (if ks[|ks| - 1] in init then [] else [ks[|ks| - 1]])
  }

  lemma SumSnoc(s: seq<nat>, x: nat)
    ensures Sum(s + [x]) == Sum(s) + x
  {
    assert (s + [x])[..|s|] == s;
  }

  /** Replacing one count changes the sum by the difference. */
  lemma {:induction false} SumUpdate(s: seq<nat>, i: nat, v: nat)
    requires i < |s|
    ensures Sum(s[i := v]) + s[i] == Sum(s) + v
    decreases |s|
  {
    var n := |s|;
    var t := s[i := v];
    if i == n - 1 {
      assert t[..n - 1] == s[..n - 1];
    } else {
      SumUpdate(s[..n - 1], i, v);
      assert t[..n - 1] == s[..n - 1][i := v];
    }
  }

  /** One bump adds its key at the end of the order if it is new, raises its
      count by one, keeps every other count, and so adds one to the sum. */
  lemma BumpShape(t: Table<nat>, k: Id)
    requires t.Valid()
    ensures Bump(t, k).Valid()
    ensures Bump(t, k).data.Keys == t.data.Keys + {k}
    ensures Bump(t, k).order == t.order + (if k in t.data then [] else [k])
    ensures Bump(t, k).data[k] == Prior(t, k) + 1
    ensures forall j :: j in t.data && j != k ==> Bump(t, k).data[j] == t.data[j]
  {
  }

  lemma BumpSum(t: Table<nat>, k: Id)
    requires t.Valid()
    ensures Bump(t, k).Valid()
    ensures Sum(Bump(t, k).Values()) == Sum(t.Values()) + 1
  {
    if k in t.data {
      BumpExistingSum(t, k);
    } else {
      BumpNewSum(t, k);
    }
  }

  lemma BumpExistingSum(t: Table<nat>, k: Id)
    requires t.Valid() && k in t.data
    ensures Bump(t, k).Valid()
    ensures Sum(Bump(t, k).Values()) == Sum(t.Values()) + 1
  {
    SetExistingSum(t, k, Prior(t, k) + 1);
  }

  /** Overwriting a present count changes the sum by the difference. */
  lemma SetExistingSum(t: Table<nat>, k: Id, v: nat)
    requires t.Valid() && k in t.data
    ensures t.Set(k, v).Valid()
    ensures Sum(t.Set(k, v).Values()) + t.data[k] == Sum(t.Values()) + v
  {
    var i := SetExistingIsUpdate(t, k, v);
    SumUpdate(t.Values(), i, v);
  }

  lemma BumpNewSum(t: Table<nat>, k: Id)
    requires t.Valid() && k !in t.data
    ensures Bump(t, k).Valid()
    ensures Sum(Bump(t, k).Values()) == Sum(t.Values()) + 1
  {
    SetNewValues(t, k, 1);
    SumSnoc(t.Values(), 1);
  }

  /** The keys of the tally are the elements of `ks`, in order of their first
      occurrence. */
  lemma {:induction false} TallyKeys(ks: seq<Id>)
    ensures Tally(ks).data.Keys == set k | k in ks
    ensures Tally(ks).order == FirstOccurrences(ks)
    decreases |ks|
  {
    if ks != [] {
      var init, last := ks[..|ks| - 1], ks[|ks| - 1];
      assert ks == init + [last];
      TallyKeys(init);
      BumpShape(Tally(init), last);
      assert (set k | k in ks) == (set k | k in init) + {last};
    }
  }

  lemma {:induction false} CountAbsent(ks: seq<Id>, k: Id)
    requires k !in ks
    ensures Count(ks, k) == 0
    decreases |ks|
  {
    if ks != [] {
      var init := ks[..|ks| - 1];
      assert ks == init + [ks[|ks| - 1]];
      FilterSnoc(init, ks[|ks| - 1], IsKey(k));
      CountAbsent(init, k);
    }
  }

  lemma CountPresent(ks: seq<Id>, k: Id)
    requires k in ks
    ensures Count(ks, k) >= 1
  {
    assert k in Filter(ks, IsKey(k));
  }

  /** A key of the tally is mapped to its number of occurrences. */
  lemma {:induction false} TallyCountAt(ks: seq<Id>, k: Id)
    requires k in Tally(ks).data
    ensures Tally(ks).data[k] == Count(ks, k)
    decreases |ks|
  {
    var init, last := ks[..|ks| - 1], ks[|ks| - 1];
    assert ks == init + [last];
    var t := Tally(init);
    BumpShape(t, last);
    FilterSnoc(init, last, IsKey(k));
    if k != last || last in t.data {
      TallyCountAt(init, k);
    } else {
      TallyKeys(init);
      CountAbsent(init, k);
    }
  }

  /** Each key of the tally is mapped to its number of occurrences, which is
      at least 1. */
  lemma TallyCounts(ks: seq<Id>)
    ensures forall k :: k in Tally(ks).data ==> Tally(ks).data[k] == Count(ks, k) >= 1
  {
    TallyKeys(ks);
    forall k | k in Tally(ks).data ensures Tally(ks).data[k] == Count(ks, k) >= 1 {
      TallyCountAt(ks, k);
      CountPresent(ks, k);
    }
  }

  /** The counts add up to the number of elements counted. */
  lemma {:induction false} TallySum(ks: seq<Id>)
    ensures Sum(Tally(ks).Values()) == |ks|
    decreases |ks|
  {
    if ks != [] {
      var init, last := ks[..|ks| - 1], ks[|ks| - 1];
      TallySum(init);
      BumpSum(Tally(init), last);
    }
  }

  /** The loop's step: setting the next key to its count read as 0 when
      missing, plus one, tallies one more key. */
  lemma TallyStep(ks: seq<Id>, i: nat, counts: Table<nat>, count: nat)
    requires i < |ks| && counts == Tally(ks[..i])
    requires count == Prior(counts, ks[i])
    ensures counts.Set(ks[i], count + 1) == Tally(ks[..i + 1])
  {
    assert ks[..i + 1][..i] == ks[..i];
  }

  /** `x => key(x) === k`. */
  function KeyIs<T>(key: T -> Id, k: Id): T -> bool {
    (x: T) => key(x) == k
  }

  /** Counting the keys of some elements is counting the elements with that
      key. */
  lemma CountMapped<T(!new)>(s: seq<T>, key: T -> Id, k: Id)
    ensures Count(Map(s, key), k) == |Filter(s, KeyIs(key, k))|
  {
    MapFilter(s, key, KeyIs(key, k), IsKey(k));
  }

  lemma MappedKeys<T>(s: seq<T>, key: T -> Id)
    ensures (set k | k in Map(s, key)) == set x | x in s :: key(x)
  {
    var m := Map(s, key);
    forall k | k in m ensures k in set x | x in s :: key(x) {
      var i :| 0 <= i < |m| && m[i] == k;
      assert s[i] in s;
    }
    forall x | x in s ensures key(x) in m {
      var i :| 0 <= i < |s| && s[i] == x;
      assert m[i] == key(x);
    }
  }

  /** What tallying the keys of a sequence of elements produces: a valid Map
      whose keys are exactly the keys present, each mapped to the number of
      elements with that key (so at least 1), with counts summing to the
      number of elements. */
  lemma TallyOfKeys<T(!new)>(s: seq<T>, key: T -> Id)
    ensures var t := Tally(Map(s, key));
            && t.Valid()
            && t.data.Keys == (set x | x in s :: key(x))
            && (forall k :: k in t.data ==> t.data[k] == |Filter(s, KeyIs(key, k))| >= 1)
            && Sum(t.Values()) == |s|
  {
    var ks := Map(s, key);
    TallyKeys(ks);
    TallyCounts(ks);
    TallySum(ks);
    MappedKeys(s, key);
    forall k | k in Tally(ks).data ensures Tally(ks).data[k] == |Filter(s, KeyIs(key, k))| {
      CountMapped(s, key, k);
    }
  }

  // ------------------------------------------------------------------
  // The projections, as functions of the store snapshots

  /** `p => p.isRead`. */
  function IsRead(): UserAlertPreference -> bool {
    (p: UserAlertPreference) => p.isRead
  }

  /** `p => p.snoozedUntil && p.snoozedUntil > now`: a `Date` is always truthy,
      so the first conjunct only rules out a missing value. */
  function IsSnoozed(now: Time): UserAlertPreference -> bool {
    (p: UserAlertPreference) => p.snoozedUntil.Some? && p.snoozedUntil.value > now
  }

  function AlertIdOf(): UserAlertPreference -> Id {
    (p: UserAlertPreference) => p.alertId
  }

  /** The severity string an alert is counted under. */
  function SeverityOf(): Alert -> Id {
    (a: Alert) => SeverityName(a.severity)
  }

  /** `getSnoozedCounts()` over the preference snapshot at `now`. */
  function SnoozedCounts(prefs: seq<UserAlertPreference>, now: Time): Table<nat> {
    Tally(Map(Filter(prefs, IsSnoozed(now)), AlertIdOf()))
  }

  /** `getSeverityBreakdown()` over the alert snapshot. */
  function SeverityBreakdown(alerts: seq<Alert>): Table<nat> {
    Tally(Map(alerts, SeverityOf()))
  }

  /** The snoozed counts map exactly the alert ids of the preferences snoozed
      past `now`, each to its number of such preferences (at least 1), and the
      counts add up to the number of snoozed preferences. */
  lemma SnoozedCountsFacts(prefs: seq<UserAlertPreference>, now: Time)
    ensures var t := SnoozedCounts(prefs, now);
            && t.Valid()
            && t.data.Keys == (set p | p in prefs && IsSnoozed(now)(p) :: p.alertId)
            && (forall k :: k in t.data ==>
                  t.data[k] == |Filter(Filter(prefs, IsSnoozed(now)), KeyIs(AlertIdOf(), k))| >= 1)
            && Sum(t.Values()) == |Filter(prefs, IsSnoozed(now))|
  {
    var snoozed := Filter(prefs, IsSnoozed(now));
    TallyOfKeys(snoozed, AlertIdOf());
    assert (set p | p in snoozed :: p.alertId) == (set p | p in prefs && IsSnoozed(now)(p) :: p.alertId);
  }

  /** The breakdown maps exactly the severities present, each to its number of
      alerts (at least 1), and the counts add up to the number of alerts. */
  lemma SeverityBreakdownFacts(alerts: seq<Alert>)
    ensures var t := SeverityBreakdown(alerts);
            && t.Valid()
            && t.data.Keys == (set a | a in alerts :: SeverityName(a.severity))
            && (forall k :: k in t.data ==> t.data[k] == |Filter(alerts, KeyIs(SeverityOf(), k))| >= 1)
            && Sum(t.Values()) == |alerts|
  {
    TallyOfKeys(alerts, SeverityOf());
  }

  lemma SeverityKeysNamed(alerts: seq<Alert>)
    ensures forall k :: k in SeverityBreakdown(alerts).data ==> k in {"info", "warning", "critical"}
  {
    SeverityBreakdownFacts(alerts);
    forall k | k in SeverityBreakdown(alerts).data ensures k in {"info", "warning", "critical"} {
      var a :| a in alerts && SeverityName(a.severity) == k;
    }
  }

  /** Every key of the breakdown is the string of one of the three severities,
      so the Map has at most three entries. */
  lemma SeverityBreakdownAtMostThree(alerts: seq<Alert>)
    ensures forall k :: k in SeverityBreakdown(alerts).data ==> k in {"info", "warning", "critical"}
    ensures |SeverityBreakdown(alerts).data| <= 3
  {
    var keys := SeverityBreakdown(alerts).data.Keys;
    var names := {"info", "warning", "critical"};
    SeverityKeysNamed(alerts);
    assert keys <= names;
    assert names == keys + (names - keys);
    assert |names| == 3;
  }

  /** The keys of the stored preferences marked read. */
  function ReadKeys(t: Table<UserAlertPreference>): set<Id> {
    KeysWhere(t, IsRead())
  }

  /** The read count is the number of stored preferences marked read. */
  lemma ReadCount(t: Table<UserAlertPreference>)
    requires t.Valid()
    ensures |Filter(t.Values(), IsRead())| == |ReadKeys(t)|
    ensures |Filter(t.Values(), IsRead())| <= |t.data|
  {
    FilterCountsKeys(t, IsRead());
    var rest := t.data.Keys - ReadKeys(t);
    assert t.data.Keys == ReadKeys(t) + rest;
  }

  // ------------------------------------------------------------------
  // The service

  class AnalyticsService {
    const alerts: Store<Alert>
    const deliveries: Store<NotificationDelivery>
    const prefs: Store<UserAlertPreference>

    ghost predicate Valid()
      reads this, alerts, deliveries, prefs
    {
      alerts.Valid() && deliveries.Valid() && prefs.Valid()
    }

    constructor (alerts: Store<Alert>, deliveries: Store<NotificationDelivery>, prefs: Store<UserAlertPreference>)
      requires alerts.Valid() && deliveries.Valid() && prefs.Valid()
      ensures Valid()
      ensures this.alerts == alerts && this.deliveries == deliveries && this.prefs == prefs
    {
      this.alerts := alerts;
      this.deliveries := deliveries;
      this.prefs := prefs;
    }

    /** The number of stored alerts. */
    method GetTotalAlerts() returns (n: nat)
      requires Valid()
      ensures n == |alerts.FindAll()| == |alerts.data.data|
    {
      n := |alerts.FindAll()|;
      SizeIsCardinality(alerts.data);
    }

    /** The number of stored delivery records, first deliveries and reminders
        alike. */
    method GetAlertsDelivered() returns (n: nat)
      requires Valid()
      ensures n == |deliveries.FindAll()| == |deliveries.data.data|
    {
      n := |deliveries.FindAll()|;
      SizeIsCardinality(deliveries.data);
    }

    /** The number of stored preferences marked read, at most the number of
        preferences. */
    method GetAlertsRead() returns (n: nat)
      requires Valid()
      ensures n == |ReadKeys(prefs.data)|
      ensures n <= |prefs.data.data|
    {
      n := |prefs.Where(IsRead())|;
      ReadCount(prefs.data);
    }

    /** Counts, per alert id, the preferences snoozed past `now` (the clock
        reading the source takes). */
    method GetSnoozedCounts(now: Time) returns (counts: Table<nat>)
      requires Valid()
      ensures counts == SnoozedCounts(prefs.FindAll(), now)
    {
      var snoozedPrefs := prefs.Where(IsSnoozed(now));
      ghost var keys := Map(snoozedPrefs, AlertIdOf());
      counts := Empty();
      var i := 0;
      while i < |snoozedPrefs|
        invariant i <= |snoozedPrefs|
        invariant counts == Tally(keys[..i])
      {
        var pref := snoozedPrefs[i];
        assert keys[i] == pref.alertId;
        var count := if pref.alertId in counts.data then counts.data[pref.alertId] else 0;
        TallyStep(keys, i, counts, count);
        counts := counts.Set(pref.alertId, count + 1);
        i := i + 1;
      }
      assert keys[..i] == keys;
    }

    /** Counts the stored alerts per severity string. */
    method GetSeverityBreakdown() returns (breakdown: Table<nat>)
      requires Valid()
      ensures breakdown == SeverityBreakdown(alerts.FindAll())
    {
      var all := alerts.FindAll();
      ghost var keys := Map(all, SeverityOf());
      breakdown := Empty();
      var i := 0;
      while i < |all|
        invariant i <= |all|
        invariant breakdown == Tally(keys[..i])
      {
        var severity := SeverityName(all[i].severity);
        assert keys[i] == severity;
        var count := if severity in breakdown.data then breakdown.data[severity] else 0;
        TallyStep(keys, i, breakdown, count);
        breakdown := breakdown.Set(severity, count + 1);
        i := i + 1;
      }
      assert keys[..i] == keys;
    }
  }

  /** The severity breakdown accounts for every alert the total counts. */
  lemma BreakdownSumsToTotal(alerts: Store<Alert>)
    requires alerts.Valid()
    ensures Sum(SeverityBreakdown(alerts.FindAll()).Values()) == |alerts.data.data|
  {
    SeverityBreakdownFacts(alerts.FindAll());
    SizeIsCardinality(alerts.data);
  }
}
