// UserNotificationService: what a user sees (`getUserAlerts`,
// `getUserPreferences`, functions of the store snapshots they read) and the two
// changes a user makes to a preference row (`markAsRead`, `snoozeAlert`,
// methods of a class over the preference store, proved against the functions
// `AfterMarkRead` and `AfterSnooze`).
module UserNotifications {
  import opened Prelude
  import opened Domain
  import opened Tables
  import opened Repository
  import opened AlertRepository
  import opened NotificationEngine
  import Prefs = PreferenceRepository
  import Vis = VisibilityRepository

  // ------------------------------------------------------------------
  // getUserAlerts

  /** `visibilities.some(v => v.teamId === user.teamId)`. Both sides may be
      absent, and two absent team ids compare equal. */
  predicate AnyTeamRow(rows: seq<AlertVisibility>, teamId: Option<Id>) {
    exists v :: v in rows && v.teamId == teamId
  }

  /** `visibilities.some(v => v.userId === userId)` for a string `userId`. */
  predicate AnyUserRow(rows: seq<AlertVisibility>, userId: Id) {
    exists v :: v in rows && v.userId == Some(userId)
  }

  /** The callback `getUserAlerts` passes to `filter`, for the user found
      under `userId`. */
  predicate VisibleTo(a: Alert, user: User, userId: Id, visRows: seq<AlertVisibility>) {
    match a.visibilityType
    case Organization => true
    case TeamScoped => AnyTeamRow(Vis.FindByAlert(visRows, a.id), user.teamId)
    case UserScoped => AnyUserRow(Vis.FindByAlert(visRows, a.id), userId)
  }

  function VisibleFilter(user: User, userId: Id, visRows: seq<AlertVisibility>): Alert -> bool {
    (a: Alert) => VisibleTo(a, user, userId, visRows)
  }

  /** Who may see an alert, stated on the visibility rows directly: everybody
      for an organisation alert, a user whose team id equals that of some row
      of the alert for a team alert, a user named by some row of the alert for
      a user alert. */
  ghost predicate MaySee(a: Alert, user: User, userId: Id, visRows: seq<AlertVisibility>) {
    match a.visibilityType
    case Organization => true
    case TeamScoped => exists v :: v in visRows && v.alertId == a.id && v.teamId == user.teamId
    case UserScoped => exists v :: v in visRows && v.alertId == a.id && v.userId == Some(userId)
  }

  lemma VisibleToMaySee(a: Alert, user: User, userId: Id, visRows: seq<AlertVisibility>)
    ensures VisibleTo(a, user, userId, visRows) <==> MaySee(a, user, userId, visRows)
  {
    var rows := Vis.FindByAlert(visRows, a.id);
    match a.visibilityType
    case Organization =>
    case TeamScoped =>
      if MaySee(a, user, userId, visRows) {
        var v :| v in visRows && v.alertId == a.id && v.teamId == user.teamId;
        assert v in rows;
      }
    case UserScoped =>
      if MaySee(a, user, userId, visRows) {
        var v :| v in visRows && v.alertId == a.id && v.userId == Some(userId);
        assert v in rows;
      }
  }

  /** `getUserAlerts(userId)` over the user Map, the alert store's `findAll()`
      at `now` and the visibility store's `findAll()`: nothing for an unknown
      user; otherwise the effectively active alerts the user may see, in store
      order. */
  function GetUserAlerts(users: map<Id, User>, allAlerts: seq<Alert>, visRows: seq<AlertVisibility>,
                         userId: Id, now: Time): (r: seq<Alert>)
    ensures userId !in users ==> r == []
    ensures SubseqOf(r, FindActiveAlerts(allAlerts, now))
    ensures forall a :: a in r <==>
              && userId in users && a in allAlerts && EffectivelyActive(a, now)
              && MaySee(a, users[userId], userId, visRows)
  {
    if userId !in users then []
    else
      var user := users[userId];
      var active := FindActiveAlerts(allAlerts, now);
      FilterIsSubseq(active, VisibleFilter(user, userId, visRows));
      forall a ensures VisibleTo(a, user, userId, visRows) <==> MaySee(a, user, userId, visRows) {
        VisibleToMaySee(a, user, userId, visRows);
      }
      Filter(active, VisibleFilter(user, userId, visRows))
  }

  /** A user without a team matches the rows of a team alert that name no
      team (the source compares two absent team ids as equal), and no other
      rows. */
  lemma TeamlessUserSeesTeamlessRows(users: map<Id, User>, allAlerts: seq<Alert>, visRows: seq<AlertVisibility>,
                                     userId: Id, now: Time, a: Alert)
    requires userId in users && users[userId].teamId.None?
    requires a in allAlerts && EffectivelyActive(a, now) && a.visibilityType == TeamScoped
    ensures a in GetUserAlerts(users, allAlerts, visRows, userId, now) <==>
            exists v :: v in visRows && v.alertId == a.id && v.teamId.None?
  {
  }

  /** `getUserPreferences(userId)`: exactly the preferences of that user, in
      store order. */
  function GetUserPreferences(all: seq<UserAlertPreference>, userId: Id): (r: seq<UserAlertPreference>)
    ensures forall p :: p in r <==> p in all && p.userId == userId
    ensures forall p :: multiset(r)[p] == if p.userId == userId then multiset(all)[p] else 0
    ensures SubseqOf(r, all)
  {
    Prefs.FindByUser(all, userId)
  }

  // ------------------------------------------------------------------
  // The end of the local day

  /** Milliseconds in a day. */
  const DayMs: int := 86400000

  /** `setHours(23, 59, 59, 999)` on the instant `t`, in a time zone that is
      `offset` milliseconds ahead of UTC: the last millisecond of `t`'s local
      day. */
  function EndOfDay(t: Time, offset: int): (r: Time)
    ensures t <= r < t + DayMs
    ensures (r + offset + 1) % DayMs == 0
  {
    var local := t + offset;
    (local / DayMs + 1) * DayMs - 1 - offset
  }

  /** Every instant from `t` to the end of its day has the same end of day;
      in particular the end of day is a fixed point. */
  lemma SameDay(t: Time, s: Time, offset: int)
    requires t <= s <= EndOfDay(t, offset)
    ensures EndOfDay(s, offset) == EndOfDay(t, offset)
  {
    var q := (t + offset) / DayMs;
    assert q * DayMs <= t + offset < q * DayMs + DayMs;
    assert q * DayMs <= s + offset < q * DayMs + DayMs;
    assert (s + offset) / DayMs == q;
  }

  // ------------------------------------------------------------------
  // markAsRead and snoozeAlert as functions of the preference Map

  /** The update `{ isRead: true, updatedAt: now }`. */
  function ReadAt(now: Time): UserAlertPreference -> UserAlertPreference {
    (p: UserAlertPreference) => p.(isRead := true, updatedAt := now)
  }

  /** The update `{ snoozedUntil: until, updatedAt: now }`. */
  function SnoozeTill(until: Time, now: Time): UserAlertPreference -> UserAlertPreference {
    (p: UserAlertPreference) => p.(snoozedUntil := Some(until), updatedAt := now)
  }

  /** `update(id, f)` on the Map: a present row is replaced by its image. */
  function UpdateRow(t: Table<UserAlertPreference>, id: Id, f: UserAlertPreference -> UserAlertPreference): Table<UserAlertPreference> {
    if id in t.data then t.Set(id, f(t.data[id])) else t
  }

  /** Look up the pair's preference and, if there is one, update it by id. */
  function UpdatePair(t: Table<UserAlertPreference>, userId: Id, alertId: Id,
                      f: UserAlertPreference -> UserAlertPreference): Table<UserAlertPreference>
    requires t.Valid()
  {
    match Prefs.FindByUserAndAlert(t.Values(), userId, alertId)
    case None => t
    case Some(p) => UpdateRow(t, p.id, f)
  }

  function AfterMarkRead(t: Table<UserAlertPreference>, userId: Id, alertId: Id, now: Time): Table<UserAlertPreference>
    requires t.Valid()
  {
    UpdatePair(t, userId, alertId, ReadAt(now))
  }

  function AfterSnooze(t: Table<UserAlertPreference>, userId: Id, alertId: Id, now: Time, offset: int): Table<UserAlertPreference>
    requires t.Valid()
  {
    UpdatePair(t, userId, alertId, SnoozeTill(EndOfDay(now, offset), now))
  }

  class UserNotificationService {
    const prefs: Store<UserAlertPreference>
    /** The offset of the machine's time zone from UTC, in milliseconds. */
    const offset: int

    ghost predicate Valid()
      reads this, prefs
    {
      prefs.Valid()
    }

    constructor (prefs: Store<UserAlertPreference>, offset: int)
      requires prefs.Valid()
      ensures Valid() && this.prefs == prefs && this.offset == offset
    {
      this.prefs := prefs;
      this.offset := offset;
    }

    method MarkAsRead(userId: Id, alertId: Id, now: Time)
      requires Valid()
      modifies prefs
      ensures Valid()
      ensures prefs.data == AfterMarkRead(old(prefs.data), userId, alertId, now)
    {
      var preference := Prefs.FindByUserAndAlert(prefs.FindAll(), userId, alertId);
      if preference.Some? {
        var _ := prefs.Update(preference.value.id, ReadAt(now));
      }
    }

    method SnoozeAlert(userId: Id, alertId: Id, now: Time)
      requires Valid()
      modifies prefs
      ensures Valid()
      ensures prefs.data == AfterSnooze(old(prefs.data), userId, alertId, now, offset)
    {
      var preference := Prefs.FindByUserAndAlert(prefs.FindAll(), userId, alertId);
      if preference.Some? {
        var tomorrow := EndOfDay(now, offset);
        var _ := prefs.Update(preference.value.id, SnoozeTill(tomorrow, now));
      }
    }
  }

  // ------------------------------------------------------------------
  // Properties of the two updates

  /** In a keyed table, the pair lookup finds a row at the position of its
      own id. */
  lemma LookupStored(t: Table<UserAlertPreference>, userId: Id, alertId: Id)
    requires t.Valid() && t.KeyedBy(PrefId)
    requires Prefs.FindByUserAndAlert(t.Values(), userId, alertId).Some?
    ensures var p := Prefs.FindByUserAndAlert(t.Values(), userId, alertId).value;
            p.id in t.data && t.data[p.id] == p && p.userId == userId && p.alertId == alertId
  {
    Prefs.FindByUserAndAlertEarliest(t.Values(), userId, alertId);
    var p := Prefs.FindByUserAndAlert(t.Values(), userId, alertId).value;
    var i :| 0 <= i < |t.Values()| && t.Values()[i] == p && Prefs.IsPair(t.Values()[i], userId, alertId);
    assert PrefId(t.data[t.order[i]]) == t.order[i];
  }

  /** An update that leaves the pair fields alone keeps the pair lookup on the
      same row: it then finds the updated row. */
  lemma LookupAfterUpdate(t: Table<UserAlertPreference>, userId: Id, alertId: Id, q: UserAlertPreference)
    requires t.Valid() && t.KeyedBy(PrefId)
    requires Prefs.FindByUserAndAlert(t.Values(), userId, alertId).Some?
    requires var p := Prefs.FindByUserAndAlert(t.Values(), userId, alertId).value;
             q.id == p.id && q.userId == userId && q.alertId == alertId
    ensures t.Set(q.id, q).Valid() && t.Set(q.id, q).KeyedBy(PrefId)
    ensures Prefs.FindByUserAndAlert(t.Set(q.id, q).Values(), userId, alertId) == Some(q)
  {
    var s := t.Values();
    var j := PairIndex(t, userId, alertId);
    var i := SetExistingIsUpdate(t, q.id, q);
    assert i == j;
    var s' := t.Set(q.id, q).Values();
    assert forall k :: 0 <= k < j ==> s'[k] == s[k];
    FirstIsAt(s', Prefs.PairIs(userId, alertId), j);
  }

  /** The position of the pair lookup's hit in a keyed table: the first row of
      the pair, stored under its own id. */
  lemma PairIndex(t: Table<UserAlertPreference>, userId: Id, alertId: Id) returns (j: nat)
    requires t.Valid() && t.KeyedBy(PrefId)
    requires Prefs.FindByUserAndAlert(t.Values(), userId, alertId).Some?
    ensures var p := Prefs.FindByUserAndAlert(t.Values(), userId, alertId).value;
            && j < |t.order| && t.Values()[j] == p && t.order[j] == p.id
            && Prefs.IsPair(p, userId, alertId)
            && forall k :: 0 <= k < j ==> !Prefs.IsPair(t.Values()[k], userId, alertId)
  {
    var s := t.Values();
    Prefs.FindByUserAndAlertEarliest(s, userId, alertId);
    var p := Prefs.FindByUserAndAlert(s, userId, alertId).value;
    j :| 0 <= j < |s| && s[j] == p && Prefs.IsPair(s[j], userId, alertId) &&
         forall k :: 0 <= k < j ==> !Prefs.IsPair(s[k], userId, alertId);
    assert PrefId(t.data[t.order[j]]) == t.order[j];
  }

  /** What a lookup-and-update does to a keyed table: with no row for the pair
      nothing changes; otherwise exactly the found row is replaced by its
      image, in place. */
  lemma UpdatePairEffect(t: Table<UserAlertPreference>, userId: Id, alertId: Id,
                         f: UserAlertPreference -> UserAlertPreference)
    requires t.Valid() && t.KeyedBy(PrefId)
    ensures var found := Prefs.FindByUserAndAlert(t.Values(), userId, alertId);
            found.Some? ==> found.value.id in t.data
    ensures (forall p :: p in t.Values() ==> !Prefs.IsPair(p, userId, alertId)) ==> UpdatePair(t, userId, alertId, f) == t
    ensures var r, found := UpdatePair(t, userId, alertId, f), Prefs.FindByUserAndAlert(t.Values(), userId, alertId);
            && r.Valid() && r.order == t.order && r.data.Keys == t.data.Keys
            && (found.Some? ==> found.value.userId == userId && found.value.alertId == alertId
                                && r.data[found.value.id] == f(found.value))
            && forall k :: k in t.data && (found.None? || k != found.value.id) ==> r.data[k] == t.data[k]
  {
    Prefs.FindByUserAndAlertEarliest(t.Values(), userId, alertId);
    if Prefs.FindByUserAndAlert(t.Values(), userId, alertId).Some? {
      LookupStored(t, userId, alertId);
    }
  }

  /** `markAsRead` on a keyed store: the pair's row, if any, becomes read with
      `updatedAt = now`, its snooze and reminder stamps kept; every other row
      is kept; with no row for the pair nothing changes. */
  lemma MarkAsReadEffect(t: Table<UserAlertPreference>, userId: Id, alertId: Id, now: Time)
    requires t.Valid() && t.KeyedBy(PrefId)
    ensures var found := Prefs.FindByUserAndAlert(t.Values(), userId, alertId);
            found.Some? ==> found.value.id in t.data
    ensures (forall p :: p in t.Values() ==> !Prefs.IsPair(p, userId, alertId)) ==> AfterMarkRead(t, userId, alertId, now) == t
    ensures var r, found := AfterMarkRead(t, userId, alertId, now), Prefs.FindByUserAndAlert(t.Values(), userId, alertId);
            && r.Valid() && r.order == t.order && r.data.Keys == t.data.Keys
            && (found.Some? ==>
                  var p, p' := found.value, r.data[found.value.id];
                  && p'.isRead && p'.updatedAt == now
                  && p'.snoozedUntil == p.snoozedUntil && p'.lastRemindedAt == p.lastRemindedAt
                  && p'.id == p.id && p'.userId == userId && p'.alertId == alertId && p'.createdAt == p.createdAt)
            && forall k :: k in t.data && (found.None? || k != found.value.id) ==> r.data[k] == t.data[k]
  {
    UpdatePairEffect(t, userId, alertId, ReadAt(now));
  }

  /** Two lookup-and-updates of the same pair, where the first keeps the
      row's id and pair and the second overwrites whatever the first wrote, are
      the second alone. */
  lemma UpdatePairTwice(t: Table<UserAlertPreference>, userId: Id, alertId: Id,
                        f: UserAlertPreference -> UserAlertPreference, g: UserAlertPreference -> UserAlertPreference)
    requires t.Valid() && t.KeyedBy(PrefId)
    requires forall p :: f(p).id == p.id && f(p).userId == p.userId && f(p).alertId == p.alertId
    requires forall p :: g(f(p)) == g(p)
    ensures UpdatePair(t, userId, alertId, f).Valid()
    ensures UpdatePair(UpdatePair(t, userId, alertId, f), userId, alertId, g) == UpdatePair(t, userId, alertId, g)
  {
    var found := Prefs.FindByUserAndAlert(t.Values(), userId, alertId);
    if found.Some? {
      LookupStored(t, userId, alertId);
      var p := found.value;
      var t1 := t.Set(p.id, f(p));
      assert UpdatePair(t, userId, alertId, f) == t1;
      LookupAfterUpdate(t, userId, alertId, f(p));
      assert UpdatePair(t1, userId, alertId, g) == t1.Set(p.id, g(f(p)));
      assert UpdatePair(t, userId, alertId, g) == t.Set(p.id, g(p));
    }
  }

  /** Marking twice is marking once at the later time: the row stays read. */
  lemma MarkAsReadTwice(t: Table<UserAlertPreference>, userId: Id, alertId: Id, now1: Time, now2: Time)
    requires t.Valid() && t.KeyedBy(PrefId)
    ensures AfterMarkRead(t, userId, alertId, now1).Valid()
    ensures AfterMarkRead(AfterMarkRead(t, userId, alertId, now1), userId, alertId, now2)
         == AfterMarkRead(t, userId, alertId, now2)
  {
    UpdatePairTwice(t, userId, alertId, ReadAt(now1), ReadAt(now2));
  }

  /** `snoozeAlert` on a keyed store: the pair's row, if any, is snoozed to the
      end of the local day of `now`, which is not before `now`; its read state
      and reminder stamp are kept, every other row is kept, and with no row
      for the pair nothing changes. */
  lemma SnoozeAlertEffect(t: Table<UserAlertPreference>, userId: Id, alertId: Id, now: Time, offset: int)
    requires t.Valid() && t.KeyedBy(PrefId)
    ensures var found := Prefs.FindByUserAndAlert(t.Values(), userId, alertId);
            found.Some? ==> found.value.id in t.data
    ensures (forall p :: p in t.Values() ==> !Prefs.IsPair(p, userId, alertId)) ==> AfterSnooze(t, userId, alertId, now, offset) == t
    ensures var r, found := AfterSnooze(t, userId, alertId, now, offset), Prefs.FindByUserAndAlert(t.Values(), userId, alertId);
            && r.Valid() && r.order == t.order && r.data.Keys == t.data.Keys
            && (found.Some? ==>
                  var p, p' := found.value, r.data[found.value.id];
                  && p'.snoozedUntil == Some(EndOfDay(now, offset)) && p'.snoozedUntil.value >= now
                  && p'.updatedAt == now && p'.isRead == p.isRead && p'.lastRemindedAt == p.lastRemindedAt
                  && p'.id == p.id && p'.userId == userId && p'.alertId == alertId && p'.createdAt == p.createdAt)
            && forall k :: k in t.data && (found.None? || k != found.value.id) ==> r.data[k] == t.data[k]
  {
    UpdatePairEffect(t, userId, alertId, SnoozeTill(EndOfDay(now, offset), now));
  }

  /** A snoozed row is skipped by every reminder sweep from `now` until the
      last millisecond of its local day (at that millisecond `snoozedUntil >
      now` no longer holds). */
  lemma SnoozedForRestOfDay(t: Table<UserAlertPreference>, userId: Id, alertId: Id, now: Time, offset: int,
                            later: Time, a: Alert)
    requires t.Valid() && t.KeyedBy(PrefId)
    requires Prefs.FindByUserAndAlert(t.Values(), userId, alertId).Some?
    requires now <= later < EndOfDay(now, offset)
    ensures var id := Prefs.FindByUserAndAlert(t.Values(), userId, alertId).value.id;
            var r := AfterSnooze(t, userId, alertId, now, offset);
            id in r.data && Snoozed(r.data[id], later) && !ShouldRemind(a, r.data[id], later)
  {
    SnoozeAlertEffect(t, userId, alertId, now, offset);
    LookupStored(t, userId, alertId);
  }

  /** Snoozing again on the same day changes nothing but `updatedAt`. */
  lemma SnoozeTwiceSameDay(t: Table<UserAlertPreference>, userId: Id, alertId: Id, now1: Time, now2: Time, offset: int)
    requires t.Valid() && t.KeyedBy(PrefId)
    requires now1 <= now2 <= EndOfDay(now1, offset)
    ensures AfterSnooze(t, userId, alertId, now1, offset).Valid()
    ensures AfterSnooze(AfterSnooze(t, userId, alertId, now1, offset), userId, alertId, now2, offset)
         == AfterSnooze(t, userId, alertId, now2, offset)
    ensures EndOfDay(now2, offset) == EndOfDay(now1, offset)
  {
    SameDay(now1, now2, offset);
    UpdatePairTwice(t, userId, alertId, SnoozeTill(EndOfDay(now1, offset), now1), SnoozeTill(EndOfDay(now2, offset), now2));
  }
}
