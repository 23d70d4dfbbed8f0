// AlertService: `createAlert` writes the alert and then one visibility row per
// target, `updateAlert`/`archiveAlert` patch an alert in place, and
// `getAlert`/`getAllAlerts`/`getActiveAlerts` rebuild the target lists from the
// visibility rows. The two stores and the identifier counter are the value
// `Catalog`; the class's methods are proved to change them exactly as the
// functions `Create` and `AfterUpdate` say, and the properties are proved about
// those functions.
module Alerts {
  import opened Prelude
  import opened Domain
  import opened Tables
  import opened Repository
  import opened AlertRepository
  import Vis = VisibilityRepository

  datatype Catalog = Catalog(alerts: Table<Alert>, rows: Table<AlertVisibility>, nextId: nat) {
    predicate Valid() {
      alerts.Valid() && rows.Valid()
    }

    /** Both stores keep every entity under its id, every visibility row names
        a stored alert, and no identifier the counter will hand out is in use. */
    ghost predicate Ready() {
      && Valid()
      && alerts.KeyedBy(AlertId) && rows.KeyedBy(Vis.RowId)
      && (forall k :: k in rows.data ==> rows.data[k].alertId in alerts.data)
      && forall n: nat :: n >= nextId ==> FreshId(n) !in alerts.data && FreshId(n) !in rows.data
    }
  }

  function AlertId(a: Alert): Id {
    a.id
  }

  // ------------------------------------------------------------------
  // createAlert

  /** `{ ...alertData, id, createdAt: now, updatedAt: now }`. */
  function NewAlert(d: AlertDraft, id: Id, now: Time): Alert {
    Alert(id, d.title, d.message, d.severity, d.deliveryType, d.visibilityType, d.reminderFrequencyMinutes,
          d.reminderEnabled, d.startTime, d.expiryTime, d.status, d.createdBy, now, now)
  }

  /** The caller-supplied fields of an alert. */
  function DraftOf(a: Alert): AlertDraft {
    AlertDraft(a.title, a.message, a.severity, a.deliveryType, a.visibilityType, a.reminderFrequencyMinutes,
               a.reminderEnabled, a.startTime, a.expiryTime, a.status, a.createdBy)
  }

  /** The stored alert carries the draft's fields unchanged, the new id, and
      equal creation and update times. */
  lemma NewAlertKeepsDraft(d: AlertDraft, id: Id, now: Time)
    ensures DraftOf(NewAlert(d, id, now)) == d
    ensures NewAlert(d, id, now).id == id
    ensures NewAlert(d, id, now).createdAt == now && NewAlert(d, id, now).updatedAt == now
  {
  }

  /** The rows the `forEach` of `createAlert` writes, with the counter at
      `firstId`: one per team id for a team alert, one per user id for a user
      alert, none for an organisation alert. */
  function VisibilityRows(kind: VisibilityType, alertId: Id, teamIds: seq<Id>, userIds: seq<Id>,
                          firstId: nat, now: Time): (r: seq<AlertVisibility>)
    ensures forall i :: 0 <= i < |r| ==> r[i].id == FreshId(firstId + i)
    ensures forall v :: v in r ==> v.alertId == alertId && v.createdAt == now
  {
    match kind
    case TeamScoped => TeamRows(alertId, teamIds, firstId, now)
    case UserScoped => UserRows(alertId, userIds, firstId, now)
    case Organization => []
  }

  function TeamRows(alertId: Id, teamIds: seq<Id>, firstId: nat, now: Time): seq<AlertVisibility> {
    seq(|teamIds|, i requires 0 <= i < |teamIds| => AlertVisibility(FreshId(firstId + i), alertId, Some(teamIds[i]), None, now))
  }

  function UserRows(alertId: Id, userIds: seq<Id>, firstId: nat, now: Time): seq<AlertVisibility> {
    seq(|userIds|, i requires 0 <= i < |userIds| => AlertVisibility(FreshId(firstId + i), alertId, None, Some(userIds[i]), now))
  }

  /** The identifiers of `rows`. */
  function RowIdSet(rows: seq<AlertVisibility>): set<Id> {
    set v | v in rows :: v.id
  }

  /** The Map after `create` of each row of `rows` in turn. */
  function InsertAll(t: Table<AlertVisibility>, rows: seq<AlertVisibility>): (r: Table<AlertVisibility>)
    ensures t.Valid() ==> r.Valid()
    decreases |rows|
  {
    if rows == [] then t
    else
      var init, last := rows[..|rows| - 1], rows[|rows| - 1];
      InsertAll(t, init).Set(last.id, last)
  }

  /** Inserting one more row is one more `Map.set`. */
  lemma InsertAllStep(t: Table<AlertVisibility>, rows: seq<AlertVisibility>, i: nat)
    requires i < |rows|
    ensures InsertAll(t, rows[..i + 1]) == InsertAll(t, rows[..i]).Set(rows[i].id, rows[i])
  {
    assert rows[..i + 1][..i] == rows[..i];
  }

  /** After inserting `rows`, the keys are the old keys and the rows' ids,
      each value is an old one or one of the rows, and rows stay keyed by
      their ids. */
  lemma {:induction false} InsertAllContents(t: Table<AlertVisibility>, rows: seq<AlertVisibility>)
    ensures InsertAll(t, rows).data.Keys == t.data.Keys + RowIdSet(rows)
    ensures forall k :: k in InsertAll(t, rows).data ==>
              (k in t.data && InsertAll(t, rows).data[k] == t.data[k]) || InsertAll(t, rows).data[k] in rows
    ensures t.KeyedBy(Vis.RowId) ==> InsertAll(t, rows).KeyedBy(Vis.RowId)
    decreases |rows|
  {
    if rows != [] {
      var init, last := rows[..|rows| - 1], rows[|rows| - 1];
      InsertAllContents(t, init);
      assert rows == init + [last];
      assert RowIdSet(rows) == RowIdSet(init) + {last.id};
    }
  }

  /** No two of `rows` share an id and none of them is a key of `t`. */
  predicate FreshRows(t: Table<AlertVisibility>, rows: seq<AlertVisibility>) {
    && (forall i, j :: 0 <= i < j < |rows| ==> rows[i].id != rows[j].id)
    && forall i :: 0 <= i < |rows| ==> rows[i].id !in t.data
  }

  /** The last of a set of fresh rows is not among the keys the earlier ones
      leave behind. */
  lemma LastRowFresh(t: Table<AlertVisibility>, rows: seq<AlertVisibility>)
    requires FreshRows(t, rows) && rows != []
    ensures rows[|rows| - 1].id !in InsertAll(t, rows[..|rows| - 1]).data
  {
    var init, last := rows[..|rows| - 1], rows[|rows| - 1];
    InsertAllContents(t, init);
    forall v | v in init ensures v.id != last.id {
      var i :| 0 <= i < |init| && init[i] == v;
      assert rows[i] == v;
    }
  }

  lemma InsertAllLast(t: Table<AlertVisibility>, rows: seq<AlertVisibility>)
    requires rows != []
    ensures InsertAll(t, rows) == InsertAll(t, rows[..|rows| - 1]).Set(rows[|rows| - 1].id, rows[|rows| - 1])
  {
  }

  /** Rows with distinct fresh ids are appended to `values()`, in order. */
  lemma {:induction false} InsertAllAppends(t: Table<AlertVisibility>, rows: seq<AlertVisibility>)
    requires t.Valid() && FreshRows(t, rows)
    ensures InsertAll(t, rows).Values() == t.Values() + rows
    decreases |rows|
  {
    if rows != [] {
      var init, last := rows[..|rows| - 1], rows[|rows| - 1];
      assert FreshRows(t, init);
      InsertAllAppends(t, init);
      var t1 := InsertAll(t, init);
      LastRowFresh(t, rows);
      InsertAllLast(t, rows);
      SetNewValues(t1, last.id, last);
      AppendLast(t.Values(), rows);
    }
  }

  /** `createAlert(alertData, targetTeamIds, targetUserIds)` at `now`: the new
      state and the returned value. */
  function Create(c: Catalog, d: AlertDraft, teamIds: seq<Id>, userIds: seq<Id>, now: Time): (r: (Catalog, AlertWithTargets))
    ensures c.Valid() ==> r.0.Valid()
  {
    var id := FreshId(c.nextId);
    var a := NewAlert(d, id, now);
    var rows := VisibilityRows(d.visibilityType, id, teamIds, userIds, c.nextId + 1, now);
    (Catalog(c.alerts.Set(id, a), InsertAll(c.rows, rows), c.nextId + 1 + |rows|), AlertWithTargets(a, teamIds, userIds))
  }

  /** The rows `createAlert` writes for a ready catalog are fresh. */
  lemma CreatedRowsFresh(c: Catalog, d: AlertDraft, teamIds: seq<Id>, userIds: seq<Id>, now: Time)
    requires c.Ready()
    ensures FreshRows(c.rows, VisibilityRows(d.visibilityType, FreshId(c.nextId), teamIds, userIds, c.nextId + 1, now))
  {
    var rows := VisibilityRows(d.visibilityType, FreshId(c.nextId), teamIds, userIds, c.nextId + 1, now);
    forall i, j | 0 <= i < j < |rows| ensures rows[i].id != rows[j].id {
      if rows[i].id == rows[j].id {
        FreshIdInjective(c.nextId + 1 + i, c.nextId + 1 + j);
      }
    }
  }

  /** No identifier the counter hands out after `createAlert` names the new
      alert or one of its rows. */
  lemma CreatedIdsBelow(next: nat, kind: VisibilityType, teamIds: seq<Id>, userIds: seq<Id>, now: Time)
    ensures var rows := VisibilityRows(kind, FreshId(next), teamIds, userIds, next + 1, now);
            forall n: nat :: n >= next + 1 + |rows| ==> FreshId(n) != FreshId(next) && FreshId(n) !in RowIdSet(rows)
  {
    var rows := VisibilityRows(kind, FreshId(next), teamIds, userIds, next + 1, now);
    forall n: nat | n >= next + 1 + |rows| ensures FreshId(n) != FreshId(next) && FreshId(n) !in RowIdSet(rows) {
      if FreshId(n) == FreshId(next) {
        FreshIdInjective(n, next);
      }
      if FreshId(n) in RowIdSet(rows) {
        var v :| v in rows && v.id == FreshId(n);
        var i :| 0 <= i < |rows| && rows[i] == v;
        FreshIdInjective(n, next + 1 + i);
      }
    }
  }

  /** The state `createAlert` leaves, written out. */
  lemma CreateUnfolds(c: Catalog, d: AlertDraft, teamIds: seq<Id>, userIds: seq<Id>, now: Time)
    ensures var id := FreshId(c.nextId);
            var rows := VisibilityRows(d.visibilityType, id, teamIds, userIds, c.nextId + 1, now);
            Create(c, d, teamIds, userIds, now).0 ==
              Catalog(c.alerts.Set(id, NewAlert(d, id, now)), InsertAll(c.rows, rows), c.nextId + 1 + |rows|)
  {
  }

  /** The tables and counter `createAlert` leaves behind, given its new alert
      and the counter value after that alert's id, are the ones `Create`
      describes, and they form a ready catalog. */
  lemma CreateMatches(c: Catalog, d: AlertDraft, teamIds: seq<Id>, userIds: seq<Id>, now: Time,
                      alert: Alert, firstRow: nat, alerts': Table<Alert>, rows': Table<AlertVisibility>, next': nat)
    requires c.Ready()
    requires alert == NewAlert(d, FreshId(c.nextId), now) && firstRow == c.nextId + 1
    requires alerts' == c.alerts.Set(alert.id, alert)
    requires var rows := VisibilityRows(alert.visibilityType, alert.id, teamIds, userIds, firstRow, now);
             rows' == InsertAll(c.rows, rows) && next' == firstRow + |rows|
    ensures Catalog(alerts', rows', next') == Create(c, d, teamIds, userIds, now).0
    ensures Catalog(alerts', rows', next').Ready()
    ensures Create(c, d, teamIds, userIds, now).1 == AlertWithTargets(alert, teamIds, userIds)
  {
    var id := FreshId(c.nextId);
    var rows := VisibilityRows(d.visibilityType, id, teamIds, userIds, c.nextId + 1, now);
    assert alert.id == id && alert.visibilityType == d.visibilityType;
    assert rows == VisibilityRows(alert.visibilityType, alert.id, teamIds, userIds, firstRow, now);
    CreateUnfolds(c, d, teamIds, userIds, now);
    CreateKeepsReady(c, d, teamIds, userIds, now);
  }

  /** The visibility store after `createAlert` stays keyed and names only
      stored alerts. */
  lemma CreatedRowsReady(c: Catalog, d: AlertDraft, teamIds: seq<Id>, userIds: seq<Id>, now: Time)
    requires c.Ready()
    ensures var id := FreshId(c.nextId);
            var rows' := InsertAll(c.rows, VisibilityRows(d.visibilityType, id, teamIds, userIds, c.nextId + 1, now));
            && rows'.KeyedBy(Vis.RowId)
            && forall k :: k in rows'.data ==> rows'.data[k].alertId in c.alerts.data || rows'.data[k].alertId == id
  {
    InsertAllContents(c.rows, VisibilityRows(d.visibilityType, FreshId(c.nextId), teamIds, userIds, c.nextId + 1, now));
  }

  /** After `createAlert` no identifier the counter will hand out is in use. */
  lemma CreatedIdsFresh(c: Catalog, d: AlertDraft, teamIds: seq<Id>, userIds: seq<Id>, now: Time)
    requires c.Ready()
    ensures var id := FreshId(c.nextId);
            var rows := VisibilityRows(d.visibilityType, id, teamIds, userIds, c.nextId + 1, now);
            && forall n: nat :: n >= c.nextId + 1 + |rows| ==>
                 FreshId(n) != id && FreshId(n) !in c.alerts.data && FreshId(n) !in InsertAll(c.rows, rows).data
  {
    InsertAllContents(c.rows, VisibilityRows(d.visibilityType, FreshId(c.nextId), teamIds, userIds, c.nextId + 1, now));
    CreatedIdsBelow(c.nextId, d.visibilityType, teamIds, userIds, now);
  }

  /** `createAlert` keeps the catalog ready. */
  lemma CreateKeepsReady(c: Catalog, d: AlertDraft, teamIds: seq<Id>, userIds: seq<Id>, now: Time)
    requires c.Ready()
    ensures Create(c, d, teamIds, userIds, now).0.Ready()
  {
    var id := FreshId(c.nextId);
    var rows := VisibilityRows(d.visibilityType, id, teamIds, userIds, c.nextId + 1, now);
    var alerts', rows' := c.alerts.Set(id, NewAlert(d, id, now)), InsertAll(c.rows, rows);
    var next' := c.nextId + 1 + |rows|;
    CreatedRowsReady(c, d, teamIds, userIds, now);
    CreatedIdsFresh(c, d, teamIds, userIds, now);
    assert Catalog(alerts', rows', next').Ready();
    CreateUnfolds(c, d, teamIds, userIds, now);
  }

  /** `createAlert` on a ready catalog stores exactly one new alert (appended,
      carrying the draft's fields and equal creation and update times),
      appends exactly its visibility rows, echoes the target lists as passed,
      and keeps the catalog ready. */
  lemma CreateEffect(c: Catalog, d: AlertDraft, teamIds: seq<Id>, userIds: seq<Id>, now: Time)
    requires c.Ready()
    ensures var (c', r) := Create(c, d, teamIds, userIds, now);
            var rows := VisibilityRows(d.visibilityType, r.alert.id, teamIds, userIds, c.nextId + 1, now);
            && c'.Ready()
            && r.alert.id !in c.alerts.data
            && c'.alerts.Values() == c.alerts.Values() + [r.alert]
            && DraftOf(r.alert) == d && r.alert.createdAt == now && r.alert.updatedAt == now
            && c'.rows.Values() == c.rows.Values() + rows
            && r.targetTeamIds == teamIds && r.targetUserIds == userIds
  {
    var id := FreshId(c.nextId);
    var rows := VisibilityRows(d.visibilityType, id, teamIds, userIds, c.nextId + 1, now);
    CreateUnfolds(c, d, teamIds, userIds, now);
    CreateKeepsReady(c, d, teamIds, userIds, now);
    assert id !in c.alerts.data;
    SetNewValues(c.alerts, id, NewAlert(d, id, now));
    NewAlertKeepsDraft(d, id, now);
    assert InsertAll(c.rows, rows).Values() == c.rows.Values() + rows by {
      CreatedRowsFresh(c, d, teamIds, userIds, now);
      InsertAllAppends(c.rows, rows);
    }
  }

  /** For a team alert one row per target team (team set, no user), for a
      user alert one row per target user (user set, no team), for an
      organisation alert none; each row names the new alert. */
  lemma CreateRowsByKind(c: Catalog, d: AlertDraft, teamIds: seq<Id>, userIds: seq<Id>, now: Time)
    ensures var r := Create(c, d, teamIds, userIds, now).1;
            var rows := VisibilityRows(d.visibilityType, r.alert.id, teamIds, userIds, c.nextId + 1, now);
            && (forall v :: v in rows ==> v.alertId == r.alert.id && v.createdAt == now)
            && (d.visibilityType == TeamScoped ==>
                  |rows| == |teamIds| && forall i :: 0 <= i < |rows| ==> rows[i].teamId == Some(teamIds[i]) && rows[i].userId.None?)
            && (d.visibilityType == UserScoped ==>
                  |rows| == |userIds| && forall i :: 0 <= i < |rows| ==> rows[i].userId == Some(userIds[i]) && rows[i].teamId.None?)
            && (d.visibilityType == Organization ==> rows == [])
  {
  }

  // ------------------------------------------------------------------
  // Target reconstruction

  /** `v.teamId` / `v.userId` as the `filter(v => v.teamId)` test sees it:
      present and not the empty string. */
  predicate Truthy(o: Option<Id>) {
    o.Some? && o.value != ""
  }

  /** `filter(v => v.teamId).map(v => v.teamId!)`. */
  function TeamIdsOf(rows: seq<AlertVisibility>): (r: seq<Id>)
    ensures |r| <= |rows|
    decreases |rows|
  {
    if rows == [] then []
    else
      var last := rows[|rows| - 1];
      TeamIdsOf(rows[..|rows| - 1]) + if Truthy(last.teamId) then [last.teamId.value] else []
  }

  /** `filter(v => v.userId).map(v => v.userId!)`. */
  function UserIdsOf(rows: seq<AlertVisibility>): (r: seq<Id>)
    ensures |r| <= |rows|
    decreases |rows|
  {
    if rows == [] then []
    else
      var last := rows[|rows| - 1];
      UserIdsOf(rows[..|rows| - 1]) + if Truthy(last.userId) then [last.userId.value] else []
  }

  lemma {:induction false} TeamIdsOfMembership(rows: seq<AlertVisibility>, t: Id)
    ensures t in TeamIdsOf(rows) <==> exists v :: v in rows && v.teamId == Some(t) && t != ""
    decreases |rows|
  {
    if rows != [] {
      var init := rows[..|rows| - 1];
      TeamIdsOfMembership(init, t);
      assert forall v :: v in rows <==> v in init || v == rows[|rows| - 1];
    }
  }

  lemma {:induction false} UserIdsOfMembership(rows: seq<AlertVisibility>, u: Id)
    ensures u in UserIdsOf(rows) <==> exists v :: v in rows && v.userId == Some(u) && u != ""
    decreases |rows|
  {
    if rows != [] {
      var init := rows[..|rows| - 1];
      UserIdsOfMembership(init, u);
      assert forall v :: v in rows <==> v in init || v == rows[|rows| - 1];
    }
  }

  /** `{ ...alert, targetTeamIds, targetUserIds }` from the rows `findByAlert`
      returned. */
  function Targets(a: Alert, rows: seq<AlertVisibility>): AlertWithTargets {
    AlertWithTargets(a, TeamIdsOf(rows), UserIdsOf(rows))
  }

  /** The `map` callback of `getAllAlerts`: the rows are looked up by the
      alert's own id. */
  function WithTargets(a: Alert, visRows: seq<AlertVisibility>): AlertWithTargets {
    Targets(a, Vis.FindByAlert(visRows, a.id))
  }

  /** `getAlert(id)` over the alert Map and the visibility store's
      `findAll()`: absent exactly for an unknown id, otherwise the stored
      alert. */
  function GetAlert(alerts: map<Id, Alert>, visRows: seq<AlertVisibility>, id: Id): (r: Option<AlertWithTargets>)
    ensures r.None? <==> id !in alerts
    ensures r.Some? ==> r.value.alert == alerts[id]
  {
    if id !in alerts then None else Some(Targets(alerts[id], Vis.FindByAlert(visRows, id)))
  }

  /** The targets `getAlert` reports are exactly the non-empty team and user
      ids of the visibility rows that name the alert. */
  lemma GetAlertTargets(alerts: map<Id, Alert>, visRows: seq<AlertVisibility>, id: Id)
    requires id in alerts
    ensures forall t :: t in GetAlert(alerts, visRows, id).value.targetTeamIds <==>
              exists v :: v in visRows && v.alertId == id && v.teamId == Some(t) && t != ""
    ensures forall u :: u in GetAlert(alerts, visRows, id).value.targetUserIds <==>
              exists v :: v in visRows && v.alertId == id && v.userId == Some(u) && u != ""
  {
    var rows := Vis.FindByAlert(visRows, id);
    var w := GetAlert(alerts, visRows, id).value;
    assert w.targetTeamIds == TeamIdsOf(rows) && w.targetUserIds == UserIdsOf(rows);
    forall t ensures t in TeamIdsOf(rows) <==> exists v :: v in visRows && v.alertId == id && v.teamId == Some(t) && t != "" {
      TeamIdsOfMembership(rows, t);
    }
    forall u ensures u in UserIdsOf(rows) <==> exists v :: v in visRows && v.alertId == id && v.userId == Some(u) && u != "" {
      UserIdsOfMembership(rows, u);
    }
  }

  /** `getAllAlerts()`: every stored alert, in store order, with its targets. */
  function GetAllAlerts(all: seq<Alert>, visRows: seq<AlertVisibility>): (r: seq<AlertWithTargets>)
    ensures |r| == |all|
    ensures forall i :: 0 <= i < |all| ==> r[i].alert == all[i]
  {
    Map(all, TargetsFrom(visRows))
  }

  function TargetsFrom(visRows: seq<AlertVisibility>): Alert -> AlertWithTargets {
    (a: Alert) => WithTargets(a, visRows)
  }

  /** `getActiveAlerts()` at `now`. */
  function GetActiveAlerts(all: seq<Alert>, visRows: seq<AlertVisibility>, now: Time): (r: seq<AlertWithTargets>)
    ensures |r| <= |all|
  {
    GetAllAlerts(FindActiveAlerts(all, now), visRows)
  }

  /** On a keyed alert store, `getAllAlerts()` lists for every stored alert
      exactly what `getAlert` returns for its id. */
  lemma GetAllAgreesWithGetAlert(alerts: Table<Alert>, visRows: seq<AlertVisibility>, i: nat)
    requires alerts.Valid() && alerts.KeyedBy(AlertId) && i < |alerts.Values()|
    ensures GetAlert(alerts.data, visRows, alerts.Values()[i].id) == Some(GetAllAlerts(alerts.Values(), visRows)[i])
  {
    assert AlertId(alerts.data[alerts.order[i]]) == alerts.order[i];
  }

  function TargetsActive(now: Time): AlertWithTargets -> bool {
    (w: AlertWithTargets) => EffectivelyActive(w.alert, now)
  }

  /** `getActiveAlerts()` is `getAllAlerts()` restricted to the effectively
      active alerts, in the same order. */
  lemma ActiveIsAllRestricted(all: seq<Alert>, visRows: seq<AlertVisibility>, now: Time)
    ensures GetActiveAlerts(all, visRows, now) == Filter(GetAllAlerts(all, visRows), TargetsActive(now))
  {
    MapFilter(all, TargetsFrom(visRows), InWindow(now), TargetsActive(now));
  }

  lemma {:induction false} TeamIdsOfRows(rows: seq<AlertVisibility>, ids: seq<Id>)
    requires |rows| == |ids|
    requires forall i :: 0 <= i < |rows| ==> rows[i].teamId == Some(ids[i]) && ids[i] != ""
    ensures TeamIdsOf(rows) == ids
    decreases |rows|
  {
    if rows != [] {
      TeamIdsOfRows(rows[..|rows| - 1], ids[..|ids| - 1]);
    }
  }

  lemma {:induction false} UserIdsOfRows(rows: seq<AlertVisibility>, ids: seq<Id>)
    requires |rows| == |ids|
    requires forall i :: 0 <= i < |rows| ==> rows[i].userId == Some(ids[i]) && ids[i] != ""
    ensures UserIdsOf(rows) == ids
    decreases |rows|
  {
    if rows != [] {
      UserIdsOfRows(rows[..|rows| - 1], ids[..|ids| - 1]);
    }
  }

  lemma {:induction false} NoTeamIds(rows: seq<AlertVisibility>)
    requires forall v :: v in rows ==> v.teamId.None?
    ensures TeamIdsOf(rows) == []
    decreases |rows|
  {
    if rows != [] {
      assert forall v :: v in rows[..|rows| - 1] ==> v in rows;
      NoTeamIds(rows[..|rows| - 1]);
    }
  }

  lemma {:induction false} NoUserIds(rows: seq<AlertVisibility>)
    requires forall v :: v in rows ==> v.userId.None?
    ensures UserIdsOf(rows) == []
    decreases |rows|
  {
    if rows != [] {
      assert forall v :: v in rows[..|rows| - 1] ==> v in rows;
      NoUserIds(rows[..|rows| - 1]);
    }
  }

  /** The rows stored for a just-created alert are exactly the rows
      `createAlert` wrote for it, in order. */
  lemma CreatedRowsFound(c: Catalog, d: AlertDraft, teamIds: seq<Id>, userIds: seq<Id>, now: Time)
    requires c.Ready()
    ensures var (c', r) := Create(c, d, teamIds, userIds, now);
            Vis.FindByAlert(c'.rows.Values(), r.alert.id) ==
              VisibilityRows(d.visibilityType, r.alert.id, teamIds, userIds, c.nextId + 1, now)
  {
    var id := FreshId(c.nextId);
    var rows := VisibilityRows(d.visibilityType, id, teamIds, userIds, c.nextId + 1, now);
    var c' := Create(c, d, teamIds, userIds, now).0;
    assert c'.rows == InsertAll(c.rows, rows) by {
      CreateUnfolds(c, d, teamIds, userIds, now);
    }
    assert c'.rows.Values() == c.rows.Values() + rows by {
      CreatedRowsFresh(c, d, teamIds, userIds, now);
      InsertAllAppends(c.rows, rows);
    }
    calc {
      Vis.FindByAlert(c'.rows.Values(), id);
      Filter(c.rows.Values() + rows, Vis.AlertIs(id));
      { FilterConcat(c.rows.Values(), rows, Vis.AlertIs(id)); }
      Filter(c.rows.Values(), Vis.AlertIs(id)) + Filter(rows, Vis.AlertIs(id));
      { NoRowsForFreshAlert(c); FilterAll(rows, id); }
      rows;
    }
  }

  /** A ready catalog has no visibility row for the next alert id. */
  lemma NoRowsForFreshAlert(c: Catalog)
    requires c.Ready()
    ensures Vis.FindByAlert(c.rows.Values(), FreshId(c.nextId)) == []
  {
    var vs := c.rows.Values();
    forall v | v in vs ensures v.alertId != FreshId(c.nextId) {
      var i :| 0 <= i < |vs| && vs[i] == v;
      assert c.rows.order[i] in c.rows.data;
    }
    assert forall v :: v !in Vis.FindByAlert(vs, FreshId(c.nextId));
  }

  /** The target lists read back from the rows `createAlert` writes: the list
      of the alert's own kind as passed (given non-empty ids), and empty for
      the other kind. */
  lemma CreatedTargets(kind: VisibilityType, alertId: Id, teamIds: seq<Id>, userIds: seq<Id>, firstId: nat, now: Time)
    requires forall t :: t in teamIds ==> t != ""
    requires forall u :: u in userIds ==> u != ""
    ensures var rows := VisibilityRows(kind, alertId, teamIds, userIds, firstId, now);
            && TeamIdsOf(rows) == (if kind == TeamScoped then teamIds else [])
            && UserIdsOf(rows) == (if kind == UserScoped then userIds else [])
  {
    var rows := VisibilityRows(kind, alertId, teamIds, userIds, firstId, now);
    assert forall i :: 0 <= i < |teamIds| ==> teamIds[i] in teamIds;
    assert forall i :: 0 <= i < |userIds| ==> userIds[i] in userIds;
    match kind
    case TeamScoped =>
      TeamIdsOfRows(rows, teamIds);
      NoUserIds(rows);
    case UserScoped =>
      UserIdsOfRows(rows, userIds);
      NoTeamIds(rows);
    case Organization =>
  }

  /** Reading a just-created alert back: `getAlert` returns the alert with the
      target list of its own kind as passed (given non-empty ids) and an empty
      list for the other kind; an organisation alert comes back with no
      targets even when some were passed. */
  lemma CreateThenGetAlert(c: Catalog, d: AlertDraft, teamIds: seq<Id>, userIds: seq<Id>, now: Time)
    requires c.Ready()
    requires forall t :: t in teamIds ==> t != ""
    requires forall u :: u in userIds ==> u != ""
    ensures var (c', r) := Create(c, d, teamIds, userIds, now);
            var teams := if d.visibilityType == TeamScoped then teamIds else [];
            var users := if d.visibilityType == UserScoped then userIds else [];
            && GetAlert(c'.alerts.data, c'.rows.Values(), r.alert.id) == Some(AlertWithTargets(r.alert, teams, users))
  {
    var id := FreshId(c.nextId);
    var a := NewAlert(d, id, now);
    var rows := VisibilityRows(d.visibilityType, id, teamIds, userIds, c.nextId + 1, now);
    var c' := Create(c, d, teamIds, userIds, now).0;
    CreateUnfolds(c, d, teamIds, userIds, now);
    CreatedRowsFound(c, d, teamIds, userIds, now);
    CreatedTargets(d.visibilityType, id, teamIds, userIds, c.nextId + 1, now);
    assert Create(c, d, teamIds, userIds, now).1.alert == a;
    assert id in c'.alerts.data && c'.alerts.data[id] == a;
    assert GetAlert(c'.alerts.data, c'.rows.Values(), id) == Some(Targets(a, rows));
  }

  lemma {:induction false} FilterAll(rows: seq<AlertVisibility>, id: Id)
    requires forall v :: v in rows ==> v.alertId == id
    ensures Filter(rows, Vis.AlertIs(id)) == rows
    decreases |rows|
  {
    if rows != [] {
      var init := rows[..|rows| - 1];
      assert forall v :: v in init ==> v in rows;
      FilterAll(init, id);
      assert rows == init + [rows[|rows| - 1]];
    }
  }

  // ------------------------------------------------------------------
  // updateAlert and archiveAlert

  /** `alertRepository.update(id, { ...updates, updatedAt: now })` on the Map. */
  function AfterUpdate(t: Table<Alert>, id: Id, p: AlertPatch, now: Time): Table<Alert> {
    if id in t.data then t.Set(id, ApplyAlertPatch(t.data[id], p, now)) else t
  }

  /** An update keeps the catalog ready: ids and visibility rows are not
      touched. */
  lemma UpdateKeepsReady(c: Catalog, id: Id, p: AlertPatch, now: Time)
    requires c.Ready()
    ensures c.(alerts := AfterUpdate(c.alerts, id, p, now)).Ready()
  {
  }

  /** `archiveAlert(id)` at `now`: for an unknown id nothing changes; otherwise
      the alert becomes archived with `updatedAt = now` and nothing else about
      it or any other alert changes, and from then on it is never active. */
  lemma ArchiveEffect(t: Table<Alert>, id: Id, now: Time, later: Time)
    requires t.Valid()
    ensures id !in t.data ==> AfterUpdate(t, id, ArchivePatch(), now) == t
    ensures var t' := AfterUpdate(t, id, ArchivePatch(), now);
            id in t.data ==>
              && t'.Valid() && t'.order == t.order && t'.data.Keys == t.data.Keys
              && t'.data[id] == t.data[id].(status := Archived, updatedAt := now)
              && (forall k :: k in t.data && k != id ==> t'.data[k] == t.data[k])
              && t'.data[id] !in FindActiveAlerts(t'.Values(), later)
  {
    if id in t.data {
      ArchiveOnlyStatus(t.data[id], now);
      var t' := AfterUpdate(t, id, ArchivePatch(), now);
      ArchivedNeverActive(t'.Values(), later, t'.data[id]);
    }
  }

  class AlertService {
    const alerts: Store<Alert>
    const visibility: Store<AlertVisibility>
    /** The fresh-identifier counter standing for uuidv4(). */
    var nextId: nat

    ghost function Current(): Catalog
      reads this, alerts, visibility
    {
      Catalog(alerts.data, visibility.data, nextId)
    }

    /** Both stores key their entities by `id`. */
    ghost predicate KeyedById() {
      && (forall a :: alerts.idOf(a) == a.id)
      && (forall v :: visibility.idOf(v) == v.id)
    }

    ghost predicate Valid()
      reads this, alerts, visibility
    {
      && Current().Ready()
      && alerts.Valid() && visibility.Valid()
      && KeyedById()
    }

    constructor (alerts: Store<Alert>, visibility: Store<AlertVisibility>)
      requires Catalog(alerts.data, visibility.data, 0).Ready()
      requires (forall a :: alerts.idOf(a) == a.id) && (forall v :: visibility.idOf(v) == v.id)
      ensures Valid() && this.alerts == alerts && this.visibility == visibility && nextId == 0
    {
      this.alerts := alerts;
      this.visibility := visibility;
      nextId := 0;
    }

    method CreateAlert(alertData: AlertDraft, targetTeamIds: seq<Id>, targetUserIds: seq<Id>, now: Time)
      returns (r: AlertWithTargets)
      requires Valid()
      modifies this, alerts, visibility
      ensures Valid()
      ensures (Current(), r) == Create(old(Current()), alertData, targetTeamIds, targetUserIds, now)
    {
      ghost var c := Current();
      var alert := NewAlert(alertData, FreshId(nextId), now);
      nextId := nextId + 1;
      ghost var firstRow := nextId;
      StoreCreated(alert, targetTeamIds, targetUserIds, now);
      r := AlertWithTargets(alert, targetTeamIds, targetUserIds);
      CreateMatches(c, alertData, targetTeamIds, targetUserIds, now, alert, firstRow, alerts.data, visibility.data, nextId);
    }

    /** The writes of `createAlert`: the alert, then its visibility rows, whose
        ids continue the counter. */
    method StoreCreated(alert: Alert, targetTeamIds: seq<Id>, targetUserIds: seq<Id>, now: Time)
      requires alerts.Valid() && visibility.Valid() && KeyedById()
      modifies this, alerts, visibility
      ensures alerts.Valid() && visibility.Valid()
      ensures var rows := VisibilityRows(alert.visibilityType, alert.id, targetTeamIds, targetUserIds, old(nextId), now);
              && alerts.data == old(alerts.data).Set(alert.id, alert)
              && visibility.data == InsertAll(old(visibility.data), rows)
              && nextId == old(nextId) + |rows|
    {
      StoreAlert(alert);
      assert visibility.data == old(visibility.data) && nextId == old(nextId);
      AddRows(alert.id, alert.visibilityType, targetTeamIds, targetUserIds, now);
    }

    /** The visibility rows of `createAlert`: one per target team for a
        team-scoped alert, one per target user for a user-scoped one, none for
        the organisation. */
    method AddRows(alertId: Id, kind: VisibilityType, targetTeamIds: seq<Id>, targetUserIds: seq<Id>, now: Time)
      requires visibility.Valid() && KeyedById()
      modifies this, visibility
      ensures visibility.Valid()
      ensures var rows := VisibilityRows(kind, alertId, targetTeamIds, targetUserIds, old(nextId), now);
              visibility.data == InsertAll(old(visibility.data), rows) && nextId == old(nextId) + |rows|
    {
      if kind == TeamScoped {
        AddTeamRows(alertId, targetTeamIds, nextId, now);
        nextId := nextId + |targetTeamIds|;
      } else if kind == UserScoped {
        AddUserRows(alertId, targetUserIds, nextId, now);
        nextId := nextId + |targetUserIds|;
      }
    }

    /** `alertRepository.create(alert)`. */
    method StoreAlert(alert: Alert)
      requires alerts.Valid() && KeyedById()
      modifies alerts
      ensures alerts.Valid() && alerts.data == old(alerts.data).Set(alert.id, alert)
    {
      var _ := alerts.Create(alert);
    }

    /** `visibilityRepository.create(row)` for the `i`-th of `rows`, after the
        first `i` are stored. */
    method StoreRow(ghost before: Table<AlertVisibility>, rows: seq<AlertVisibility>, i: nat)
      requires visibility.Valid() && KeyedById()
      requires i < |rows| && visibility.data == InsertAll(before, rows[..i])
      modifies visibility
      ensures visibility.Valid() && visibility.data == InsertAll(before, rows[..i + 1])
    {
      var _ := visibility.Create(rows[i]);
      InsertAllStep(before, rows, i);
    }

    /** The `forEach` of `createAlert` over the target teams: one visibility
        row per team, the i-th with the counter value `firstId + i` as its id;
        the caller advances the counter past them. */
    method AddTeamRows(alertId: Id, teamIds: seq<Id>, firstId: nat, now: Time)
      requires visibility.Valid() && KeyedById()
      modifies visibility
      ensures visibility.Valid()
      ensures visibility.data == InsertAll(old(visibility.data), TeamRows(alertId, teamIds, firstId, now))
    {
      var rows := TeamRows(alertId, teamIds, firstId, now);
      ghost var before := visibility.data;
      for i := 0 to |rows|
        invariant visibility.Valid()
        invariant visibility.data == InsertAll(before, rows[..i])
      {
        StoreRow(before, rows, i);
      }
      assert rows[..|rows|] == rows;
    }

    /** The `forEach` of `createAlert` over the target users: one visibility
        row per user, the i-th with the counter value `firstId + i` as its id;
        the caller advances the counter past them. */
    method AddUserRows(alertId: Id, userIds: seq<Id>, firstId: nat, now: Time)
      requires visibility.Valid() && KeyedById()
      modifies visibility
      ensures visibility.Valid()
      ensures visibility.data == InsertAll(old(visibility.data), UserRows(alertId, userIds, firstId, now))
    {
      var rows := UserRows(alertId, userIds, firstId, now);
      ghost var before := visibility.data;
      for i := 0 to |rows|
        invariant visibility.Valid()
        invariant visibility.data == InsertAll(before, rows[..i])
      {
        StoreRow(before, rows, i);
      }
      assert rows[..|rows|] == rows;
    }

    method UpdateAlert(id: Id, updates: AlertPatch, now: Time) returns (r: Option<Alert>)
      requires Valid()
      modifies alerts
      ensures Valid()
      ensures alerts.data == AfterUpdate(old(alerts.data), id, updates, now)
      ensures r == if id in old(alerts.data.data) then Some(ApplyAlertPatch(old(alerts.data.data[id]), updates, now)) else None
    {
      UpdateKeepsReady(Current(), id, updates, now);
      r := alerts.Update(id, PatchAt(updates, now));
    }

    method ArchiveAlert(id: Id, now: Time) returns (r: Option<Alert>)
      requires Valid()
      modifies alerts
      ensures Valid()
      ensures alerts.data == AfterUpdate(old(alerts.data), id, ArchivePatch(), now)
      ensures r == if id in old(alerts.data.data) then Some(old(alerts.data.data[id]).(status := Archived, updatedAt := now)) else None
    {
      r := UpdateAlert(id, ArchivePatch(), now);
      if id in old(alerts.data.data) {
        ArchiveOnlyStatus(old(alerts.data.data[id]), now);
      }
    }
  }

  /** The update function `update` applies: the patch followed by the new
      update time. */
  function PatchAt(p: AlertPatch, now: Time): Alert -> Alert {
    (a: Alert) => ApplyAlertPatch(a, p, now)
  }
}
