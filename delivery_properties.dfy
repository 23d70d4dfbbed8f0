// What `deliverAlert` does to the stores, proved about the specification
// functions of NotificationEngine: one initial delivery record per recipient,
// in order; find-or-create of the (user, alert) preference, so that a pair has
// at most one preference created for it; the shape of a created preference; and
// the failure on an unregistered channel type.
module DeliveryProperties {
  import opened Prelude
  import opened Domain
  import opened Tables
  import opened Channels
  import opened PreferenceRepository
  import opened NotificationEngine

  /** The record `deliverAlert` writes for `user`, whatever its fresh id. */
  predicate InitialRecord(r: NotificationDelivery, alert: Alert, user: User, now: Time) {
    && r.alertId == alert.id && r.userId == user.id && r.deliveryType == alert.deliveryType
    && r.deliveredAt == now && r.createdAt == now && !r.isReminder
  }

  /** Some recipient has this id. */
  predicate HasUser(users: seq<User>, userId: Id) {
    exists i :: 0 <= i < |users| && users[i].id == userId
  }

  /** A list has a recipient with this id iff its head has it or its tail
      does. */
  lemma HasUserCons(users: seq<User>, userId: Id)
    requires users != []
    ensures HasUser(users, userId) <==> users[0].id == userId || HasUser(users[1..], userId)
  {
    if HasUser(users, userId) && users[0].id != userId {
      var i :| 0 <= i < |users| && users[i].id == userId;
      assert users[1..][i - 1] == users[i];
    }
    if HasUser(users[1..], userId) {
      var i :| 0 <= i < |users[1..]| && users[1..][i].id == userId;
      assert users[i + 1] == users[1..][i];
    }
  }

  /** The in-app log entries of delivering `alert` to `users`, in order. */
  function InAppEntries(alert: Alert, users: seq<User>, now: Time): (r: seq<Notification>)
    ensures |r| == |users|
    ensures forall i :: 0 <= i < |users| ==> r[i] == Notification(alert, users[i], now)
  {
    seq(|users|, i requires 0 <= i < |users| => Notification(alert, users[i], now))
  }

  /** A preference as `deliverAlert` creates it for a recipient. */
  predicate CreatedPreference(p: UserAlertPreference, alert: Alert, users: seq<User>, now: Time) {
    && p.alertId == alert.id && HasUser(users, p.userId)
    && !p.isRead && p.snoozedUntil.None? && p.lastRemindedAt.None?
    && p.createdAt == now && p.updatedAt == now
  }

  /** One loop iteration appends one record, appends a preference exactly
      when the pair has none, and keeps the stores keyed and the counter
      fresh. */
  lemma DeliverOneStep(e: Engine, alert: Alert, user: User, now: Time)
    requires e.Ready()
    ensures var r := DeliverOne(e, alert, user, now);
            && r.Ready()
            && r.deliveries.Values() == e.deliveries.Values()
                 + [NotificationDelivery(FreshId(e.nextId), alert.id, user.id, alert.deliveryType, now, false, now)]
            && r.prefs.Values() == e.prefs.Values()
                 + (if PairCount(e.prefs.Values(), user.id, alert.id) == 0
                    then [NewPreference(FreshId(e.nextId + 1), alert.id, user.id, now)] else [])
            && r.inApp == Logged(e.inApp, alert, user, now)
  {
    var n := e.nextId;
    var rec := NotificationDelivery(FreshId(n), alert.id, user.id, alert.deliveryType, now, false, now);
    var p := NewPreference(FreshId(n + 1), alert.id, user.id, now);
    var log := Logged(e.inApp, alert, user, now);
    PairCountZero(e.prefs.Values(), user.id, alert.id);
    SetNewValues(e.deliveries, FreshId(n), rec);
    if PairCount(e.prefs.Values(), user.id, alert.id) == 0 {
      var r := Engine(e.deliveries.Set(rec.id, rec), e.prefs.Set(p.id, p), log, n + 2);
      assert DeliverOne(e, alert, user, now) == r;
      SetNewValues(e.prefs, FreshId(n + 1), p);
      StepReady(e, r, rec, Some(p));
    } else {
      var r := Engine(e.deliveries.Set(rec.id, rec), e.prefs, log, n + 1);
      assert DeliverOne(e, alert, user, now) == r;
      assert r.prefs.Values() == e.prefs.Values() + [];
      StepReady(e, r, rec, None);
    }
  }

  /** Storing a record, and possibly a preference, under the next fresh ids
      keeps an engine ready. */
  lemma StepReady(e: Engine, r: Engine, rec: NotificationDelivery, p: Option<UserAlertPreference>)
    requires e.Ready() && rec.id == FreshId(e.nextId)
    requires r.deliveries == e.deliveries.Set(rec.id, rec)
    requires p.None? ==> r.prefs == e.prefs && r.nextId == e.nextId + 1
    requires p.Some? ==> p.value.id == FreshId(e.nextId + 1) && r.prefs == e.prefs.Set(p.value.id, p.value)
                         && r.nextId == e.nextId + 2
    ensures r.Ready()
  {
    var n := e.nextId;
    forall m: nat | m >= r.nextId
      ensures FreshId(m) !in r.deliveries.data && FreshId(m) !in r.prefs.data
    {
      if FreshId(m) == FreshId(n) {
        FreshIdInjective(m, n);
      }
      if FreshId(m) == FreshId(n + 1) {
        FreshIdInjective(m, n + 1);
      }
    }
  }

  /** `all` is `before` followed by one initial record per user of `users`,
      in order. */
  predicate AppendsInitialRecords(all: seq<NotificationDelivery>, before: seq<NotificationDelivery>,
                                  alert: Alert, users: seq<User>, now: Time) {
    && |all| == |before| + |users|
    && all[..|before|] == before
    && forall i :: 0 <= i < |users| ==> InitialRecord(all[|before| + i], alert, users[i], now)
  }

  /** Gluing one iteration's record in front of the rest of the loop's. */
  lemma RecordsGlue(old0: seq<NotificationDelivery>, old1: seq<NotificationDelivery>, all: seq<NotificationDelivery>,
                    alert: Alert, users: seq<User>, now: Time)
    requires users != [] && |old1| == |old0| + 1 && old1[..|old0|] == old0
    requires InitialRecord(old1[|old0|], alert, users[0], now)
    requires AppendsInitialRecords(all, old1, alert, users[1..], now)
    ensures AppendsInitialRecords(all, old0, alert, users, now)
  {
    assert all[..|old0|] == all[..|old1|][..|old0|];
    forall i | 0 <= i < |users|
      ensures InitialRecord(all[|old0| + i], alert, users[i], now)
    {
      if i == 0 {
        assert all[|old0|] == all[..|old1|][|old0|];
      } else {
        assert all[|old0| + i] == all[|old1| + (i - 1)];
        assert users[1..][i - 1] == users[i];
      }
    }
  }

  /** `deliverAlert` appends exactly one record per recipient, in the order
      of the list, each an initial (non-reminder) delivery of the alert to
      that user; the earlier records are unchanged, and an in-app alert adds
      one log entry per recipient. */
  lemma {:induction false} DeliverAllRecords(e: Engine, alert: Alert, users: seq<User>, now: Time)
    requires e.Ready()
    ensures var r := DeliverAll(e, alert, users, now);
            && r.Ready()
            && AppendsInitialRecords(r.deliveries.Values(), e.deliveries.Values(), alert, users, now)
            && r.inApp == e.inApp + (if alert.deliveryType == InApp then InAppEntries(alert, users, now) else [])
    decreases |users|
  {
    if users == [] {
      assert e.inApp + [] == e.inApp;
      assert e.deliveries.Values()[..|e.deliveries.Values()|] == e.deliveries.Values();
    } else {
      var e1 := DeliverOne(e, alert, users[0], now);
      DeliverOneStep(e, alert, users[0], now);
      DeliverAllRecords(e1, alert, users[1..], now);
      var r := DeliverAll(e, alert, users, now);
      assert r == DeliverAll(e1, alert, users[1..], now);
      var old0, old1 := e.deliveries.Values(), e1.deliveries.Values();
      assert old1[..|old0|] == old0;
      RecordsGlue(old0, old1, r.deliveries.Values(), alert, users, now);
      LogGlue(e.inApp, e1.inApp, r.inApp, alert, users, now);
    }
  }

  lemma LogGlue(log0: seq<Notification>, log1: seq<Notification>, log: seq<Notification>,
                alert: Alert, users: seq<User>, now: Time)
    requires users != [] && log1 == Logged(log0, alert, users[0], now)
    requires log == log1 + (if alert.deliveryType == InApp then InAppEntries(alert, users[1..], now) else [])
    ensures log == log0 + (if alert.deliveryType == InApp then InAppEntries(alert, users, now) else [])
  {
    if alert.deliveryType == InApp {
      InAppEntriesCons(alert, users, now);
      AppendAssoc(log0, [Notification(alert, users[0], now)], InAppEntries(alert, users[1..], now));
    } else {
      assert log == log0 + [];
    }
  }

  /** The in-app entries of a non-empty list start with the first user's. */
  lemma InAppEntriesCons(alert: Alert, users: seq<User>, now: Time)
    requires users != []
    ensures InAppEntries(alert, users, now) == [Notification(alert, users[0], now)] + InAppEntries(alert, users[1..], now)
  {
    var all, rest := InAppEntries(alert, users, now), InAppEntries(alert, users[1..], now);
    forall i | 0 <= i < |all| ensures all[i] == ([Notification(alert, users[0], now)] + rest)[i] {
      if i > 0 {
        assert users[1..][i - 1] == users[i];
      }
    }
  }

  /** After `deliverAlert`, the number of preferences of a pair is one if the
      pair is (a recipient, the alert) and had none, and is unchanged
      otherwise; in particular every recipient has a preference for the
      alert, and an existing one is never duplicated, even when a user
      appears twice in the list. */
  lemma {:induction false} DeliverAllPairCount(e: Engine, alert: Alert, users: seq<User>, now: Time,
                                               userId: Id, alertId: Id)
    requires e.Ready()
    ensures var before := PairCount(e.prefs.Values(), userId, alertId);
            PairCount(DeliverAll(e, alert, users, now).prefs.Values(), userId, alertId)
              == if alertId == alert.id && HasUser(users, userId) && before == 0 then 1 else before
    ensures alertId == alert.id && HasUser(users, userId) ==>
              PairCount(DeliverAll(e, alert, users, now).prefs.Values(), userId, alertId) >= 1
    decreases |users|
  {
    if users != [] {
      var e1 := DeliverOne(e, alert, users[0], now);
      DeliverOneStep(e, alert, users[0], now);
      DeliverAllPairCount(e1, alert, users[1..], now, userId, alertId);
      var p := NewPreference(FreshId(e.nextId + 1), alert.id, users[0].id, now);
      var vs := e.prefs.Values();
      if PairCount(vs, users[0].id, alert.id) == 0 {
        FilterSnoc(vs, p, PairIs(userId, alertId));
      } else {
        assert e1.prefs.Values() == vs + [];
      }
      HasUserCons(users, userId);
    }
  }

  /** `after` keeps `before` as its prefix and every row after it is a
      preference as `deliverAlert` creates it for one of `users`. */
  predicate AppendsCreated(after: seq<UserAlertPreference>, before: seq<UserAlertPreference>,
                           alert: Alert, users: seq<User>, now: Time) {
    && |after| >= |before|
    && after[..|before|] == before
    && forall k :: |before| <= k < |after| ==> CreatedPreference(after[k], alert, users, now)
  }

  /** The first recipient's step followed by the rest of the loop's. */
  lemma AppendsCreatedGlue(all: seq<UserAlertPreference>, mid: seq<UserAlertPreference>, before: seq<UserAlertPreference>,
                           alert: Alert, users: seq<User>, now: Time)
    requires users != []
    requires AppendsCreated(mid, before, alert, users, now)
    requires AppendsCreated(all, mid, alert, users[1..], now)
    ensures AppendsCreated(all, before, alert, users, now)
  {
    assert all[..|before|] == all[..|mid|][..|before|];
    forall k | |before| <= k < |all| ensures CreatedPreference(all[k], alert, users, now) {
      HasUserCons(users, all[k].userId);
      if k < |mid| {
        assert all[k] == all[..|mid|][k];
      }
    }
  }

  /** `deliverAlert` keeps every existing preference and appends only
      preferences in the created shape: for the alert and a recipient, unread,
      neither snoozed nor reminded, created and updated at `now`. */
  lemma {:induction false} DeliverAllNewPreferences(e: Engine, alert: Alert, users: seq<User>, now: Time)
    requires e.Ready()
    ensures AppendsCreated(DeliverAll(e, alert, users, now).prefs.Values(), e.prefs.Values(), alert, users, now)
    decreases |users|
  {
    if users != [] {
      var e1 := DeliverOne(e, alert, users[0], now);
      FirstStepCreates(e, alert, users, now);
      DeliverAllNewPreferences(e1, alert, users[1..], now);
      AppendsCreatedGlue(DeliverAll(e1, alert, users[1..], now).prefs.Values(), e1.prefs.Values(), e.prefs.Values(),
                         alert, users, now);
    }
  }

  /** The first recipient's step appends at most a preference in the created
      shape. */
  lemma FirstStepCreates(e: Engine, alert: Alert, users: seq<User>, now: Time)
    requires e.Ready() && users != []
    ensures var e1 := DeliverOne(e, alert, users[0], now);
            e1.Ready() && AppendsCreated(e1.prefs.Values(), e.prefs.Values(), alert, users, now)
  {
    DeliverOneStep(e, alert, users[0], now);
    var old0, old1 := e.prefs.Values(), DeliverOne(e, alert, users[0], now).prefs.Values();
    assert HasUser(users, users[0].id);
    assert old1[..|old0|] == old0;
  }

  /** Delivering to `[u]` twice writes two records but leaves the pair with at
      most one preference when it had at most one. */
  lemma DeliverTwiceIdempotent(e: Engine, alert: Alert, u: User, now: Time)
    requires e.Ready()
    requires PairCount(e.prefs.Values(), u.id, alert.id) <= 1
    ensures var twice := DeliverAll(DeliverAll(e, alert, [u], now), alert, [u], now);
            && |twice.deliveries.Values()| == |e.deliveries.Values()| + 2
            && PairCount(twice.prefs.Values(), u.id, alert.id) == 1
  {
    var once := DeliverAll(e, alert, [u], now);
    assert HasUser([u], u.id) by {
      assert [u][0].id == u.id;
    }
    DeliverAllRecords(e, alert, [u], now);
    DeliverAllRecords(once, alert, [u], now);
    DeliverAllPairCount(e, alert, [u], now, u.id, alert.id);
    DeliverAllPairCount(once, alert, [u], now, u.id, alert.id);
  }

  /** An unregistered delivery type fails before the loop and leaves the
      stores, the log and the counter as they were; a registered one always
      succeeds. */
  lemma DeliverAlertFailure(e: Engine, registered: set<string>, alert: Alert, users: seq<User>, now: Time)
    requires e.Valid()
    ensures DeliverAlert(e, registered, alert, users, now).failed <==> DeliveryTypeKey(alert.deliveryType) !in registered
    ensures DeliverAlert(e, registered, alert, users, now).failed ==> DeliverAlert(e, registered, alert, users, now).engine == e
  {
  }

  /** `deliverAlert`, whether it completes or fails on a missing channel,
      leaves a ready engine ready. */
  lemma DeliverAlertReady(e: Engine, registered: set<string>, alert: Alert, users: seq<User>, now: Time)
    requires e.Ready()
    ensures DeliverAlert(e, registered, alert, users, now).engine.Ready()
  {
    DeliverAllRecords(e, alert, users, now);
  }
}
