// The value-level specification of NotificationService: the state the service
// changes (the delivery and preference Maps, the in-app channel's log and the
// fresh-identifier counter) as a value, and `deliverAlert` and
// `checkAndSendReminders` as functions of that value. The class in
// notification_service.dfy is proved to change its stores exactly as these
// functions say; the properties of the two operations are proved about the
// functions in delivery_properties.dfy and sweep_properties.dfy.
module NotificationEngine {
  import opened Prelude
  import opened Domain
  import opened Tables
  import opened Channels
  import opened AlertRepository
  import opened PreferenceRepository

  datatype Engine = Engine(
    deliveries: Table<NotificationDelivery>,
    prefs: Table<UserAlertPreference>,
    /** The notifications of the registered in-app channel. */
    inApp: seq<Notification>,
    /** The fresh-identifier counter standing for uuidv4(). */
    nextId: nat)
  {
    predicate Valid() {
      deliveries.Valid() && prefs.Valid()
    }

    /** Every row is stored under its own id and no identifier the counter
        will hand out is in use; a store the service alone writes to keeps
        this. */
    ghost predicate Ready() {
      && Valid()
      && deliveries.KeyedBy(DeliveryId)
      && prefs.KeyedBy(PrefId)
      && forall n: nat :: n >= nextId ==> FreshId(n) !in deliveries.data && FreshId(n) !in prefs.data
    }
  }

  /** The state after an operation, and whether it ended by throwing. */
  datatype Run = Run(engine: Engine, failed: bool)

  function DeliveryId(d: NotificationDelivery): Id {
    d.id
  }

  function PrefId(p: UserAlertPreference): Id {
    p.id
  }

  /** `channel.deliver(alert, user)` on the channel registered for the alert's
      type: only the in-app channel records it. */
  function Logged(log: seq<Notification>, alert: Alert, user: User, now: Time): seq<Notification> {
    if alert.deliveryType == InApp then log + [Notification(alert, user, now)] else log
  }

  /** The preference `deliverAlert` creates for a pair that has none. */
  function NewPreference(id: Id, alertId: Id, userId: Id, now: Time): (p: UserAlertPreference)
    ensures p.id == id && p.alertId == alertId && p.userId == userId
    ensures !p.isRead && p.snoozedUntil.None? && p.lastRemindedAt.None?
    ensures p.createdAt == now && p.updatedAt == now
  {
    UserAlertPreference(id, alertId, userId, false, None, None, now, now)
  }

  /** One iteration of the `deliverAlert` loop: deliver, record the delivery,
      and create the pair's preference if it is missing. */
  function DeliverOne(e: Engine, alert: Alert, user: User, now: Time): (r: Engine)
    requires e.Valid()
    ensures r.Valid()
  {
    var rec := NotificationDelivery(FreshId(e.nextId), alert.id, user.id, alert.deliveryType, now, false, now);
    var deliveries := e.deliveries.Set(rec.id, rec);
    var log := Logged(e.inApp, alert, user, now);
    if FindByUserAndAlert(e.prefs.Values(), user.id, alert.id).Some? then
      Engine(deliveries, e.prefs, log, e.nextId + 1)
    else
      var p := NewPreference(FreshId(e.nextId + 1), alert.id, user.id, now);
      Engine(deliveries, e.prefs.Set(p.id, p), log, e.nextId + 2)
  }

  /** `channel.deliver(alert, user)` and `deliveryRepository.create` of its
      record: the first two statements of a loop iteration, shared by
      `deliverAlert` and the sweep. */
  function Recorded(e: Engine, alert: Alert, user: User, now: Time, isReminder: bool): (r: Engine)
    requires e.Valid()
    ensures r.Valid()
  {
    var rec := NotificationDelivery(FreshId(e.nextId), alert.id, user.id, alert.deliveryType, now, isReminder, now);
    e.(deliveries := e.deliveries.Set(rec.id, rec), inApp := Logged(e.inApp, alert, user, now), nextId := e.nextId + 1)
  }

  /** The find-or-create of the (user, alert) preference. */
  function WithPreference(e: Engine, alert: Alert, user: User, now: Time): (r: Engine)
    requires e.Valid()
    ensures r.Valid()
  {
    if FindByUserAndAlert(e.prefs.Values(), user.id, alert.id).Some? then e
    else
      var p := NewPreference(FreshId(e.nextId), alert.id, user.id, now);
      e.(prefs := e.prefs.Set(p.id, p), nextId := e.nextId + 1)
  }

  /** A delivery iteration is the record followed by the find-or-create. */
  lemma DeliverOneSplit(e: Engine, alert: Alert, user: User, now: Time)
    requires e.Valid()
    ensures DeliverOne(e, alert, user, now) == WithPreference(Recorded(e, alert, user, now, false), alert, user, now)
  {
  }

  /** The `deliverAlert` loop over `users`, first to last. */
  function DeliverAll(e: Engine, alert: Alert, users: seq<User>, now: Time): (r: Engine)
    requires e.Valid()
    ensures r.Valid()
    decreases |users|
  {
    if users == [] then e else DeliverAll(DeliverOne(e, alert, users[0], now), alert, users[1..], now)
  }

  /** Turn `i` of the `deliverAlert` loop takes the state to `next`. */
  lemma DeliverAllTurn(e: Engine, alert: Alert, users: seq<User>, i: nat, next: Engine, now: Time)
    requires e.Valid() && i < |users| && next == DeliverOne(e, alert, users[i], now)
    ensures DeliverAll(e, alert, users[i..], now) == DeliverAll(next, alert, users[i + 1..], now)
  {
    assert users[i..][1..] == users[i + 1..];
  }

  /** `deliverAlert(alert, users)` given the registered channel types: the
      channel is resolved before the loop, so a missing one fails with nothing
      changed. */
  function DeliverAlert(e: Engine, registered: set<string>, alert: Alert, users: seq<User>, now: Time): (r: Run)
    requires e.Valid()
    ensures r.engine.Valid()
  {
    if DeliveryTypeKey(alert.deliveryType) !in registered then Run(e, true)
    else Run(DeliverAll(e, alert, users, now), false)
  }

  predicate Snoozed(p: UserAlertPreference, now: Time) {
    p.snoozedUntil.Some? && p.snoozedUntil.value > now
  }

  /** No reminder yet, or the last one is at least the alert's frequency old
      (equality is due). */
  predicate Due(a: Alert, p: UserAlertPreference, now: Time) {
    p.lastRemindedAt.None? || now - p.lastRemindedAt.value >= a.reminderFrequencyMinutes * 60 * 1000
  }

  /** `shouldRemind` for a preference that is neither read nor snoozed. */
  predicate ShouldRemind(a: Alert, p: UserAlertPreference, now: Time) {
    !p.isRead && !Snoozed(p, now) && Due(a, p, now)
  }

  /** The update `{ lastRemindedAt: now, updatedAt: now }` spread over a
      preference. */
  function Stamped(p: UserAlertPreference, now: Time): (r: UserAlertPreference)
    ensures r.id == p.id && r.alertId == p.alertId && r.userId == p.userId
    ensures r.isRead == p.isRead && r.snoozedUntil == p.snoozedUntil && r.createdAt == p.createdAt
    ensures r.lastRemindedAt == Some(now) && r.updatedAt == now
  {
    p.(lastRemindedAt := Some(now), updatedAt := now)
  }

  function StampAt(now: Time): UserAlertPreference -> UserAlertPreference {
    (p: UserAlertPreference) => Stamped(p, now)
  }

  /** One iteration of the inner sweep loop, for preference `p` of alert `a`;
      `users` is the user Map. */
  function SweepOne(e: Engine, a: Alert, p: UserAlertPreference, users: map<Id, User>,
                    registered: set<string>, now: Time): (r: Run)
    requires e.Valid()
    ensures r.engine.Valid()
  {
    if !ShouldRemind(a, p, now) || p.userId !in users then Run(e, false)
    else if DeliveryTypeKey(a.deliveryType) !in registered then Run(e, true)
    else
      var u := users[p.userId];
      var rec := NotificationDelivery(FreshId(e.nextId), a.id, u.id, a.deliveryType, now, true, now);
      var prefs := if p.id in e.prefs.data then e.prefs.Set(p.id, Stamped(e.prefs.data[p.id], now)) else e.prefs;
      Run(Engine(e.deliveries.Set(rec.id, rec), prefs, Logged(e.inApp, a, u, now), e.nextId + 1), false)
  }

  /** `update(id, { lastRemindedAt: now, updatedAt: now })` on the
      preference Map. */
  function Restamped(e: Engine, id: Id, now: Time): (r: Engine)
    requires e.Valid()
    ensures r.Valid()
  {
    e.(prefs := if id in e.prefs.data then e.prefs.Set(id, Stamped(e.prefs.data[id], now)) else e.prefs)
  }

  /** A reminder is the record followed by the stamp of the preference. */
  lemma SweepOneSplit(e: Engine, a: Alert, p: UserAlertPreference, users: map<Id, User>,
                      registered: set<string>, now: Time)
    requires e.Valid()
    requires ShouldRemind(a, p, now) && p.userId in users && DeliveryTypeKey(a.deliveryType) in registered
    ensures SweepOne(e, a, p, users, registered, now)
         == Run(Restamped(Recorded(e, a, users[p.userId], now, true), p.id, now), false)
  {
  }

  /** The inner loop over the preferences `ps` of alert `a`, stopping at a
      failure. */
  function SweepPrefs(run: Run, a: Alert, ps: seq<UserAlertPreference>, users: map<Id, User>,
                      registered: set<string>, now: Time): (r: Run)
    requires run.engine.Valid()
    ensures r.engine.Valid()
    decreases |ps|
  {
    if ps == [] || run.failed then run
    else SweepPrefs(SweepOne(run.engine, a, ps[0], users, registered, now), a, ps[1..], users, registered, now)
  }

  /** One turn of the outer loop: a reminder-enabled alert walks the
      preferences stored for it when its turn comes; another alert is skipped. */
  function SweepAlert(run: Run, a: Alert, users: map<Id, User>, registered: set<string>, now: Time): (r: Run)
    requires run.engine.Valid()
    ensures r.engine.Valid()
  {
    if a.reminderEnabled
    then SweepPrefs(run, a, FindByAlert(run.engine.prefs.Values(), a.id), users, registered, now)
    else run
  }

  /** Turn `j` of the inner loop, for a run that has not failed, takes it to
      `next`; a failed `next` ends the loop. */
  lemma SweepPrefsTurn(run: Run, a: Alert, ps: seq<UserAlertPreference>, j: nat, next: Run,
                       users: map<Id, User>, registered: set<string>, now: Time)
    requires run.engine.Valid() && j < |ps| && !run.failed
    requires next == SweepOne(run.engine, a, ps[j], users, registered, now)
    ensures SweepPrefs(run, a, ps[j..], users, registered, now) == SweepPrefs(next, a, ps[j + 1..], users, registered, now)
    ensures next.failed ==> SweepPrefs(next, a, ps[j + 1..], users, registered, now) == next
  {
    assert ps[j..][1..] == ps[j + 1..];
  }

  /** The outer loop over the active alerts, stopping at a failure. */
  function SweepAlerts(run: Run, alerts: seq<Alert>, users: map<Id, User>,
                       registered: set<string>, now: Time): (r: Run)
    requires run.engine.Valid()
    ensures r.engine.Valid()
    decreases |alerts|
  {
    if alerts == [] || run.failed then run
    else SweepAlerts(SweepAlert(run, alerts[0], users, registered, now), alerts[1..], users, registered, now)
  }

  /** Turn `i` of the outer loop, for a run that has not failed, takes it to
      `next`; a failed `next` ends the loop. */
  lemma SweepAlertsTurn(run: Run, alerts: seq<Alert>, i: nat, next: Run, users: map<Id, User>,
                        registered: set<string>, now: Time)
    requires run.engine.Valid() && i < |alerts| && !run.failed
    requires next == SweepAlert(run, alerts[i], users, registered, now)
    ensures SweepAlerts(run, alerts[i..], users, registered, now) == SweepAlerts(next, alerts[i + 1..], users, registered, now)
    ensures next.failed ==> SweepAlerts(next, alerts[i + 1..], users, registered, now) == next
  {
    assert alerts[i..][1..] == alerts[i + 1..];
  }

  /** `checkAndSendReminders()` at time `now` over the stored alerts. */
  function Sweep(e: Engine, allAlerts: seq<Alert>, users: map<Id, User>, registered: set<string>, now: Time): (r: Run)
    requires e.Valid()
    ensures r.engine.Valid()
  {
    SweepAlerts(Run(e, false), FindActiveAlerts(allAlerts, now), users, registered, now)
  }
}
