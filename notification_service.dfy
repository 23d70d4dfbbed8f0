// NotificationService: initial delivery of an alert to its recipients and the
// periodic reminder sweep, over the shared stores and the channel registry.
// Each method is proved to leave the stores, the in-app channel's log and the
// identifier counter exactly as the functions of NotificationEngine say.
module Notifications {
  import opened Prelude
  import opened Domain
  import opened Tables
  import opened Repository
  import opened Channels
  import opened ChannelFactory
  import opened AlertRepository
  import opened PreferenceRepository
  import opened NotificationEngine
  import DeliveryProperties
  import SweepProperties

  class NotificationService {
    const factory: NotificationChannelFactory
    const deliveries: Store<NotificationDelivery>
    const prefs: Store<UserAlertPreference>
    const alerts: Store<Alert>
    const users: Store<User>
    /** The fresh-identifier counter standing for uuidv4(). */
    var nextId: nat

    ghost predicate Valid()
      reads factory, deliveries, prefs
    {
      && factory.Valid() && deliveries.Valid() && prefs.Valid()
      && (forall d :: deliveries.idOf(d) == d.id)
      && (forall p :: prefs.idOf(p) == p.id)
    }

    /** The log of the registered in-app channel. */
    ghost function InAppLog(): seq<Notification>
      reads factory, factory.channels.data.Values
    {
      if "in_app" in factory.channels.data then factory.channels.data["in_app"].notifications else []
    }

    ghost function State(): Engine
      reads this, deliveries, prefs, factory, factory.channels.data.Values
    {
      Engine(deliveries.data, prefs.data, InAppLog(), nextId)
    }

    /** The service over valid stores keyed by id, none of which holds an
        identifier the counter has yet to hand out. */
    constructor (factory: NotificationChannelFactory, deliveries: Store<NotificationDelivery>,
                 prefs: Store<UserAlertPreference>, alerts: Store<Alert>, users: Store<User>)
      requires factory.Valid() && deliveries.Valid() && prefs.Valid()
      requires (forall d :: deliveries.idOf(d) == d.id) && (forall p :: prefs.idOf(p) == p.id)
      requires Engine(deliveries.data, prefs.data, [], 0).Ready()
      ensures Valid() && State().Ready()
      ensures this.factory == factory && this.deliveries == deliveries && this.prefs == prefs
      ensures this.alerts == alerts && this.users == users && nextId == 0
    {
      this.factory := factory;
      this.deliveries := deliveries;
      this.prefs := prefs;
      this.alerts := alerts;
      this.users := users;
      nextId := 0;
    }

    /** The engine state, reading the in-app log from `inAppChannel`. */
    ghost function Current(inAppChannel: Channel?): Engine
      reads this, deliveries, prefs, inAppChannel
    {
      Engine(deliveries.data, prefs.data, if inAppChannel == null then [] else inAppChannel.notifications, nextId)
    }

    /** One iteration of the `deliverAlert` loop, on the resolved channel. */
    method DeliverTo(channel: Channel, ghost inAppChannel: Channel?, alert: Alert, user: User, now: Time)
      requires Valid()
      requires channel.kind == alert.deliveryType
      requires inAppChannel != null ==> inAppChannel.kind == InApp
      requires channel.kind == InApp ==> channel == inAppChannel
      modifies this, deliveries, prefs, channel
      ensures Valid()
      ensures Current(inAppChannel) == DeliverOne(old(Current(inAppChannel)), alert, user, now)
    {
      DeliverOneSplit(Current(inAppChannel), alert, user, now);
      RecordDelivery(channel, inAppChannel, alert, user, now, false);
      EnsurePreference(inAppChannel, alert, user, now);
    }

    /** `channel.deliver(alert, user)` and the delivery record of it. */
    method RecordDelivery(channel: Channel, ghost inAppChannel: Channel?, alert: Alert, user: User,
                          now: Time, isReminder: bool)
      requires Valid()
      requires channel.kind == alert.deliveryType
      requires inAppChannel != null ==> inAppChannel.kind == InApp
      requires channel.kind == InApp ==> channel == inAppChannel
      modifies this, deliveries, channel
      ensures Valid()
      ensures Current(inAppChannel) == Recorded(old(Current(inAppChannel)), alert, user, now, isReminder)
    {
      ghost var before := Current(inAppChannel);
      channel.Deliver(alert, user, now);
      var record := NotificationDelivery(FreshId(nextId), alert.id, user.id, alert.deliveryType, now, isReminder, now);
      var _ := deliveries.Create(record);
      nextId := nextId + 1;
      assert prefs.data == before.prefs;
    }

    /** The find-or-create of the (user, alert) preference. */
    method EnsurePreference(ghost inAppChannel: Channel?, alert: Alert, user: User, now: Time)
      requires Valid()
      modifies this, prefs
      ensures Valid()
      ensures Current(inAppChannel) == WithPreference(old(Current(inAppChannel)), alert, user, now)
    {
      ghost var e := Current(inAppChannel);
      var existing := FindByUserAndAlert(prefs.FindAll(), user.id, alert.id);
      if existing.None? {
        var p := NewPreference(FreshId(nextId), alert.id, user.id, now);
        var _ := prefs.Create(p);
        nextId := nextId + 1;
        assert Current(inAppChannel) == e.(prefs := e.prefs.Set(p.id, p), nextId := e.nextId + 1);
      }
    }

    /** `deliverAlert(alert, users)` at time `now`. */
    method DeliverAlert(alert: Alert, recipients: seq<User>, now: Time) returns (r: Result<(), string>)
      requires Valid()
      modifies this, deliveries, prefs, factory.ChannelFor(alert.deliveryType)
      ensures Valid()
      ensures Run(State(), r.Failure?)
           == NotificationEngine.DeliverAlert(old(State()), factory.channels.data.Keys, alert, recipients, now)
      ensures old(State().Ready()) ==> State().Ready()
    {
      if State().Ready() {
        DeliveryProperties.DeliverAlertReady(State(), factory.channels.data.Keys, alert, recipients, now);
      }
      var resolved := factory.GetChannel(alert.deliveryType);
      if resolved.Failure? {
        return Failure(resolved.error);
      }
      var channel := resolved.value;
      ghost var inAppChannel: Channel? := if "in_app" in factory.channels.data then factory.channels.data["in_app"] else null;
      assert State() == Current(inAppChannel);
      ghost var goal := DeliverAll(State(), alert, recipients, now);
      for i := 0 to |recipients|
        invariant Valid()
        invariant DeliverAll(Current(inAppChannel), alert, recipients[i..], now) == goal
      {
        ghost var e := Current(inAppChannel);
        DeliverTo(channel, inAppChannel, alert, recipients[i], now);
        DeliverAllTurn(e, alert, recipients, i, Current(inAppChannel), now);
      }
      assert recipients[|recipients|..] == [];
      assert State() == Current(inAppChannel);
      return Success(());
    }

    /** `update(pref.id, { lastRemindedAt: now, updatedAt: now })`. */
    method StampPreference(ghost inAppChannel: Channel?, id: Id, now: Time)
      requires Valid()
      modifies prefs
      ensures Valid()
      ensures Current(inAppChannel) == Restamped(old(Current(inAppChannel)), id, now)
    {
      var _ := prefs.Update(id, StampAt(now));
    }

    /** The user Map, the registered channel types and channels the sweep
        reads, and the registered in-app channel. */
    ghost predicate SweepContext(inAppChannel: Channel?, userMap: map<Id, User>, registered: set<string>,
                                 registry: set<Channel>)
      reads users, factory
    {
      && userMap == users.data.data
      && registered == factory.channels.data.Keys
      && registry == factory.channels.data.Values
      && inAppChannel == (if "in_app" in factory.channels.data then factory.channels.data["in_app"] else null)
    }

    /** One iteration of the inner sweep loop. */
    method RemindOne(ghost inAppChannel: Channel?, ghost userMap: map<Id, User>, ghost registered: set<string>,
                     ghost registry: set<Channel>, a: Alert, p: UserAlertPreference, now: Time)
      returns (failed: Option<string>)
      requires Valid() && SweepContext(inAppChannel, userMap, registered, registry)
      modifies this, deliveries, prefs, registry
      ensures Valid() && SweepContext(inAppChannel, userMap, registered, registry)
      ensures Run(Current(inAppChannel), failed.Some?)
           == SweepOne(old(Current(inAppChannel)), a, p, userMap, registered, now)
    {
      if p.isRead {
        return None;
      }
      if p.snoozedUntil.Some? && p.snoozedUntil.value > now {
        return None;
      }
      var shouldRemind := p.lastRemindedAt.None? || now - p.lastRemindedAt.value >= a.reminderFrequencyMinutes * 60 * 1000;
      if !shouldRemind {
        return None;
      }
      var user := users.FindById(p.userId);
      if user.None? {
        return None;
      }
      failed := SendReminder(inAppChannel, userMap, registered, registry, a, p, user.value, now);
    }

    /** The reminder of a due preference whose user exists: the channel
        lookup, the delivery and the stamp of the preference. */
    method SendReminder(ghost inAppChannel: Channel?, ghost userMap: map<Id, User>, ghost registered: set<string>,
                        ghost registry: set<Channel>, a: Alert, p: UserAlertPreference, user: User, now: Time)
      returns (failed: Option<string>)
      requires Valid() && SweepContext(inAppChannel, userMap, registered, registry)
      requires ShouldRemind(a, p, now) && p.userId in userMap && userMap[p.userId] == user
      modifies this, deliveries, prefs, registry
      ensures Valid() && SweepContext(inAppChannel, userMap, registered, registry)
      ensures Run(Current(inAppChannel), failed.Some?)
           == SweepOne(old(Current(inAppChannel)), a, p, userMap, registered, now)
    {
      var resolved := factory.GetChannel(a.deliveryType);
      if resolved.Failure? {
        return Some(resolved.error);
      }
      SweepOneSplit(Current(inAppChannel), a, p, userMap, registered, now);
      RecordDelivery(resolved.value, inAppChannel, a, user, now, true);
      StampPreference(inAppChannel, p.id, now);
      return None;
    }

    /** One turn of the outer sweep loop: an alert without reminders is
        skipped, otherwise the inner loop walks the preferences stored for it. */
    method RemindAlert(ghost inAppChannel: Channel?, ghost userMap: map<Id, User>, ghost registered: set<string>,
                       ghost registry: set<Channel>, a: Alert, now: Time) returns (failed: Option<string>)
      requires Valid() && SweepContext(inAppChannel, userMap, registered, registry)
      modifies this, deliveries, prefs, registry
      ensures Valid() && SweepContext(inAppChannel, userMap, registered, registry)
      ensures Run(Current(inAppChannel), failed.Some?)
           == SweepAlert(Run(old(Current(inAppChannel)), false), a, userMap, registered, now)
    {
      if !a.reminderEnabled {
        return None;
      }
      var preferences := prefs.Where(PreferenceRepository.AlertIs(a.id));
      assert preferences == FindByAlert(prefs.FindAll(), a.id);
      ghost var goal := SweepPrefs(Run(Current(inAppChannel), false), a, preferences, userMap, registered, now);
      assert goal == SweepAlert(Run(Current(inAppChannel), false), a, userMap, registered, now);
      for j := 0 to |preferences|
        invariant Valid() && SweepContext(inAppChannel, userMap, registered, registry)
        invariant SweepPrefs(Run(Current(inAppChannel), false), a, preferences[j..], userMap, registered, now) == goal
      {
        ghost var e := Current(inAppChannel);
        failed := RemindOne(inAppChannel, userMap, registered, registry, a, preferences[j], now);
        SweepPrefsTurn(Run(e, false), a, preferences, j, Run(Current(inAppChannel), failed.Some?),
                       userMap, registered, now);
        if failed.Some? {
          return;
        }
      }
      assert preferences[|preferences|..] == [];
      return None;
    }

    /** `checkAndSendReminders()` at time `now`. */
    method CheckAndSendReminders(now: Time) returns (r: Result<(), string>)
      requires Valid() && alerts.Valid()
      modifies this, deliveries, prefs, factory.channels.data.Values
      ensures Valid()
      ensures Run(State(), r.Failure?)
           == Sweep(old(State()), old(alerts.FindAll()), old(users.data.data), old(factory.channels.data.Keys), now)
      ensures old(State().Ready()) ==> State().Ready()
    {
      if State().Ready() {
        SweepProperties.SweepReady(State(), alerts.FindAll(), users.data.data, factory.channels.data.Keys, now);
      }
      var activeAlerts := alerts.Where(InWindow(now));
      assert activeAlerts == FindActiveAlerts(alerts.FindAll(), now);
      ghost var inAppChannel: Channel? := if "in_app" in factory.channels.data then factory.channels.data["in_app"] else null;
      ghost var userMap := users.data.data;
      ghost var registered := factory.channels.data.Keys;
      ghost var registry := factory.channels.data.Values;
      assert State() == Current(inAppChannel);
      ghost var goal := SweepAlerts(Run(Current(inAppChannel), false), activeAlerts, userMap, registered, now);
      for i := 0 to |activeAlerts|
        invariant Valid() && SweepContext(inAppChannel, userMap, registered, registry)
        invariant SweepAlerts(Run(Current(inAppChannel), false), activeAlerts[i..], userMap, registered, now) == goal
      {
        ghost var run := Run(Current(inAppChannel), false);
        var failed := RemindAlert(inAppChannel, userMap, registered, registry, activeAlerts[i], now);
        SweepAlertsTurn(run, activeAlerts, i, Run(Current(inAppChannel), failed.Some?), userMap, registered, now);
        if failed.Some? {
          assert State() == Current(inAppChannel);
          return Failure(failed.value);
        }
      }
      assert activeAlerts[|activeAlerts|..] == [];
      assert State() == Current(inAppChannel);
      return Success(());
    }
  }
}
