// What `checkAndSendReminders` does to the stores, proved about the
// specification functions of NotificationEngine. With a registry that has every
// delivery type, stores keyed by id and alerts with distinct ids, the sweep
// stamps exactly the preferences that are due (and whose user exists) of the
// running, reminder-enabled alerts, writes one reminder record for each of them
// in order, creates no preference, and a second sweep at the same instant
// changes nothing.
module SweepProperties {
  import opened Prelude
  import opened Domain
  import opened Tables
  import opened Channels
  import opened AlertRepository
  import opened PreferenceRepository
  import opened NotificationEngine

  /** Preference `p` of alert `a` gets a reminder in a sweep at `now`. */
  predicate Hit(a: Alert, p: UserAlertPreference, users: map<Id, User>, now: Time) {
    a.reminderEnabled && p.alertId == a.id && ShouldRemind(a, p, now) && p.userId in users
  }

  /** The preference as alert `a`'s pass of the sweep leaves it. */
  function StampFor(a: Alert, users: map<Id, User>, now: Time, p: UserAlertPreference): UserAlertPreference {
    if Hit(a, p, users, now) then Stamped(p, now) else p
  }

  /** The preference after the passes of all of `alerts`, first to last. */
  function SweptRow(alerts: seq<Alert>, users: map<Id, User>, now: Time, p: UserAlertPreference): UserAlertPreference
    decreases |alerts|
  {
    if alerts == [] then p else SweptRow(alerts[1..], users, now, StampFor(alerts[0], users, now, p))
  }

  /** `after` is `before` with every value that occurs in `ps` replaced as
      alert `a`'s pass replaces it, keys and order kept. */
  predicate StampedIn(after: Table<UserAlertPreference>, before: Table<UserAlertPreference>, a: Alert,
                      ps: seq<UserAlertPreference>, users: map<Id, User>, now: Time) {
    && after.order == before.order && after.data.Keys == before.data.Keys
    && forall k :: k in before.data ==>
         after.data[k] == if before.data[k] in ps then StampFor(a, users, now, before.data[k]) else before.data[k]
  }

  /** `after` is `before` with every value replaced as the passes of `alerts`
      leave it, keys and order kept. */
  predicate SweptIn(after: Table<UserAlertPreference>, before: Table<UserAlertPreference>, alerts: seq<Alert>,
                    users: map<Id, User>, now: Time) {
    && after.order == before.order && after.data.Keys == before.data.Keys
    && forall k :: k in before.data ==> after.data[k] == SweptRow(alerts, users, now, before.data[k])
  }

  /** Every preference of `ps` is stored under its own id. */
  predicate StoredAt(t: Table<UserAlertPreference>, ps: seq<UserAlertPreference>) {
    forall p :: p in ps ==> p.id in t.data && t.data[p.id] == p
  }

  /** The reminders alert `a`'s pass sends while walking `ps`, in order. */
  function HitsOf(a: Alert, ps: seq<UserAlertPreference>, users: map<Id, User>, now: Time): seq<Notification>
    decreases |ps|
  {
    if ps == [] then []
    else
      (if Hit(a, ps[0], users, now) then [Notification(a, users[ps[0].userId], now)] else [])
      + HitsOf(a, ps[1..], users, now)
  }

  /** The reminders a sweep over `alerts` sends, given the stored preferences
      `vs`: alert by alert, the hits among that alert's preferences. */
  function Reminders(alerts: seq<Alert>, vs: seq<UserAlertPreference>, users: map<Id, User>, now: Time): seq<Notification>
    decreases |alerts|
  {
    if alerts == [] then []
    else HitsOf(alerts[0], FindByAlert(vs, alerts[0].id), users, now) + Reminders(alerts[1..], vs, users, now)
  }

  function ViaInApp(): Notification -> bool {
    (n: Notification) => n.alert.deliveryType == InApp
  }

  /** The reminder record the sweep writes for notification `n`, whatever its
      fresh id. */
  predicate ReminderRecord(r: NotificationDelivery, n: Notification) {
    && r.alertId == n.alert.id && r.userId == n.user.id && r.deliveryType == n.alert.deliveryType
    && r.deliveredAt == n.timestamp && r.createdAt == n.timestamp && r.isReminder
  }

  /** `all` is `before` followed by one reminder record per entry of `ns`. */
  predicate AppendsReminderRecords(all: seq<NotificationDelivery>, before: seq<NotificationDelivery>, ns: seq<Notification>) {
    && |all| == |before| + |ns|
    && all[..|before|] == before
    && forall i :: 0 <= i < |ns| ==> ReminderRecord(all[|before| + i], ns[i])
  }

  lemma AppendsNothing(s: seq<NotificationDelivery>)
    ensures AppendsReminderRecords(s, s, [])
  {
    assert s[..|s|] == s;
  }

  lemma AppendsTrans(all: seq<NotificationDelivery>, mid: seq<NotificationDelivery>, before: seq<NotificationDelivery>,
                     ns1: seq<Notification>, ns2: seq<Notification>)
    requires AppendsReminderRecords(mid, before, ns1)
    requires AppendsReminderRecords(all, mid, ns2)
    ensures AppendsReminderRecords(all, before, ns1 + ns2)
  {
    assert all[..|before|] == all[..|mid|][..|before|];
    forall i | 0 <= i < |ns1 + ns2| ensures ReminderRecord(all[|before| + i], (ns1 + ns2)[i]) {
      if i < |ns1| {
        assert all[|before| + i] == all[..|mid|][|before| + i];
      } else {
        assert all[|before| + i] == all[|mid| + (i - |ns1|)];
      }
    }
  }

  lemma InAppGlue(log0: seq<Notification>, log1: seq<Notification>, log2: seq<Notification>,
                  ns1: seq<Notification>, ns2: seq<Notification>)
    requires log1 == log0 + Filter(ns1, ViaInApp())
    requires log2 == log1 + Filter(ns2, ViaInApp())
    ensures log2 == log0 + Filter(ns1 + ns2, ViaInApp())
  {
    FilterConcat(ns1, ns2, ViaInApp());
  }

  /** The registry has a channel for every delivery type. */
  predicate Complete(registered: set<string>) {
    forall t :: DeliveryTypeKey(t) in registered
  }

  predicate DistinctIds(ps: seq<UserAlertPreference>) {
    forall i, j :: 0 <= i < j < |ps| ==> ps[i].id != ps[j].id
  }

  /** One iteration of the inner loop, on a stored preference of a ready
      engine: a hit appends one reminder record and stamps the preference in
      place; anything else changes nothing. */
  lemma SweepOneStep(e: Engine, a: Alert, p: UserAlertPreference, users: map<Id, User>,
                     registered: set<string>, now: Time)
    requires e.Ready() && Complete(registered)
    requires a.reminderEnabled && p.alertId == a.id
    requires p.id in e.prefs.data && e.prefs.data[p.id] == p
    ensures var r := SweepOne(e, a, p, users, registered, now);
            && !r.failed && r.engine.Ready()
            && r.engine.prefs == e.prefs.Set(p.id, StampFor(a, users, now, p))
            && AppendsReminderRecords(r.engine.deliveries.Values(), e.deliveries.Values(),
                                      if Hit(a, p, users, now) then [Notification(a, users[p.userId], now)] else [])
            && r.engine.inApp == e.inApp + Filter(if Hit(a, p, users, now) then [Notification(a, users[p.userId], now)] else [], ViaInApp())
  {
    var r := SweepOne(e, a, p, users, registered, now);
    if Hit(a, p, users, now) {
      var u := users[p.userId];
      var rec := NotificationDelivery(FreshId(e.nextId), a.id, u.id, a.deliveryType, now, true, now);
      var e1 := Engine(e.deliveries.Set(rec.id, rec), e.prefs.Set(p.id, Stamped(p, now)), Logged(e.inApp, a, u, now), e.nextId + 1);
      assert r == Run(e1, false);
      ReminderStored(e, rec, Stamped(p, now), Notification(a, u, now), e1);
    } else {
      assert e.prefs.Set(p.id, p) == e.prefs;
      AppendsNothing(e.deliveries.Values());
    }
  }

  /** Storing a reminder record for `n` under the next fresh id, restamping a
      stored preference and logging `n` on the in-app channel keep an engine
      ready and append exactly that record. */
  lemma ReminderStored(e: Engine, rec: NotificationDelivery, q: UserAlertPreference, n: Notification, e1: Engine)
    requires e.Ready() && rec.id == FreshId(e.nextId) && q.id in e.prefs.data && ReminderRecord(rec, n)
    requires e1 == Engine(e.deliveries.Set(rec.id, rec), e.prefs.Set(q.id, q),
                          Logged(e.inApp, n.alert, n.user, n.timestamp), e.nextId + 1)
    ensures e1.Ready()
    ensures AppendsReminderRecords(e1.deliveries.Values(), e.deliveries.Values(), [n])
    ensures e1.inApp == e.inApp + Filter([n], ViaInApp())
  {
    forall m: nat | m >= e1.nextId
      ensures FreshId(m) !in e1.deliveries.data && FreshId(m) !in e1.prefs.data
    {
      if FreshId(m) == FreshId(e.nextId) {
        FreshIdInjective(m, e.nextId);
      }
    }
    FilterSingleton(n, ViaInApp());
    SetNewValues(e.deliveries, rec.id, rec);
    assert e1.deliveries.Values()[..|e.deliveries.Values()|] == e.deliveries.Values();
  }

  /** The first iteration's change, followed by the rest of the pass, is the
      whole pass's change. */
  lemma StampedInStep(t: Table<UserAlertPreference>, t1: Table<UserAlertPreference>, t2: Table<UserAlertPreference>,
                      a: Alert, ps: seq<UserAlertPreference>, users: map<Id, User>, now: Time)
    requires t.KeyedBy(PrefId) && ps != [] && StoredAt(t, ps) && DistinctIds(ps)
    requires t1 == t.Set(ps[0].id, StampFor(a, users, now, ps[0]))
    requires StampedIn(t2, t1, a, ps[1..], users, now)
    ensures StampedIn(t2, t, a, ps, users, now)
  {
    var k0 := ps[0].id;
    assert k0 in t.data;
    forall k | k in t.data
      ensures t2.data[k] == if t.data[k] in ps then StampFor(a, users, now, t.data[k]) else t.data[k]
    {
      if k == k0 {
        assert forall j :: 0 <= j < |ps[1..]| ==> ps[1..][j].id != k0;
      } else {
        var v := t.data[k];
        assert v.id == k;
        assert v in ps[1..] <==> v in ps;
      }
    }
  }

  /** One alert's pass over preferences of that alert that are stored under
      their ids, once each, on a ready engine whose registry is complete: it
      does not fail, stamps exactly the hits among `ps`, appends one reminder
      record per hit in order, and logs the in-app ones. */
  lemma {:induction false} SweepPrefsEffect(e: Engine, a: Alert, ps: seq<UserAlertPreference>, users: map<Id, User>,
                                            registered: set<string>, now: Time)
    requires e.Ready() && Complete(registered) && a.reminderEnabled
    requires forall p :: p in ps ==> p.alertId == a.id
    requires StoredAt(e.prefs, ps) && DistinctIds(ps)
    ensures var r := SweepPrefs(Run(e, false), a, ps, users, registered, now);
            && !r.failed && r.engine.Ready()
            && StampedIn(r.engine.prefs, e.prefs, a, ps, users, now)
            && AppendsReminderRecords(r.engine.deliveries.Values(), e.deliveries.Values(), HitsOf(a, ps, users, now))
            && r.engine.inApp == e.inApp + Filter(HitsOf(a, ps, users, now), ViaInApp())
    decreases |ps|
  {
    if ps == [] {
      AppendsNothing(e.deliveries.Values());
    } else {
      var p := ps[0];
      var rest := ps[1..];
      SweepOneStep(e, a, p, users, registered, now);
      var e1 := SweepOne(e, a, p, users, registered, now).engine;
      TailStored(e.prefs, ps, StampFor(a, users, now, p));
      SweepPrefsEffect(e1, a, rest, users, registered, now);
      var r := SweepPrefs(Run(e1, false), a, rest, users, registered, now);
      var head := if Hit(a, p, users, now) then [Notification(a, users[p.userId], now)] else [];
      assert HitsOf(a, ps, users, now) == head + HitsOf(a, rest, users, now);
      StampedInStep(e.prefs, e1.prefs, r.engine.prefs, a, ps, users, now);
      AppendsTrans(r.engine.deliveries.Values(), e1.deliveries.Values(), e.deliveries.Values(),
                   head, HitsOf(a, rest, users, now));
      InAppGlue(e.inApp, e1.inApp, r.engine.inApp, head, HitsOf(a, rest, users, now));
      assert SweepOne(e, a, p, users, registered, now) == Run(e1, false);
      assert SweepPrefs(Run(e, false), a, ps, users, registered, now) == r;
    }
  }

  /** Overwriting the first row of `ps` leaves the others stored, with their
      ids still distinct. */
  lemma TailStored(t: Table<UserAlertPreference>, ps: seq<UserAlertPreference>, v: UserAlertPreference)
    requires ps != [] && StoredAt(t, ps) && DistinctIds(ps)
    ensures StoredAt(t.Set(ps[0].id, v), ps[1..]) && DistinctIds(ps[1..])
    ensures forall q :: q in ps[1..] ==> q in ps
  {
    var rest := ps[1..];
    forall q | q in rest ensures q.id in t.Set(ps[0].id, v).data && t.Set(ps[0].id, v).data[q.id] == q {
      var j :| 0 <= j < |rest| && rest[j] == q;
      assert ps[j + 1] == q;
    }
    forall i, j | 0 <= i < j < |rest| ensures rest[i].id != rest[j].id {
      assert rest[i] == ps[i + 1] && rest[j] == ps[j + 1];
    }
  }

  predicate DistinctAlertIds(alerts: seq<Alert>) {
    forall i, j :: 0 <= i < j < |alerts| ==> alerts[i].id != alerts[j].id
  }

  /** The alerts after the first keep distinct ids, none of them the first's. */
  lemma TailAlertsDistinct(alerts: seq<Alert>)
    requires alerts != [] && DistinctAlertIds(alerts)
    ensures DistinctAlertIds(alerts[1..])
    ensures forall b :: b in alerts[1..] ==> b.id != alerts[0].id
  {
    var rest := alerts[1..];
    forall b | b in rest ensures b.id != alerts[0].id {
      var j :| 0 <= j < |rest| && rest[j] == b;
      assert alerts[j + 1] == b;
    }
    forall i, j | 0 <= i < j < |rest| ensures rest[i].id != rest[j].id {
      assert rest[i] == alerts[i + 1] && rest[j] == alerts[j + 1];
    }
  }

  /** In a keyed preference table the rows `findByAlert` returns are stored
      under their ids and carry distinct ids. */
  lemma AlertRowsStored(t: Table<UserAlertPreference>, alertId: Id)
    requires t.Valid() && t.KeyedBy(PrefId)
    ensures StoredAt(t, FindByAlert(t.Values(), alertId))
    ensures DistinctIds(FindByAlert(t.Values(), alertId))
  {
    var vs := t.Values();
    var ps := FindByAlert(vs, alertId);
    forall p | p in ps ensures p.id in t.data && t.data[p.id] == p {
      KeyedValueStored(t, PrefId, p);
    }
    AlertRowsDistinct(t, alertId);
  }

  lemma AlertRowsDistinct(t: Table<UserAlertPreference>, alertId: Id)
    requires t.Valid() && t.KeyedBy(PrefId)
    ensures DistinctIds(FindByAlert(t.Values(), alertId))
  {
    var vs := t.Values();
    var ps := FindByAlert(vs, alertId);
    KeyedValuesDistinct(t, PrefId);
    forall x ensures multiset(ps)[x] <= 1 {
      DistinctMultiset(vs, x);
    }
    MultisetDistinct(ps);
    forall i, j | 0 <= i < j < |ps| ensures ps[i].id != ps[j].id {
      if ps[i].id == ps[j].id {
        KeyedSameId(t, PrefId, ps[i], ps[j]);
      }
    }
  }

  /** Filtering by alert id sees no difference between two row sequences that
      agree on every alert id and on every row of that alert. */
  lemma {:induction false} FilterAlertAgrees(ws: seq<UserAlertPreference>, vs: seq<UserAlertPreference>, alertId: Id)
    requires |ws| == |vs|
    requires forall i :: 0 <= i < |vs| ==> ws[i].alertId == vs[i].alertId && (vs[i].alertId == alertId ==> ws[i] == vs[i])
    ensures Filter(ws, AlertIs(alertId)) == Filter(vs, AlertIs(alertId))
    decreases |vs|
  {
    if vs != [] {
      var n := |vs| - 1;
      FilterAlertAgrees(ws[..n], vs[..n], alertId);
    }
  }

  /** One alert's pass, enabled or not, on a ready engine with a complete
      registry: every stored preference is replaced by its `StampFor` image and
      the hits among the alert's rows are sent and recorded in order. */
  lemma AlertPassEffect(e: Engine, a: Alert, users: map<Id, User>, registered: set<string>, now: Time)
    requires e.Ready() && Complete(registered)
    ensures var ns := HitsOf(a, FindByAlert(e.prefs.Values(), a.id), users, now);
            var next := SweepAlert(Run(e, false), a, users, registered, now);
            && !next.failed && next.engine.Ready()
            && next.engine.prefs.order == e.prefs.order && next.engine.prefs.data.Keys == e.prefs.data.Keys
            && (forall k :: k in e.prefs.data ==> next.engine.prefs.data[k] == StampFor(a, users, now, e.prefs.data[k]))
            && AppendsReminderRecords(next.engine.deliveries.Values(), e.deliveries.Values(), ns)
            && next.engine.inApp == e.inApp + Filter(ns, ViaInApp())
  {
    if a.reminderEnabled {
      EnabledPassEffect(e, a, users, registered, now);
    } else {
      HitsOfNone(a, FindByAlert(e.prefs.Values(), a.id), users, now);
      AppendsNothing(e.deliveries.Values());
    }
  }

  lemma EnabledPassEffect(e: Engine, a: Alert, users: map<Id, User>, registered: set<string>, now: Time)
    requires e.Ready() && Complete(registered) && a.reminderEnabled
    ensures var ps := FindByAlert(e.prefs.Values(), a.id);
            var next := SweepPrefs(Run(e, false), a, ps, users, registered, now);
            && !next.failed && next.engine.Ready()
            && next.engine.prefs.order == e.prefs.order && next.engine.prefs.data.Keys == e.prefs.data.Keys
            && (forall k :: k in e.prefs.data ==> next.engine.prefs.data[k] == StampFor(a, users, now, e.prefs.data[k]))
            && AppendsReminderRecords(next.engine.deliveries.Values(), e.deliveries.Values(), HitsOf(a, ps, users, now))
            && next.engine.inApp == e.inApp + Filter(HitsOf(a, ps, users, now), ViaInApp())
  {
    var ps := FindByAlert(e.prefs.Values(), a.id);
    AlertRowsStored(e.prefs, a.id);
    SweepPrefsEffect(e, a, ps, users, registered, now);
    var t1 := SweepPrefs(Run(e, false), a, ps, users, registered, now).engine.prefs;
    forall k | k in e.prefs.data ensures t1.data[k] == StampFor(a, users, now, e.prefs.data[k]) {
      var i := IndexOf(e.prefs, k);
      assert e.prefs.data[k] in e.prefs.Values();
    }
  }

  /** A sequence of preferences that holds no hit produces no reminder. */
  lemma {:induction false} HitsOfNone(a: Alert, ps: seq<UserAlertPreference>, users: map<Id, User>, now: Time)
    requires !a.reminderEnabled || forall p :: p in ps ==> !Hit(a, p, users, now)
    ensures HitsOf(a, ps, users, now) == []
    decreases |ps|
  {
    if ps != [] {
      assert forall p :: p in ps[1..] ==> p in ps;
      HitsOfNone(a, ps[1..], users, now);
    }
  }

  /** A pass of alert `a` leaves the rows of every other alert where they are. */
  lemma OtherAlertRowsKept(t: Table<UserAlertPreference>, t1: Table<UserAlertPreference>, a: Alert,
                           alertId: Id, users: map<Id, User>, now: Time)
    requires t.Valid() && t1.order == t.order && t1.data.Keys == t.data.Keys
    requires forall k :: k in t.data ==> t1.data[k] == StampFor(a, users, now, t.data[k])
    requires alertId != a.id
    ensures t1.Valid()
    ensures FindByAlert(t1.Values(), alertId) == FindByAlert(t.Values(), alertId)
  {
    FilterAlertAgrees(t1.Values(), t.Values(), alertId);
  }

  lemma {:induction false} RemindersCongruent(alerts: seq<Alert>, vs: seq<UserAlertPreference>, ws: seq<UserAlertPreference>,
                                              users: map<Id, User>, now: Time)
    requires forall b :: b in alerts ==> FindByAlert(vs, b.id) == FindByAlert(ws, b.id)
    ensures Reminders(alerts, vs, users, now) == Reminders(alerts, ws, users, now)
    decreases |alerts|
  {
    if alerts != [] {
      assert forall b :: b in alerts[1..] ==> b in alerts;
      RemindersCongruent(alerts[1..], vs, ws, users, now);
    }
  }

  lemma SweptInStep(t: Table<UserAlertPreference>, t1: Table<UserAlertPreference>, t2: Table<UserAlertPreference>,
                    alerts: seq<Alert>, users: map<Id, User>, now: Time)
    requires alerts != []
    requires t1.order == t.order && t1.data.Keys == t.data.Keys
    requires forall k :: k in t.data ==> t1.data[k] == StampFor(alerts[0], users, now, t.data[k])
    requires SweptIn(t2, t1, alerts[1..], users, now)
    ensures SweptIn(t2, t, alerts, users, now)
  {
  }

  /** The outer loop over alerts with distinct ids, on a ready engine with a
      complete registry: it does not fail, leaves every stored preference as
      the passes of all the alerts leave it, and appends the reminders of
      `Reminders` to the delivery records and, for in-app alerts, to the log. */
  lemma {:induction false} SweepAlertsEffect(e: Engine, alerts: seq<Alert>, users: map<Id, User>,
                                             registered: set<string>, now: Time)
    requires e.Ready() && Complete(registered) && DistinctAlertIds(alerts)
    ensures var r := SweepAlerts(Run(e, false), alerts, users, registered, now);
            var ns := Reminders(alerts, e.prefs.Values(), users, now);
            && !r.failed && r.engine.Ready()
            && SweptIn(r.engine.prefs, e.prefs, alerts, users, now)
            && AppendsReminderRecords(r.engine.deliveries.Values(), e.deliveries.Values(), ns)
            && r.engine.inApp == e.inApp + Filter(ns, ViaInApp())
    decreases |alerts|
  {
    if alerts == [] {
      AppendsNothing(e.deliveries.Values());
    } else {
      var a := alerts[0];
      var rest := alerts[1..];
      var ns1 := HitsOf(a, FindByAlert(e.prefs.Values(), a.id), users, now);
      AlertPassEffect(e, a, users, registered, now);
      var next := SweepAlert(Run(e, false), a, users, registered, now);
      var e1 := next.engine;
      assert next == Run(e1, false);
      TailAlertsDistinct(alerts);
      forall b | b in rest
        ensures FindByAlert(e1.prefs.Values(), b.id) == FindByAlert(e.prefs.Values(), b.id)
      {
        OtherAlertRowsKept(e.prefs, e1.prefs, a, b.id, users, now);
      }
      RemindersCongruent(rest, e1.prefs.Values(), e.prefs.Values(), users, now);
      SweepAlertsEffect(e1, rest, users, registered, now);
      var r := SweepAlerts(Run(e1, false), rest, users, registered, now);
      var ns2 := Reminders(rest, e.prefs.Values(), users, now);
      assert SweepAlerts(Run(e, false), alerts, users, registered, now) == r;
      assert Reminders(alerts, e.prefs.Values(), users, now) == ns1 + ns2;
      SweptInStep(e.prefs, e1.prefs, r.engine.prefs, alerts, users, now);
      AppendsTrans(r.engine.deliveries.Values(), e1.deliveries.Values(), e.deliveries.Values(), ns1, ns2);
      InAppGlue(e.inApp, e1.inApp, r.engine.inApp, ns1, ns2);
    }
  }

  /** The first alert of `alerts` with identifier `id`. */
  function AlertWithId(alerts: seq<Alert>, id: Id): (r: Option<Alert>)
    ensures r.None? <==> forall a :: a in alerts ==> a.id != id
    ensures r.Some? ==> r.value in alerts && r.value.id == id
    decreases |alerts|
  {
    if alerts == [] then None
    else if alerts[0].id == id then Some(alerts[0])
    else AlertWithId(alerts[1..], id)
  }

  lemma {:induction false} SweptRowNoMatch(alerts: seq<Alert>, users: map<Id, User>, now: Time, p: UserAlertPreference)
    requires forall a :: a in alerts ==> a.id != p.alertId
    ensures SweptRow(alerts, users, now, p) == p
    decreases |alerts|
  {
    if alerts != [] {
      assert forall a :: a in alerts[1..] ==> a in alerts;
      SweptRowNoMatch(alerts[1..], users, now, p);
    }
  }

  /** With distinct alert ids only the pass of the preference's own alert can
      touch it. */
  lemma {:induction false} SweptRowClosed(alerts: seq<Alert>, users: map<Id, User>, now: Time, p: UserAlertPreference)
    requires DistinctAlertIds(alerts)
    ensures SweptRow(alerts, users, now, p)
         == match AlertWithId(alerts, p.alertId)
            case None => p
            case Some(a) => StampFor(a, users, now, p)
    decreases |alerts|
  {
    if alerts != [] {
      var a, rest := alerts[0], alerts[1..];
      assert DistinctAlertIds(rest) by {
        forall i, j | 0 <= i < j < |rest| ensures rest[i].id != rest[j].id {
          assert rest[i] == alerts[i + 1] && rest[j] == alerts[j + 1];
        }
      }
      if a.id == p.alertId {
        forall b | b in rest ensures b.id != p.alertId {
          var j :| 0 <= j < |rest| && rest[j] == b;
          assert alerts[j + 1] == b;
        }
        SweptRowNoMatch(rest, users, now, StampFor(a, users, now, p));
      } else {
        SweptRowClosed(rest, users, now, p);
      }
    }
  }

  lemma SameIdSameAlert(alerts: seq<Alert>, a: Alert, b: Alert)
    requires DistinctAlertIds(alerts) && a in alerts && b in alerts && a.id == b.id
    ensures a == b
  {
    var i :| 0 <= i < |alerts| && alerts[i] == a;
    var j :| 0 <= j < |alerts| && alerts[j] == b;
  }

  lemma {:induction false} FilterDistinctAlertIds(s: seq<Alert>, p: Alert -> bool)
    requires DistinctAlertIds(s)
    ensures DistinctAlertIds(Filter(s, p))
    decreases |s|
  {
    if s != [] {
      var init, last := s[..|s| - 1], s[|s| - 1];
      assert DistinctAlertIds(init) by {
        forall i, j | 0 <= i < j < |init| ensures init[i].id != init[j].id {
          assert init[i] == s[i] && init[j] == s[j];
        }
      }
      FilterDistinctAlertIds(init, p);
      if p(last) {
        var f := Filter(init, p);
        forall x | x in f ensures x.id != last.id {
          var i :| 0 <= i < |init| && init[i] == x;
          assert s[i] == x;
        }
        assert Filter(s, p) == f + [last];
        forall i, j | 0 <= i < j < |f + [last]| ensures (f + [last])[i].id != (f + [last])[j].id {
          if j == |f| {
            assert (f + [last])[i] in f;
          } else {
            assert (f + [last])[i] == f[i] && (f + [last])[j] == f[j];
          }
        }
      }
    }
  }

  /** A preference is due in a sweep at `now` over `allAlerts`: some
      effectively active, reminder-enabled alert with its alert id finds it
      unread, not snoozed, due, and its user present. */
  ghost predicate DueIn(allAlerts: seq<Alert>, p: UserAlertPreference, users: map<Id, User>, now: Time) {
    exists a :: a in allAlerts && EffectivelyActive(a, now) && Hit(a, p, users, now)
  }

  /** The closed form of a whole pass over the active alerts. */
  lemma ActivePassClosed(allAlerts: seq<Alert>, users: map<Id, User>, now: Time, p: UserAlertPreference)
    requires DistinctAlertIds(allAlerts)
    ensures DistinctAlertIds(FindActiveAlerts(allAlerts, now))
    ensures SweptRow(FindActiveAlerts(allAlerts, now), users, now, p)
         == if DueIn(allAlerts, p, users, now) then Stamped(p, now) else p
  {
    var active := FindActiveAlerts(allAlerts, now);
    FilterDistinctAlertIds(allAlerts, InWindow(now));
    assert active == Filter(allAlerts, InWindow(now));
    SweptRowClosed(active, users, now, p);
    var m := AlertWithId(active, p.alertId);
    if DueIn(allAlerts, p, users, now) {
      var b :| b in allAlerts && EffectivelyActive(b, now) && Hit(b, p, users, now);
      assert b in active;
      SameIdSameAlert(active, m.value, b);
    } else if m.Some? {
      assert !Hit(m.value, p, users, now);
    }
  }

  /** `after` is `before` with exactly the due preferences stamped at `now`,
      keys and order kept. */
  ghost predicate RemindedIn(after: Table<UserAlertPreference>, before: Table<UserAlertPreference>,
                             allAlerts: seq<Alert>, users: map<Id, User>, now: Time) {
    && after.order == before.order && after.data.Keys == before.data.Keys
    && forall k :: k in before.data ==>
         after.data[k] == if DueIn(allAlerts, before.data[k], users, now) then Stamped(before.data[k], now) else before.data[k]
  }

  /** `checkAndSendReminders` at `now`, on a ready engine whose registry has
      every delivery type and whose alerts have distinct ids: it does not fail;
      it stamps exactly the preferences that are due and keeps every other
      one; it creates no preference; and it appends one reminder record per
      entry of `Reminders` over the active alerts, in order, logging the in-app
      ones. */
  lemma SweepEffect(e: Engine, allAlerts: seq<Alert>, users: map<Id, User>, registered: set<string>, now: Time)
    requires e.Ready() && Complete(registered) && DistinctAlertIds(allAlerts)
    ensures var r := Sweep(e, allAlerts, users, registered, now);
            var ns := Reminders(FindActiveAlerts(allAlerts, now), e.prefs.Values(), users, now);
            && !r.failed && r.engine.Ready()
            && RemindedIn(r.engine.prefs, e.prefs, allAlerts, users, now)
            && AppendsReminderRecords(r.engine.deliveries.Values(), e.deliveries.Values(), ns)
            && r.engine.inApp == e.inApp + Filter(ns, ViaInApp())
  {
    var active := FindActiveAlerts(allAlerts, now);
    FilterDistinctAlertIds(allAlerts, InWindow(now));
    SweepAlertsEffect(e, active, users, registered, now);
    var r := Sweep(e, allAlerts, users, registered, now);
    forall k | k in e.prefs.data
      ensures r.engine.prefs.data[k] == if DueIn(allAlerts, e.prefs.data[k], users, now)
                                        then Stamped(e.prefs.data[k], now) else e.prefs.data[k]
    {
      ActivePassClosed(allAlerts, users, now, e.prefs.data[k]);
    }
  }

  /** One alert's pass never adds or removes a preference, whatever happens. */
  lemma {:induction false} SweepPrefsKeepsRows(run: Run, a: Alert, ps: seq<UserAlertPreference>, users: map<Id, User>,
                                               registered: set<string>, now: Time)
    requires run.engine.Valid()
    ensures var r := SweepPrefs(run, a, ps, users, registered, now);
            r.engine.prefs.order == run.engine.prefs.order && r.engine.prefs.data.Keys == run.engine.prefs.data.Keys
    decreases |ps|
  {
    if ps != [] && !run.failed {
      SweepPrefsKeepsRows(SweepOne(run.engine, a, ps[0], users, registered, now), a, ps[1..], users, registered, now);
    }
  }

  lemma {:induction false} SweepAlertsKeepsRows(run: Run, alerts: seq<Alert>, users: map<Id, User>,
                                                registered: set<string>, now: Time)
    requires run.engine.Valid()
    ensures var r := SweepAlerts(run, alerts, users, registered, now);
            r.engine.prefs.order == run.engine.prefs.order && r.engine.prefs.data.Keys == run.engine.prefs.data.Keys
    decreases |alerts|
  {
    if alerts != [] && !run.failed {
      var a := alerts[0];
      var next := SweepAlert(run, a, users, registered, now);
      if a.reminderEnabled {
        SweepPrefsKeepsRows(run, a, FindByAlert(run.engine.prefs.Values(), a.id), users, registered, now);
      }
      SweepAlertsKeepsRows(next, alerts[1..], users, registered, now);
    }
  }

  /** The sweep never creates (or removes) a preference row, even when it
      aborts on a missing channel. */
  lemma SweepCreatesNoPreference(e: Engine, allAlerts: seq<Alert>, users: map<Id, User>, registered: set<string>, now: Time)
    requires e.Valid()
    ensures var r := Sweep(e, allAlerts, users, registered, now);
            r.engine.prefs.order == e.prefs.order && r.engine.prefs.data.Keys == e.prefs.data.Keys
  {
    SweepAlertsKeepsRows(Run(e, false), FindActiveAlerts(allAlerts, now), users, registered, now);
  }

  /** A pass over preferences none of which is a hit changes nothing. */
  lemma {:induction false} SweepPrefsNoHit(e: Engine, a: Alert, ps: seq<UserAlertPreference>, users: map<Id, User>,
                                           registered: set<string>, now: Time)
    requires e.Valid()
    requires forall p :: p in ps ==> p.alertId == a.id && !Hit(a, p, users, now)
    requires a.reminderEnabled
    ensures SweepPrefs(Run(e, false), a, ps, users, registered, now) == Run(e, false)
    decreases |ps|
  {
    if ps != [] {
      assert forall p :: p in ps[1..] ==> p in ps;
      SweepPrefsNoHit(e, a, ps[1..], users, registered, now);
    }
  }

  /** A sweep that finds no hit among the stored preferences changes nothing. */
  lemma {:induction false} SweepAlertsNoHit(e: Engine, alerts: seq<Alert>, users: map<Id, User>,
                                            registered: set<string>, now: Time)
    requires e.Valid()
    requires forall a, v :: a in alerts && v in e.prefs.Values() ==> !Hit(a, v, users, now)
    ensures SweepAlerts(Run(e, false), alerts, users, registered, now) == Run(e, false)
    decreases |alerts|
  {
    if alerts != [] {
      var a := alerts[0];
      if a.reminderEnabled {
        SweepPrefsNoHit(e, a, FindByAlert(e.prefs.Values(), a.id), users, registered, now);
      }
      assert forall b :: b in alerts[1..] ==> b in alerts;
      SweepAlertsNoHit(e, alerts[1..], users, registered, now);
    }
  }

  lemma NoHitAfterSweep(t1: Table<UserAlertPreference>, t: Table<UserAlertPreference>, allAlerts: seq<Alert>,
                        users: map<Id, User>, now: Time, a: Alert, v: UserAlertPreference)
    requires t1.Valid() && RemindedIn(t1, t, allAlerts, users, now)
    requires forall b :: b in allAlerts ==> b.reminderFrequencyMinutes > 0
    requires a in allAlerts && EffectivelyActive(a, now) && v in t1.Values()
    ensures !Hit(a, v, users, now)
  {
    var i :| 0 <= i < |t1.Values()| && t1.Values()[i] == v;
    var v0 := t.data[t1.order[i]];
    if DueIn(allAlerts, v0, users, now) {
      assert v.lastRemindedAt == Some(now);
      assert a.reminderFrequencyMinutes * 60 * 1000 > 0;
    } else {
      assert v == v0;
    }
  }

  /** A second sweep at the same instant, when every alert's frequency is
      positive, changes nothing: each preference the first sweep reminded was
      reminded zero milliseconds ago, and each other one is still not due. */
  lemma SweepTwiceAddsNothing(e: Engine, allAlerts: seq<Alert>, users: map<Id, User>, registered: set<string>, now: Time)
    requires e.Ready() && Complete(registered) && DistinctAlertIds(allAlerts)
    requires forall a :: a in allAlerts ==> a.reminderFrequencyMinutes > 0
    ensures var e1 := Sweep(e, allAlerts, users, registered, now).engine;
            Sweep(e1, allAlerts, users, registered, now) == Run(e1, false)
  {
    SweepEffect(e, allAlerts, users, registered, now);
    var e1 := Sweep(e, allAlerts, users, registered, now).engine;
    var active := FindActiveAlerts(allAlerts, now);
    forall a, v | a in active && v in e1.prefs.Values() ensures !Hit(a, v, users, now) {
      NoHitAfterSweep(e1.prefs, e.prefs, allAlerts, users, now, a, v);
    }
    SweepAlertsNoHit(e1, active, users, registered, now);
  }

  lemma {:induction false} HitsOfMembership(a: Alert, ps: seq<UserAlertPreference>, users: map<Id, User>, now: Time,
                                            n: Notification)
    ensures n in HitsOf(a, ps, users, now) <==>
            exists p :: p in ps && Hit(a, p, users, now) && n == Notification(a, users[p.userId], now)
    decreases |ps|
  {
    if ps != [] {
      HitsOfMembership(a, ps[1..], users, now, n);
      assert forall p :: p in ps <==> p == ps[0] || p in ps[1..];
    }
  }

  /** A sweep over `alerts` sends a notification iff some alert of `alerts` has
      a hit among the stored preferences that produces it. */
  lemma {:induction false} RemindersMembership(alerts: seq<Alert>, vs: seq<UserAlertPreference>, users: map<Id, User>,
                                               now: Time, n: Notification)
    ensures n in Reminders(alerts, vs, users, now) <==>
            exists a, p :: a in alerts && p in vs && Hit(a, p, users, now) && n == Notification(a, users[p.userId], now)
    decreases |alerts|
  {
    if alerts != [] {
      var a0 := alerts[0];
      RemindersMembership(alerts[1..], vs, users, now, n);
      HitsOfMembership(a0, FindByAlert(vs, a0.id), users, now, n);
      assert forall a :: a in alerts <==> a == a0 || a in alerts[1..];
      if n in HitsOf(a0, FindByAlert(vs, a0.id), users, now) {
        var p :| p in FindByAlert(vs, a0.id) && Hit(a0, p, users, now) && n == Notification(a0, users[p.userId], now);
        assert a0 in alerts && p in vs;
      } else if n !in Reminders(alerts[1..], vs, users, now) {
        forall a, p | a in alerts && p in vs && Hit(a, p, users, now)
          ensures n != Notification(a, users[p.userId], now)
        {
          if a == a0 {
            assert p in FindByAlert(vs, a0.id);
          }
        }
      }
    }
  }

  /** The reminders of a sweep are exactly the notifications of the due
      pairs: an effectively active alert and a stored preference it hits. */
  lemma SweepRemindersMembership(allAlerts: seq<Alert>, vs: seq<UserAlertPreference>, users: map<Id, User>,
                                 now: Time, n: Notification)
    ensures n in Reminders(FindActiveAlerts(allAlerts, now), vs, users, now) <==>
            exists a, p :: && a in allAlerts && EffectivelyActive(a, now) && p in vs && Hit(a, p, users, now)
                           && n == Notification(a, users[p.userId], now)
  {
    RemindersMembership(FindActiveAlerts(allAlerts, now), vs, users, now, n);
  }

  function HitBy(a: Alert, users: map<Id, User>, now: Time): UserAlertPreference -> bool {
    (p: UserAlertPreference) => Hit(a, p, users, now)
  }

  /** The preferences a sweep over `alerts` reminds, in the order it reminds
      them: alert by alert, that alert's hits in store order. */
  function RemindedRows(alerts: seq<Alert>, vs: seq<UserAlertPreference>, users: map<Id, User>, now: Time): seq<UserAlertPreference>
    decreases |alerts|
  {
    if alerts == [] then []
    else Filter(FindByAlert(vs, alerts[0].id), HitBy(alerts[0], users, now)) + RemindedRows(alerts[1..], vs, users, now)
  }

  /** The i-th notification of `ns` is alert `a`'s reminder to the user of
      the i-th preference of `rows`, each of which is a hit. */
  predicate PassFollows(ns: seq<Notification>, rows: seq<UserAlertPreference>, a: Alert, users: map<Id, User>, now: Time) {
    && |ns| == |rows|
    && forall i :: 0 <= i < |rows| ==> Hit(a, rows[i], users, now) && ns[i] == Notification(a, users[rows[i].userId], now)
  }

  lemma PassFollowsConcat(h: seq<Notification>, hr: seq<UserAlertPreference>, t: seq<Notification>,
                          tr: seq<UserAlertPreference>, a: Alert, users: map<Id, User>, now: Time)
    requires PassFollows(h, hr, a, users, now) && PassFollows(t, tr, a, users, now)
    ensures PassFollows(h + t, hr + tr, a, users, now)
  {
    forall i | |hr| <= i < |hr + tr|
      ensures Hit(a, (hr + tr)[i], users, now) && (h + t)[i] == Notification(a, users[(hr + tr)[i].userId], now)
    {
      assert (hr + tr)[i] == tr[i - |hr|] && (h + t)[i] == t[i - |h|];
    }
  }

  /** The i-th notification of a pass is sent to the user of the pass's i-th
      hit. */
  lemma {:induction false} HitsOfFollowRows(a: Alert, ps: seq<UserAlertPreference>, users: map<Id, User>, now: Time)
    ensures PassFollows(HitsOf(a, ps, users, now), Filter(ps, HitBy(a, users, now)), a, users, now)
    decreases |ps|
  {
    if ps != [] {
      var p, rest := ps[0], ps[1..];
      HitsOfFollowRows(a, rest, users, now);
      var hit := Hit(a, p, users, now);
      var h := if hit then [Notification(a, users[p.userId], now)] else [];
      var hr := if hit then [p] else [];
      FilterCons(ps, HitBy(a, users, now));
      PassFollowsConcat(h, hr, HitsOf(a, rest, users, now), Filter(rest, HitBy(a, users, now)), a, users, now);
    }
  }

  /** The i-th notification of `ns` is sent, for an alert of `alerts` that
      hits it, to the user of the i-th preference of `rows`. */
  predicate FollowRows(ns: seq<Notification>, rows: seq<UserAlertPreference>, alerts: seq<Alert>,
                       users: map<Id, User>, now: Time) {
    && |ns| == |rows|
    && forall i :: 0 <= i < |rows| ==>
         && ns[i].alert in alerts && Hit(ns[i].alert, rows[i], users, now)
         && ns[i] == Notification(ns[i].alert, users[rows[i].userId], now)
  }

  lemma FollowRowsConcat(h: seq<Notification>, hr: seq<UserAlertPreference>, t: seq<Notification>,
                         tr: seq<UserAlertPreference>, alerts: seq<Alert>, users: map<Id, User>, now: Time)
    requires alerts != [] && PassFollows(h, hr, alerts[0], users, now)
    requires FollowRows(t, tr, alerts[1..], users, now)
    ensures FollowRows(h + t, hr + tr, alerts, users, now)
  {
    forall i | 0 <= i < |hr + tr|
      ensures && (h + t)[i].alert in alerts && Hit((h + t)[i].alert, (hr + tr)[i], users, now)
              && (h + t)[i] == Notification((h + t)[i].alert, users[(hr + tr)[i].userId], now)
    {
      if i < |hr| {
        assert (h + t)[i] == h[i] && (hr + tr)[i] == hr[i];
      } else {
        assert (h + t)[i] == t[i - |h|] && (hr + tr)[i] == tr[i - |hr|];
        assert t[i - |h|].alert in alerts[1..];
      }
    }
  }

  /** The i-th notification of a sweep is sent, for an alert of the sweep
      that hits it, to the user of the i-th reminded preference. */
  lemma {:induction false} RemindersFollowRows(alerts: seq<Alert>, vs: seq<UserAlertPreference>, users: map<Id, User>, now: Time)
    ensures FollowRows(Reminders(alerts, vs, users, now), RemindedRows(alerts, vs, users, now), alerts, users, now)
    decreases |alerts|
  {
    if alerts != [] {
      var a := alerts[0];
      var ps := FindByAlert(vs, a.id);
      HitsOfFollowRows(a, ps, users, now);
      RemindersFollowRows(alerts[1..], vs, users, now);
      FollowRowsConcat(HitsOf(a, ps, users, now), Filter(ps, HitBy(a, users, now)),
                       Reminders(alerts[1..], vs, users, now), RemindedRows(alerts[1..], vs, users, now),
                       alerts, users, now);
    }
  }

  /** With distinct alert ids, each preference is reminded as often as it is
      stored when some alert of the sweep hits it, and otherwise not at all. */
  lemma {:induction false} RemindedRowsCount(alerts: seq<Alert>, vs: seq<UserAlertPreference>, users: map<Id, User>,
                                             now: Time, x: UserAlertPreference)
    requires DistinctAlertIds(alerts)
    ensures multiset(RemindedRows(alerts, vs, users, now))[x]
         == if exists a :: a in alerts && Hit(a, x, users, now) then multiset(vs)[x] else 0
    decreases |alerts|
  {
    if alerts != [] {
      var a0, rest := alerts[0], alerts[1..];
      assert DistinctAlertIds(rest) by {
        forall i, j | 0 <= i < j < |rest| ensures rest[i].id != rest[j].id {
          assert rest[i] == alerts[i + 1] && rest[j] == alerts[j + 1];
        }
      }
      RemindedRowsCount(rest, vs, users, now, x);
      var ps := FindByAlert(vs, a0.id);
      FilterMultiset(ps, HitBy(a0, users, now), x);
      assert forall a :: a in alerts <==> a == a0 || a in rest;
      if Hit(a0, x, users, now) {
        forall b | b in rest ensures !Hit(b, x, users, now) {
          var j :| 0 <= j < |rest| && rest[j] == b;
          assert alerts[j + 1] == b;
        }
      }
    }
  }

  /** On a keyed preference store, a sweep reminds each stored preference
      exactly once when it is due and never otherwise. */
  lemma SweepRemindsDueOnce(e: Engine, allAlerts: seq<Alert>, users: map<Id, User>, now: Time, p: UserAlertPreference)
    requires e.Ready() && DistinctAlertIds(allAlerts) && p in e.prefs.Values()
    ensures multiset(RemindedRows(FindActiveAlerts(allAlerts, now), e.prefs.Values(), users, now))[p]
         == if DueIn(allAlerts, p, users, now) then 1 else 0
  {
    var active := FindActiveAlerts(allAlerts, now);
    FilterDistinctAlertIds(allAlerts, InWindow(now));
    RemindedRowsCount(active, e.prefs.Values(), users, now, p);
    KeyedValuesDistinct(e.prefs, PrefId);
    DistinctMultiset(e.prefs.Values(), p);
    if DueIn(allAlerts, p, users, now) {
      var b :| b in allAlerts && EffectivelyActive(b, now) && Hit(b, p, users, now);
      assert b in active;
    }
  }

  /** A stored preference that is read, still snoozed, whose user is gone, or
      whose alert is not running with reminders enabled is left as it is and
      is not reminded. */
  lemma SweepSkips(e: Engine, allAlerts: seq<Alert>, users: map<Id, User>, registered: set<string>, now: Time, k: Id)
    requires e.Ready() && Complete(registered) && DistinctAlertIds(allAlerts) && k in e.prefs.data
    requires var p := e.prefs.data[k];
             || p.isRead || Snoozed(p, now) || p.userId !in users
             || forall a :: a in allAlerts && a.id == p.alertId ==> !EffectivelyActive(a, now) || !a.reminderEnabled
    ensures k in Sweep(e, allAlerts, users, registered, now).engine.prefs.data
    ensures Sweep(e, allAlerts, users, registered, now).engine.prefs.data[k] == e.prefs.data[k]
    ensures multiset(RemindedRows(FindActiveAlerts(allAlerts, now), e.prefs.Values(), users, now))[e.prefs.data[k]] == 0
  {
    var p := e.prefs.data[k];
    SweepEffect(e, allAlerts, users, registered, now);
    var i := IndexOf(e.prefs, k);
    SweepRemindsDueOnce(e, allAlerts, users, now, p);
  }

  /** A stored preference of a running, reminder-enabled alert that is unread,
      not snoozed and due, and whose user exists, is stamped at `now` (read
      state and snooze untouched) and reminded exactly once. */
  lemma SweepRemindsDue(e: Engine, allAlerts: seq<Alert>, users: map<Id, User>, registered: set<string>, now: Time,
                        k: Id, a: Alert)
    requires e.Ready() && Complete(registered) && DistinctAlertIds(allAlerts) && k in e.prefs.data
    requires a in allAlerts && EffectivelyActive(a, now) && a.reminderEnabled && a.id == e.prefs.data[k].alertId
    requires ShouldRemind(a, e.prefs.data[k], now) && e.prefs.data[k].userId in users
    ensures k in Sweep(e, allAlerts, users, registered, now).engine.prefs.data
    ensures var p, p' := e.prefs.data[k], Sweep(e, allAlerts, users, registered, now).engine.prefs.data[k];
            && p'.lastRemindedAt == Some(now) && p'.updatedAt == now
            && p'.isRead == p.isRead && p'.snoozedUntil == p.snoozedUntil
            && p'.id == p.id && p'.alertId == p.alertId && p'.userId == p.userId && p'.createdAt == p.createdAt
    ensures multiset(RemindedRows(FindActiveAlerts(allAlerts, now), e.prefs.Values(), users, now))[e.prefs.data[k]] == 1
  {
    var p := e.prefs.data[k];
    assert Hit(a, p, users, now);
    SweepEffect(e, allAlerts, users, registered, now);
    var i := IndexOf(e.prefs, k);
    SweepRemindsDueOnce(e, allAlerts, users, now, p);
  }

  /** The alerts of a store keyed by alert id have distinct ids, so the sweep
      over `findAll()` meets `SweepEffect`'s requirement. */
  lemma KeyedAlertsDistinct(t: Table<Alert>, idOf: Alert -> Id)
    requires t.Valid() && t.KeyedBy(idOf) && forall a :: idOf(a) == a.id
    ensures DistinctAlertIds(t.Values())
  {
    var vs := t.Values();
    forall i, j | 0 <= i < j < |vs| ensures vs[i].id != vs[j].id {
      assert idOf(vs[i]) == t.order[i];
      assert idOf(vs[j]) == t.order[j];
    }
  }
  // ---------------------------------------------------------------------
  // Readiness: every sweep keeps the stores keyed by id and the counter ahead
  // of every identifier in use, whatever the alerts, users and registry.

  /** One iteration of the inner loop keeps an engine ready. */
  lemma SweepOneReady(e: Engine, a: Alert, p: UserAlertPreference, users: map<Id, User>,
                      registered: set<string>, now: Time)
    requires e.Ready()
    ensures SweepOne(e, a, p, users, registered, now).engine.Ready()
  {
    if ShouldRemind(a, p, now) && p.userId in users && DeliveryTypeKey(a.deliveryType) in registered {
      var u := users[p.userId];
      var rec := NotificationDelivery(FreshId(e.nextId), a.id, u.id, a.deliveryType, now, true, now);
      var e1 := SweepOne(e, a, p, users, registered, now).engine;
      if p.id in e.prefs.data {
        var q := Stamped(e.prefs.data[p.id], now);
        ReminderStored(e, rec, q, Notification(a, u, now), e1);
      } else {
        forall m: nat | m >= e1.nextId
          ensures FreshId(m) !in e1.deliveries.data && FreshId(m) !in e1.prefs.data
        {
          if FreshId(m) == FreshId(e.nextId) {
            FreshIdInjective(m, e.nextId);
          }
        }
      }
    }
  }

  /** The inner loop over an alert's preferences keeps an engine ready. */
  lemma {:induction false} SweepPrefsReady(run: Run, a: Alert, ps: seq<UserAlertPreference>,
                                           users: map<Id, User>, registered: set<string>, now: Time)
    requires run.engine.Ready()
    ensures SweepPrefs(run, a, ps, users, registered, now).engine.Ready()
    decreases |ps|
  {
    if ps != [] && !run.failed {
      SweepOneReady(run.engine, a, ps[0], users, registered, now);
      SweepPrefsReady(SweepOne(run.engine, a, ps[0], users, registered, now), a, ps[1..], users, registered, now);
    }
  }

  /** The outer loop over the active alerts keeps an engine ready. */
  lemma {:induction false} SweepAlertsReady(run: Run, alerts: seq<Alert>, users: map<Id, User>,
                                            registered: set<string>, now: Time)
    requires run.engine.Ready()
    ensures SweepAlerts(run, alerts, users, registered, now).engine.Ready()
    decreases |alerts|
  {
    if alerts != [] && !run.failed {
      var a := alerts[0];
      if a.reminderEnabled {
        SweepPrefsReady(run, a, FindByAlert(run.engine.prefs.Values(), a.id), users, registered, now);
      }
      SweepAlertsReady(SweepAlert(run, a, users, registered, now), alerts[1..], users, registered, now);
    }
  }

  /** `checkAndSendReminders`, whether it completes or throws, leaves a
      ready engine ready. */
  lemma SweepReady(e: Engine, allAlerts: seq<Alert>, users: map<Id, User>, registered: set<string>, now: Time)
    requires e.Ready()
    ensures Sweep(e, allAlerts, users, registered, now).engine.Ready()
  {
    SweepAlertsReady(Run(e, false), FindActiveAlerts(allAlerts, now), users, registered, now);
  }
}
