// The submit handler of the alert-creation form: it creates the alert with the
// target lists of its visibility kind, resolves the recipients (every user of
// role `user` for an organisation alert, the members of the selected teams in
// order for a team alert, the selected users that exist for a user alert) and
// delivers the alert to them once. The team and user pickers toggle ids in and
// out of the selection lists.
module AlertForm {
  import opened Prelude
  import opened Domain
  import opened Tables
  import opened Repository
  import opened UserRepository
  import opened Alerts
  import opened Notifications
  import NotificationEngine

  /** The form's state when it is submitted. `expiryTime` is already `None`
      when the expiry box is unticked or empty. */
  datatype Form = Form(
    title: string,
    message: string,
    severity: Severity,
    deliveryType: DeliveryType,
    visibilityType: VisibilityType,
    reminderFrequency: int,
    reminderEnabled: bool,
    startTime: Time,
    expiryTime: Option<Time>,
    selectedTeams: seq<Id>,
    selectedUsers: seq<Id>)

  /** The alert data the handler passes to `createAlert`: always active, created
      by the current user. */
  function FormDraft(f: Form, currentUserId: Id): AlertDraft {
    AlertDraft(f.title, f.message, f.severity, f.deliveryType, f.visibilityType, f.reminderFrequency,
               f.reminderEnabled, f.startTime, f.expiryTime, Active, currentUserId)
  }

  /** The team ids passed to `createAlert`: the selection for a team alert,
      otherwise none. */
  function TeamArg(f: Form): (r: seq<Id>)
    ensures r != [] ==> f.visibilityType == TeamScoped && r == f.selectedTeams
    ensures f.visibilityType == TeamScoped ==> r == f.selectedTeams
  {
    if f.visibilityType == TeamScoped then f.selectedTeams else []
  }

  /** The user ids passed to `createAlert`: the selection for a user alert,
      otherwise none. */
  function UserArg(f: Form): (r: seq<Id>)
    ensures r != [] ==> f.visibilityType == UserScoped && r == f.selectedUsers
    ensures f.visibilityType == UserScoped ==> r == f.selectedUsers
  {
    if f.visibilityType == UserScoped then f.selectedUsers else []
  }

  /** What `createAlert` returns for a submitted form is what `getAlert`
      later reads back for it (for non-empty selected ids): the target list
      of the other kind is dropped before the call, so the echo and the
      stored rows agree. */
  lemma SubmittedAlertReadsBack(c: Catalog, f: Form, currentUserId: Id, now: Time)
    requires c.Ready()
    requires forall t :: t in f.selectedTeams ==> t != ""
    requires forall u :: u in f.selectedUsers ==> u != ""
    ensures var (c', r) := Create(c, FormDraft(f, currentUserId), TeamArg(f), UserArg(f), now);
            GetAlert(c'.alerts.data, c'.rows.Values(), r.alert.id) == Some(r)
  {
    CreateThenGetAlert(c, FormDraft(f, currentUserId), TeamArg(f), UserArg(f), now);
  }

  // ------------------------------------------------------------------
  // Recipients

  /** The users of one team, in store order. */
  function TeamMembers(all: seq<User>): Id -> seq<User> {
    (t: Id) => FindByTeam(all, t)
  }

  /** The selected ids that name a stored user, as those users, in selection
      order. */
  function ExistingUsers(byId: map<Id, User>, ids: seq<Id>): (r: seq<User>)
    ensures |r| <= |ids|
    decreases |ids|
  {
    if ids == [] then []
    else
      var init, last := ids[..|ids| - 1], ids[|ids| - 1];
      ExistingUsers(byId, init) + if last in byId then [byId[last]] else []
  }

  /** `recipientUsers` for the form's visibility kind, over the user store's
      `findAll()` and its Map. */
  function Recipients(f: Form, all: seq<User>, byId: map<Id, User>): seq<User> {
    match f.visibilityType
    case Organization => FindByRole(all, "user")
    case TeamScoped => FlatMap(f.selectedTeams, TeamMembers(all))
    case UserScoped => ExistingUsers(byId, f.selectedUsers)
  }

  /** The recipient resolution of the submit handler: `push` of the matching
      users, one selected team or user at a time. */
  method ResolveRecipients(users: Store<User>, f: Form) returns (r: seq<User>)
    requires users.Valid()
    ensures r == Recipients(f, users.FindAll(), users.data.data)
  {
    match f.visibilityType
    case Organization =>
      r := users.Where(RoleIs("user"));
      assert r == FindByRole(users.FindAll(), "user");
    case TeamScoped =>
      r := TeamRecipients(users, f.selectedTeams);
    case UserScoped =>
      r := SelectedRecipients(users, f.selectedUsers);
  }

  /** The members of each selected team, team after team. */
  method TeamRecipients(users: Store<User>, teams: seq<Id>) returns (r: seq<User>)
    requires users.Valid()
    ensures r == FlatMap(teams, TeamMembers(users.FindAll()))
  {
    r := [];
    for i := 0 to |teams|
      invariant r == FlatMap(teams[..i], TeamMembers(users.FindAll()))
    {
      var members := users.Where(TeamIs(teams[i]));
      assert members == FindByTeam(users.FindAll(), teams[i]);
      r := r + members;
      assert teams[..i + 1][..i] == teams[..i];
    }
    assert teams[..|teams|] == teams;
  }

  /** The selected users found in the store, in selection order. */
  method SelectedRecipients(users: Store<User>, ids: seq<Id>) returns (r: seq<User>)
    requires users.Valid()
    ensures r == ExistingUsers(users.data.data, ids)
  {
    r := [];
    for i := 0 to |ids|
      invariant r == ExistingUsers(users.data.data, ids[..i])
    {
      var user := users.FindById(ids[i]);
      if user.Some? {
        r := r + [user.value];
      }
      assert ids[..i + 1][..i] == ids[..i];
    }
    assert ids[..|ids|] == ids;
  }

  /** An organisation alert reaches exactly the stored users of role `user`,
      in store order; administrators are left out. */
  lemma OrganizationRecipients(f: Form, all: seq<User>, byId: map<Id, User>)
    requires f.visibilityType == Organization
    ensures SubseqOf(Recipients(f, all, byId), all)
    ensures forall u :: u in Recipients(f, all, byId) <==> u in all && u.role == UserRole
    ensures forall u :: u in Recipients(f, all, byId) ==> u.role != AdminRole
  {
    NamesInjective();
  }

  /** A team alert reaches exactly the stored users whose team is one of the
      selected ones. */
  lemma TeamRecipientsMembership(f: Form, all: seq<User>, byId: map<Id, User>, u: User)
    requires f.visibilityType == TeamScoped
    ensures u in Recipients(f, all, byId) <==> u in all && u.teamId.Some? && u.teamId.value in f.selectedTeams
  {
    FlatMapMembership(f.selectedTeams, TeamMembers(all), u);
    if u in all && u.teamId.Some? && u.teamId.value in f.selectedTeams {
      var i :| 0 <= i < |f.selectedTeams| && f.selectedTeams[i] == u.teamId.value;
      assert u in TeamMembers(all)(f.selectedTeams[i]);
    }
  }

  lemma DistinctConcat<T>(a: seq<T>, b: seq<T>)
    requires Distinct(a) && Distinct(b)
    requires forall x :: x in a ==> x !in b
    ensures Distinct(a + b)
  {
    var s := a + b;
    forall i, j | 0 <= i < j < |s| ensures s[i] != s[j] {
      if i < |a| && j >= |a| {
        assert s[i] in a && s[j] == b[j - |a|];
      }
    }
  }

  lemma FilterDistinct<T(!new)>(s: seq<T>, p: T -> bool)
    requires Distinct(s)
    ensures Distinct(Filter(s, p))
  {
    forall x ensures multiset(Filter(s, p))[x] <= 1 {
      FilterMultiset(s, p, x);
      DistinctMultiset(s, x);
    }
    MultisetDistinct(Filter(s, p));
  }

  /** Without any explicit de-duplication, the members of distinct teams form a
      duplicate-free list, because each user belongs to at most one team. */
  lemma {:induction false} TeamMembersDistinct(all: seq<User>, teams: seq<Id>)
    requires Distinct(all) && Distinct(teams)
    ensures Distinct(FlatMap(teams, TeamMembers(all)))
    decreases |teams|
  {
    if teams != [] {
      var init, last := teams[..|teams| - 1], teams[|teams| - 1];
      TeamMembersDistinct(all, init);
      FilterDistinct(all, TeamIs(last));
      forall u | u in FlatMap(init, TeamMembers(all)) ensures u !in FindByTeam(all, last) {
        FlatMapMembership(init, TeamMembers(all), u);
        var i :| 0 <= i < |init| && u in TeamMembers(all)(init[i]);
        assert init[i] != last;
      }
      DistinctConcat(FlatMap(init, TeamMembers(all)), FindByTeam(all, last));
    }
  }

  /** With a duplicate-free user store and distinct selected teams, a team
      alert reaches every recipient once. */
  lemma TeamRecipientsDistinct(f: Form, users: Table<User>)
    requires users.Valid() && f.visibilityType == TeamScoped && Distinct(f.selectedTeams)
    requires users.KeyedBy((u: User) => u.id)
    ensures Distinct(Recipients(f, users.Values(), users.data))
  {
    KeyedValuesDistinct(users, (u: User) => u.id);
    TeamMembersDistinct(users.Values(), f.selectedTeams);
  }

  /** A user alert reaches exactly the selected users that exist, in
      selection order: unknown ids are skipped, and when every selected id is
      known the recipients are those users, one per id. */
  lemma {:induction false} ExistingUsersSpec(byId: map<Id, User>, ids: seq<Id>)
    ensures forall u :: u in ExistingUsers(byId, ids) <==>
              exists i :: 0 <= i < |ids| && ids[i] in byId && byId[ids[i]] == u
    ensures (forall i :: 0 <= i < |ids| ==> ids[i] in byId) ==>
              |ExistingUsers(byId, ids)| == |ids| &&
              forall i :: 0 <= i < |ids| ==> ExistingUsers(byId, ids)[i] == byId[ids[i]]
    decreases |ids|
  {
    if ids != [] {
      var init, last := ids[..|ids| - 1], ids[|ids| - 1];
      ExistingUsersSpec(byId, init);
      forall u ensures u in ExistingUsers(byId, ids) <==>
                       exists i :: 0 <= i < |ids| && ids[i] in byId && byId[ids[i]] == u {
        if u in ExistingUsers(byId, init) {
          var i :| 0 <= i < |init| && init[i] in byId && byId[init[i]] == u;
          assert ids[i] == init[i];
        }
        if exists i :: 0 <= i < |ids| && ids[i] in byId && byId[ids[i]] == u {
          var i :| 0 <= i < |ids| && ids[i] in byId && byId[ids[i]] == u;
          if i < |init| {
            assert init[i] == ids[i];
          }
        }
      }
    }
  }

  // ------------------------------------------------------------------
  // Selection toggles

  /** `toggleTeam` / `toggleUser`: remove the id when it is selected,
      otherwise append it. */
  function Toggle(selected: seq<Id>, id: Id): seq<Id> {
    if id in selected then Filter(selected, (x: Id) => x != id) else selected + [id]
  }

  /** A toggle flips whether the id is selected and keeps every other id's
      selection, and it never introduces a duplicate. */
  lemma ToggleEffect(selected: seq<Id>, id: Id)
    ensures id in Toggle(selected, id) <==> id !in selected
    ensures forall x :: x != id ==> (x in Toggle(selected, id) <==> x in selected)
    ensures Distinct(selected) ==> Distinct(Toggle(selected, id))
  {
    if id in selected {
      if Distinct(selected) {
        FilterDistinct(selected, (x: Id) => x != id);
      }
    } else if Distinct(selected) {
      DistinctConcat(selected, [id]);
    }
  }

  /** Toggling the same id twice restores a duplicate-free selection: an id
      that was not selected comes back out exactly, and one that was selected
      comes back at the end, with the same ids selected. */
  lemma ToggleTwice(selected: seq<Id>, id: Id)
    requires Distinct(selected)
    ensures id !in selected ==> Toggle(Toggle(selected, id), id) == selected
    ensures forall x :: x in Toggle(Toggle(selected, id), id) <==> x in selected
    ensures Distinct(Toggle(Toggle(selected, id), id))
  {
    ToggleEffect(selected, id);
    ToggleEffect(Toggle(selected, id), id);
    if id !in selected {
      var s := selected + [id];
      assert s[..|s| - 1] == selected;
      FilterCongruence(selected, (x: Id) => x != id, (x: Id) => true);
      FilterAllTrue(selected);
    }
  }

  lemma {:induction false} FilterAllTrue(s: seq<Id>)
    ensures Filter(s, (x: Id) => true) == s
    decreases |s|
  {
    if s != [] {
      FilterAllTrue(s[..|s| - 1]);
    }
  }

  // ------------------------------------------------------------------
  // The submit handler

  /** The first half of `handleSubmit`: create the alert (at `now`) and resolve
      its recipients from the user store. Neither step touches the notification
      service `ns`. */
  method CreateAndResolve(alertService: AlertService, users: Store<User>, ghost ns: NotificationService,
                          f: Form, currentUserId: Id, now: Time)
    returns (created: AlertWithTargets, recipients: seq<User>)
    requires alertService.Valid() && users.Valid() && ns.Valid()
    modifies alertService, alertService.alerts, alertService.visibility
    ensures alertService.Valid() && ns.Valid() && ns.State() == old(ns.State())
    ensures (alertService.Current(), created)
         == Create(old(alertService.Current()), FormDraft(f, currentUserId), TeamArg(f), UserArg(f), now)
    ensures recipients == Recipients(f, old(users.FindAll()), old(users.data.data))
    ensures created.alert.deliveryType == f.deliveryType
  {
    ghost var all, byId := users.FindAll(), users.data.data;
    created := alertService.CreateAlert(FormDraft(f, currentUserId), TeamArg(f), UserArg(f), now);
    assert users.data == old(users.data);
    assert ns.deliveries.data == old(ns.deliveries.data) && ns.prefs.data == old(ns.prefs.data);
    assert ns.factory.channels == old(ns.factory.channels);
    assert ns.InAppLog() == old(ns.InAppLog());
    recipients := ResolveRecipients(users, f);
    assert recipients == Recipients(f, all, byId);
  }

  /** The second half of `handleSubmit`: deliver the created alert once. The
      alert service `service` is left alone. */
  method Notify(notificationService: NotificationService, ghost service: AlertService, alert: Alert,
                recipients: seq<User>, later: Time)
    returns (delivered: Result<(), string>)
    requires notificationService.Valid() && service.Valid()
    modifies notificationService, notificationService.deliveries, notificationService.prefs
    modifies notificationService.factory.ChannelFor(alert.deliveryType)
    ensures notificationService.Valid() && service.Valid() && service.Current() == old(service.Current())
    ensures NotificationEngine.Run(notificationService.State(), delivered.Failure?)
         == NotificationEngine.DeliverAlert(old(notificationService.State()), notificationService.factory.channels.data.Keys,
                                            alert, recipients, later)
  {
    delivered := notificationService.DeliverAlert(alert, recipients, later);
  }

  /** `handleSubmit`: create the alert (at `now`), resolve the recipients and
      deliver the alert to them once (at `later`). The alert passed to
      `deliverAlert` is the one `createAlert` returned. */
  method HandleSubmit(alertService: AlertService, notificationService: NotificationService, users: Store<User>,
                      f: Form, currentUserId: Id, now: Time, later: Time)
    returns (created: AlertWithTargets, recipients: seq<User>, delivered: Result<(), string>)
    requires alertService.Valid() && notificationService.Valid() && users.Valid()
    modifies alertService, alertService.alerts, alertService.visibility
    modifies notificationService, notificationService.deliveries, notificationService.prefs
    modifies notificationService.factory.ChannelFor(f.deliveryType)
    ensures alertService.Valid() && notificationService.Valid()
    ensures (alertService.Current(), created)
         == Create(old(alertService.Current()), FormDraft(f, currentUserId), TeamArg(f), UserArg(f), now)
    ensures recipients == Recipients(f, old(users.FindAll()), old(users.data.data))
    ensures NotificationEngine.Run(notificationService.State(), delivered.Failure?)
         == NotificationEngine.DeliverAlert(old(notificationService.State()), notificationService.factory.channels.data.Keys,
                                            created.alert, recipients, later)
  {
    created, recipients := CreateAndResolve(alertService, users, notificationService, f, currentUserId, now);
    delivered := Notify(notificationService, alertService, created.alert, recipients, later);
  }
}
