# Alert notification engine — a Dafny model

This project models the notification delivery and reminder engine of a small
alert platform written in TypeScript. Administrators create alerts. An alert is
aimed at the whole organisation, at some teams or at some users. The engine
delivers it through one of three channels (in-app, e-mail, SMS) and keeps
per-recipient delivery records and read/snooze preferences. A reminder sweep
re-delivers alerts that are still unread, not snoozed and due.

The model covers:

- the in-memory repositories;
  - `InMemoryRepository` is a class `Store<T>` over a JavaScript `Map`;
  - the `Map` is modelled as `Table`: a finite map plus the key insertion order;
  - the filtered queries are functions over `findAll()` snapshots;
- the channels and the channel registry;
- `AlertService`: creation with visibility rows, read-back, update, archive;
- `NotificationService`: `deliverAlert` and `checkAndSendReminders`;
  - each is a class method proved equal to a specification function in
    `NotificationEngine`;
  - the properties of those functions are proved in `DeliveryProperties` and
    `SweepProperties`;
- `UserNotificationService`: what a user sees, `markAsRead`, `snoozeAlert`;
- `AnalyticsService`: the counters and the per-key tallies;
- the recipient resolution and submit flow of the alert creation form.

Modelling conventions:

- Dates are integer milliseconds since the epoch.
- Each operation reads the clock once, passed in as `now`.
- `uuidv4()` is a per-service counter, mapped by `FreshId` to strings distinct within that service's stores.
- A thrown error is a `Result` failure (or a `failed` flag in a `Run`).

The model follows the code's own behaviour, including where another design
would be just as plausible:

- A delivery type with no registered channel makes `getChannel` throw. In the
  sweep this aborts the whole sweep. The updates made before it are kept.
  Isolating the failure to its alert and preference would be the alternative;
  the code does not do that.
- Team recipients are the concatenated members of each selected team, with no
  de-duplication. The model proves there are no duplicates when the selected
  teams are distinct (`AlertForm.TeamRecipientsDistinct`). A team selected
  twice reaches its members twice.
- `deliverAlert` does not check that the alert is effectively active. It
  delivers to whatever recipients it is given.
- The e-mail and SMS channels cannot fail in the source. So no per-recipient
  delivery failure is modelled.

## Model

| member | source | states |
|---|---|---|
| Prelude.FreshIdInjective | src/application/services/NotificationService.ts:28 | distinct counter values give distinct identifiers, so each `uuidv4()` stand-in yields an identifier no other call yields |
| Prelude.FirstIsEarliest | src/infrastructure/repositories/UserAlertPreferenceRepository.ts:14-16 | `filter(p)[0]` is absent iff nothing matches, and otherwise is the match with no match before it |
| Prelude.FilterExact | src/infrastructure/repositories/InMemoryRepository.ts:32-34 | the protected `filter` returns an order-preserving subsequence that keeps each matching element exactly as often as it occurs |
| Tables.SetNewValues | src/infrastructure/repositories/InMemoryRepository.ts:14-17 | storing a new key appends its value at the end of `values()` (Map insertion order) |
| Tables.SetExistingValues | src/infrastructure/repositories/InMemoryRepository.ts:19-26 | overwriting a present key replaces that value in place and keeps the order of all others |
| Tables.DeleteValues | src/infrastructure/repositories/InMemoryRepository.ts:28-30 | deleting a key from a keyed Map drops exactly the value with that id and keeps the order of the rest |
| Tables.SizeIsCardinality | src/infrastructure/repositories/InMemoryRepository.ts:10-12 | the length of `findAll()` is the number of stored keys |
| Tables.KeyedValuesDistinct | src/infrastructure/repositories/InMemoryRepository.ts:10-17 | in a store that keeps each entity under its id, no entity is listed twice by `findAll()` |
| Tables.FilterCountsKeys | src/application/services/AnalyticsService.ts:24 | the number of stored values passing a test equals the number of keys whose value passes it |
| Repository.Store.constructor | src/infrastructure/repositories/InMemoryRepository.ts:3-4 | a new repository holds an empty Map |
| Repository.Store.FindById | src/infrastructure/repositories/InMemoryRepository.ts:6-8 | present exactly when the id is a key, and then the entity stored under it |
| Repository.Store.FindAll | src/infrastructure/repositories/InMemoryRepository.ts:10-12 | one entity per key, in key insertion order: entry `i` is the entity stored under the `i`-th key |
| Repository.Store.Where | src/infrastructure/repositories/InMemoryRepository.ts:32-34 | exactly the stored entities that pass the predicate: a subsequence of `FindAll`, holding each passing entity as often as `FindAll` does and no other |
| Repository.Store.Create | src/infrastructure/repositories/InMemoryRepository.ts:14-17 | stores the entity under its own id (replacing an entity with that id), returns it, and keeps the store keyed |
| Repository.Store.Update | src/infrastructure/repositories/InMemoryRepository.ts:19-26 | a missing id changes nothing and returns nothing; a present one is replaced in place by the spread of the patch and returned; every other entity is unchanged |
| Repository.Store.Delete | src/infrastructure/repositories/InMemoryRepository.ts:28-30 | reports whether the id was present, removes exactly that key and leaves every other lookup as it was |
| Domain.NamesInjective | src/domain/models.ts:1-5 | the string forms of severity, delivery type, status and role are pairwise distinct, so comparing the strings compares the values |
| Domain.ApplyAlertPatch | src/application/services/AlertService.ts:53-59 | the spread update keeps the alert's id and sets `updatedAt` to now |
| Domain.ArchiveOnlyStatus | src/application/services/AlertService.ts:61-63 | archiving changes the status to archived and the update time, and nothing else |
| Domain.EmptyPatchKeeps | src/application/services/AlertService.ts:53-59 | an update with no fields changes nothing but the update time |
| AlertRepository.FindByStatus | src/infrastructure/repositories/AlertRepository.ts:6-8 | exactly the alerts whose status string matches, each as often as stored, in store order |
| AlertRepository.FindByCreator | src/infrastructure/repositories/AlertRepository.ts:10-12 | exactly the alerts of that creator, each as often as stored, in store order |
| AlertRepository.FindActiveAlerts | src/infrastructure/repositories/AlertRepository.ts:14-21 | exactly the alerts that are active, started at or before now and not expired at now, in store order |
| AlertRepository.ActivityBoundaries | src/infrastructure/repositories/AlertRepository.ts:14-21 | the start instant is inside the activity window, the expiry instant and a future start are outside it, and archived alerts are never active |
| AlertRepository.ArchivedNeverActive | src/infrastructure/repositories/AlertRepository.ts:14-21 | an archived alert is never returned as active |
| AlertRepository.ActiveWithinActiveStatus | src/infrastructure/repositories/AlertRepository.ts:6-21 | the active alerts are the alerts of status `active` that are inside their time window |
| VisibilityRepository.FindByAlert | src/infrastructure/repositories/AlertVisibilityRepository.ts:6-8 | exactly the visibility rows of the alert, each as often as stored, in store order |
| VisibilityRepository.DeleteByAlert | src/infrastructure/repositories/AlertVisibilityRepository.ts:10-13 | the store afterwards is the store with each id of the alert's rows deleted in turn |
| VisibilityRepository.DeleteEachValues | src/infrastructure/repositories/AlertVisibilityRepository.ts:10-13 | deleting a list of ids from a keyed store keeps exactly the rows whose id is not in the list, in order |
| VisibilityRepository.DeleteByAlertRemovesExactly | src/infrastructure/repositories/AlertVisibilityRepository.ts:10-13 | `deleteByAlert` removes exactly the alert's rows, keeps the others in order, and leaves no row of the alert |
| VisibilityRepository.DeleteByAlertIdempotent | src/infrastructure/repositories/AlertVisibilityRepository.ts:10-13 | with no rows for the alert nothing changes, so a second call after the first is a no-op |
| DeliveryRepository.FindByUser | src/infrastructure/repositories/NotificationDeliveryRepository.ts:6-8 | exactly the delivery records of the user, each as often as stored, in store order |
| DeliveryRepository.FindByAlert | src/infrastructure/repositories/NotificationDeliveryRepository.ts:10-12 | exactly the delivery records of the alert, each as often as stored, in store order |
| DeliveryRepository.EveryRecordIndexed | src/infrastructure/repositories/NotificationDeliveryRepository.ts:6-12 | every stored record is found both by its user and by its alert |
| PreferenceRepository.FindByUser | src/infrastructure/repositories/UserAlertPreferenceRepository.ts:6-8 | exactly the preferences of the user, each as often as stored, in store order |
| PreferenceRepository.FindByAlert | src/infrastructure/repositories/UserAlertPreferenceRepository.ts:10-12 | exactly the preferences of the alert, each as often as stored, in store order |
| PreferenceRepository.FindByUserAndAlertEarliest | src/infrastructure/repositories/UserAlertPreferenceRepository.ts:14-16 | the pair lookup is absent iff no row has both ids, and otherwise is the earliest stored row that has them |
| PreferenceRepository.PairHitInBoth | src/infrastructure/repositories/UserAlertPreferenceRepository.ts:6-16 | a pair lookup hit is also returned by the user query and by the alert query |
| PreferenceRepository.PairCountZero | src/infrastructure/repositories/UserAlertPreferenceRepository.ts:14-16 | the pair lookup misses exactly when the store holds no row for the pair |
| UserRepository.FindByEmail | src/infrastructure/repositories/UserRepository.ts:6-8 | absent iff no user has the e-mail, and otherwise the earliest stored user with it |
| UserRepository.FindByRole | src/infrastructure/repositories/UserRepository.ts:10-12 | exactly the users whose role string matches, in store order |
| UserRepository.FindByTeam | src/infrastructure/repositories/UserRepository.ts:14-16 | exactly the users whose team is the given one (never a user without a team), in store order |
| Channels.Channel.constructor | src/infrastructure/channels/NotificationChannel.ts:13-14 | a new channel has the given kind and an empty in-app log |
| Channels.Channel.GetType | src/infrastructure/channels/NotificationChannel.ts:25-27 | the registry key of the channel's kind, one of `in_app`, `email`, `sms` |
| Channels.Channel.GetNotifications | src/infrastructure/channels/NotificationChannel.ts:29-31 | returns the channel's log itself: the entries `Deliver` appended, in delivery order (which `Deliver` keeps empty on the e-mail and SMS channels) |
| Channels.Channel.Deliver | src/infrastructure/channels/NotificationChannel.ts:16-23 | the in-app channel appends one `{alert, user, timestamp}` entry; the e-mail and SMS channels keep their (empty) log |
| Channels.GetTypeInjective | src/infrastructure/channels/NotificationChannel.ts:25-51 | two channels with the same `getType()` have the same kind |
| Channels.Upper | src/infrastructure/channels/NotificationChannel.ts:9 | `toUpperCase` keeps the length and upper-cases each ASCII letter |
| Channels.SeverityTags | src/infrastructure/channels/NotificationChannel.ts:8-10 | the tags are `[INFO] `, `[WARNING] ` and `[CRITICAL] ` |
| Channels.FormatMessageLayout | src/infrastructure/channels/NotificationChannel.ts:8-10 | the message starts with the severity tag and the title, ends with ` (email)` of the recipient, and its tag determines the severity |
| ChannelFactory.NotificationChannelFactory.constructor | src/infrastructure/channels/NotificationChannelFactory.ts:12-16 | the registry holds the three built-in channels in the order in-app, e-mail, SMS, each under its own type; every registered channel is a new object with an empty log |
| ChannelFactory.NotificationChannelFactory.RegisterBuiltIns | src/infrastructure/channels/NotificationChannelFactory.ts:13-15 | registers a new channel of each type in turn, each of its own kind with an empty log |
| ChannelFactory.NotificationChannelFactory.RegisterChannel | src/infrastructure/channels/NotificationChannelFactory.ts:18-20 | the channel is stored under its `getType()`, replacing an earlier one, and the registry stays keyed by type |
| ChannelFactory.NotificationChannelFactory.GetChannel | src/infrastructure/channels/NotificationChannelFactory.ts:22-28 | succeeds iff the type is registered, with the registered channel of that kind; otherwise fails with the source's error message |
| ChannelFactory.NotificationChannelFactory.GetAllChannels | src/infrastructure/channels/NotificationChannelFactory.ts:30-32 | one channel per registered type, in registration order, with pairwise distinct types |
| ChannelFactory.BuiltInLayout | src/infrastructure/channels/NotificationChannelFactory.ts:12-16 | the constructed Map has exactly the three keys in order, each mapped to its channel |
| ChannelFactory.CompleteResolves | src/infrastructure/channels/NotificationChannelFactory.ts:22-28 | a registry with every type, as constructed, resolves every delivery type to a channel of that kind |
| ChannelFactory.ConstructedHasThree | src/infrastructure/channels/NotificationChannelFactory.ts:12-32 | after construction `getAllChannels()` lists three channels and every type is registered |
| Alerts.NewAlertKeepsDraft | src/application/services/AlertService.ts:17-22 | the stored alert carries the caller's fields unchanged, the new id, and creation and update time now |
| Alerts.VisibilityRows | src/application/services/AlertService.ts:26-44 | the rows have consecutive fresh ids and all name the alert and now |
| Alerts.InsertAllAppends | src/application/services/AlertService.ts:26-44 | rows with distinct fresh ids are appended to the visibility store in order |
| Alerts.CreateKeepsReady | src/application/services/AlertService.ts:11-51 | creation keeps both stores keyed by id, every row naming a stored alert, and no future fresh id in use |
| Alerts.CreateEffect | src/application/services/AlertService.ts:11-51 | creation appends exactly one new alert with the caller's fields, appends exactly its visibility rows, and returns the target lists as passed |
| Alerts.CreateRowsByKind | src/application/services/AlertService.ts:26-44 | a team alert gets one row per target team (team set, no user), a user alert one per target user, an organisation alert none |
| Alerts.TeamIdsOfMembership | src/application/services/AlertService.ts:72 | a team id is reported iff some row carries it and it is non-empty (the truthiness filter) |
| Alerts.UserIdsOfMembership | src/application/services/AlertService.ts:73 | a user id is reported iff some row carries it and it is non-empty |
| Alerts.GetAlert | src/application/services/AlertService.ts:65-75 | absent iff the id is not stored; otherwise the stored alert with its targets |
| Alerts.GetAlertTargets | src/application/services/AlertService.ts:65-75 | the reported targets are exactly the non-empty team and user ids of the alert's rows |
| Alerts.GetAllAlerts | src/application/services/AlertService.ts:77-86 | one entry per stored alert, in store order, each carrying that alert |
| Alerts.GetAllAgreesWithGetAlert | src/application/services/AlertService.ts:65-86 | on a keyed store each entry of `getAllAlerts()` is what `getAlert` returns for its id |
| Alerts.ActiveIsAllRestricted | src/application/services/AlertService.ts:88-97 | `getActiveAlerts()` is `getAllAlerts()` restricted to the effectively active alerts |
| Alerts.CreatedRowsFound | src/application/services/AlertService.ts:11-51 | the rows found for a just-created alert are exactly the rows creation wrote, in order |
| Alerts.CreatedTargets | src/application/services/AlertService.ts:26-44 | reading targets back from the written rows gives the list of the alert's own kind as passed and an empty list for the other kind |
| Alerts.CreateThenGetAlert | src/application/services/AlertService.ts:11-75 | for non-empty passed ids, `getAlert` on a just-created alert returns it with the targets of its own kind; an organisation alert comes back with no targets even when some were passed |
| Alerts.UpdateKeepsReady | src/application/services/AlertService.ts:53-59 | an update keeps the catalog's invariants |
| Alerts.ArchiveEffect | src/application/services/AlertService.ts:61-63 | an unknown id changes nothing; otherwise only that alert changes, to archived with `updatedAt` now, and it is never active afterwards |
| Alerts.AlertService.constructor | src/application/services/AlertService.ts:5-9 | the service starts over the given stores with a fresh counter |
| Alerts.AlertService.CreateAlert | src/application/services/AlertService.ts:11-51 | the stores, the counter and the result are those of `Create` |
| Alerts.AlertService.AddTeamRows | src/application/services/AlertService.ts:26-34 | the team `forEach` stores exactly the team rows, in order |
| Alerts.AlertService.AddUserRows | src/application/services/AlertService.ts:35-44 | the user `forEach` stores exactly the user rows, in order |
| Alerts.AlertService.UpdateAlert | src/application/services/AlertService.ts:53-59 | the alert store afterwards is the store updated with the patch at now; returns the patched alert or nothing for an unknown id |
| Alerts.AlertService.ArchiveAlert | src/application/services/AlertService.ts:61-63 | the alert becomes archived with `updatedAt` now; returns it, or nothing for an unknown id |
| NotificationEngine.NewPreference | src/application/services/NotificationService.ts:37-47 | the created preference names the pair, is unread, not snoozed, never reminded, and created and updated at now |
| NotificationEngine.DeliverOneSplit | src/application/services/NotificationService.ts:24-48 | one delivery step is the delivery record followed by the find-or-create of the preference |
| NotificationEngine.Stamped | src/application/services/NotificationService.ts:85-88 | the reminder update sets the last-reminded and update times to now and keeps every other field |
| NotificationEngine.SweepOneSplit | src/application/services/NotificationService.ts:68-89 | a reminder is a reminder record followed by the stamp of the preference |
| NotificationEngine.SweepPrefsTurn | src/application/services/NotificationService.ts:60-90 | each inner-loop turn takes the pass to the next one, and a failure stops the pass |
| NotificationEngine.SweepAlertsTurn | src/application/services/NotificationService.ts:55-91 | each outer-loop turn takes the sweep to the next one, and a failure stops the sweep |
| Notifications.NotificationService.constructor | src/application/services/NotificationService.ts:12-19 | over valid stores keyed by id that hold no identifier the counter has yet to hand out, the service starts valid and ready, with those stores and registry and a fresh counter |
| Notifications.NotificationService.DeliverTo | src/application/services/NotificationService.ts:25-47 | one loop iteration changes the stores, the in-app log and the counter exactly as `DeliverOne` |
| Notifications.NotificationService.RecordDelivery | src/application/services/NotificationService.ts:25-35 | delivering and recording one delivery changes the state exactly as `Recorded` |
| Notifications.NotificationService.EnsurePreference | src/application/services/NotificationService.ts:37-47 | the find-or-create changes the state exactly as `WithPreference` |
| Notifications.NotificationService.DeliverAlert | src/application/services/NotificationService.ts:21-49 | the stores, the in-app log, the counter and the failure are exactly those of `DeliverAlert`; a ready state stays ready |
| Notifications.NotificationService.StampPreference | src/application/services/NotificationService.ts:85-88 | restamps the preference with that id as `Restamped` says |
| Notifications.NotificationService.RemindOne | src/application/services/NotificationService.ts:61-89 | one inner-loop iteration changes the state, and possibly fails, exactly as `SweepOne` |
| Notifications.NotificationService.SendReminder | src/application/services/NotificationService.ts:69-88 | the reminder of a due preference whose user exists changes the state exactly as `SweepOne` on a hit |
| Notifications.NotificationService.RemindAlert | src/application/services/NotificationService.ts:55-90 | one outer-loop turn changes the state, and possibly fails, exactly as `SweepAlert` |
| Notifications.NotificationService.CheckAndSendReminders | src/application/services/NotificationService.ts:51-92 | the stores, the in-app log, the counter and the failure are exactly those of `Sweep` over the stored alerts at now; a ready state stays ready |
| DeliveryProperties.DeliverOneStep | src/application/services/NotificationService.ts:24-48 | one recipient adds exactly one initial record, a preference only when the pair had none, and an in-app entry for in-app alerts |
| DeliveryProperties.DeliverAlertReady | src/application/services/NotificationService.ts:21-49 | delivering an alert keeps a ready state ready, whether it completes or throws on a missing channel |
| DeliveryProperties.InAppEntriesCons | src/infrastructure/channels/NotificationChannel.ts:16-23 | the in-app entries of a recipient list start with the first recipient's entry |
| DeliveryProperties.DeliverAllRecords | src/application/services/NotificationService.ts:24-35 | `deliverAlert` appends exactly one initial delivery record per recipient, in list order, keeps the earlier records, and logs one in-app entry per recipient for in-app alerts |
| DeliveryProperties.DeliverAllPairCount | src/application/services/NotificationService.ts:37-47 | afterwards a pair has one preference if it is a recipient's pair that had none and is unchanged otherwise; every recipient has one, and none is duplicated, even for a repeated recipient |
| DeliveryProperties.DeliverAllNewPreferences | src/application/services/NotificationService.ts:37-47 | existing preferences are kept and the only new ones are unread, unsnoozed preferences of the alert and a recipient created at now |
| DeliveryProperties.DeliverTwiceIdempotent | src/application/services/NotificationService.ts:21-49 | delivering to one user twice writes two records but leaves exactly one preference for the pair |
| DeliveryProperties.DeliverAlertFailure | src/application/services/NotificationService.ts:22 | delivery fails iff the delivery type has no registered channel, and a failure changes nothing |
| SweepProperties.SweepOneStep | src/application/services/NotificationService.ts:61-89 | one stored preference: a hit appends one reminder record and stamps it in place; anything else changes nothing |
| SweepProperties.SweepPrefsEffect | src/application/services/NotificationService.ts:58-90 | one alert's pass stamps exactly the hits, appends one reminder record per hit in order, and logs the in-app ones |
| SweepProperties.AlertPassEffect | src/application/services/NotificationService.ts:55-90 | an alert's pass, enabled or not, replaces each stored preference by its stamped image and records its hits in order |
| SweepProperties.HitsOfNone | src/application/services/NotificationService.ts:56-68 | an alert without reminders, or preferences without a hit, produce no reminder |
| SweepProperties.OtherAlertRowsKept | src/application/services/NotificationService.ts:58 | a pass of one alert leaves every other alert's preferences as they were |
| SweepProperties.SweepAlertsEffect | src/application/services/NotificationService.ts:55-91 | the outer loop over alerts with distinct ids does not fail, leaves each preference as all passes leave it, and records all reminders in order |
| SweepProperties.SweptRowClosed | src/application/services/NotificationService.ts:55-91 | with distinct alert ids only the pass of a preference's own alert can change it |
| SweepProperties.ActivePassClosed | src/application/services/NotificationService.ts:52-91 | over the active alerts a preference ends stamped at now if it is due and unchanged otherwise |
| SweepProperties.SweepEffect | src/application/services/NotificationService.ts:51-92 | with every channel registered the sweep does not fail, stamps exactly the due preferences, keeps all others, and appends one reminder record per reminder in order |
| SweepProperties.SweepCreatesNoPreference | src/application/services/NotificationService.ts:51-92 | the sweep never adds or removes a preference, even when it aborts |
| SweepProperties.SweepAlertsNoHit | src/application/services/NotificationService.ts:55-91 | a sweep that finds no hit changes nothing |
| SweepProperties.NoHitAfterSweep | src/application/services/NotificationService.ts:63-66 | with positive frequencies no stored preference is a hit right after a sweep at the same instant |
| SweepProperties.SweepTwiceAddsNothing | src/application/services/NotificationService.ts:51-92 | a second sweep at the same instant changes nothing when every frequency is positive |
| SweepProperties.RemindersMembership | src/application/services/NotificationService.ts:55-89 | a sweep sends a notification iff some alert of the sweep has a hit among the stored preferences that produces it |
| SweepProperties.SweepRemindersMembership | src/application/services/NotificationService.ts:52-89 | the reminders are exactly the notifications of an effectively active alert and a stored preference it hits |
| SweepProperties.RemindersFollowRows | src/application/services/NotificationService.ts:55-89 | the i-th reminder goes, for some alert of the sweep that hits it, to the user of the i-th reminded preference |
| SweepProperties.RemindedRowsCount | src/application/services/NotificationService.ts:55-89 | with distinct alert ids a preference is reminded as often as it is stored if some alert hits it, and never otherwise |
| SweepProperties.SweepRemindsDueOnce | src/application/services/NotificationService.ts:51-92 | on a keyed store each stored preference is reminded exactly once if it is due and never otherwise |
| SweepProperties.SweepSkips | src/application/services/NotificationService.ts:56-70 | a read, still-snoozed or user-less preference, or one whose alert is not running with reminders on, is kept as it is and not reminded |
| SweepProperties.SweepRemindsDue | src/application/services/NotificationService.ts:61-88 | a due, unread, unsnoozed preference of a running reminder alert whose user exists is stamped at now (read and snooze state untouched) and reminded exactly once |
| SweepProperties.SweepOneReady | src/application/services/NotificationService.ts:61-89 | one inner-loop iteration keeps the stores keyed by id and the counter ahead of every identifier in use |
| SweepProperties.SweepPrefsReady | src/application/services/NotificationService.ts:60-90 | the inner loop over an alert's preferences keeps a ready state ready |
| SweepProperties.SweepAlertsReady | src/application/services/NotificationService.ts:55-91 | the outer loop over the active alerts keeps a ready state ready |
| SweepProperties.SweepReady | src/application/services/NotificationService.ts:51-92 | the sweep keeps a ready state ready, whether it completes or throws on a missing channel |
| SweepProperties.KeyedAlertsDistinct | src/infrastructure/repositories/AlertRepository.ts:14-21 | the alerts of a store keyed by id have distinct ids |
| UserNotifications.VisibleToMaySee | src/application/services/UserNotificationService.ts:24-38 | the filter callback holds iff the alert is organisation-wide, or a team alert with a row for the user's team, or a user alert with a row for the user |
| UserNotifications.GetUserAlerts | src/application/services/UserNotificationService.ts:18-39 | empty for an unknown user; otherwise exactly the effectively active stored alerts the user may see, in active-alert order |
| UserNotifications.TeamlessUserSeesTeamlessRows | src/application/services/UserNotificationService.ts:27-29 | a user without a team sees a team alert iff one of its rows names no team (`undefined === undefined`) |
| UserNotifications.GetUserPreferences | src/application/services/UserNotificationService.ts:64-66 | exactly the user's preferences, each as often as stored, in store order |
| UserNotifications.EndOfDay | src/application/services/UserNotificationService.ts:54-55 | the instant is at or after now, less than a day later, and the last millisecond of a local day |
| UserNotifications.SameDay | src/application/services/UserNotificationService.ts:54-55 | every instant up to the end of a day has the same end of day |
| UserNotifications.UserNotificationService.constructor | src/application/services/UserNotificationService.ts:11-16 | the service starts over the given preference store and time-zone offset |
| UserNotifications.UserNotificationService.MarkAsRead | src/application/services/UserNotificationService.ts:41-49 | the preference store afterwards is `AfterMarkRead` of the store before |
| UserNotifications.UserNotificationService.SnoozeAlert | src/application/services/UserNotificationService.ts:51-62 | the preference store afterwards is `AfterSnooze` of the store before |
| UserNotifications.UpdatePairEffect | src/application/services/UserNotificationService.ts:41-62 | a lookup-and-update with no row for the pair changes nothing; otherwise only the earliest row of the pair changes, to its image |
| UserNotifications.MarkAsReadEffect | src/application/services/UserNotificationService.ts:41-49 | the pair's row, if any, becomes read with `updatedAt` now and keeps snooze and reminder state; no other row changes |
| UserNotifications.MarkAsReadTwice | src/application/services/UserNotificationService.ts:41-49 | marking twice is marking once at the later time |
| UserNotifications.SnoozeAlertEffect | src/application/services/UserNotificationService.ts:51-62 | the pair's row, if any, is snoozed to the end of the current day and keeps read and reminder state; no other row changes |
| UserNotifications.SnoozedForRestOfDay | src/application/services/UserNotificationService.ts:51-62 | a snoozed row counts as snoozed at every instant from now until the end of the day |
| UserNotifications.SnoozeTwiceSameDay | src/application/services/UserNotificationService.ts:51-62 | snoozing again on the same day gives the same deadline and changes only the update time |
| Analytics.TallyOfKeys | src/application/services/AnalyticsService.ts:33-37 | counting by key yields exactly the keys present, each mapped to its number of elements (at least one), with counts summing to the number of elements |
| Analytics.SnoozedCountsFacts | src/application/services/AnalyticsService.ts:27-40 | the snoozed counts map exactly the alert ids of preferences snoozed past now, each to its number of such preferences, summing to their total |
| Analytics.SeverityBreakdownFacts | src/application/services/AnalyticsService.ts:42-52 | the breakdown maps exactly the severities present, each to its number of alerts, summing to the number of alerts |
| Analytics.SeverityBreakdownAtMostThree | src/application/services/AnalyticsService.ts:42-52 | every key is one of `info`, `warning`, `critical`, so there are at most three |
| Analytics.ReadCount | src/application/services/AnalyticsService.ts:23-25 | the read count is the number of preferences stored as read, at most the number of preferences |
| Analytics.AnalyticsService.constructor | src/application/services/AnalyticsService.ts:9-13 | the service reads the three given stores |
| Analytics.AnalyticsService.GetTotalAlerts | src/application/services/AnalyticsService.ts:15-17 | the number of stored alerts |
| Analytics.AnalyticsService.GetAlertsDelivered | src/application/services/AnalyticsService.ts:19-21 | the number of stored delivery records, first deliveries and reminders alike |
| Analytics.AnalyticsService.GetAlertsRead | src/application/services/AnalyticsService.ts:23-25 | the number of stored preferences marked read, at most the number of preferences |
| Analytics.AnalyticsService.GetSnoozedCounts | src/application/services/AnalyticsService.ts:27-40 | the loop builds exactly `SnoozedCounts` of the preference snapshot at now |
| Analytics.AnalyticsService.GetSeverityBreakdown | src/application/services/AnalyticsService.ts:42-52 | the loop builds exactly `SeverityBreakdown` of the alert snapshot |
| Analytics.BreakdownSumsToTotal | src/application/services/AnalyticsService.ts:15-52 | the breakdown's counts add up to the total number of alerts |
| AlertForm.TeamArg | src/components/CreateAlertModal.tsx:53 | the team ids passed are the selection for a team alert and empty otherwise |
| AlertForm.UserArg | src/components/CreateAlertModal.tsx:54 | the user ids passed are the selection for a user alert and empty otherwise |
| AlertForm.SubmittedAlertReadsBack | src/components/CreateAlertModal.tsx:39-55 | for non-empty selected ids, the submitted alert reads back through `getAlert` with exactly the selected targets of its kind |
| AlertForm.ExistingUsersSpec | src/components/CreateAlertModal.tsx:64-68 | a user alert reaches exactly the selected ids that name a stored user, in selection order, and all of them when all exist |
| AlertForm.ResolveRecipients | src/components/CreateAlertModal.tsx:57-69 | the resolved list is `Recipients` of the form over the user snapshot |
| AlertForm.TeamRecipients | src/components/CreateAlertModal.tsx:60-63 | the team `forEach` pushes the members of each selected team, team after team, as `FlatMap` of `TeamMembers` |
| AlertForm.SelectedRecipients | src/components/CreateAlertModal.tsx:64-68 | the user `forEach` pushes the selected users found in the store, in selection order, as `ExistingUsers` |
| AlertForm.OrganizationRecipients | src/components/CreateAlertModal.tsx:58-59 | an organisation alert reaches exactly the stored users of role `user`, in store order, and never an admin |
| AlertForm.TeamRecipientsMembership | src/components/CreateAlertModal.tsx:60-63 | a team alert reaches exactly the stored users whose team is selected |
| AlertForm.TeamMembersDistinct | src/components/CreateAlertModal.tsx:61-63 | the members of distinct teams, concatenated, contain no user twice |
| AlertForm.TeamRecipientsDistinct | src/components/CreateAlertModal.tsx:60-63 | with a keyed user store and distinct selected teams, a team alert has no duplicate recipient |
| AlertForm.ToggleEffect | src/components/CreateAlertModal.tsx:76-86 | a toggle flips whether the id is selected, keeps every other id's membership, and keeps the selection duplicate-free |
| AlertForm.ToggleTwice | src/components/CreateAlertModal.tsx:76-86 | toggling the same id twice restores the selection's members, and restores it exactly when the id was not selected |
| AlertForm.CreateAndResolve | src/components/CreateAlertModal.tsx:39-69 | creates the alert as `Create` does and resolves the recipients from the user snapshot before it, leaving the notification state alone |
| AlertForm.Notify | src/components/CreateAlertModal.tsx:71 | delivers the created alert once, as `DeliverAlert` says, leaving the alert catalog alone |
| AlertForm.HandleSubmit | src/components/CreateAlertModal.tsx:35-74 | the alert is created as `Create` says, the recipients are those of the form, and the delivery is that of `DeliverAlert` |

## Left out

- Console output of the e-mail and SMS channels and of the application is not modelled; it has no effect on state.
- `uuidv4()` is modelled as a per-service counter mapped to distinct strings (`FreshId`); the model relies only on distinctness, not on randomness. The identifiers are distinct within one service's stores only: an alert and a delivery record may both be `FreshId(0)`, where real `uuidv4()` values never coincide. Nothing in the source compares identifiers across stores, so no behaviour depends on it.
- `async`/`await`, timers, and the periodic scheduling of the sweep are left out. Each call runs to completion, with one clock reading `now` passed in.
- `new Date()` in `getSnoozedCounts`, `markAsRead` and `snoozeAlert` is the parameter `now`. Within one call the source may read the clock twice; the model reads it once.
- `checkAndSendReminders` reads the clock once in `findActiveAlerts` (src/infrastructure/repositories/AlertRepository.ts:15) and again at src/application/services/NotificationService.ts:53. The model uses one `now` for both. So it does not capture an alert that is active at the first reading and has expired by the second: the source still reminds for it, stamped with the later time.
- `deliverAlert` reads the clock four times per recipient (src/application/services/NotificationService.ts:32, 34, 44 and 45), and the in-app `deliver` reads it once more (src/infrastructure/channels/NotificationChannel.ts:20), with awaits in between. The model gives one delivery batch a single timestamp `now`, so the records, preferences and log entries of one call share it.
- `setHours(23, 59, 59, 999)` is modelled with a fixed time-zone offset in milliseconds. Daylight-saving changes are not modelled.
- `AppContext`, the seed data and the React components are not part of this model. The one exception is the submit handler and the toggles of the alert creation form.
- The team repository has no operations of its own beyond the generic store. It is the generic `Store` and gets no module of its own.
- The three channel classes are one `Channel` class with a constant kind. Only the in-app channel keeps a log.
- The in-app log is tracked as a ghost view of the registered in-app channel. A channel registered under another key is not followed. A log entry holds the plain `Alert`: the submit handler passes the `AlertWithTargets` object from `createAlert` to `deliverAlert`, so the source's entry also carries `targetTeamIds` and `targetUserIds`. Nothing in the source reads the log, so no behaviour depends on them.
- Notifications.NotificationService.CheckAndSendReminders: a sweep that aborts on a missing channel keeps the updates made before it, as in the source. The model states this through `Sweep`, but the properties in `SweepProperties` assume every type is registered.
- The sweep's `reminderEnabled` check is modelled inside the outer-loop turn (`RemindAlert` / `SweepAlert`), with the same behaviour.
- `Map<string, number>` results of the analytics service are `Table<nat>` values, with insertion order kept.
- The `models.ts` and `interfaces.ts` types are modelled as datatypes only; interfaces add no behaviour.
- An alert update patch cannot set `id` or `updatedAt`. The source's `Partial<Alert>` could pass them, but the service always overwrites `updatedAt`.
- The truthiness filter of `getAlert` is modelled as "present and non-empty". No other falsy string exists.
- Alerts.CreateThenGetAlert: requires every passed team and user id to be non-empty. `getAlert` drops an empty id, so `["", "t1"]` reads back as `["t1"]` and the round trip does not hold for it.
- AlertForm.SubmittedAlertReadsBack: requires every selected team and user id to be non-empty, for the same reason.
- The organisation recipients are the stored users of role `user`, filtered from `findAll()`, as the handler does. `findByRole` is modelled separately.
- Floating-point `reminderFrequencyMinutes` is an integer number of minutes.
