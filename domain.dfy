// The entities of the alert platform (src/domain/models.ts) as values. Dates are
// integral milliseconds since the epoch; the string-literal union types become
// enumerations, with the strings the source stores given by the *Name/Key
// functions where the source compares or keys by them.
module Domain {
  import opened Prelude

  /** Milliseconds since the epoch (`Date.getTime()`). */
  type Time = int

  datatype Severity = Info | Warning | Critical

  datatype DeliveryType = InApp | Email | Sms

  datatype VisibilityType = Organization | TeamScoped | UserScoped

  datatype AlertStatus = Active | Archived

  datatype Role = AdminRole | UserRole

  function SeverityName(s: Severity): string {
    match s
    case Info => "info"
    case Warning => "warning"
    case Critical => "critical"
  }

  /** The delivery-type string; it is also the key the channel registry uses. */
  function DeliveryTypeKey(t: DeliveryType): string {
    match t
    case InApp => "in_app"
    case Email => "email"
    case Sms => "sms"
  }

  function StatusName(s: AlertStatus): string {
    match s
    case Active => "active"
    case Archived => "archived"
  }

  function RoleName(r: Role): string {
    match r
    case AdminRole => "admin"
    case UserRole => "user"
  }

  /** The string forms are pairwise distinct, so comparing strings is
      comparing the enumerations. */
  lemma NamesInjective()
    ensures forall s, t :: SeverityName(s) == SeverityName(t) ==> s == t
    ensures forall s, t :: DeliveryTypeKey(s) == DeliveryTypeKey(t) ==> s == t
    ensures forall s, t :: StatusName(s) == StatusName(t) ==> s == t
    ensures forall s, t :: RoleName(s) == RoleName(t) ==> s == t
  {
  }

  datatype User = User(
    id: Id,
    email: string,
    fullName: string,
    role: Role,
    teamId: Option<Id>,
    createdAt: Time)

  datatype Alert = Alert(
    id: Id,
    title: string,
    message: string,
    severity: Severity,
    deliveryType: DeliveryType,
    visibilityType: VisibilityType,
    reminderFrequencyMinutes: int,
    reminderEnabled: bool,
    startTime: Time,
    expiryTime: Option<Time>,
    status: AlertStatus,
    createdBy: Id,
    createdAt: Time,
    updatedAt: Time)

  /** The caller-supplied part of an alert: `Omit<Alert, 'id' | 'createdAt' | 'updatedAt'>`. */
  datatype AlertDraft = AlertDraft(
    title: string,
    message: string,
    severity: Severity,
    deliveryType: DeliveryType,
    visibilityType: VisibilityType,
    reminderFrequencyMinutes: int,
    reminderEnabled: bool,
    startTime: Time,
    expiryTime: Option<Time>,
    status: AlertStatus,
    createdBy: Id)

  datatype AlertVisibility = AlertVisibility(
    id: Id,
    alertId: Id,
    teamId: Option<Id>,
    userId: Option<Id>,
    createdAt: Time)

  datatype NotificationDelivery = NotificationDelivery(
    id: Id,
    alertId: Id,
    userId: Id,
    deliveryType: DeliveryType,
    deliveredAt: Time,
    isReminder: bool,
    createdAt: Time)

  datatype UserAlertPreference = UserAlertPreference(
    id: Id,
    alertId: Id,
    userId: Id,
    isRead: bool,
    snoozedUntil: Option<Time>,
    lastRemindedAt: Option<Time>,
    createdAt: Time,
    updatedAt: Time)

  datatype AlertWithTargets = AlertWithTargets(
    alert: Alert,
    targetTeamIds: seq<Id>,
    targetUserIds: seq<Id>)

  /** A `Partial<Alert>` as `updateAlert` receives it: a field is overwritten
      exactly when it is supplied. `expiryTime` may be supplied as absent. The
      identifier and `updatedAt` are not part of it (see README). */
  datatype AlertPatch = AlertPatch(
    title: Option<string>,
    message: Option<string>,
    severity: Option<Severity>,
    deliveryType: Option<DeliveryType>,
    visibilityType: Option<VisibilityType>,
    reminderFrequencyMinutes: Option<int>,
    reminderEnabled: Option<bool>,
    startTime: Option<Time>,
    expiryTime: Option<Option<Time>>,
    status: Option<AlertStatus>,
    createdBy: Option<Id>,
    createdAt: Option<Time>)

  function Pick<T>(supplied: Option<T>, existing: T): T {
    if supplied.Some? then supplied.value else existing
  }

  /** `{ ...existing, ...updates, updatedAt: now }`. */
  function ApplyAlertPatch(a: Alert, p: AlertPatch, now: Time): (r: Alert)
    ensures r.id == a.id && r.updatedAt == now
  {
    Alert(
      a.id,
      Pick(p.title, a.title),
      Pick(p.message, a.message),
      Pick(p.severity, a.severity),
      Pick(p.deliveryType, a.deliveryType),
      Pick(p.visibilityType, a.visibilityType),
      Pick(p.reminderFrequencyMinutes, a.reminderFrequencyMinutes),
      Pick(p.reminderEnabled, a.reminderEnabled),
      Pick(p.startTime, a.startTime),
      Pick(p.expiryTime, a.expiryTime),
      Pick(p.status, a.status),
      Pick(p.createdBy, a.createdBy),
      Pick(p.createdAt, a.createdAt),
      now)
  }

  /** The patch of `archiveAlert`: only the status. */
  function ArchivePatch(): (p: AlertPatch)
    ensures p.status == Some(Archived)
  {
    AlertPatch(None, None, None, None, None, None, None, None, None, Some(Archived), None, None)
  }

  /** Archiving changes the status and the update time and nothing else. */
  lemma ArchiveOnlyStatus(a: Alert, now: Time)
    ensures ApplyAlertPatch(a, ArchivePatch(), now) == a.(status := Archived, updatedAt := now)
  {
  }

  /** An empty patch changes nothing but the update time: spreading `{}` keeps
      every field. */
  lemma EmptyPatchKeeps(a: Alert, now: Time)
    ensures ApplyAlertPatch(a, AlertPatch(None, None, None, None, None, None, None, None, None, None, None, None), now)
         == a.(updatedAt := now)
  {
  }
}
