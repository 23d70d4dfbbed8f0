// AlertRepository: the alert store's filtered queries, each a filter over the
// store's `findAll()` snapshot `all`.
module AlertRepository {
  import opened Prelude
  import opened Domain

  /** The effective-activity condition of `findActiveAlerts`: active status,
      started, and either no expiry or an expiry strictly in the future. */
  predicate EffectivelyActive(a: Alert, now: Time) {
    && a.status == Active
    && a.startTime <= now
    && (a.expiryTime.None? || a.expiryTime.value > now)
  }

  /** The predicates the three queries pass to `filter`. */
  function StatusIs(status: string): Alert -> bool {
    (a: Alert) => StatusName(a.status) == status
  }

  function CreatedBy(userId: Id): Alert -> bool {
    (a: Alert) => a.createdBy == userId
  }

  function InWindow(now: Time): Alert -> bool {
    (a: Alert) => EffectivelyActive(a, now)
  }

  function FindByStatus(all: seq<Alert>, status: string): (r: seq<Alert>)
    ensures forall a :: a in r <==> a in all && StatusName(a.status) == status
    ensures forall a :: multiset(r)[a] == if StatusName(a.status) == status then multiset(all)[a] else 0
    ensures SubseqOf(r, all)
  {
    FilterExact(all, StatusIs(status));
    Filter(all, StatusIs(status))
  }

  function FindByCreator(all: seq<Alert>, userId: Id): (r: seq<Alert>)
    ensures forall a :: a in r <==> a in all && a.createdBy == userId
    ensures forall a :: multiset(r)[a] == if a.createdBy == userId then multiset(all)[a] else 0
    ensures SubseqOf(r, all)
  {
    FilterExact(all, CreatedBy(userId));
    Filter(all, CreatedBy(userId))
  }

  /** `findActiveAlerts()` with the clock reading passed in as `now`. */
  function FindActiveAlerts(all: seq<Alert>, now: Time): (r: seq<Alert>)
    ensures forall a :: a in r <==>
              a in all && a.status == Active && a.startTime <= now &&
              (a.expiryTime.None? || a.expiryTime.value > now)
    ensures forall a :: multiset(r)[a] == if EffectivelyActive(a, now) then multiset(all)[a] else 0
    ensures SubseqOf(r, all)
  {
    FilterExact(all, InWindow(now));
    Filter(all, InWindow(now))
  }

  /** The boundaries of the activity window: the start instant is inside it,
      the expiry instant is not, and an archived alert never is. */
  lemma ActivityBoundaries(a: Alert, now: Time)
    ensures a.status == Active && a.startTime == now && a.expiryTime.None? ==> EffectivelyActive(a, now)
    ensures a.expiryTime == Some(now) ==> !EffectivelyActive(a, now)
    ensures a.startTime > now ==> !EffectivelyActive(a, now)
    ensures a.status == Archived ==> !EffectivelyActive(a, now)
  {
  }

  /** Archived alerts are never returned as active. */
  lemma ArchivedNeverActive(all: seq<Alert>, now: Time, a: Alert)
    requires a.status == Archived
    ensures a !in FindActiveAlerts(all, now)
  {
  }

  /** The active alerts are those of `findByStatus('active')` that are inside
      their time window, in the same order. */
  lemma ActiveWithinActiveStatus(all: seq<Alert>, now: Time)
    ensures FindActiveAlerts(all, now)
         == Filter(FindByStatus(all, "active"), InWindow(now))
  {
    FilterFilter(all, StatusIs("active"), InWindow(now));
    FilterCongruence(all, InWindow(now), Both(StatusIs("active"), InWindow(now)));
  }
}
