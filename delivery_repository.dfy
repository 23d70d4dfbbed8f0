// NotificationDeliveryRepository: the delivery-record store's filtered queries
// over its `findAll()` snapshot `all`.
module DeliveryRepository {
  import opened Prelude
  import opened Domain

  /** The predicates the two queries pass to `filter`. */
  function UserIs(userId: Id): NotificationDelivery -> bool {
    (d: NotificationDelivery) => d.userId == userId
  }

  function AlertIs(alertId: Id): NotificationDelivery -> bool {
    (d: NotificationDelivery) => d.alertId == alertId
  }

  function FindByUser(all: seq<NotificationDelivery>, userId: Id): (r: seq<NotificationDelivery>)
    ensures forall d :: d in r <==> d in all && d.userId == userId
    ensures forall d :: multiset(r)[d] == if d.userId == userId then multiset(all)[d] else 0
    ensures SubseqOf(r, all)
  {
    FilterExact(all, UserIs(userId));
    Filter(all, UserIs(userId))
  }

  function FindByAlert(all: seq<NotificationDelivery>, alertId: Id): (r: seq<NotificationDelivery>)
    ensures forall d :: d in r <==> d in all && d.alertId == alertId
    ensures forall d :: multiset(r)[d] == if d.alertId == alertId then multiset(all)[d] else 0
    ensures SubseqOf(r, all)
  {
    FilterExact(all, AlertIs(alertId));
    Filter(all, AlertIs(alertId))
  }

  /** Every stored record is found both by its user and by its alert. */
  lemma EveryRecordIndexed(all: seq<NotificationDelivery>, i: nat)
    requires i < |all|
    ensures all[i] in FindByUser(all, all[i].userId)
    ensures all[i] in FindByAlert(all, all[i].alertId)
  {
  }
}
