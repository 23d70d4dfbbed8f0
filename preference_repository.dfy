// UserAlertPreferenceRepository: the preference store's filtered queries over
// its `findAll()` snapshot `all`.
module PreferenceRepository {
  import opened Prelude
  import opened Domain

  predicate IsPair(p: UserAlertPreference, userId: Id, alertId: Id) {
    p.userId == userId && p.alertId == alertId
  }

  /** The predicates the three queries pass to `filter`. */
  function UserIs(userId: Id): UserAlertPreference -> bool {
    (p: UserAlertPreference) => p.userId == userId
  }

  function AlertIs(alertId: Id): UserAlertPreference -> bool {
    (p: UserAlertPreference) => p.alertId == alertId
  }

  function PairIs(userId: Id, alertId: Id): UserAlertPreference -> bool {
    (p: UserAlertPreference) => IsPair(p, userId, alertId)
  }

  function FindByUser(all: seq<UserAlertPreference>, userId: Id): (r: seq<UserAlertPreference>)
    ensures forall p :: p in r <==> p in all && p.userId == userId
    ensures forall p :: multiset(r)[p] == if p.userId == userId then multiset(all)[p] else 0
    ensures SubseqOf(r, all)
  {
    FilterExact(all, UserIs(userId));
    Filter(all, UserIs(userId))
  }

  function FindByAlert(all: seq<UserAlertPreference>, alertId: Id): (r: seq<UserAlertPreference>)
    ensures forall p :: p in r <==> p in all && p.alertId == alertId
    ensures forall p :: multiset(r)[p] == if p.alertId == alertId then multiset(all)[p] else 0
    ensures SubseqOf(r, all)
  {
    FilterExact(all, AlertIs(alertId));
    Filter(all, AlertIs(alertId))
  }

  /** `filter(userId and alertId match)[0]`. */
  function FindByUserAndAlert(all: seq<UserAlertPreference>, userId: Id, alertId: Id): Option<UserAlertPreference> {
    First(all, PairIs(userId, alertId))
  }

  /** The pair lookup is absent iff no row matches both fields, and otherwise
      is the earliest-inserted match. */
  lemma FindByUserAndAlertEarliest(all: seq<UserAlertPreference>, userId: Id, alertId: Id)
    ensures var r := FindByUserAndAlert(all, userId, alertId);
            && (r.None? <==> forall p :: p in all ==> !IsPair(p, userId, alertId))
            && (r.Some? ==>
                  exists i :: 0 <= i < |all| && all[i] == r.value && IsPair(all[i], userId, alertId) &&
                              forall j :: 0 <= j < i ==> !IsPair(all[j], userId, alertId))
  {
    FirstIsEarliest(all, PairIs(userId, alertId));
  }

  /** A pair lookup hit is also found by the user query and the alert query. */
  lemma PairHitInBoth(all: seq<UserAlertPreference>, userId: Id, alertId: Id)
    requires FindByUserAndAlert(all, userId, alertId).Some?
    ensures FindByUserAndAlert(all, userId, alertId).value in FindByUser(all, userId)
    ensures FindByUserAndAlert(all, userId, alertId).value in FindByAlert(all, alertId)
  {
    FindByUserAndAlertEarliest(all, userId, alertId);
    var p := FindByUserAndAlert(all, userId, alertId).value;
    var i :| 0 <= i < |all| && all[i] == p && IsPair(all[i], userId, alertId);
  }

  /** The number of preference rows for one (user, alert) pair. */
  function PairCount(all: seq<UserAlertPreference>, userId: Id, alertId: Id): nat {
    |Filter(all, PairIs(userId, alertId))|
  }

  /** The pair lookup misses exactly when there is no row for the pair. */
  lemma PairCountZero(all: seq<UserAlertPreference>, userId: Id, alertId: Id)
    ensures PairCount(all, userId, alertId) == 0 <==> FindByUserAndAlert(all, userId, alertId).None?
  {
    var f := Filter(all, PairIs(userId, alertId));
    if f != [] {
      assert f[0] in f;
    }
  }
}
