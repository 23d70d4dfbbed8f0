// UserRepository: the user store's filtered queries over its `findAll()`
// snapshot `all`.
module UserRepository {
  import opened Prelude
  import opened Domain

  /** The predicates the three queries pass to `filter`. */
  function EmailIs(email: string): User -> bool {
    (u: User) => u.email == email
  }

  function RoleIs(role: string): User -> bool {
    (u: User) => RoleName(u.role) == role
  }

  function TeamIs(teamId: Id): User -> bool {
    (u: User) => u.teamId == Some(teamId)
  }

  /** `filter(email matches)[0]`: the earliest-inserted user with that email. */
  function FindByEmail(all: seq<User>, email: string): (r: Option<User>)
    ensures r.None? <==> forall u :: u in all ==> u.email != email
    ensures r.Some? ==>
              exists i :: 0 <= i < |all| && all[i] == r.value && all[i].email == email &&
                          forall j :: 0 <= j < i ==> all[j].email != email
  {
    FirstIsEarliest(all, EmailIs(email));
    First(all, EmailIs(email))
  }

  function FindByRole(all: seq<User>, role: string): (r: seq<User>)
    ensures forall u :: u in r <==> u in all && RoleName(u.role) == role
    ensures forall u :: multiset(r)[u] == if RoleName(u.role) == role then multiset(all)[u] else 0
    ensures SubseqOf(r, all)
  {
    FilterExact(all, RoleIs(role));
    Filter(all, RoleIs(role))
  }

  /** `user.teamId === teamId` with a string argument: a user without a team
      never matches. */
  function FindByTeam(all: seq<User>, teamId: Id): (r: seq<User>)
    ensures forall u :: u in r <==> u in all && u.teamId == Some(teamId)
    ensures forall u :: multiset(r)[u] == if u.teamId == Some(teamId) then multiset(all)[u] else 0
    ensures forall u :: u in r ==> u.teamId.Some?
    ensures SubseqOf(r, all)
  {
    FilterExact(all, TeamIs(teamId));
    Filter(all, TeamIs(teamId))
  }
}
