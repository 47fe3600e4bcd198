/** The identity context: one mutable field, the current user, drawn from a fixed user list. */
module UserContext {
  import opened Seqs
  import opened Types

  /** `users.find(u => u.role === role)`. */
  function FirstWithRole(users: seq<User>, role: Role): (r: Option<User>)
    ensures r.None? <==> forall i :: 0 <= i < |users| ==> users[i].role != role
    ensures r.Some? ==> exists i :: 0 <= i < |users| && users[i] == r.value && r.value.role == role
                                    && forall j :: 0 <= j < i ==> users[j].role != role
  {
    Find(users, (u: User) => u.role == role)
  }

  /** The current user after `switchRole(role)`: the first user with that role, or the
      current user unchanged when there is none. */
  function SwitchedUser(users: seq<User>, current: Option<User>, role: Role): Option<User>
  {
    match FirstWithRole(users, role)
    case Some(u) => Some(u)
    case None => current
  }

  /** After a switch, either the current user has the requested role or nothing changed. */
  lemma SwitchedRoleOrUnchanged(users: seq<User>, current: Option<User>, role: Role)
    ensures var r := SwitchedUser(users, current, role);
            (r.Some? && r.value.role == role) || r == current
    ensures (forall i :: 0 <= i < |users| ==> users[i].role != role)
            ==> SwitchedUser(users, current, role) == current
  {
  }

  /** Switching twice to the same role is switching once. */
  lemma SwitchIdempotent(users: seq<User>, current: Option<User>, role: Role)
    ensures var once := SwitchedUser(users, current, role);
            SwitchedUser(users, once, role) == once
  {
  }

  /** The current user is absent or one of the listed users. */
  predicate FromList(users: seq<User>, current: Option<User>)
  {
    current.Some? ==> current.value in users
  }

  /** A switch only ever installs a listed user, so it keeps `FromList`. */
  lemma SwitchKeepsFromList(users: seq<User>, current: Option<User>, role: Role)
    requires FromList(users, current)
    ensures FromList(users, SwitchedUser(users, current, role))
  {
  }

  class UserProvider {
    const users: seq<User>
    var currentUser: Option<User>

    /** Starts with the first user of the list (`undefined` when the list is empty). */
    constructor(users: seq<User>)
      ensures this.users == users
      ensures currentUser == if users == [] then None else Some(users[0])
      ensures FromList(this.users, currentUser)
    {
      this.users := users;
      currentUser := if users == [] then None else Some(users[0]);
    }

    /** `switchRole(role)`. */
    method SwitchRole(role: Role)
      modifies this
      ensures currentUser == SwitchedUser(users, old(currentUser), role)
      ensures FromList(users, old(currentUser)) ==> FromList(users, currentUser)
    {
      var found := FirstWithRole(users, role);
      if found.Some? {
        currentUser := found;
      }
    }

    /** The exposed `setCurrentUser`: installs any value, listed or not. */
    method SetCurrentUser(user: Option<User>)
      modifies this
      ensures currentUser == user
    {
      currentUser := user;
    }
  }
}
