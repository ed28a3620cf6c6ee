/** The user collection, shared by AuthServiceImpl and UserService.
  * Emails and usernames are not unique in general: confirming an account saves the user copy held
  * by the token, which can bring back a deleted user beside a newer one with the same email. So a
  * lookup by email or username may find several documents and returns one of them. */
module UserStore {
  import opened Wrappers
  import opened Domain

  class UserRepository {
    /** Users by id. */
    var users: map<string, User>

    ghost predicate Valid()
      reads this
    {
      forall id :: id in users ==> users[id].id == id
    }

    constructor ()
      ensures Valid() && users == map[]
    {
      users := map[];
    }

    predicate ExistsByEmail(email: string)
      reads this
    {
      exists id :: id in users && users[id].email == email
    }

    predicate ExistsByUsername(username: string)
      reads this
    {
      exists id :: id in users && users[id].username == username
    }

    /** `u` is the stored document under its own id. */
    ghost predicate Stored(u: User)
      reads this
    {
      u.id in users && users[u.id] == u
    }

    /** findByEmail: a stored user with that email, or null when there is none. */
    method FindByEmail(email: string) returns (u: Option<User>)
      requires Valid()
      ensures u.None? <==> !ExistsByEmail(email)
      ensures u.Some? ==> Stored(u.value) && u.value.email == email
    {
      if id :| id in users && users[id].email == email {
        u := Some(users[id]);
      } else {
        u := None;
      }
    }

    /** findByUsername: a stored user with that username, or null when there is none. */
    method FindByUsername(username: string) returns (u: Option<User>)
      requires Valid()
      ensures u.None? <==> !ExistsByUsername(username)
      ensures u.Some? ==> Stored(u.value) && u.value.username == username
    {
      if id :| id in users && users[id].username == username {
        u := Some(users[id]);
      } else {
        u := None;
      }
    }
  }
}
