/**
 * The storage backend: the in-memory provider, whose `users` and
 * `sessions` maps are updated in place, extended with the operations the
 * endpoints and the gate call on the persistent and temporary stores.
 * Those extra operations take their meaning from the database queries
 * they stand for (clear the verification token, set or delete one entry
 * of the authentication map, drop a session key); `failure` stands for
 * the database driver's error result.
 */
module Store {
  import opened Wrappers
  import opened Math
  import opened Accounts

  const UserAlreadyExists := "User already exists"
  const EmailAlreadyExists := "Email already exists"
  const UserDoesNotExist := "User does not exist"
  const CouldNotVerify := "Could not verify user!"
  const CouldNotGetMethods := "Could not get authentication methods!"
  const CouldNotUpdateMethod := "Could not update authentication method value!"
  const CouldNotRemoveMethod := "Could not remove authentication method!"

  /** The user filed under `id` with its authentication map changed. */
  function WithAuthentication(users: map<string, FullUser>, id: string, auth: map<i16, string>): (r: map<string, FullUser>)
    requires id in users
    ensures r.Keys == users.Keys
    ensures r[id].authentication == auth
    ensures r[id] == users[id].(authentication := auth)
    ensures forall other :: other in users && other != id ==> r[other] == users[other]
  {
    users[id := users[id].(authentication := auth)]
  }

  class InMemoryDataProvider {
    /** Accounts by the canonical text of their UUID. */
    var users: map<string, FullUser>
    /** Session token to owner id. */
    var sessions: map<string, string>

    /** Accounts are filed under their own id, and no two share a username or an email. */
    ghost predicate Valid()
      reads this
    {
      (forall id :: id in users ==> users[id].id == id) &&
      (forall a, b :: a in users && b in users && a != b ==>
         users[a].username != users[b].username && users[a].email != users[b].email)
    }

    /** Neither map changed since the start of the calling method. */
    twostate predicate Unchanged()
      reads this
    {
      users == old(users) && sessions == old(sessions)
    }

    /** `InMemoryDataProvider::new`: both maps empty. */
    constructor ()
      ensures users == map[] && sessions == map[]
      ensures Valid()
      ensures forall key :: Get(key) == None
    {
      users := map[];
      sessions := map[];
    }

    /** Some stored account has this username. */
    predicate DoesUsernameExist(username: string)
      reads this
    {
      exists id :: id in users && users[id].username == username
    }

    /** Some stored account has this email. */
    predicate DoesEmailExist(email: string)
      reads this
    {
      exists id :: id in users && users[id].email == email
    }

    /**
     * `register_user`: refuses a taken username, then a taken email;
     * otherwise files the account under its id, replacing any account
     * already filed there.
     */
    method RegisterUser(user: FullUser) returns (r: Result<(), string>)
      modifies this
      ensures old(DoesUsernameExist(user.username)) ==>
                r == Err(UserAlreadyExists) && users == old(users)
      ensures !old(DoesUsernameExist(user.username)) && old(DoesEmailExist(user.email)) ==>
                r == Err(EmailAlreadyExists) && users == old(users)
      ensures !old(DoesUsernameExist(user.username)) && !old(DoesEmailExist(user.email)) ==>
                r == Ok(()) && users == old(users)[user.id := user]
      ensures r.Ok? ==> DoesUsernameExist(user.username) && DoesEmailExist(user.email)
      ensures sessions == old(sessions)
      ensures old(Valid()) ==> Valid()
    {
      if DoesUsernameExist(user.username) {
        return Err(UserAlreadyExists);
      } else if DoesEmailExist(user.email) {
        return Err(EmailAlreadyExists);
      }
      users := users[user.id := user];
      r := Ok(());
      assert users[user.id] == user;
    }

    /** `get_user_by_id`. */
    function GetUserById(id: string): (r: Option<FullUser>)
      reads this
      ensures r.Some? <==> id in users
      ensures r.Some? ==> r.value == users[id]
    {
      if id in users then Some(users[id]) else None
    }

    /** `delete_user`: an unknown id is an error; a known one is removed, and nothing else. */
    method DeleteUser(id: string) returns (r: Result<(), string>)
      modifies this
      ensures id !in old(users) ==> r == Err(UserDoesNotExist) && users == old(users)
      ensures id in old(users) ==> r == Ok(()) && users == old(users) - {id}
      ensures sessions == old(sessions)
      ensures old(Valid()) ==> Valid()
    {
      var user := GetUserById(id);
      match user {
        case Some(_) =>
          users := users - {id};
          r := Ok(());
        case None =>
          r := Err(UserDoesNotExist);
      }
    }

    /** The account with this username, as `... WHERE username = ? LIMIT 1` finds it. */
    method GetUserByUsername(username: string) returns (r: Option<FullUser>)
      ensures r.Some? <==> DoesUsernameExist(username)
      ensures r.Some? ==> r.value.username == username && r.value in users.Values
      ensures r.Some? && Valid() ==>
                forall id :: id in users && users[id].username == username ==> users[id] == r.value
    {
      if DoesUsernameExist(username) {
        var id :| id in users && users[id].username == username;
        r := Some(users[id]);
      } else {
        r := None;
      }
    }

    /** The account with this email, as `... WHERE email = ? LIMIT 1` finds it. */
    method GetUserByEmail(email: string) returns (r: Option<FullUser>)
      ensures r.Some? <==> DoesEmailExist(email)
      ensures r.Some? ==> r.value.email == email && r.value in users.Values
      ensures r.Some? && Valid() ==>
                forall id :: id in users && users[id].email == email ==> users[id] == r.value
    {
      if DoesEmailExist(email) {
        var id :| id in users && users[id].email == email;
        r := Some(users[id]);
      } else {
        r := None;
      }
    }

    /** `verify_user`: `SET verification_token = null WHERE id = ?`. */
    method VerifyUser(id: string, failure: bool) returns (r: Result<(), string>)
      modifies this
      ensures failure ==> r == Err(CouldNotVerify) && users == old(users)
      ensures !failure ==> r == Ok(())
      ensures !failure && id in old(users) ==>
                users == old(users)[id := old(users)[id].(verificationToken := None)]
      ensures !failure && id !in old(users) ==> users == old(users)
      ensures sessions == old(sessions)
      ensures old(Valid()) ==> Valid()
    {
      if failure {
        return Err(CouldNotVerify);
      }
      if id in users {
        users := users[id := users[id].(verificationToken := None)];
      }
      r := Ok(());
    }

    /** `get_authentication_methods`: the keys of the account's method map. */
    method GetAuthenticationMethods(id: string, failure: bool) returns (r: Result<set<i16>, string>)
      ensures failure || id !in users ==> r == Err(CouldNotGetMethods)
      ensures !failure && id in users ==> r == Ok(users[id].authentication.Keys)
    {
      if failure || id !in users {
        return Err(CouldNotGetMethods);
      }
      r := Ok(users[id].authentication.Keys);
    }

    /** `update_authentication_method_value`: `SET authentication[tag] = value WHERE id = ?`. */
    method UpdateAuthenticationMethodValue(id: string, tag: i16, value: string, failure: bool)
      returns (r: Result<(), string>)
      modifies this
      ensures failure ==> r == Err(CouldNotUpdateMethod) && users == old(users)
      ensures !failure ==> r == Ok(())
      ensures !failure && id in old(users) ==>
                users == WithAuthentication(old(users), id, old(users)[id].authentication[tag := value])
      ensures !failure && id !in old(users) ==> users == old(users)
      ensures sessions == old(sessions)
      ensures old(Valid()) ==> Valid()
    {
      if failure {
        return Err(CouldNotUpdateMethod);
      }
      if id in users {
        users := WithAuthentication(users, id, users[id].authentication[tag := value]);
      }
      r := Ok(());
    }

    /** `remove_authentication_method`: `DELETE authentication[tag] ... WHERE id = ?`. */
    method RemoveAuthenticationMethod(id: string, tag: i16, failure: bool) returns (r: Result<(), string>)
      modifies this
      ensures failure ==> r == Err(CouldNotRemoveMethod) && users == old(users)
      ensures !failure ==> r == Ok(())
      ensures !failure && id in old(users) ==>
                users == WithAuthentication(old(users), id, old(users)[id].authentication - {tag})
      ensures !failure && id !in old(users) ==> users == old(users)
      ensures sessions == old(sessions)
      ensures old(Valid()) ==> Valid()
    {
      if failure {
        return Err(CouldNotRemoveMethod);
      }
      if id in users {
        users := WithAuthentication(users, id, users[id].authentication - {tag});
      }
      r := Ok(());
    }

    /** `get` on the session store. */
    function Get(key: string): (r: Option<string>)
      reads this
      ensures r.Some? <==> key in sessions
      ensures r.Some? ==> r.value == sessions[key]
    {
      if key in sessions then Some(sessions[key]) else None
    }

    /** `set`: always succeeds, replacing any earlier value. */
    method Set(key: string, value: string) returns (r: bool)
      modifies this
      ensures r
      ensures sessions == old(sessions)[key := value]
      ensures Get(key) == Some(value)
      ensures forall other :: other != key ==> Get(other) == old(Get(other))
      ensures users == old(users)
    {
      sessions := sessions[key := value];
      r := true;
    }

    /** `delete` on the session store: drops this one key. */
    method Delete(key: string) returns (r: bool)
      modifies this
      ensures r
      ensures sessions == old(sessions) - {key}
      ensures Get(key) == None
      ensures users == old(users)
    {
      sessions := sessions - {key};
      r := true;
    }

    /** `drop_all` on the session store: drops every key whose value is `owner`. */
    method DropAll(owner: string) returns (r: bool)
      modifies this
      ensures r
      ensures sessions == map k | k in old(sessions) && old(sessions)[k] != owner :: old(sessions)[k]
      ensures forall k :: k in sessions ==> sessions[k] != owner
      ensures users == old(users)
    {
      sessions := map k | k in sessions && sessions[k] != owner :: sessions[k];
      r := true;
    }
  }
}
