/**
 * The guarded endpoints behind the gate: removing and updating an
 * authentication method, verifying the account's email, and logging in.
 * Each runs a short chain of guards and then changes one store entry. The
 * account `user` is the one the gate attached to the request; `failure`
 * flags stand for the database driver's error results.
 */
module Endpoints {
  import opened Wrappers
  import opened Math
  import opened Accounts
  import opened Store
  import opened Http
  import opened Sessions
  import opened UserAgent
  import opened Gate

  const CannotRemoveLast := "Cannot remove last authentication method"
  const MethodRemoved := "Successfully removed authentication method"
  const MustBePowerOfTwo := "All authentication methods must be a power of two."
  const MethodUpdated := "Successfully updated authentication method"
  const AlreadyVerified := "User is already verified."
  const InvalidCode := "Invalid verification code."
  const UserVerified := "User verified"
  const NoMatch := "Could not find match."
  const NoPassword := "Password authentication is not a viable authentication for this user."

  /** The body of a successful login: the session token and its lifetime. */
  datatype Session = Session(token: string, ttl: nat)

  /**
   * `remove_authentication_method`: a tag failing `is_power_of_two` (as
   * written, so `i16::MIN` passes) is not found; the last method of an
   * account is never removed, even when the request names another tag; a
   * present tag is removed, an absent one is not found.
   */
  method RemoveAuthenticationMethod(db: InMemoryDataProvider, user: FullUser, tag: i16,
                                    readFailure: bool, writeFailure: bool)
    returns (r: Result<string, HttpError>)
    modifies db
    ensures !IsPowerOfTwoAsWritten(tag) ==> r == Err(NotFound) && db.Unchanged()
    ensures IsPowerOfTwoAsWritten(tag) && (readFailure || user.id !in old(db.users)) ==>
              r == Err(InternalServerError(CouldNotGetMethods)) && db.Unchanged()
    ensures IsPowerOfTwoAsWritten(tag) && !readFailure && user.id in old(db.users) ==>
              var methods := old(db.users)[user.id].authentication.Keys;
              (|methods| == 1 ==> r == Err(BadRequest(CannotRemoveLast)) && db.Unchanged()) &&
              (|methods| != 1 && tag !in methods ==> r == Err(NotFound) && db.Unchanged()) &&
              (|methods| != 1 && tag in methods && writeFailure ==>
                 r == Err(InternalServerError(CouldNotRemoveMethod)) && db.Unchanged()) &&
              (|methods| != 1 && tag in methods && !writeFailure ==>
                 r == Ok(MethodRemoved) && db.sessions == old(db.sessions) &&
                 db.users == WithAuthentication(old(db.users), user.id, old(db.users)[user.id].authentication - {tag}))
    ensures r.Err? ==> db.Unchanged()
    ensures db.users.Keys == old(db.users.Keys)
    ensures user.id in old(db.users) && |old(db.users)[user.id].authentication| >= 1 ==>
              |db.users[user.id].authentication| >= 1
    ensures user.id in old(db.users) && AllPowersOfTwo(old(db.users)[user.id].authentication) ==>
              AllPowersOfTwo(db.users[user.id].authentication)
    ensures old(db.Valid()) ==> db.Valid()
  {
    if !IsPowerOfTwoAsWritten(tag) {
      return Err(NotFound);
    }
    var methods := db.GetAuthenticationMethods(user.id, readFailure);
    if methods.Err? {
      return Err(InternalServerError(methods.error));
    }
    if |methods.value| == 1 {
      return Err(BadRequest(CannotRemoveLast));
    }
    if tag in methods.value {
      ghost var before := db.users[user.id].authentication;
      var removed := db.RemoveAuthenticationMethod(user.id, tag, writeFailure);
      if removed.Err? {
        return Err(InternalServerError(removed.error));
      }
      assert |before.Keys| >= 2;
      assert |(before - {tag}).Keys| == |before.Keys| - 1;
      return Ok(MethodRemoved);
    }
    r := Err(NotFound);
  }

  /**
   * `update_authentication_method`: only a tag passing `is_power_of_two`
   * as written is accepted; it then sets that one entry of the account's
   * method map. Tags other than `i16::MIN` keep a map of powers of two one;
   * `i16::MIN` gets through and breaks it.
   */
  method UpdateAuthenticationMethod(db: InMemoryDataProvider, user: FullUser, tag: i16, value: string,
                                    failure: bool)
    returns (r: Result<string, HttpError>)
    modifies db
    ensures !IsPowerOfTwoAsWritten(tag) ==> r == Err(BadRequest(MustBePowerOfTwo)) && db.Unchanged()
    ensures IsPowerOfTwoAsWritten(tag) && failure ==>
              r == Err(InternalServerError(CouldNotUpdateMethod)) && db.Unchanged()
    ensures IsPowerOfTwoAsWritten(tag) && !failure ==> r == Ok(MethodUpdated) && db.sessions == old(db.sessions)
    ensures IsPowerOfTwoAsWritten(tag) && !failure && user.id in old(db.users) ==>
              db.users == WithAuthentication(old(db.users), user.id, old(db.users)[user.id].authentication[tag := value])
    ensures user.id !in old(db.users) ==> db.Unchanged()
    ensures user.id in old(db.users) && AllTagsPass(old(db.users)[user.id].authentication) ==>
              AllTagsPass(db.users[user.id].authentication)
    ensures user.id in old(db.users) && tag != MinI16 && AllPowersOfTwo(old(db.users)[user.id].authentication) ==>
              AllPowersOfTwo(db.users[user.id].authentication)
    ensures user.id in old(db.users) && tag == MinI16 && !failure ==>
              r.Ok? && !AllPowersOfTwo(db.users[user.id].authentication)
    ensures old(db.Valid()) ==> db.Valid()
  {
    CorrectedAgreesElsewhere(tag);
    if !IsPowerOfTwoAsWritten(tag) {
      return Err(BadRequest(MustBePowerOfTwo));
    }
    var res := db.UpdateAuthenticationMethodValue(user.id, tag, value, failure);
    match res {
      case Ok(_) => r := Ok(MethodUpdated);
      case Err(message) => r := Err(InternalServerError(message));
    }
  }

  /**
   * `verify_user`: an account with no pending token is already verified; a
   * code other than the pending token is refused; the matching code clears
   * the token, so the account reads as verified afterwards.
   */
  method VerifyUser(db: InMemoryDataProvider, user: FullUser, code: string, failure: bool)
    returns (r: Result<string, HttpError>)
    modifies db
    ensures user.verificationToken.None? ==> r == Err(BadRequest(AlreadyVerified)) && db.Unchanged()
    ensures user.verificationToken.Some? && code != user.verificationToken.value ==>
              r == Err(Unauthorized(InvalidCode)) && db.Unchanged()
    ensures user.verificationToken == Some(code) && failure ==>
              r == Err(InternalServerError(CouldNotVerify)) && db.Unchanged()
    ensures user.verificationToken == Some(code) && !failure ==>
              r == Ok(UserVerified) && db.sessions == old(db.sessions) &&
              db.users == (if user.id in old(db.users)
                           then old(db.users)[user.id := old(db.users)[user.id].(verificationToken := None)]
                           else old(db.users))
    ensures r.Ok? && user.id in db.users ==>
              forall order :: (forall k :: k in order <==> k in db.users[user.id].authentication) ==>
                ToUser(db.users[user.id], order).verified
    ensures old(db.Valid()) ==> db.Valid()
  {
    if user.verificationToken.None? {
      return Err(BadRequest(AlreadyVerified));
    }
    if code != user.verificationToken.value {
      return Err(Unauthorized(InvalidCode));
    }
    var res := db.VerifyUser(user.id, failure);
    match res {
      case Ok(_) => r := Ok(UserVerified);
      case Err(message) => r := Err(InternalServerError(message));
    }
  }

  /** Some account has `login` as its username. */
  predicate UsernameTaken(users: map<string, FullUser>, login: string) {
    exists id :: id in users && users[id].username == login
  }

  /** u is the account login looks at: by username first, by email only when no username matches. */
  predicate Chosen(users: map<string, FullUser>, login: string, u: FullUser) {
    u in users.Values &&
    if UsernameTaken(users, login) then u.username == login else u.email == login
  }

  /**
   * The login decision once the account u is found: it must have the
   * password method, the password must match (a mismatch reads like an
   * unknown account) and the request must carry a User-Agent header.
   */
  function LoginOutcome(u: FullUser, password: string, userAgent: Option<string>, ip: string,
                        random: string, h: Hasher, passwordMatches: (string, string) -> bool,
                        passwordMethod: i16, ttl: nat): (r: Result<Session, HttpError>)
    ensures r.Ok? <==> passwordMethod in u.authentication &&
                       passwordMatches(u.authentication[passwordMethod], password) && userAgent.Some?
    ensures r.Ok? ==> r.value == Session(GenerateBrowserSession(ip, ParseUserAgent(userAgent.value), random, h), ttl)
    ensures passwordMethod !in u.authentication ==> r == Err(BadRequest(NoPassword))
    ensures passwordMethod in u.authentication && !passwordMatches(u.authentication[passwordMethod], password) ==>
              r == Err(Unauthorized(NoMatch))
    ensures (passwordMethod in u.authentication && passwordMatches(u.authentication[passwordMethod], password) &&
             userAgent.None?) ==> r == Err(BadRequest(NoUserAgent))
  {
    if passwordMethod !in u.authentication then Err(BadRequest(NoPassword))
    else if !passwordMatches(u.authentication[passwordMethod], password) then Err(Unauthorized(NoMatch))
    else match CreateBrowserSession(userAgent, ip, random, h)
      case Err(e) => Err(e)
      case Ok(token) => Ok(Session(token, ttl))
  }

  /**
   * `add_login`. `passwordMatches(hash, password)` stands for argon2's
   * `verify_encoded`, `passwordMethod` for the password tag and `ttl` for
   * the session lifetime. Only success changes a store: it files the new
   * token under the account's id.
   */
  method AddLogin(db: InMemoryDataProvider, login: string, password: string, userAgent: Option<string>,
                  ip: string, random: string, h: Hasher, passwordMatches: (string, string) -> bool,
                  passwordMethod: i16, ttl: nat)
    returns (r: Result<Session, HttpError>)
    modifies db
    ensures (forall u :: !Chosen(old(db.users), login, u)) ==> r == Err(Unauthorized(NoMatch))
    ensures r.Ok? ==> exists u :: Chosen(old(db.users), login, u) &&
                       r == LoginOutcome(u, password, userAgent, ip, random, h, passwordMatches, passwordMethod, ttl) &&
                       db.sessions == old(db.sessions)[r.value.token := u.id]
    ensures old(db.Valid()) ==>
              forall u :: Chosen(old(db.users), login, u) ==>
                r == LoginOutcome(u, password, userAgent, ip, random, h, passwordMatches, passwordMethod, ttl)
    ensures r.Err? ==> db.Unchanged()
    ensures db.users == old(db.users)
  {
    var user := db.GetUserByUsername(login);
    if user.None? {
      user := db.GetUserByEmail(login);
    }
    if user.None? {
      return Err(Unauthorized(NoMatch));
    }
    var u := user.value;
    assert Chosen(db.users, login, u);
    ghost var users := db.users;
    forall v | Chosen(users, login, v) && db.Valid() ensures v == u {
      var id :| id in users && users[id] == v;
    }
    if passwordMethod !in u.authentication {
      return Err(BadRequest(NoPassword));
    }
    if !passwordMatches(u.authentication[passwordMethod], password) {
      return Err(Unauthorized(NoMatch));
    }
    var token := CreateBrowserSession(userAgent, ip, random, h);
    if token.Err? {
      return Err(token.error);
    }
    var _ := db.Set(token.value, u.id);
    r := Ok(Session(token.value, ttl));
  }

  /**
   * End to end: a login that succeeds, followed by a request from the same
   * address with the same User-Agent header presenting the new token,
   * passes the gate as the account that logged in and deletes no session.
   */
  lemma LoginThenAuthenticate(sessions: map<string, string>, users: map<string, FullUser>, u: FullUser,
                              password: string, userAgent: Option<string>, ip: string, random: string,
                              h: Hasher, passwordMatches: (string, string) -> bool, passwordMethod: i16, ttl: nat)
    requires '.' !in random && u.id in users
    requires passwordMethod in u.authentication && passwordMatches(u.authentication[passwordMethod], password)
    requires userAgent.Some?
    ensures var token := LoginOutcome(u, password, userAgent, ip, random, h, passwordMatches, passwordMethod, ttl).value.token;
            GateOutcome(sessions[token := u.id], users, Some(token), userAgent, ip, h) == Forward(users[u.id]) &&
            !TheftDetected(sessions[token := u.id], Some(token), userAgent, ip, h)
  {
    FreshTokenMatches(ip, ParseUserAgent(userAgent.value), random, h);
  }
}
