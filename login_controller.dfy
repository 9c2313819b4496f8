/** The `/login` handler: look the user up by e-mail, verify the password, issue a token. */
module LoginController {
  import opened Wrappers
  import opened Http
  import Models
  import Auth
  import Strconv
  import Tables
  import RepositoryUser

  /**
   * `u` is a value `SearchEmail` may return for `email`: the id and digest of
   * a user with that e-mail, or the zero user when there is none.
   */
  predicate Found(users: map<nat, Tables.UserRow>, email: string, u: Models.UserData) {
    || (u.id in users && users[u.id].email == email && u == Models.ZeroUser.(id := u.id, password := users[u.id].password))
    || (u == Models.ZeroUser && forall id :: id in users ==> users[id].email != email)
  }

  /** The token `CreateToken` issues for `id` at the environment's clock. */
  function IssuedFor(env: Env, id: nat): string {
    env.auth.jwt.sign(Auth.HS256, Auth.IssuedClaims(id, env.now), env.auth.secretKey)
  }

  /**
   * `Login`: a token is written only after the stored digest of the user found
   * by e-mail verified the submitted password, and it names that user.
   */
  method Login(db: Tables.Database, env: Env, body: Body<Models.UserData>) returns (resp: Response<string>)
    ensures body.readError.Some? ==> resp == Failure(StatusUnprocessableEntity, body.readError.value)
    ensures body.readError.None? && body.decoded.Err? ==> resp == Failure(StatusBadRequest, body.decoded.error)
    ensures body.readError.None? && body.decoded.Ok? && env.connectError.Some? ==>
              resp == Failure(StatusInternalServerError, env.connectError.value)
    ensures resp.Success? ==>
              var user := body.decoded.value;
              && body.readError.None? && body.decoded.Ok? && env.connectError.None?
              && resp.status == StatusOK && resp.value.Some?
              && exists u :: Found(db.users, user.email, u)
                             && env.bcrypt.Matches(u.password, user.password)
                             && resp.value.value == IssuedFor(env, u.id)
    ensures body.readError.None? && body.decoded.Ok? && env.connectError.None?
            && (forall u :: Found(db.users, body.decoded.value.email, u) ==>
                  !env.bcrypt.Matches(u.password, body.decoded.value.password)) ==>
              resp.Failure? && resp.status == StatusUnauthorized
    ensures body.readError.None? && body.decoded.Ok? && env.connectError.None?
            && (forall u :: Found(db.users, body.decoded.value.email, u) ==>
                  env.bcrypt.Matches(u.password, body.decoded.value.password)) ==>
              resp.Success?
  {
    if body.readError.Some? {
      return Failure(StatusUnprocessableEntity, body.readError.value);
    }
    if body.decoded.Err? {
      return Failure(StatusBadRequest, body.decoded.error);
    }
    var user := body.decoded.value;
    if env.connectError.Some? {
      return Failure(StatusInternalServerError, env.connectError.value);
    }
    var repo := new RepositoryUser.User(db);
    var userInDatabase := repo.SearchEmail(user.email);
    assert Found(db.users, user.email, userInDatabase);
    var mismatch := env.bcrypt.verify(userInDatabase.password, user.password);
    if mismatch.Some? {
      return Failure(StatusUnauthorized, mismatch.value);
    }
    var token := Auth.CreateToken(env.auth, userInDatabase.id, env.now);
    resp := Success(StatusOK, Some(token));
    assert token == IssuedFor(env, userInDatabase.id);
  }

  /**
   * The token `Login` writes, sent back as `Bearer <token>` within its six
   * hours, names the user who logged in.
   */
  lemma LoginTokenNamesUser(env: Env, id: nat, now: int)
    requires env.auth.jwt.Sound() && id <= Strconv.MaxUint(64)
    requires env.now <= now <= env.now + Auth.ValidFor
    ensures Auth.ExtractUserID(env.auth, "Bearer " + IssuedFor(env, id), now) == Ok(id)
  {
    Auth.IssueExtractRoundTrip(env.auth, id, env.now, now, "Bearer");
    assert "Bearer " + IssuedFor(env, id) == "Bearer" + " " + IssuedFor(env, id);
  }

  /** An e-mail no user has is turned away whenever bcrypt rejects the empty digest. */
  method LoginUnknownEmail(db: Tables.Database, env: Env, body: Body<Models.UserData>) returns (resp: Response<string>)
    requires env.bcrypt.RejectsEmptyDigest()
    requires body.readError.None? && body.decoded.Ok? && env.connectError.None?
    requires forall id :: id in db.users ==> db.users[id].email != body.decoded.value.email
    ensures resp.Failure? && resp.status == StatusUnauthorized
  {
    assert forall u :: Found(db.users, body.decoded.value.email, u) ==> u == Models.ZeroUser;
    assert !env.bcrypt.Matches(Models.ZeroUser.password, body.decoded.value.password);
    resp := Login(db, env, body);
  }
}
