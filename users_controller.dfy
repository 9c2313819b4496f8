/**
 * The handlers of `/usuarios`: each is a sequence of checks, every one of
 * which may end the request with an error status, followed by at most one
 * change to the store. Every failure leaves the store as it was.
 */
module UsersController {
  import opened Wrappers
  import opened Http
  import Models
  import GoStrings
  import Tables
  import RepositoryUser
  import Strconv

  // The ownership messages, as the source spells them (its non-ASCII letters read as `??`).
  const CannotUpdateOtherUser: string := "n??o ?? possivel atualizar um usu??rio que n??o seja o seu"
  const CannotDeleteOtherUser: string := "n??o ?? possivel deletar um usuario que n??o seja seu"
  const CannotFollowSelf: string := "n??o ?? possivel seguir voc?? mesmo"
  const CannotStopFollowingSelf: string := "n??o ?? possivel parar de seguir voc?? mesmo"
  const CannotUpdateOtherPassword: string := "\n\t\t\tN??o ?? possivel atualizar a senha de outro usu??rio\n\t\t"
  const WrongCurrentPassword: string := "\n\t\ta senha atual n??o condiz com a que est?? salva no banco\n\t\t"

  /** The digest `SearchPassword` finds for `id`: the stored one, or `""` for a missing user. */
  function StoredPassword(users: map<nat, Tables.UserRow>, id: nat): string {
    if id in users then users[id].password else ""
  }

  /**
   * `CreateUser`: read and decode the body, prepare it for registration, then
   * insert it. The response is the prepared user with its new id (and with the
   * stored digest in its password field).
   */
  method CreateUser(db: Tables.Database, env: Env, body: Body<Models.UserData>) returns (resp: Response<Models.UserData>)
    requires db.Valid()
    modifies db
    ensures db.Valid()
    ensures resp.Failure? ==> unchanged(db)
    ensures body.readError.Some? ==> resp == Failure(StatusUnprocessableEntity, body.readError.value)
    ensures body.readError.None? && body.decoded.Err? ==> resp == Failure(StatusBadRequest, body.decoded.error)
    ensures body.readError.None? && body.decoded.Ok? ==>
              var prepared := Models.UserPrepared(body.decoded.value, Models.Registration, env.isEmail, env.bcrypt);
              if prepared.error.Some? then resp == Failure(StatusBadRequest, prepared.error.value)
              else if env.connectError.Some? then resp == Failure(StatusInternalServerError, env.connectError.value)
              else
                var id := old(db.nextUserId);
                var u := prepared.value;
                && resp == Success(StatusCreated, Some(u.(id := id)))
                && db.users == old(db.users)[id := Tables.UserRow(u.name, u.nick, u.email, u.password, env.now)]
                && db.followers == old(db.followers) && db.publications == old(db.publications)
                && db.nextUserId == id + 1 && db.nextPublicationId == old(db.nextPublicationId)
    ensures resp.Success? && env.bcrypt.RoundTrip() ==>
              var id := resp.value.value.id;
              id in db.users && env.bcrypt.Matches(db.users[id].password, body.decoded.value.password)
  {
    if body.readError.Some? {
      return Failure(StatusUnprocessableEntity, body.readError.value);
    }
    if body.decoded.Err? {
      return Failure(StatusBadRequest, body.decoded.error);
    }
    ghost var prepared := Models.UserPrepared(body.decoded.value, Models.Registration, env.isEmail, env.bcrypt);
    var user := new Models.User(body.decoded.value);
    var err := user.Prepare(Models.Registration, env.isEmail, env.bcrypt);
    assert user.Data() == prepared.value && err == prepared.error;
    if err.Some? {
      return Failure(StatusBadRequest, err.value);
    }
    if env.connectError.Some? {
      return Failure(StatusInternalServerError, env.connectError.value);
    }
    var repo := new RepositoryUser.User(db);
    var id := repo.CreateUser(user.Data(), env.now);
    user.id := id;
    assert user.Data() == prepared.value.(id := id);
    resp := Success(StatusCreated, Some(user.Data()));
    if env.bcrypt.RoundTrip() {
      Models.RegisteredPasswordVerifies(body.decoded.value, env.isEmail, env.bcrypt);
    }
  }

  /** `SearchUsers`: the users whose name or nick contains the lower-cased `usuario` query value. */
  method SearchUsers(db: Tables.Database, env: Env, usuario: string) returns (resp: Response<seq<Models.UserData>>)
    ensures env.connectError.Some? ==> resp == Failure(StatusInternalServerError, env.connectError.value)
    ensures env.connectError.None? ==> resp.Success? && resp.status == StatusOK && resp.value.Some?
    ensures resp.Success? ==>
              var q := GoStrings.ToLower(usuario);
              && (forall u :: u in resp.value.value <==>
                    u.id in db.users && RepositoryUser.MatchesNameOrNick(db.users[u.id], q)
                    && u == Tables.PublicUser(u.id, db.users[u.id]))
              && (forall u :: u in resp.value.value ==> u.password == "")
  {
    var nameOrNick := GoStrings.ToLower(usuario);
    if env.connectError.Some? {
      return Failure(StatusInternalServerError, env.connectError.value);
    }
    var repo := new RepositoryUser.User(db);
    var users := repo.SearchUsers(nameOrNick);
    resp := Success(StatusOK, Some(users));
  }

  /**
   * `SearchUser`: the id is parsed with bit size 32, so a path id above
   * 2^32 - 1 is a bad request here although it parses elsewhere.
   */
  method SearchUser(db: Tables.Database, env: Env, usuarioId: string) returns (resp: Response<Models.UserData>)
    ensures PathId(usuarioId, 32).Err? ==> resp == Failure(StatusBadRequest, PathId(usuarioId, 32).error)
    ensures PathId(usuarioId, 32).Ok? && env.connectError.Some? ==>
              resp == Failure(StatusInternalServerError, env.connectError.value)
    ensures PathId(usuarioId, 32).Ok? && env.connectError.None? ==>
              var id := PathId(usuarioId, 32).value;
              resp == Success(StatusOK, Some(if id in db.users then Tables.PublicUser(id, db.users[id]) else Models.ZeroUser))
  {
    var userID := PathId(usuarioId, 32);
    if userID.Err? {
      return Failure(StatusBadRequest, userID.error);
    }
    if env.connectError.Some? {
      return Failure(StatusInternalServerError, env.connectError.value);
    }
    var repo := new RepositoryUser.User(db);
    var user := repo.SearchUserByID(userID.value);
    resp := Success(StatusOK, Some(user));
  }

  /** A decimal id that needs more than 32 bits is refused by `SearchUser` before the store is consulted. */
  method SearchUserWideId(db: Tables.Database, env: Env, id: nat) returns (resp: Response<Models.UserData>)
    requires Strconv.MaxUint(32) < id <= Strconv.MaxUint(64)
    ensures resp == Failure(StatusBadRequest, Strconv.ErrorText(Strconv.FormatUint(id), Strconv.ErrRange))
  {
    Strconv.WideIdentifier(id);
    resp := SearchUser(db, env, Strconv.FormatUint(id));
  }

  /**
   * `UpdateUser`: path id (400), then token (401), then ownership (403), all
   * before the body is read; name, nick and email are then replaced by the
   * values prepared for the edition stage.
   */
  method UpdateUser(db: Tables.Database, env: Env, req: Request<Models.UserData>) returns (resp: Response<Models.UserData>)
    requires db.Valid()
    modifies db
    ensures db.Valid()
    ensures resp.Failure? ==> unchanged(db)
    ensures PathId(req.param, 64).Err? ==> resp == Failure(StatusBadRequest, PathId(req.param, 64).error)
    ensures PathId(req.param, 64).Ok? && req.caller.Err? ==>
              resp == Failure(StatusUnauthorized, req.caller.error)
    ensures PathId(req.param, 64).Ok? && req.caller.Ok?
            && req.caller.value != PathId(req.param, 64).value ==>
              resp == Failure(StatusForbidden, CannotUpdateOtherUser)
    ensures PathId(req.param, 64).Ok? && req.caller == PathId(req.param, 64) ==>
              var id := PathId(req.param, 64).value;
              if req.body.readError.Some? then resp == Failure(StatusUnprocessableEntity, req.body.readError.value)
              else if req.body.decoded.Err? then resp == Failure(StatusBadRequest, req.body.decoded.error)
              else
                var prepared := Models.UserPrepared(req.body.decoded.value, Models.Edition, env.isEmail, env.bcrypt);
                if prepared.error.Some? then resp == Failure(StatusBadRequest, prepared.error.value)
                else if env.connectError.Some? then resp == Failure(StatusInternalServerError, env.connectError.value)
                else
                  && resp == Success(StatusNoContent, None)
                  && db.users == (if id in old(db.users)
                                  then old(db.users)[id := old(db.users)[id].(name := prepared.value.name,
                                                                             nick := prepared.value.nick,
                                                                             email := prepared.value.email)]
                                  else old(db.users))
                  && db.followers == old(db.followers) && db.publications == old(db.publications)
                  && db.nextUserId == old(db.nextUserId) && db.nextPublicationId == old(db.nextPublicationId)
  {
    var userID := PathId(req.param, 64);
    if userID.Err? {
      return Failure(StatusBadRequest, userID.error);
    }
    var userIDInToken := req.caller;
    if userIDInToken.Err? {
      return Failure(StatusUnauthorized, userIDInToken.error);
    }
    if userIDInToken.value != userID.value {
      return Failure(StatusForbidden, CannotUpdateOtherUser);
    }
    if req.body.readError.Some? {
      return Failure(StatusUnprocessableEntity, req.body.readError.value);
    }
    if req.body.decoded.Err? {
      return Failure(StatusBadRequest, req.body.decoded.error);
    }
    ghost var prepared := Models.UserPrepared(req.body.decoded.value, Models.Edition, env.isEmail, env.bcrypt);
    var user := new Models.User(req.body.decoded.value);
    var err := user.Prepare(Models.Edition, env.isEmail, env.bcrypt);
    assert user.Data() == prepared.value && err == prepared.error;
    if err.Some? {
      return Failure(StatusBadRequest, err.value);
    }
    if env.connectError.Some? {
      return Failure(StatusInternalServerError, env.connectError.value);
    }
    var repo := new RepositoryUser.User(db);
    repo.UpdateUser(userID.value, user.Data());
    resp := Success(StatusNoContent, None);
  }

  /** `DeleteUser`: path id (400), token (401), ownership (403), then the row is removed. */
  method DeleteUser(db: Tables.Database, env: Env, caller: Result<nat, string>, usuarioId: string) returns (resp: Response<Models.UserData>)
    requires db.Valid()
    modifies db
    ensures db.Valid()
    ensures resp.Failure? ==> unchanged(db)
    ensures PathId(usuarioId, 64).Err? ==> resp == Failure(StatusBadRequest, PathId(usuarioId, 64).error)
    ensures PathId(usuarioId, 64).Ok? && caller.Err? ==>
              resp == Failure(StatusUnauthorized, caller.error)
    ensures PathId(usuarioId, 64).Ok? && caller.Ok?
            && caller.value != PathId(usuarioId, 64).value ==>
              resp == Failure(StatusForbidden, CannotDeleteOtherUser)
    ensures caller == PathId(usuarioId, 64) && PathId(usuarioId, 64).Ok? ==>
              if env.connectError.Some? then resp == Failure(StatusInternalServerError, env.connectError.value)
              else
                && resp == Success(StatusNoContent, None)
                && db.users == old(db.users) - {PathId(usuarioId, 64).value}
                && db.followers == old(db.followers) && db.publications == old(db.publications)
                && db.nextUserId == old(db.nextUserId) && db.nextPublicationId == old(db.nextPublicationId)
  {
    var userID := PathId(usuarioId, 64);
    if userID.Err? {
      return Failure(StatusBadRequest, userID.error);
    }
    var userIDInToken := caller;
    if userIDInToken.Err? {
      return Failure(StatusUnauthorized, userIDInToken.error);
    }
    if userID.value != userIDInToken.value {
      return Failure(StatusForbidden, CannotDeleteOtherUser);
    }
    if env.connectError.Some? {
      return Failure(StatusInternalServerError, env.connectError.value);
    }
    var repo := new RepositoryUser.User(db);
    repo.DeleteUser(userID.value);
    resp := Success(StatusNoContent, None);
  }

  /**
   * `FollowUser`: token (401), then path id (400), then the self-follow check
   * (403); the caller is recorded as a follower of the path user.
   */
  method FollowUser(db: Tables.Database, env: Env, caller: Result<nat, string>, usuarioId: string) returns (resp: Response<Models.UserData>)
    requires db.Valid()
    modifies db
    ensures db.Valid()
    ensures resp.Failure? ==> unchanged(db)
    ensures caller.Err? ==>
              resp == Failure(StatusUnauthorized, caller.error)
    ensures caller.Ok? && PathId(usuarioId, 64).Err? ==>
              resp == Failure(StatusBadRequest, PathId(usuarioId, 64).error)
    ensures caller == PathId(usuarioId, 64) && PathId(usuarioId, 64).Ok? ==>
              resp == Failure(StatusForbidden, CannotFollowSelf)
    ensures caller.Ok? && PathId(usuarioId, 64).Ok?
            && caller.value != PathId(usuarioId, 64).value ==>
              if env.connectError.Some? then resp == Failure(StatusInternalServerError, env.connectError.value)
              else
                && resp == Success(StatusCreated, None)
                && db.followers == old(db.followers) +
                     {(PathId(usuarioId, 64).value, caller.value)}
                && db.users == old(db.users) && db.publications == old(db.publications)
                && db.nextUserId == old(db.nextUserId) && db.nextPublicationId == old(db.nextPublicationId)
  {
    var followerID := caller;
    if followerID.Err? {
      return Failure(StatusUnauthorized, followerID.error);
    }
    var userID := PathId(usuarioId, 64);
    if userID.Err? {
      return Failure(StatusBadRequest, userID.error);
    }
    if followerID.value == userID.value {
      return Failure(StatusForbidden, CannotFollowSelf);
    }
    if env.connectError.Some? {
      return Failure(StatusInternalServerError, env.connectError.value);
    }
    var repo := new RepositoryUser.User(db);
    repo.Follow(userID.value, followerID.value);
    resp := Success(StatusCreated, None);
  }

  /** `StopFollowingUser`: the same checks as `FollowUser`, then the pair is removed. */
  method StopFollowingUser(db: Tables.Database, env: Env, caller: Result<nat, string>, usuarioId: string) returns (resp: Response<Models.UserData>)
    requires db.Valid()
    modifies db
    ensures db.Valid()
    ensures resp.Failure? ==> unchanged(db)
    ensures caller.Err? ==>
              resp == Failure(StatusUnauthorized, caller.error)
    ensures caller.Ok? && PathId(usuarioId, 64).Err? ==>
              resp == Failure(StatusBadRequest, PathId(usuarioId, 64).error)
    ensures caller == PathId(usuarioId, 64) && PathId(usuarioId, 64).Ok? ==>
              resp == Failure(StatusForbidden, CannotStopFollowingSelf)
    ensures caller.Ok? && PathId(usuarioId, 64).Ok?
            && caller.value != PathId(usuarioId, 64).value ==>
              if env.connectError.Some? then resp == Failure(StatusInternalServerError, env.connectError.value)
              else
                && resp == Success(StatusNoContent, None)
                && db.followers == old(db.followers) -
                     {(PathId(usuarioId, 64).value, caller.value)}
                && db.users == old(db.users) && db.publications == old(db.publications)
                && db.nextUserId == old(db.nextUserId) && db.nextPublicationId == old(db.nextPublicationId)
  {
    var followerID := caller;
    if followerID.Err? {
      return Failure(StatusUnauthorized, followerID.error);
    }
    var userID := PathId(usuarioId, 64);
    if userID.Err? {
      return Failure(StatusBadRequest, userID.error);
    }
    if followerID.value == userID.value {
      return Failure(StatusForbidden, CannotStopFollowingSelf);
    }
    if env.connectError.Some? {
      return Failure(StatusInternalServerError, env.connectError.value);
    }
    var repo := new RepositoryUser.User(db);
    repo.StopFollowing(userID.value, followerID.value);
    resp := Success(StatusNoContent, None);
  }

  /** `SearchFollowers`: the users following the path user (the handler itself reads no token). */
  method SearchFollowers(db: Tables.Database, env: Env, usuarioId: string) returns (resp: Response<seq<Models.UserData>>)
    ensures PathId(usuarioId, 64).Err? ==> resp == Failure(StatusBadRequest, PathId(usuarioId, 64).error)
    ensures PathId(usuarioId, 64).Ok? && env.connectError.Some? ==>
              resp == Failure(StatusInternalServerError, env.connectError.value)
    ensures PathId(usuarioId, 64).Ok? && env.connectError.None? ==>
              resp.Success? && resp.status == StatusOK && resp.value.Some?
    ensures resp.Success? ==>
              var id := PathId(usuarioId, 64).value;
              forall u :: u in resp.value.value <==>
                u.id in db.users && (id, u.id) in db.followers && u == Tables.PublicUser(u.id, db.users[u.id])
  {
    var userID := PathId(usuarioId, 64);
    if userID.Err? {
      return Failure(StatusBadRequest, userID.error);
    }
    if env.connectError.Some? {
      return Failure(StatusInternalServerError, env.connectError.value);
    }
    var repo := new RepositoryUser.User(db);
    var followers := repo.SearchFollowers(userID.value);
    resp := Success(StatusOK, Some(followers));
  }

  /**
   * `UpdatePassword`: token (401), path id (400), ownership (403), body (400;
   * a read error is not looked at), then the stored digest must verify the
   * current password (401) before the new one is hashed (400 on failure) and
   * stored.
   */
  method UpdatePassword(db: Tables.Database, env: Env, req: Request<Models.Password>) returns (resp: Response<Models.UserData>)
    requires db.Valid()
    modifies db
    ensures db.Valid()
    ensures resp.Failure? ==> unchanged(db)
    ensures req.caller.Err? ==>
              resp == Failure(StatusUnauthorized, req.caller.error)
    ensures req.caller.Ok? && PathId(req.param, 64).Err? ==>
              resp == Failure(StatusBadRequest, PathId(req.param, 64).error)
    ensures req.caller.Ok? && PathId(req.param, 64).Ok?
            && req.caller.value != PathId(req.param, 64).value ==>
              resp == Failure(StatusForbidden, CannotUpdateOtherPassword)
    ensures req.caller == PathId(req.param, 64) && PathId(req.param, 64).Ok? ==>
              var id := PathId(req.param, 64).value;
              if req.body.decoded.Err? then resp == Failure(StatusBadRequest, req.body.decoded.error)
              else if env.connectError.Some? then resp == Failure(StatusInternalServerError, env.connectError.value)
              else if !env.bcrypt.Matches(StoredPassword(old(db.users), id), req.body.decoded.value.oldPassword) then
                resp == Failure(StatusUnauthorized, WrongCurrentPassword)
              else if env.bcrypt.hash(req.body.decoded.value.newPassword).Err? then
                resp == Failure(StatusBadRequest, env.bcrypt.hash(req.body.decoded.value.newPassword).error)
              else
                && resp == Success(StatusNoContent, None)
                && db.users == (if id in old(db.users)
                                then old(db.users)[id := old(db.users)[id].(password := env.bcrypt.hash(req.body.decoded.value.newPassword).value)]
                                else old(db.users))
                && db.followers == old(db.followers) && db.publications == old(db.publications)
                && db.nextUserId == old(db.nextUserId) && db.nextPublicationId == old(db.nextPublicationId)
    ensures resp.Success? ==>
              env.bcrypt.Matches(StoredPassword(old(db.users), PathId(req.param, 64).value), req.body.decoded.value.oldPassword)
    ensures resp.Success? && env.bcrypt.RoundTrip() && PathId(req.param, 64).value in db.users ==>
              env.bcrypt.Matches(db.users[PathId(req.param, 64).value].password, req.body.decoded.value.newPassword)
  {
    var userIDInToken := req.caller;
    if userIDInToken.Err? {
      return Failure(StatusUnauthorized, userIDInToken.error);
    }
    var userID := PathId(req.param, 64);
    if userID.Err? {
      return Failure(StatusBadRequest, userID.error);
    }
    if userIDInToken.value != userID.value {
      return Failure(StatusForbidden, CannotUpdateOtherPassword);
    }
    if req.body.decoded.Err? {
      return Failure(StatusBadRequest, req.body.decoded.error);
    }
    var password := req.body.decoded.value;
    if env.connectError.Some? {
      return Failure(StatusInternalServerError, env.connectError.value);
    }
    var repo := new RepositoryUser.User(db);
    var passwordInDB := repo.SearchPassword(userID.value);
    if env.bcrypt.verify(passwordInDB, password.oldPassword).Some? {
      return Failure(StatusUnauthorized, WrongCurrentPassword);
    }
    var passwordHash := env.bcrypt.hash(password.newPassword);
    if passwordHash.Err? {
      return Failure(StatusBadRequest, passwordHash.error);
    }
    repo.UpdatePassword(userID.value, passwordHash.value);
    resp := Success(StatusNoContent, None);
  }
}
