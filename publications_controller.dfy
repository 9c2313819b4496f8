/**
 * The handlers of `/publicacoes` (and of a user's publications). The owner
 * checks compare the caller with the author the store reports for the
 * publication, which is 0 when the publication is absent.
 */
module PublicationsController {
  import opened Wrappers
  import opened Http
  import Models
  import Tables
  import RepositoryPublication

  // The ownership message, as the source spells it; the delete handler reuses the update wording.
  const CannotChangeOthersPublication: string := "\n\t\tN??o ?? possivel atualizar uma publica????o que n??o seja sua!\n\t\t"

  /** The `AutorID` of what `SearchPostByID` returns: the stored author, or 0 when no joined row exists. */
  function StoredAuthor(db: Tables.Database, publicationID: nat): (a: nat)
    reads db
    ensures a != 0 ==> publicationID in db.publications && db.publications[publicationID].autorId == a && a in db.users
    ensures publicationID in db.publications && db.publications[publicationID].autorId in db.users ==>
              a == db.publications[publicationID].autorId
  {
    if publicationID in db.publications && db.publications[publicationID].autorId in db.users
    then db.publications[publicationID].autorId
    else 0
  }

  /** For a publication that does not exist, no caller but the one with id 0 passes the owner check. */
  lemma AbsentPublicationHasNoOwner(db: Tables.Database, publicationID: nat, caller: nat)
    requires publicationID !in db.publications && caller != 0
    ensures StoredAuthor(db, publicationID) != caller
  {
  }

  /**
   * `CreatePost`: token (401), body (422, 400), then the author is set to the
   * caller, whatever the body said, before `Preparar` (400) and the insert.
   */
  method CreatePost(db: Tables.Database, env: Env, caller: Result<nat, string>, body: Body<Models.PublicationData>)
    returns (resp: Response<Models.PublicationData>)
    requires db.Valid()
    modifies db
    ensures db.Valid()
    ensures resp.Failure? ==> unchanged(db)
    ensures caller.Err? ==>
              resp == Failure(StatusUnauthorized, caller.error)
    ensures caller.Ok? && body.readError.Some? ==>
              resp == Failure(StatusUnprocessableEntity, body.readError.value)
    ensures caller.Ok? && body.readError.None? && body.decoded.Err? ==>
              resp == Failure(StatusBadRequest, body.decoded.error)
    ensures caller.Ok? && body.readError.None? && body.decoded.Ok? ==>
              var caller := caller.value;
              var prepared := Models.PublicationPrepared(body.decoded.value.(autorId := caller));
              if prepared.error.Some? then resp == Failure(StatusBadRequest, prepared.error.value)
              else if env.connectError.Some? then resp == Failure(StatusInternalServerError, env.connectError.value)
              else
                var id := old(db.nextPublicationId);
                var p := prepared.value;
                && resp == Success(StatusCreated, Some(p.(id := id)))
                && db.publications == old(db.publications)[id := Tables.PublicationRow(p.titulo, p.conteudo, caller, 0, env.now)]
                && db.users == old(db.users) && db.followers == old(db.followers)
                && db.nextPublicationId == id + 1 && db.nextUserId == old(db.nextUserId)
    ensures resp.Success? ==>
              && caller.Ok?
              && resp.value.value.autorId == caller.value
              && resp.value.value.id in db.publications
              && db.publications[resp.value.value.id].autorId == resp.value.value.autorId
  {
    var userID := caller;
    if userID.Err? {
      return Failure(StatusUnauthorized, userID.error);
    }
    if body.readError.Some? {
      return Failure(StatusUnprocessableEntity, body.readError.value);
    }
    if body.decoded.Err? {
      return Failure(StatusBadRequest, body.decoded.error);
    }
    ghost var prepared := Models.PublicationPrepared(body.decoded.value.(autorId := userID.value));
    var publication := new Models.Publication(body.decoded.value);
    publication.autorId := userID.value;
    assert publication.Data() == body.decoded.value.(autorId := userID.value);
    var err := publication.Preparar();
    assert publication.Data() == prepared.value && err == prepared.error;
    if err.Some? {
      return Failure(StatusBadRequest, err.value);
    }
    if env.connectError.Some? {
      return Failure(StatusInternalServerError, env.connectError.value);
    }
    var repo := new RepositoryPublication.Publication(db);
    var id := repo.CreatePost(publication.Data(), env.now);
    publication.id := id;
    assert publication.Data() == prepared.value.(id := id);
    resp := Success(StatusCreated, Some(publication.Data()));
  }

  /** `SearchPosts`: the caller's feed, at most one publication. */
  method SearchPosts(db: Tables.Database, env: Env, caller: Result<nat, string>) returns (resp: Response<seq<Models.PublicationData>>)
    ensures caller.Err? ==>
              resp == Failure(StatusUnauthorized, caller.error)
    ensures caller.Ok? && env.connectError.Some? ==>
              resp == Failure(StatusInternalServerError, env.connectError.value)
    ensures caller.Ok? && env.connectError.None? ==>
              resp.Success? && resp.status == StatusOK && resp.value.Some?
    ensures resp.Success? ==>
              var caller := caller.value;
              var feed := resp.value.value;
              && |feed| <= 1
              && (feed == [] <==> forall pid: nat :: pid in db.publications ==>
                                    !RepositoryPublication.InFeed(db.users, db.followers, db.publications, pid, caller))
              && (feed != [] ==>
                    && RepositoryPublication.InFeed(db.users, db.followers, db.publications, feed[0].id, caller)
                    && feed[0] == Tables.PublicationView(feed[0].id, db.publications[feed[0].id],
                                                         db.users[db.publications[feed[0].id].autorId].nick)
                    && forall pid: nat :: RepositoryPublication.InFeed(db.users, db.followers, db.publications, pid, caller) ==>
                         pid <= feed[0].id)
  {
    var userID := caller;
    if userID.Err? {
      return Failure(StatusUnauthorized, userID.error);
    }
    if env.connectError.Some? {
      return Failure(StatusInternalServerError, env.connectError.value);
    }
    var repo := new RepositoryPublication.Publication(db);
    var publicacoes := repo.SearchPost(userID.value);
    resp := Success(StatusOK, Some(publicacoes));
  }

  /** `SearchPost`: one publication by id, the zero publication when there is none. */
  method SearchPost(db: Tables.Database, env: Env, publicacaoId: string) returns (resp: Response<Models.PublicationData>)
    ensures PathId(publicacaoId, 64).Err? ==> resp == Failure(StatusBadRequest, PathId(publicacaoId, 64).error)
    ensures PathId(publicacaoId, 64).Ok? && env.connectError.Some? ==>
              resp == Failure(StatusInternalServerError, env.connectError.value)
    ensures PathId(publicacaoId, 64).Ok? && env.connectError.None? ==>
              var pid := PathId(publicacaoId, 64).value;
              resp == Success(StatusOK, Some(
                if pid in db.publications && db.publications[pid].autorId in db.users
                then Tables.PublicationView(pid, db.publications[pid], db.users[db.publications[pid].autorId].nick)
                else Models.ZeroPublication))
  {
    var publicationID := PathId(publicacaoId, 64);
    if publicationID.Err? {
      return Failure(StatusBadRequest, publicationID.error);
    }
    if env.connectError.Some? {
      return Failure(StatusInternalServerError, env.connectError.value);
    }
    var repo := new RepositoryPublication.Publication(db);
    var publication := repo.SearchPostByID(publicationID.value);
    resp := Success(StatusOK, Some(publication));
  }

  /**
   * `UpdatePost`: token (401), path id (400), connection (500), then the
   * stored author must be the caller (403) before the body is read (422, 400)
   * and prepared (400); only title and content are written.
   */
  method UpdatePost(db: Tables.Database, env: Env, req: Request<Models.PublicationData>) returns (resp: Response<Models.PublicationData>)
    requires db.Valid()
    modifies db
    ensures db.Valid()
    ensures resp.Failure? ==> unchanged(db)
    ensures req.caller.Err? ==>
              resp == Failure(StatusUnauthorized, req.caller.error)
    ensures req.caller.Ok? && PathId(req.param, 64).Err? ==>
              resp == Failure(StatusBadRequest, PathId(req.param, 64).error)
    ensures req.caller.Ok? && PathId(req.param, 64).Ok? ==>
              var caller := req.caller.value;
              var pid := PathId(req.param, 64).value;
              if env.connectError.Some? then resp == Failure(StatusInternalServerError, env.connectError.value)
              else if old(StoredAuthor(db, pid)) != caller then resp == Failure(StatusForbidden, CannotChangeOthersPublication)
              else if req.body.readError.Some? then resp == Failure(StatusUnprocessableEntity, req.body.readError.value)
              else if req.body.decoded.Err? then resp == Failure(StatusBadRequest, req.body.decoded.error)
              else
                var prepared := Models.PublicationPrepared(req.body.decoded.value);
                if prepared.error.Some? then resp == Failure(StatusBadRequest, prepared.error.value)
                else
                  && resp == Success(StatusNoContent, None)
                  && db.publications == RepositoryPublication.Edited(old(db.publications), pid, prepared.value.titulo, prepared.value.conteudo)
                  && db.users == old(db.users) && db.followers == old(db.followers)
                  && db.nextUserId == old(db.nextUserId) && db.nextPublicationId == old(db.nextPublicationId)
  {
    var userID := req.caller;
    if userID.Err? {
      return Failure(StatusUnauthorized, userID.error);
    }
    var publicationID := PathId(req.param, 64);
    if publicationID.Err? {
      return Failure(StatusBadRequest, publicationID.error);
    }
    if env.connectError.Some? {
      return Failure(StatusInternalServerError, env.connectError.value);
    }
    var repo := new RepositoryPublication.Publication(db);
    var publicationInDatabase := repo.SearchPostByID(publicationID.value);
    if publicationInDatabase.autorId != userID.value {
      return Failure(StatusForbidden, CannotChangeOthersPublication);
    }
    if req.body.readError.Some? {
      return Failure(StatusUnprocessableEntity, req.body.readError.value);
    }
    if req.body.decoded.Err? {
      return Failure(StatusBadRequest, req.body.decoded.error);
    }
    ghost var prepared := Models.PublicationPrepared(req.body.decoded.value);
    var publication := new Models.Publication(req.body.decoded.value);
    var err := publication.Preparar();
    assert publication.Data() == prepared.value && err == prepared.error;
    if err.Some? {
      return Failure(StatusBadRequest, err.value);
    }
    repo.UpdatePost(publicationID.value, publication.Data());
    resp := Success(StatusNoContent, None);
  }

  /** `DeletePost`: the checks of `UpdatePost` without the body, then the row is removed. */
  method DeletePost(db: Tables.Database, env: Env, caller: Result<nat, string>, publicacaoId: string) returns (resp: Response<Models.PublicationData>)
    requires db.Valid()
    modifies db
    ensures db.Valid()
    ensures resp.Failure? ==> unchanged(db)
    ensures caller.Err? ==>
              resp == Failure(StatusUnauthorized, caller.error)
    ensures caller.Ok? && PathId(publicacaoId, 64).Err? ==>
              resp == Failure(StatusBadRequest, PathId(publicacaoId, 64).error)
    ensures caller.Ok? && PathId(publicacaoId, 64).Ok? ==>
              var caller := caller.value;
              var pid := PathId(publicacaoId, 64).value;
              if env.connectError.Some? then resp == Failure(StatusInternalServerError, env.connectError.value)
              else if old(StoredAuthor(db, pid)) != caller then resp == Failure(StatusForbidden, CannotChangeOthersPublication)
              else
                && resp == Success(StatusNoContent, None)
                && db.publications == old(db.publications) - {pid}
                && db.users == old(db.users) && db.followers == old(db.followers)
                && db.nextUserId == old(db.nextUserId) && db.nextPublicationId == old(db.nextPublicationId)
  {
    var userID := caller;
    if userID.Err? {
      return Failure(StatusUnauthorized, userID.error);
    }
    var publicationID := PathId(publicacaoId, 64);
    if publicationID.Err? {
      return Failure(StatusBadRequest, publicationID.error);
    }
    if env.connectError.Some? {
      return Failure(StatusInternalServerError, env.connectError.value);
    }
    var repo := new RepositoryPublication.Publication(db);
    var publicationInDatabase := repo.SearchPostByID(publicationID.value);
    if publicationInDatabase.autorId != userID.value {
      return Failure(StatusForbidden, CannotChangeOthersPublication);
    }
    repo.DeletePost(publicationID.value);
    resp := Success(StatusNoContent, None);
  }

  /** `SearchUserPublications`: the publications whose author is the path user. */
  method SearchUserPublications(db: Tables.Database, env: Env, usuarioId: string) returns (resp: Response<seq<Models.PublicationData>>)
    ensures PathId(usuarioId, 64).Err? ==> resp == Failure(StatusBadRequest, PathId(usuarioId, 64).error)
    ensures PathId(usuarioId, 64).Ok? && env.connectError.Some? ==>
              resp == Failure(StatusInternalServerError, env.connectError.value)
    ensures PathId(usuarioId, 64).Ok? && env.connectError.None? ==>
              resp.Success? && resp.status == StatusOK && resp.value.Some?
    ensures resp.Success? ==>
              var a := PathId(usuarioId, 64).value;
              forall p :: p in resp.value.value <==>
                && p.id in db.publications && db.publications[p.id].autorId == a && a in db.users
                && p == Tables.PublicationView(p.id, db.publications[p.id], db.users[a].nick)
  {
    var userId := PathId(usuarioId, 64);
    if userId.Err? {
      return Failure(StatusBadRequest, userId.error);
    }
    if env.connectError.Some? {
      return Failure(StatusInternalServerError, env.connectError.value);
    }
    var repo := new RepositoryPublication.Publication(db);
    var publications := repo.SearchUserPublications(userId.value);
    resp := Success(StatusOK, Some(publications));
  }

  /** `LikePost`: no token and no owner check in the handler; any parseable id reaches the store. */
  method LikePost(db: Tables.Database, env: Env, publicacaoId: string) returns (resp: Response<Models.PublicationData>)
    requires db.Valid()
    modifies db
    ensures db.Valid()
    ensures resp.Failure? ==> unchanged(db)
    ensures PathId(publicacaoId, 64).Err? ==> resp == Failure(StatusBadRequest, PathId(publicacaoId, 64).error)
    ensures PathId(publicacaoId, 64).Ok? ==>
              var pid := PathId(publicacaoId, 64).value;
              if env.connectError.Some? then resp == Failure(StatusInternalServerError, env.connectError.value)
              else
                && resp == Success(StatusNoContent, None)
                && db.publications == (if pid in old(db.publications)
                                       then old(db.publications)[pid := old(db.publications)[pid].(likes := old(db.publications)[pid].likes + 1)]
                                       else old(db.publications))
                && db.users == old(db.users) && db.followers == old(db.followers)
                && db.nextUserId == old(db.nextUserId) && db.nextPublicationId == old(db.nextPublicationId)
  {
    var publicationID := PathId(publicacaoId, 64);
    if publicationID.Err? {
      return Failure(StatusBadRequest, publicationID.error);
    }
    if env.connectError.Some? {
      return Failure(StatusInternalServerError, env.connectError.value);
    }
    var repo := new RepositoryPublication.Publication(db);
    repo.LikePost(publicationID.value);
    resp := Success(StatusNoContent, None);
  }

  /** `UnlikePost`: as `LikePost`, with the saturating decrement. */
  method UnlikePost(db: Tables.Database, env: Env, publicacaoId: string) returns (resp: Response<Models.PublicationData>)
    requires db.Valid()
    modifies db
    ensures db.Valid()
    ensures resp.Failure? ==> unchanged(db)
    ensures PathId(publicacaoId, 64).Err? ==> resp == Failure(StatusBadRequest, PathId(publicacaoId, 64).error)
    ensures PathId(publicacaoId, 64).Ok? ==>
              var pid := PathId(publicacaoId, 64).value;
              if env.connectError.Some? then resp == Failure(StatusInternalServerError, env.connectError.value)
              else
                && resp == Success(StatusNoContent, None)
                && db.publications == (if pid in old(db.publications)
                                       then old(db.publications)[pid := old(db.publications)[pid].(likes := RepositoryPublication.Unliked(old(db.publications)[pid].likes))]
                                       else old(db.publications))
                && db.users == old(db.users) && db.followers == old(db.followers)
                && db.nextUserId == old(db.nextUserId) && db.nextPublicationId == old(db.nextPublicationId)
  {
    var publicationID := PathId(publicacaoId, 64);
    if publicationID.Err? {
      return Failure(StatusBadRequest, publicationID.error);
    }
    if env.connectError.Some? {
      return Failure(StatusInternalServerError, env.connectError.value);
    }
    var repo := new RepositoryPublication.Publication(db);
    repo.UnlikePost(publicationID.value);
    resp := Success(StatusNoContent, None);
  }
}
