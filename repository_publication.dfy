/**
 * `repository.Publication`: each operation is one SQL statement over
 * `publications`, joined with `users` (for the author's nick) and, for the
 * feed, with `followers`.
 */
module RepositoryPublication {
  import Models
  import opened Tables

  /**
   * `UPDATE publications SET titulo = ?, conteudo = ? WHERE id = ?`: the
   * table after the statement. Only the named row's title and content change;
   * an absent id matches no row.
   */
  function Edited(pubs: map<nat, PublicationRow>, pid: nat, title: string, content: string): (r: map<nat, PublicationRow>)
    ensures r.Keys == pubs.Keys
    ensures forall k :: k in pubs && k != pid ==> r[k] == pubs[k]
    ensures pid in pubs ==> r[pid] == pubs[pid].(title := title, content := content)
  {
    if pid in pubs then pubs[pid := pubs[pid].(title := title, content := content)] else pubs
  }

  /** `CASE WHEN likes > 0 THEN likes - 1 ELSE 0 END`. */
  function Unliked(likes: nat): nat {
    if likes > 0 then likes - 1 else 0
  }

  /** The like count after `n` unlikes. */
  function UnlikedTimes(likes: nat, n: nat): nat {
    if n == 0 then likes else UnlikedTimes(Unliked(likes), n - 1)
  }

  /** Unliking saturates: `n` unlikes from `k` leave `max(k - n, 0)`, never a negative count. */
  lemma {:induction false} UnlikeSaturates(k: nat, n: nat)
    ensures UnlikedTimes(k, n) == if k >= n then k - n else 0
  {
    if n > 0 {
      UnlikeSaturates(Unliked(k), n - 1);
    }
  }

  /** An unlike undoes a like, and unliking at zero stays at zero. */
  lemma UnlikeAfterLike(k: nat)
    ensures Unliked(k + 1) == k && Unliked(0) == 0
  {
  }

  /**
   * A row of the feed query before its single-row read: joined with its author
   * and with some `followers` row whose `user_id` is the author, where the
   * author is the caller or that row's follower is the caller.
   */
  predicate InFeed(users: map<nat, UserRow>, followers: set<(nat, nat)>, pubs: map<nat, PublicationRow>, pid: nat, userID: nat) {
    && pid in pubs
    && pubs[pid].autorId in users
    && exists s :: s in followers && s.0 == pubs[pid].autorId && (pubs[pid].autorId == userID || s.1 == userID)
  }

  /**
   * The feed condition in plain terms: the caller's own post when the caller
   * has at least one follower, or a post by someone the caller follows.
   */
  lemma InFeedMeaning(users: map<nat, UserRow>, followers: set<(nat, nat)>, pubs: map<nat, PublicationRow>, pid: nat, userID: nat)
    requires pid in pubs
    ensures var a := pubs[pid].autorId;
            InFeed(users, followers, pubs, pid, userID) <==>
              a in users && ((a == userID && exists f :: (a, f) in followers) || (a, userID) in followers)
  {
    var a := pubs[pid].autorId;
    if a in users && a == userID && exists f :: (a, f) in followers {
      var f :| (a, f) in followers;
      assert (a, f).0 == a;
    }
    if a in users && (a, userID) in followers {
      assert (a, userID).1 == userID;
    }
  }

  /** Every non-empty finite set of identifiers has a largest element. */
  lemma {:induction false} LargestExists(s: set<nat>)
    requires s != {}
    ensures exists m :: m in s && forall x :: x in s ==> x <= m
    decreases s
  {
    var x :| x in s;
    var above := set y | y in s && y > x;
    if above != {} {
      assert x !in above;
      LargestExists(above);
      var m :| m in above && forall y :: y in above ==> y <= m;
      forall y | y in s
        ensures y <= m
      {
        if y > x {
          assert y in above;
        }
      }
    } else {
      forall y | y in s
        ensures y <= x
      {
        assert y !in above;
      }
    }
  }

  class Publication {
    const db: Database

    /** `NewPublicationRepository`. */
    constructor (db: Database)
      ensures this.db == db
    {
      this.db := db;
    }

    /** `insert into publications (title, content, autor_id)`: likes start at the column default, 0. */
    method CreatePost(publication: Models.PublicationData, now: int) returns (id: nat)
      requires db.Valid()
      modifies db
      ensures db.Valid()
      ensures id == old(db.nextPublicationId) && id != 0 && id !in old(db.publications)
      ensures db.publications == old(db.publications)[id := PublicationRow(publication.titulo, publication.conteudo, publication.autorId, 0, now)]
      ensures db.nextPublicationId == id + 1
      ensures db.users == old(db.users) && db.followers == old(db.followers) && db.nextUserId == old(db.nextUserId)
    {
      id := db.nextPublicationId;
      db.publications := db.publications[id := PublicationRow(publication.titulo, publication.conteudo, publication.autorId, 0, now)];
      db.nextPublicationId := db.nextPublicationId + 1;
    }

    /**
     * `p.*, u.nick ... INNER JOIN users ... WHERE p.id = ?`: the zero
     * publication (author 0) when the post is absent or its author is gone.
     */
    method SearchPostByID(publicationID: nat) returns (publication: Models.PublicationData)
      ensures publicationID in db.publications && db.publications[publicationID].autorId in db.users ==>
                publication == PublicationView(publicationID, db.publications[publicationID],
                                               db.users[db.publications[publicationID].autorId].nick)
      ensures !(publicationID in db.publications && db.publications[publicationID].autorId in db.users) ==>
                publication == Models.ZeroPublication
    {
      publication := Models.ZeroPublication;
      if publicationID in db.publications && db.publications[publicationID].autorId in db.users {
        var row := db.publications[publicationID];
        publication := PublicationView(publicationID, row, db.users[row.autorId].nick);
      }
    }

    /**
     * The feed: `select distinct ... order by 1 desc`, of which only the first
     * row is read. The result is empty, or the feed post with the highest id.
     */
    method SearchPost(userID: nat) returns (publications: seq<Models.PublicationData>)
      ensures |publications| <= 1
      ensures publications == [] <==> forall pid: nat :: pid in db.publications ==> !InFeed(db.users, db.followers, db.publications, pid, userID)
      ensures publications != [] ==>
                var top := publications[0].id;
                && InFeed(db.users, db.followers, db.publications, top, userID)
                && publications[0] == PublicationView(top, db.publications[top], db.users[db.publications[top].autorId].nick)
                && forall pid: nat :: InFeed(db.users, db.followers, db.publications, pid, userID) ==> pid <= top
    {
      var rows := set pid | pid in db.publications && InFeed(db.users, db.followers, db.publications, pid, userID);
      publications := [];
      assert forall pid: nat :: InFeed(db.users, db.followers, db.publications, pid, userID) <==> pid in rows;
      if rows != {} {
        LargestExists(rows);
        var top :| top in rows && forall pid :: pid in rows ==> pid <= top;
        var row := db.publications[top];
        publications := [PublicationView(top, row, db.users[row.autorId].nick)];
      }
    }

    /** `update publications set title = ?, content = ? where id = ?`. */
    method UpdatePost(publicationID: nat, publication: Models.PublicationData)
      requires db.Valid()
      modifies db
      ensures db.Valid()
      ensures db.publications == Edited(old(db.publications), publicationID, publication.titulo, publication.conteudo)
      ensures db.users == old(db.users) && db.followers == old(db.followers)
      ensures db.nextUserId == old(db.nextUserId) && db.nextPublicationId == old(db.nextPublicationId)
    {
      db.publications := Edited(db.publications, publicationID, publication.titulo, publication.conteudo);
    }

    /** `DELETE FROM publications WHERE id = ?`. */
    method DeletePost(publicationID: nat)
      requires db.Valid()
      modifies db
      ensures db.Valid()
      ensures db.publications == old(db.publications) - {publicationID}
      ensures db.users == old(db.users) && db.followers == old(db.followers)
      ensures db.nextUserId == old(db.nextUserId) && db.nextPublicationId == old(db.nextPublicationId)
    {
      db.publications := db.publications - {publicationID};
    }

    /** `... join users ... where p.autor_id = ?`: the author's posts, or none when the author is gone. */
    method SearchUserPublications(usuarioID: nat) returns (publications: seq<Models.PublicationData>)
      ensures forall p :: p in publications ==>
                p.id in db.publications && db.publications[p.id].autorId == usuarioID && usuarioID in db.users
                && p == PublicationView(p.id, db.publications[p.id], db.users[usuarioID].nick)
      ensures usuarioID in db.users ==>
                forall pid :: pid in db.publications && db.publications[pid].autorId == usuarioID ==>
                  PublicationView(pid, db.publications[pid], db.users[usuarioID].nick) in publications
      ensures forall i, j :: 0 <= i < j < |publications| ==> publications[i].id != publications[j].id
    {
      var pending := db.publications.Keys;
      publications := [];
      while pending != {}
        invariant pending <= db.publications.Keys
        invariant forall p :: p in publications ==>
                    p.id in db.publications && p.id !in pending && db.publications[p.id].autorId == usuarioID
                    && usuarioID in db.users
                    && p == PublicationView(p.id, db.publications[p.id], db.users[usuarioID].nick)
        invariant usuarioID in db.users ==>
                    forall pid :: pid in db.publications && pid !in pending && db.publications[pid].autorId == usuarioID ==>
                      PublicationView(pid, db.publications[pid], db.users[usuarioID].nick) in publications
        invariant forall i, j :: 0 <= i < j < |publications| ==> publications[i].id != publications[j].id
        decreases pending
      {
        var pid :| pid in pending;
        if db.publications[pid].autorId == usuarioID && usuarioID in db.users {
          publications := publications + [PublicationView(pid, db.publications[pid], db.users[usuarioID].nick)];
        }
        pending := pending - {pid};
      }
    }

    /** `UPDATE publications SET likes = likes + 1 WHERE id = ?`. */
    method LikePost(publicationID: nat)
      requires db.Valid()
      modifies db
      ensures db.Valid()
      ensures db.publications ==
                if publicationID in old(db.publications)
                then old(db.publications)[publicationID :=
                       old(db.publications)[publicationID].(likes := old(db.publications)[publicationID].likes + 1)]
                else old(db.publications)
      ensures db.users == old(db.users) && db.followers == old(db.followers)
      ensures db.nextUserId == old(db.nextUserId) && db.nextPublicationId == old(db.nextPublicationId)
    {
      if publicationID in db.publications {
        var row := db.publications[publicationID];
        db.publications := db.publications[publicationID := row.(likes := row.likes + 1)];
      }
    }

    /** The saturating decrement, evaluated by the store. */
    method UnlikePost(publicationID: nat)
      requires db.Valid()
      modifies db
      ensures db.Valid()
      ensures db.publications ==
                if publicationID in old(db.publications)
                then old(db.publications)[publicationID :=
                       old(db.publications)[publicationID].(likes := Unliked(old(db.publications)[publicationID].likes))]
                else old(db.publications)
      ensures db.users == old(db.users) && db.followers == old(db.followers)
      ensures db.nextUserId == old(db.nextUserId) && db.nextPublicationId == old(db.nextPublicationId)
    {
      if publicationID in db.publications {
        var row := db.publications[publicationID];
        db.publications := db.publications[publicationID := row.(likes := if row.likes > 0 then row.likes - 1 else 0)];
      }
    }
  }

  /** The scenario of two likes followed by three unlikes: the count ends at 0, not below. */
  method LikeTwiceUnlikeThrice(repo: Publication, publicationID: nat)
    requires repo.db.Valid() && publicationID in repo.db.publications && repo.db.publications[publicationID].likes == 0
    modifies repo.db
    ensures publicationID in repo.db.publications && repo.db.publications[publicationID].likes == 0
  {
    repo.LikePost(publicationID);
    repo.LikePost(publicationID);
    assert repo.db.publications[publicationID].likes == 2;
    repo.UnlikePost(publicationID);
    repo.UnlikePost(publicationID);
    repo.UnlikePost(publicationID);
  }
}
