/** `repository.User`: each operation is one SQL statement over `users` and `followers`. */
module RepositoryUser {
  import opened Wrappers
  import Models
  import opened Tables
  import opened SqlLike

  /** `name LIKE %q% or nick LIKE %q%`. */
  predicate MatchesNameOrNick(row: UserRow, q: string) {
    Like(row.name, ContainsPattern(q)) || Like(row.nick, ContainsPattern(q))
  }

  /** For a query without wildcard characters the search is a plain substring search on name or nick. */
  lemma MatchesAsSubstring(row: UserRow, q: string)
    requires NoWildcards(q)
    ensures MatchesNameOrNick(row, q) <==> Contains(row.name, q) || Contains(row.nick, q)
  {
    LikeContains(row.name, q);
    LikeContains(row.nick, q);
  }

  class User {
    const db: Database

    /** `NewRepositoryUser`. */
    constructor (db: Database)
      ensures this.db == db
    {
      this.db := db;
    }

    /** `INSERT INTO users (name, nick, email, password)`; `created_at` takes the store's clock `now`. */
    method CreateUser(user: Models.UserData, now: int) returns (id: nat)
      requires db.Valid()
      modifies db
      ensures db.Valid()
      ensures id == old(db.nextUserId) && id != 0 && id !in old(db.users)
      ensures db.users == old(db.users)[id := UserRow(user.name, user.nick, user.email, user.password, now)]
      ensures db.nextUserId == id + 1
      ensures db.followers == old(db.followers) && db.publications == old(db.publications)
      ensures db.nextPublicationId == old(db.nextPublicationId)
    {
      id := db.nextUserId;
      db.users := db.users[id := UserRow(user.name, user.nick, user.email, user.password, now)];
      db.nextUserId := db.nextUserId + 1;
    }

    /** `SELECT ... WHERE name LIKE ? or nick LIKE ?`, rows in no particular order. */
    method SearchUsers(nomeOuNick: string) returns (users: seq<Models.UserData>)
      ensures forall u :: u in users ==>
                u.id in db.users && MatchesNameOrNick(db.users[u.id], nomeOuNick) && u == PublicUser(u.id, db.users[u.id])
      ensures forall id :: id in db.users && MatchesNameOrNick(db.users[id], nomeOuNick) ==>
                PublicUser(id, db.users[id]) in users
      ensures forall i, j :: 0 <= i < j < |users| ==> users[i].id != users[j].id
    {
      var pending := db.users.Keys;
      users := [];
      while pending != {}
        invariant pending <= db.users.Keys
        invariant forall u :: u in users ==>
                    u.id in db.users && u.id !in pending && MatchesNameOrNick(db.users[u.id], nomeOuNick)
                    && u == PublicUser(u.id, db.users[u.id])
        invariant forall id :: id in db.users && id !in pending && MatchesNameOrNick(db.users[id], nomeOuNick) ==>
                    PublicUser(id, db.users[id]) in users
        invariant forall i, j :: 0 <= i < j < |users| ==> users[i].id != users[j].id
        decreases pending
      {
        var id :| id in pending;
        if MatchesNameOrNick(db.users[id], nomeOuNick) {
          users := users + [PublicUser(id, db.users[id])];
        }
        pending := pending - {id};
      }
    }

    /** `SELECT ... WHERE id = ?`: the user without password, or the zero user when no row matches. */
    method SearchUserByID(id: nat) returns (user: Models.UserData)
      ensures id in db.users ==> user == PublicUser(id, db.users[id])
      ensures id !in db.users ==> user == Models.ZeroUser
    {
      if id in db.users {
        user := PublicUser(id, db.users[id]);
      } else {
        user := Models.ZeroUser;
      }
    }

    /** `UPDATE users SET name = ?, nick = ?, email = ? WHERE id = ?`. */
    method UpdateUser(id: nat, user: Models.UserData)
      requires db.Valid()
      modifies db
      ensures db.Valid()
      ensures db.users == if id in old(db.users)
                          then old(db.users)[id := old(db.users)[id].(name := user.name, nick := user.nick, email := user.email)]
                          else old(db.users)
      ensures db.followers == old(db.followers) && db.publications == old(db.publications)
      ensures db.nextUserId == old(db.nextUserId) && db.nextPublicationId == old(db.nextPublicationId)
    {
      if id in db.users {
        db.users := db.users[id := db.users[id].(name := user.name, nick := user.nick, email := user.email)];
      }
    }

    /** `DELETE FROM users WHERE id = ?`: the follower pairs and publications of the user stay. */
    method DeleteUser(id: nat)
      requires db.Valid()
      modifies db
      ensures db.Valid()
      ensures db.users == old(db.users) - {id}
      ensures db.followers == old(db.followers) && db.publications == old(db.publications)
      ensures db.nextUserId == old(db.nextUserId) && db.nextPublicationId == old(db.nextPublicationId)
    {
      db.users := db.users - {id};
    }

    /** `SELECT id, password FROM users WHERE email = ?`: one matching row, or the zero user. */
    method SearchEmail(email: string) returns (user: Models.UserData)
      ensures (exists id :: id in db.users && db.users[id].email == email) ==>
                user.id in db.users && db.users[user.id].email == email
                && user == Models.ZeroUser.(id := user.id, password := db.users[user.id].password)
      ensures !(exists id :: id in db.users && db.users[id].email == email) ==> user == Models.ZeroUser
    {
      if exists id :: id in db.users && db.users[id].email == email {
        var id :| id in db.users && db.users[id].email == email;
        user := Models.ZeroUser.(id := id, password := db.users[id].password);
      } else {
        user := Models.ZeroUser;
      }
    }

    /** `INSERT IGNORE INTO followers`: a pair already present is left as it is. */
    method Follow(userID: nat, followerID: nat)
      requires db.Valid()
      modifies db
      ensures db.Valid()
      ensures db.followers == old(db.followers) + {(userID, followerID)}
      ensures db.users == old(db.users) && db.publications == old(db.publications)
      ensures db.nextUserId == old(db.nextUserId) && db.nextPublicationId == old(db.nextPublicationId)
    {
      db.followers := db.followers + {(userID, followerID)};
    }

    /** `DELETE FROM followers WHERE user_id = ? and follower_id = ?`. */
    method StopFollowing(userID: nat, followerID: nat)
      requires db.Valid()
      modifies db
      ensures db.Valid()
      ensures db.followers == old(db.followers) - {(userID, followerID)}
      ensures db.users == old(db.users) && db.publications == old(db.publications)
      ensures db.nextUserId == old(db.nextUserId) && db.nextPublicationId == old(db.nextPublicationId)
    {
      db.followers := db.followers - {(userID, followerID)};
    }

    /** `users` joined with `followers` on `follower_id`: the users that follow `userID`. */
    method SearchFollowers(userID: nat) returns (users: seq<Models.UserData>)
      ensures forall u :: u in users ==>
                u.id in db.users && (userID, u.id) in db.followers && u == PublicUser(u.id, db.users[u.id])
      ensures forall id :: id in db.users && (userID, id) in db.followers ==> PublicUser(id, db.users[id]) in users
      ensures forall i, j :: 0 <= i < j < |users| ==> users[i].id != users[j].id
    {
      var pending := db.users.Keys;
      users := [];
      while pending != {}
        invariant pending <= db.users.Keys
        invariant forall u :: u in users ==>
                    u.id in db.users && u.id !in pending && (userID, u.id) in db.followers
                    && u == PublicUser(u.id, db.users[u.id])
        invariant forall id :: id in db.users && id !in pending && (userID, id) in db.followers ==>
                    PublicUser(id, db.users[id]) in users
        invariant forall i, j :: 0 <= i < j < |users| ==> users[i].id != users[j].id
        decreases pending
      {
        var id :| id in pending;
        if (userID, id) in db.followers {
          users := users + [PublicUser(id, db.users[id])];
        }
        pending := pending - {id};
      }
    }

    /** `SELECT password FROM users WHERE id = ?`: the stored digest, or `""` when no row matches. */
    method SearchPassword(userID: nat) returns (password: string)
      ensures password == if userID in db.users then db.users[userID].password else ""
    {
      password := "";
      if userID in db.users {
        password := db.users[userID].password;
      }
    }

    /** `UPDATE users SET password = ? WHERE id = ?`. */
    method UpdatePassword(userID: nat, password: string)
      requires db.Valid()
      modifies db
      ensures db.Valid()
      ensures db.users == if userID in old(db.users)
                          then old(db.users)[userID := old(db.users)[userID].(password := password)]
                          else old(db.users)
      ensures db.followers == old(db.followers) && db.publications == old(db.publications)
      ensures db.nextUserId == old(db.nextUserId) && db.nextPublicationId == old(db.nextPublicationId)
    {
      if userID in db.users {
        db.users := db.users[userID := db.users[userID].(password := password)];
      }
    }
  }

  /** Following is idempotent: a second identical follow changes nothing. */
  method FollowTwice(repo: User, userID: nat, followerID: nat)
    requires repo.db.Valid()
    modifies repo.db
    ensures repo.db.followers == old(repo.db.followers) + {(userID, followerID)}
  {
    repo.Follow(userID, followerID);
    ghost var once := repo.db.followers;
    repo.Follow(userID, followerID);
    assert repo.db.followers == once;
  }

  /** After a password update the password lookup returns the new digest. */
  method UpdateThenSearchPassword(repo: User, userID: nat, digest: string) returns (found: string)
    requires repo.db.Valid() && userID in repo.db.users
    modifies repo.db
    ensures found == digest
  {
    repo.UpdatePassword(userID, digest);
    found := repo.SearchPassword(userID);
  }
}
