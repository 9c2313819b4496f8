/**
 * The relational store the repositories talk to, held in memory: the `users`,
 * `followers` and `publications` tables and the counters standing in for
 * their auto-increment identifiers (which start at 1, so that 0 is never an
 * identifier of a row).
 */
module Tables {
  import Models

  /** A row of `users`, keyed by its id. */
  datatype UserRow = UserRow(name: string, nick: string, email: string, password: string, createdAt: int)

  /** A row of `publications`, keyed by its id. */
  datatype PublicationRow = PublicationRow(title: string, content: string, autorId: nat, likes: nat, createdAt: int)

  class Database {
    var users: map<nat, UserRow>
    /** Pairs (user_id, follower_id): `follower_id` follows `user_id`. */
    var followers: set<(nat, nat)>
    var publications: map<nat, PublicationRow>
    var nextUserId: nat
    var nextPublicationId: nat

    ghost predicate Valid()
      reads this
    {
      && 1 <= nextUserId && 1 <= nextPublicationId
      && (forall id :: id in users ==> 1 <= id < nextUserId)
      && (forall id :: id in publications ==> 1 <= id < nextPublicationId)
    }

    /** An empty database. */
    constructor ()
      ensures Valid()
      ensures users == map[] && followers == {} && publications == map[]
    {
      users, followers, publications := map[], {}, map[];
      nextUserId, nextPublicationId := 1, 1;
    }
  }

  /** A user as the read queries return it: `id, name, nick, email, created_at`, never the password. */
  function PublicUser(id: nat, row: UserRow): (u: Models.UserData)
    ensures u.id == id && u.password == ""
  {
    Models.UserData(id, row.name, row.nick, row.email, "", row.createdAt)
  }

  /** A publication as `p.*, u.nick` return it, with the author's nick joined in. */
  function PublicationView(id: nat, row: PublicationRow, autorNick: string): (p: Models.PublicationData)
    ensures p.id == id && p.autorId == row.autorId && p.likes == row.likes && p.autorNick == autorNick
  {
    Models.PublicationData(id, row.title, row.content, row.autorId, autorNick, row.likes, row.createdAt)
  }
}
