/**
  The data model of the network application: users with a directed
  followers relation, and posts with an owner, a content, a set of likes
  and a creation timestamp. The store is a pair of tables; the primary key
  of a row is its position in its table.
 */
module Models {

  datatype Option<+T> = None | Some(value: T) {
    /** The value, or `default` when there is none (a dictionary's `get`). */
    function GetOr(default: T): T {
      match this
      case Some(v) => v
      case None => default
    }
  }

  type UserId = nat
  type PostId = nat

  /** A user row. `followers` is the many-to-many relation to other users;
      it is not symmetrical, and the reverse direction is `FollowingSet`. */
  datatype User = User(username: string, followers: set<UserId>)

  /** A post row: one owning user, a content that may be empty, the set of
      users who like it and the time it was created. */
  datatype Post = Post(owner: UserId, content: string, likes: set<UserId>, timestamp: int)

  datatype Db = Db(users: seq<User>, posts: seq<Post>)

  /** Usernames are unique (the user model's username column is unique). */
  predicate UsernamesUnique(users: seq<User>) {
    forall i, j :: 0 <= i < j < |users| ==> users[i].username != users[j].username
  }

  predicate FollowersIn(u: User, n: nat) {
    forall f :: f in u.followers ==> f < n
  }

  /** Every reference of a post (its owner, its likes) names an existing user. */
  predicate PostRefsIn(p: Post, n: nat) {
    p.owner < n && forall l :: l in p.likes ==> l < n
  }

  /** What the database guarantees of every state: unique usernames and
      referential integrity of the foreign key and the two relations. */
  predicate Valid(db: Db) {
    && UsernamesUnique(db.users)
    && (forall u :: 0 <= u < |db.users| ==> FollowersIn(db.users[u], |db.users|))
    && (forall p :: 0 <= p < |db.posts| ==> PostRefsIn(db.posts[p], |db.users|))
  }

  /** A username names one user. */
  lemma UsernameIdentifies(users: seq<User>, a: UserId, b: UserId)
    requires UsernamesUnique(users) && a < |users| && b < |users|
    ensures users[a].username == users[b].username <==> a == b
  {
  }

  /** `a.following.all()`, the reverse accessor of `followers`: the users
      that `a` follows. (The `following` view is `Store.Network.Following`.)
      How a follow call changes it is `ViewsProperties.FollowUpdatesFollowing`. */
  function FollowingSet(users: seq<User>, a: UserId): (r: set<UserId>)
    ensures forall b :: b in r <==> 0 <= b < |users| && a in users[b].followers
  {
    set b | 0 <= b < |users| && a in users[b].followers
  }

  /** The lookup of a user by username, from position `k` on. */
  function FindFrom(users: seq<User>, name: string, k: nat): (r: Option<UserId>)
    requires k <= |users|
    ensures r.Some? ==> k <= r.value < |users| && users[r.value].username == name
    ensures r.None? <==> forall i :: k <= i < |users| ==> users[i].username != name
    decreases |users| - k
  {
    if k == |users| then None
    else if users[k].username == name then Some(k)
    else FindFrom(users, name, k + 1)
  }

  /** `User.objects.get(username=name)`: the user with that name, or None
      where the lookup raises because no such user exists. */
  function FindByUsername(users: seq<User>, name: string): (r: Option<UserId>)
    ensures r.Some? ==> r.value < |users| && users[r.value].username == name
    ensures r.None? <==> forall i :: 0 <= i < |users| ==> users[i].username != name
    ensures r.Some? && UsernamesUnique(users) ==>
              forall i :: 0 <= i < |users| && users[i].username == name ==> i == r.value
  {
    FindFrom(users, name, 0)
  }

  /** The fields `serialize` reports for a post; the timestamp's textual
      format is not modelled. What a caller can rely on is proved in
      `SerializeIdentifiesOwner` and `ViewsProperties.SerializeAfterEdit`. */
  datatype Serialized = Serialized(id: PostId, user: string, content: string, likes: set<UserId>)

  function Serialize(db: Db, p: PostId): (r: Serialized)
    requires Valid(db) && p < |db.posts|
    ensures r.id == p && r.content == db.posts[p].content && r.likes == db.posts[p].likes
    ensures r.user == db.users[db.posts[p].owner].username
  {
    var post := db.posts[p];
    Serialized(p, db.users[post.owner].username, post.content, post.likes)
  }

  /** Two posts serialize with the same user name exactly when they have
      the same owner, because usernames are unique. */
  lemma SerializeIdentifiesOwner(db: Db, p: PostId, q: PostId)
    requires Valid(db) && p < |db.posts| && q < |db.posts|
    ensures Serialize(db, p).user == Serialize(db, q).user <==> db.posts[p].owner == db.posts[q].owner
  {
  }
}
