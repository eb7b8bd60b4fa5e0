/**
  Properties of the handlers that relate several calls, or a handler and
  a query.
 */
module ViewsProperties {
  import opened Models
  import opened Queries
  import opened Views

  /** Following `username` twice in a row leaves the store as it was; one
      call answers "followed" and the other "unfollowed". */
  lemma FollowTwiceRestores(db: Db, c: UserId, t: UserId)
    requires Valid(db) && c < |db.users| && t < |db.users|
    ensures var name := db.users[t].username;
            var r1 := FollowUser(db, Some(c), name);
            var r2 := FollowUser(r1.db, Some(c), name);
            && r2.db == db
            && {r1.response, r2.response} ==
               {Json(200, Message(name + " followed!")), Json(200, Message(name + " unfollowed!"))}
  {
    var name := db.users[t].username;
    var r1 := FollowUser(db, Some(c), name);
    assert FollowEdgeFlipped(db.users, r1.db.users, c, t);
    var r2 := FollowUser(r1.db, Some(c), name);
    assert FollowEdgeFlipped(r1.db.users, r2.db.users, c, t);
    forall u | 0 <= u < |db.users| ensures r2.db.users[u] == db.users[u] {
      assert r2.db.users[u].followers == db.users[u].followers;
    }
    assert r2.db.users == db.users;
  }

  /** `n` consecutive follow calls by `c` on the user named `username`. */
  function FollowRepeat(db: Db, c: UserId, username: string, n: nat): (r: Db)
    requires Valid(db) && c < |db.users|
    ensures Valid(r) && r.posts == db.posts && SameUsernames(db.users, r.users)
    decreases n
  {
    if n == 0 then db
    else FollowRepeat(FollowUser(db, Some(c), username).db, c, username, n - 1)
  }

  /** After `n` follow calls, the edge from `c` to `t` is present exactly when
      it was present before XOR `n` is odd; every other edge is as before. */
  lemma {:induction false} FollowParity(db: Db, c: UserId, t: UserId, n: nat)
    requires Valid(db) && c < |db.users| && t < |db.users|
    ensures var r := FollowRepeat(db, c, db.users[t].username, n);
            forall u, f :: 0 <= u < |db.users| ==>
              (f in r.users[u].followers <==>
               (f in db.users[u].followers) != (u == t && f == c && n % 2 == 1))
    decreases n
  {
    var name := db.users[t].username;
    if n > 0 {
      var d1 := FollowUser(db, Some(c), name).db;
      assert FollowEdgeFlipped(db.users, d1.users, c, t);
      assert d1.users[t].username == name;
      FollowParity(d1, c, t, n - 1);
      var r := FollowRepeat(db, c, name, n);
      assert r == FollowRepeat(d1, c, name, n - 1);
      forall u, f | 0 <= u < |db.users|
        ensures f in r.users[u].followers <==>
                (f in db.users[u].followers) != (u == t && f == c && n % 2 == 1)
      {
        assert f in r.users[u].followers <==>
               (f in d1.users[u].followers) != (u == t && f == c && (n - 1) % 2 == 1);
      }
    }
  }

  /** The follow relation is directed: when `a` follows `b`, whether `b`
      follows `a` does not change. */
  lemma FollowIsDirected(db: Db, a: UserId, b: UserId)
    requires Valid(db) && a < |db.users| && b < |db.users| && a != b
    requires a !in db.users[b].followers
    ensures var r := FollowUser(db, Some(a), db.users[b].username);
            && a in r.db.users[b].followers
            && (b in r.db.users[a].followers <==> b in db.users[a].followers)
  {
  }

  /** Nothing stops a user from following themself. */
  lemma SelfFollowAllowed(db: Db, c: UserId)
    requires Valid(db) && c < |db.users| && c !in db.users[c].followers
    ensures var name := db.users[c].username;
            var r := FollowUser(db, Some(c), name);
            && r.response == Json(200, Message(name + " followed!"))
            && c in r.db.users[c].followers
  {
  }

  /** `following` is the reverse of `followers`: a follow call by `c` on `t`
      flips `t` in the set of users `c` follows, and changes no other
      user's set. */
  lemma FollowUpdatesFollowing(db: Db, c: UserId, t: UserId)
    requires Valid(db) && c < |db.users| && t < |db.users|
    ensures var r := FollowUser(db, Some(c), db.users[t].username);
            var before := FollowingSet(db.users, c);
            && FollowingSet(r.db.users, c) == (if t in before then before - {t} else before + {t})
            && forall a :: a != c ==> FollowingSet(r.db.users, a) == FollowingSet(db.users, a)
  {
  }

  /** A follow call by `c` on `t` adds `t`'s posts to `c`'s following feed,
      or takes them away, and changes nothing else in it. */
  lemma FeedAfterFollow(db: Db, c: UserId, t: UserId, p: PostId)
    requires Valid(db) && c < |db.users| && t < |db.users| && p < |db.posts|
    ensures var r := FollowUser(db, Some(c), db.users[t].username);
            p in FollowingFeed(r.db, c) <==> (p in FollowingFeed(db, c)) != (db.posts[p].owner == t)
  {
  }

  /** Liking a post twice in a row leaves the store as it was; the first
      call answers `liked: true` exactly when the second answers false. */
  lemma LikeTwiceRestores(db: Db, c: UserId, p: PostId)
    requires Valid(db) && c < |db.users| && p < |db.posts|
    ensures var payload := Payload(Some(p), None);
            var r1 := LikePost(db, c, "PUT", payload);
            var r2 := LikePost(r1.db, c, "PUT", payload);
            && r2.db == db
            && {r1.response, r2.response} == {Json(200, Liked(true)), Json(200, Liked(false))}
  {
    var payload := Payload(Some(p), None);
    var r1 := LikePost(db, c, "PUT", payload);
    assert LikeEdgeFlipped(db.posts, r1.db.posts, c, p);
    var r2 := LikePost(r1.db, c, "PUT", payload);
    assert LikeEdgeFlipped(r1.db.posts, r2.db.posts, c, p);
    forall q | 0 <= q < |db.posts| ensures r2.db.posts[q] == db.posts[q] {
      assert r2.db.posts[q].likes == db.posts[q].likes;
    }
    assert r2.db.posts == db.posts;
  }

  /** `n` consecutive like calls by `c` on post `p`. */
  function LikeRepeat(db: Db, c: UserId, p: PostId, n: nat): (r: Db)
    requires Valid(db) && c < |db.users|
    ensures Valid(r) && r.users == db.users && |r.posts| == |db.posts|
    decreases n
  {
    if n == 0 then db
    else LikeRepeat(LikePost(db, c, "PUT", Payload(Some(p), None)).db, c, p, n - 1)
  }

  /** After `n` like calls, `c` likes `p` exactly when they did before XOR
      `n` is odd; every other like, and every other field, is as before. */
  lemma {:induction false} LikeParity(db: Db, c: UserId, p: PostId, n: nat)
    requires Valid(db) && c < |db.users| && p < |db.posts|
    ensures var r := LikeRepeat(db, c, p, n);
            && (forall q :: 0 <= q < |db.posts| ==> r.posts[q] == db.posts[q].(likes := r.posts[q].likes))
            && (forall q, l :: 0 <= q < |db.posts| ==>
                  (l in r.posts[q].likes <==>
                   (l in db.posts[q].likes) != (q == p && l == c && n % 2 == 1)))
    decreases n
  {
    if n > 0 {
      var d1 := LikePost(db, c, "PUT", Payload(Some(p), None)).db;
      assert LikeEdgeFlipped(db.posts, d1.posts, c, p);
      LikeParity(d1, c, p, n - 1);
      var r := LikeRepeat(db, c, p, n);
      assert r == LikeRepeat(d1, c, p, n - 1);
      forall q, l | 0 <= q < |db.posts|
        ensures l in r.posts[q].likes <==>
                (l in db.posts[q].likes) != (q == p && l == c && n % 2 == 1)
      {
        assert l in r.posts[q].likes <==>
               (l in d1.posts[q].likes) != (q == p && l == c && (n - 1) % 2 == 1);
      }
    }
  }

  /** A like call changes the number of likes of the post by exactly one:
      a user likes a post at most once. */
  lemma LikeCountStep(db: Db, c: UserId, p: PostId)
    requires Valid(db) && c < |db.users| && p < |db.posts|
    ensures var r := LikePost(db, c, "PUT", Payload(Some(p), None));
            |r.db.posts[p].likes| == if c in db.posts[p].likes then |db.posts[p].likes| - 1
                                     else |db.posts[p].likes| + 1
  {
  }

  /** Editing changes the content and nothing else `serialize` reports. */
  lemma SerializeAfterEdit(db: Db, p: PostId, content: string)
    requires Valid(db) && p < |db.posts|
    ensures var owner := db.posts[p].owner;
            var r := EditPost(db, owner, "PUT", Payload(Some(p), Some(content)));
            && r.response == Json(200, Message("Post edited!"))
            && Serialize(r.db, p) == Serialize(db, p).(content := content)
  {
  }

  /** Every post appears on the page of exactly one user: its owner's. */
  lemma PostHasOneOwner(db: Db, p: PostId, u: UserId)
    requires Valid(db) && p < |db.posts| && u < |db.users|
    ensures var page := UserPage(db, db.users[u].username);
            page.Profile? && page.target == u && (p in page.posts <==> db.posts[p].owner == u)
  {
  }

  /** A first post "hello" makes the global feed exactly that one post, with
      no likes. */
  lemma FirstPostScenario(db: Db, c: UserId, now: int)
    requires Valid(db) && c < |db.users| && db.posts == []
    ensures var r := NewPost(db, c, "POST", Payload(None, Some("hello")), now);
            && r.response == Json(200, Message("Post got published successfully!"))
            && Index(r.db) == [0]
            && r.db.posts[0].owner == c && r.db.posts[0].content == "hello"
            && |r.db.posts[0].likes| == 0
  {
    var r := NewPost(db, c, "POST", Payload(None, Some("hello")), now);
    assert r.db.posts == [Post(c, "hello", {}, now)];
    assert SortNewestFirst(r.db.posts, 0) == [];
    assert Insert(r.db.posts, 0, []) == [0];
  }
}
