/**
  The request handlers of the network application, each as a function from
  the store and the request (the authenticated caller, the HTTP method, the
  already-parsed JSON payload) to the new store and the response.
  A lookup that raises in the application (an unknown username or post id)
  is the response `Raised`, and leaves the store as it was.
 */
module Views {
  import opened Models
  import opened Queries

  datatype Exception =
    | UserDoesNotExist   // `User.objects.get` found no such username
    | PostDoesNotExist   // `Post.objects.get` found no such id
    | InvalidPostId      // the payload had no "postId", so the lookup got ""
    | AnonymousUser      // no user is signed in, so there is no user to add

  datatype Body = Message(text: string) | Error(text: string) | Liked(liked: bool)

  datatype Response = Json(status: int, body: Body) | Raised(exc: Exception)

  /** The JSON body of a request; a missing key is None. */
  datatype Payload = Payload(postId: Option<int>, content: Option<string>)

  datatype Outcome = Outcome(db: Db, response: Response)

  /** Only the response `Json(200, ...)` reports a change of the store. */
  predicate Succeeded(r: Response) {
    r.Json? && r.status == 200
  }

  /** The same users, under the same usernames. */
  predicate SameUsernames(before: seq<User>, after: seq<User>) {
    |after| == |before| && forall u :: 0 <= u < |before| ==> after[u].username == before[u].username
  }

  /** The follow relation of `after` is that of `before` with exactly the
      edge from `follower` to `target` flipped; usernames are unchanged. */
  ghost predicate FollowEdgeFlipped(before: seq<User>, after: seq<User>, follower: UserId, target: UserId) {
    && SameUsernames(before, after)
    && (forall u, f :: 0 <= u < |before| ==>
          (f in after[u].followers <==> (f in before[u].followers) != (u == target && f == follower)))
  }

  /** The like relation of `after` is that of `before` with exactly the
      like of `liker` on post `p` flipped; nothing else about a post changes. */
  ghost predicate LikeEdgeFlipped(before: seq<Post>, after: seq<Post>, liker: UserId, p: PostId) {
    && |after| == |before|
    && (forall q :: 0 <= q < |before| ==>
          after[q] == before[q].(likes := after[q].likes))
    && (forall q, l :: 0 <= q < |before| ==>
          (l in after[q].likes <==> (l in before[q].likes) != (q == p && l == liker)))
  }

  /** Every post of `before` still exists in `after` with the same owner and
      the same creation timestamp. */
  predicate PostsKept(before: seq<Post>, after: seq<Post>) {
    |before| <= |after| &&
    forall q :: 0 <= q < |before| ==>
      after[q].owner == before[q].owner && after[q].timestamp == before[q].timestamp
  }

  function SetFollowers(db: Db, t: UserId, followers: set<UserId>): Db
    requires t < |db.users|
  {
    db.(users := db.users[t := db.users[t].(followers := followers)])
  }

  function SetPost(db: Db, p: PostId, post: Post): Db
    requires p < |db.posts|
  {
    db.(posts := db.posts[p := post])
  }

  /** `Post.objects.get(pk=postId)` succeeds. */
  predicate PostExists(db: Db, postId: Option<int>) {
    postId.Some? && 0 <= postId.value < |db.posts|
  }

  /** What the post lookup raises when it does not succeed. */
  function MissingPost(postId: Option<int>): Exception {
    if postId.None? then InvalidPostId else PostDoesNotExist
  }

  /** `follow_user`: the caller starts or stops following `username`. The
      handler does not require a signed-in caller (`caller` is None for an
      anonymous one) and does not stop a user from following themself. */
  function FollowUser(db: Db, caller: Option<UserId>, username: string): (r: Outcome)
    requires Valid(db) && (caller.Some? ==> caller.value < |db.users|)
    ensures Valid(r.db) && r.db.posts == db.posts && SameUsernames(db.users, r.db.users)
    ensures r.response.Raised? ==> r.db == db
    ensures r.response == Raised(UserDoesNotExist) <==>
              forall u :: 0 <= u < |db.users| ==> db.users[u].username != username
    ensures r.response == Raised(AnonymousUser) <==>
              caller.None? && exists u :: 0 <= u < |db.users| && db.users[u].username == username
    ensures forall t :: 0 <= t < |db.users| && db.users[t].username == username && caller.Some? ==>
              && FollowEdgeFlipped(db.users, r.db.users, caller.value, t)
              && r.response == Json(200, Message(username +
                   if caller.value in db.users[t].followers then " unfollowed!" else " followed!"))
  {
    match FindByUsername(db.users, username)
    case None => Outcome(db, Raised(UserDoesNotExist))
    case Some(t) =>
      var followers := db.users[t].followers;
      if caller.Some? && caller.value in followers then
        Outcome(SetFollowers(db, t, followers - {caller.value}), Json(200, Message(username + " unfollowed!")))
      else if caller.None? then
        Outcome(db, Raised(AnonymousUser))
      else
        Outcome(SetFollowers(db, t, followers + {caller.value}), Json(200, Message(username + " followed!")))
  }

  /** `like_post`: on a PUT, the caller starts or stops liking the post
      named by the payload, and the response reports whether they now like
      it. Any other method is refused with 400. */
  function LikePost(db: Db, caller: UserId, verb: string, payload: Payload): (r: Outcome)
    requires Valid(db) && caller < |db.users|
    ensures Valid(r.db) && r.db.users == db.users && |r.db.posts| == |db.posts|
    ensures !Succeeded(r.response) ==> r.db == db
    ensures verb != "PUT" <==> r.response == Json(400, Error("Must be PUT method"))
    ensures verb == "PUT" && !PostExists(db, payload.postId) ==>
              r.response == Raised(MissingPost(payload.postId))
    ensures verb == "PUT" && PostExists(db, payload.postId) ==>
              var p: PostId := payload.postId.value;
              && LikeEdgeFlipped(db.posts, r.db.posts, caller, p)
              && (caller in r.db.posts[p].likes <==> caller !in db.posts[p].likes)
              && r.response == Json(200, Liked(caller in r.db.posts[p].likes))
  {
    if verb == "PUT" then
      if !PostExists(db, payload.postId) then Outcome(db, Raised(MissingPost(payload.postId)))
      else
        var p: PostId := payload.postId.value;
        var post := db.posts[p];
        if caller in post.likes then
          Outcome(SetPost(db, p, post.(likes := post.likes - {caller})), Json(200, Liked(false)))
        else
          Outcome(SetPost(db, p, post.(likes := post.likes + {caller})), Json(200, Liked(true)))
    else
      Outcome(db, Json(400, Error("Must be PUT method")))
  }

  /** `edit_post`: on a PUT, the owner of the post named by the payload
      replaces its content (a payload without "content" empties it); any
      other caller is refused with 403 and any other method with 400. The
      handler compares usernames, which identify users. */
  function EditPost(db: Db, caller: UserId, verb: string, payload: Payload): (r: Outcome)
    requires Valid(db) && caller < |db.users|
    ensures Valid(r.db) && r.db.users == db.users
    ensures |r.db.posts| == |db.posts| && PostsKept(db.posts, r.db.posts)
    ensures !Succeeded(r.response) ==> r.db == db
    ensures verb != "PUT" <==> r.response == Json(400, Error("Must be PUT method"))
    ensures verb == "PUT" && !PostExists(db, payload.postId) ==>
              r.response == Raised(MissingPost(payload.postId))
    ensures verb == "PUT" && PostExists(db, payload.postId) ==>
              var p: PostId := payload.postId.value;
              if caller != db.posts[p].owner then
                r.response == Json(403, Error("Can't edit another user's post"))
              else
                && r.response == Json(200, Message("Post edited!"))
                && r.db.posts == db.posts[p := db.posts[p].(content := payload.content.GetOr(""))]
  {
    if verb == "PUT" then
      if !PostExists(db, payload.postId) then Outcome(db, Raised(MissingPost(payload.postId)))
      else
        var p: PostId := payload.postId.value;
        var post := db.posts[p];
        assert PostRefsIn(post, |db.users|);
        UsernameIdentifies(db.users, caller, post.owner);
        if db.users[caller].username != db.users[post.owner].username then
          Outcome(db, Json(403, Error("Can't edit another user's post")))
        else
          Outcome(SetPost(db, p, post.(content := payload.content.GetOr(""))), Json(200, Message("Post edited!")))
    else
      Outcome(db, Json(400, Error("Must be PUT method")))
  }

  /** `new_post`: a POST with a non-empty "content" adds one post owned by
      the caller, with no likes and created at `now`; a request with another
      method, or with a missing or empty content, is refused with 400. */
  function NewPost(db: Db, caller: UserId, verb: string, payload: Payload, now: int): (r: Outcome)
    requires Valid(db) && caller < |db.users|
    ensures Valid(r.db) && r.db.users == db.users && PostsKept(db.posts, r.db.posts)
    ensures r.response.Json?
    ensures r.response.status == 400 <==> verb != "POST" || payload.content.GetOr("") == ""
    ensures r.response.status == 400 ==> r.db == db
    ensures verb != "POST" ==> r.response.body == Error("POST request required.")
    ensures verb == "POST" && payload.content.GetOr("") == "" ==>
              r.response == Json(400, Error("The post must have content"))
    ensures r.response.status != 400 ==>
              && r.response == Json(200, Message("Post got published successfully!"))
              && r.db.posts == db.posts + [Post(caller, payload.content.GetOr(""), {}, now)]
  {
    if verb != "POST" then
      Outcome(db, Json(400, Error("POST request required.")))
    else if payload.content.GetOr("") == "" then
      Outcome(db, Json(400, Error("The post must have content")))
    else
      var post := Post(caller, payload.content.GetOr(""), {}, now);
      Outcome(db.(posts := db.posts + [post]), Json(200, Message("Post got published successfully!")))
  }

  /** `index`: every post once, newest first. */
  function Index(db: Db): (r: seq<PostId>)
    ensures NewestFirst(db.posts, r)
    ensures forall p: PostId :: multiset(r)[p] == if p < |db.posts| then 1 else 0
    ensures forall p: PostId :: p in r <==> p < |db.posts|
  {
    var r := SortNewestFirst(db.posts, |db.posts|);
    assert forall p: PostId :: p in r <==> p in multiset(r);
    r
  }

  /** The users whose username is `name` (at most one). */
  function Named(users: seq<User>, name: string): set<UserId> {
    set u | 0 <= u < |users| && users[u].username == name
  }

  datatype Profile = Profile(target: UserId, posts: seq<PostId>) | ProfileRaised(exc: Exception)

  /** `user_page`: the named user and their posts, newest first. */
  function UserPage(db: Db, username: string): (r: Profile)
    requires Valid(db)
    ensures r.ProfileRaised? <==> forall u :: 0 <= u < |db.users| ==> db.users[u].username != username
    ensures r.ProfileRaised? ==> r.exc == UserDoesNotExist
    ensures r.Profile? ==>
              && r.target < |db.users| && db.users[r.target].username == username
              && IsSubsequence(r.posts, Index(db))
              && NewestFirst(db.posts, r.posts)
              && forall p: PostId :: p in r.posts <==> p < |db.posts| && db.posts[p].owner == r.target
  {
    match FindByUsername(db.users, username)
    case None => ProfileRaised(UserDoesNotExist)
    case Some(t) =>
      var all := Index(db);
      var posts := Select(db.posts, Named(db.users, username), all);
      assert forall p: PostId :: p < |db.posts| ==> (db.posts[p].owner in Named(db.users, username) <==> db.posts[p].owner == t) by {
        forall p: PostId | p < |db.posts|
          ensures db.posts[p].owner in Named(db.users, username) <==> db.posts[p].owner == t
        {
          assert PostRefsIn(db.posts[p], |db.users|);
        }
      }
      Profile(t, posts)
  }

  /** `following`: the posts, newest first, whose owner the caller follows. */
  function FollowingFeed(db: Db, caller: UserId): (r: seq<PostId>)
    requires Valid(db) && caller < |db.users|
    ensures IsSubsequence(r, Index(db))
    ensures NewestFirst(db.posts, r)
    ensures forall p: PostId :: p in r <==>
              p < |db.posts| && caller in db.users[db.posts[p].owner].followers
  {
    var all := Index(db);
    var r := Select(db.posts, FollowingSet(db.users, caller), all);
    assert forall p: PostId :: p < |db.posts| ==> PostRefsIn(db.posts[p], |db.users|);
    r
  }
}
