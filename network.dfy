/**
  The store as the handlers see it: a user table and a post table that the
  handlers update in place. Each method does what its handler in `Views`
  describes, and keeps the database's integrity constraints.
 */
module Store {
  import opened Models
  import opened Queries
  import Views

  class Network {
    var users: seq<User>
    var posts: seq<Post>

    function State(): Db
      reads this
    {
      Db(users, posts)
    }

    predicate Valid()
      reads this
    {
      Models.Valid(State())
    }

    /** A store holding the users that registered (registration itself is
        not modelled) and the posts written so far. */
    constructor (db: Db)
      requires Models.Valid(db)
      ensures Valid() && State() == db
    {
      users, posts := db.users, db.posts;
    }

    /** `follow_user`. */
    method FollowUser(caller: Option<UserId>, username: string) returns (response: Views.Response)
      requires Valid() && (caller.Some? ==> caller.value < |users|)
      modifies this
      ensures Valid()
      ensures Views.Outcome(State(), response) == Views.FollowUser(old(State()), caller, username)
    {
      var target := FindByUsername(users, username);
      if target.None? {
        return Views.Raised(Views.UserDoesNotExist);
      }
      var t := target.value;
      if caller.Some? && caller.value in users[t].followers {
        users := users[t := users[t].(followers := users[t].followers - {caller.value})];
        return Views.Json(200, Views.Message(username + " unfollowed!"));
      }
      if caller.None? {
        return Views.Raised(Views.AnonymousUser);
      }
      users := users[t := users[t].(followers := users[t].followers + {caller.value})];
      response := Views.Json(200, Views.Message(username + " followed!"));
    }

    /** `like_post`. */
    method LikePost(caller: UserId, verb: string, payload: Views.Payload) returns (response: Views.Response)
      requires Valid() && caller < |users|
      modifies this
      ensures Valid()
      ensures Views.Outcome(State(), response) == Views.LikePost(old(State()), caller, verb, payload)
    {
      if verb != "PUT" {
        return Views.Json(400, Views.Error("Must be PUT method"));
      }
      if !Views.PostExists(State(), payload.postId) {
        return Views.Raised(Views.MissingPost(payload.postId));
      }
      var p: PostId := payload.postId.value;
      if caller in posts[p].likes {
        posts := posts[p := posts[p].(likes := posts[p].likes - {caller})];
        return Views.Json(200, Views.Liked(false));
      }
      posts := posts[p := posts[p].(likes := posts[p].likes + {caller})];
      response := Views.Json(200, Views.Liked(true));
    }

    /** `edit_post`. */
    method EditPost(caller: UserId, verb: string, payload: Views.Payload) returns (response: Views.Response)
      requires Valid() && caller < |users|
      modifies this
      ensures Valid()
      ensures Views.Outcome(State(), response) == Views.EditPost(old(State()), caller, verb, payload)
    {
      if verb != "PUT" {
        return Views.Json(400, Views.Error("Must be PUT method"));
      }
      var content := payload.content.GetOr("");
      if !Views.PostExists(State(), payload.postId) {
        return Views.Raised(Views.MissingPost(payload.postId));
      }
      var p: PostId := payload.postId.value;
      if users[caller].username != users[posts[p].owner].username {
        return Views.Json(403, Views.Error("Can't edit another user's post"));
      }
      posts := posts[p := posts[p].(content := content)];
      response := Views.Json(200, Views.Message("Post edited!"));
    }

    /** `new_post`; `now` is the clock reading the database stores as the
        creation timestamp. */
    method NewPost(caller: UserId, verb: string, payload: Views.Payload, now: int) returns (response: Views.Response)
      requires Valid() && caller < |users|
      modifies this
      ensures Valid()
      ensures Views.Outcome(State(), response) == Views.NewPost(old(State()), caller, verb, payload, now)
    {
      if verb != "POST" {
        return Views.Json(400, Views.Error("POST request required."));
      }
      if payload.content.GetOr("") == "" {
        return Views.Json(400, Views.Error("The post must have content"));
      }
      posts := posts + [Post(caller, payload.content.GetOr(""), {}, now)];
      response := Views.Json(200, Views.Message("Post got published successfully!"));
    }

    /** The `following` view (not the `following` accessor of a user, which
        is `Models.FollowingSet`): scans every post, newest first, and keeps those whose
        owner is among the users the caller follows. */
    method Following(caller: UserId) returns (feed: seq<PostId>)
      requires Valid() && caller < |users|
      ensures feed == Views.FollowingFeed(State(), caller)
      ensures IsSubsequence(feed, Views.Index(State()))
      ensures forall p: PostId :: p in feed <==> p < |posts| && caller in users[posts[p].owner].followers
    {
      var all := Views.Index(State());
      var followed := Models.FollowingSet(users, caller);
      feed := [];
      var i := 0;
      while i < |all|
        invariant 0 <= i <= |all|
        invariant feed == Select(posts, followed, all[..i])
      {
        assert all[..i + 1][..i] == all[..i];
        if posts[all[i]].owner in followed {
          feed := feed + [all[i]];
        }
        i := i + 1;
      }
      assert all[..|all|] == all;
    }
  }
}
