# Network: a verified model of the social graph and post handlers

This project models the core of a small social-network web application.
Users follow each other and like posts. Posts have an owner, a content, a set
of likes and a creation timestamp. The request handlers toggle follow and like
edges, create and edit posts, and list posts in three feeds: all posts, one
user's posts, and the posts of the users the caller follows.

The store is two tables, `users: seq<User>` and `posts: seq<Post>`. A row's
primary key is its position in its table. `Models.Valid` states what the
database guarantees in every state: usernames are unique, and every follower,
owner and like names an existing user.

Modules:

- `Models` (`models.dfy`): the user and post rows, the integrity constraints,
  the reverse `following` accessor (`FollowingSet`), lookup by username, and `serialize`.
- `Queries` (`queries.dfy`): the two ORM queries the views use.
  `SortNewestFirst` is `order_by("-timestamp")`. `Select` is `filter(...)` by
  owner. The module also defines `IsSubsequence`.
- `Views` (`views.dfy`): each handler as a function from the store and the
  request to the new store and the response. The request is the caller, the
  HTTP verb and the already-parsed JSON payload.
- `Store` (`network.dfy`): class `Network`, whose fields are the two tables.
  Its methods update the tables in place, in the order the handlers do. Each
  method's postcondition ties the new state and the response to the matching
  `Views` function. `Network.Following` is the handler's loop over all posts.
- `ViewsProperties` (`properties.dfy`): lemmas that relate several calls, or a
  handler and a feed.

In the source, a lookup of a missing username or post id raises an exception
(`DoesNotExist`, or `ValueError` when the payload has no "postId") that no
handler catches, so the framework answers with a server error. The model
returns it as `Raised(exc)` and leaves the store unchanged.

`follow_user` has no `login_required` (network/views.py:131-133). The model
therefore gives `FollowUser` an optional caller. For an anonymous caller, the
membership test is false and adding the edge raises (`AnonymousUser`).

## Model

| member | source | states |
|---|---|---|
| `Models.FindByUsername` | network/views.py:133 | Returns a user whose username is the given one. Returns None exactly when no user has that name. With unique usernames, the result is the only user with that name. |
| `Models.UsernameIdentifies` | network/models.py:5 | With unique usernames, two users have the same username exactly when they are the same user. |
| `Models.SerializeIdentifiesOwner` | network/models.py:14-21 | Two serialized posts report the same user name exactly when the posts have the same owner. |
| `Queries.SortNewestFirst` | network/views.py:14 | The ordering puts the posts in non-increasing timestamp order. Every post id occurs exactly once, and no other id occurs. |
| `Queries.Select` | network/views.py:27 | The owner filter returns the posts of the input whose owner is in the set, and no others. The order is kept: the result is a subsequence of the input, and a newest-first input gives a newest-first result. |
| `Views.FollowUser` | network/views.py:131-146 | Unknown username: raises, store unchanged. Anonymous caller: raises, store unchanged. Otherwise exactly the caller-to-target edge flips, including a self-edge, and nothing else changes. The message says "unfollowed!" when the edge was there before and "followed!" when it was not. Integrity is kept. |
| `Views.LikePost` | network/views.py:171-193 | A verb other than PUT gives 400 and exactly then. An absent post id or an unknown post raises. On success, exactly the caller's like on that post flips, no other post field changes, and the response's `liked` is the new membership. Only a 200 response changes the store. |
| `Views.EditPost` | network/views.py:148-167 | A verb other than PUT gives 400 and exactly then. An absent post id or an unknown post raises. A caller other than the owner gets 403 and the store is unchanged. The owner gets 200, and the content becomes the payload's content, or "" when it has none. Owners and timestamps of all posts are kept. |
| `Views.NewPost` | network/views.py:107-129 | The response is 400 exactly when the verb is not POST ("POST request required.") or the content is missing or empty ("The post must have content"), and then the store is unchanged. Otherwise it is 200 and exactly one post is appended: owned by the caller, with the given content, no likes and timestamp `now`. Existing posts are kept. |
| `Views.Index` | network/views.py:13-14 | The global feed lists every post exactly once, newest first. |
| `Views.UserPage` | network/views.py:23-27 | Raises exactly when no user has the username. Otherwise it returns that user and exactly the posts they own, newest first, as a subsequence of the global feed. |
| `Views.FollowingFeed` | network/views.py:37-47 | Exactly the posts whose owner the caller follows, newest first, as a subsequence of the global feed. |
| `Store.Network.FollowUser` | network/views.py:131-146 | The in-place update leaves the tables and the response equal to `Views.FollowUser` of the old tables, and keeps integrity. |
| `Store.Network.LikePost` | network/views.py:171-193 | The in-place update leaves the tables and the response equal to `Views.LikePost` of the old tables, and keeps integrity. |
| `Store.Network.EditPost` | network/views.py:148-167 | The in-place update leaves the tables and the response equal to `Views.EditPost` of the old tables, and keeps integrity. |
| `Store.Network.NewPost` | network/views.py:107-129 | Appending the post leaves the tables and the response equal to `Views.NewPost` of the old tables, and keeps integrity. |
| `Store.Network.Following` | network/views.py:38-47 | The loop's result equals `Views.FollowingFeed`. It is a subsequence of the global feed and holds exactly the posts of followed owners. |
| `ViewsProperties.FollowTwiceRestores` | network/views.py:136-146 | Two consecutive follow calls by the same caller on the same user restore the store exactly. One answers "followed!" and the other "unfollowed!". |
| `ViewsProperties.FollowParity` | network/views.py:136-146 | After n follow calls, the edge is present exactly when it was present initially XOR n is odd. Every other edge is unchanged. |
| `ViewsProperties.FollowIsDirected` | network/models.py:6 | When a starts following b, a becomes one of b's followers, and whether b follows a does not change. |
| `ViewsProperties.SelfFollowAllowed` | network/views.py:132-146 | A user who does not follow themself and calls follow on their own name gets "followed!" and becomes their own follower. |
| `ViewsProperties.FollowUpdatesFollowing` | network/models.py:6 | `following` is the reverse of `followers`. A follow call by c on t flips t in the set c follows and leaves every other user's set unchanged. |
| `ViewsProperties.FeedAfterFollow` | network/views.py:43-47 | After a follow call by c on t, a post is in c's following feed exactly when it was before XOR t owns it. |
| `ViewsProperties.LikeTwiceRestores` | network/views.py:181-191 | Two consecutive like calls restore the store exactly. One answers `liked: true` and the other `liked: false`. |
| `ViewsProperties.LikeParity` | network/views.py:181-191 | After n like calls, the caller likes the post exactly when they did initially XOR n is odd. Every other like and every other post field is unchanged. |
| `ViewsProperties.LikeCountStep` | network/models.py:11 | Likes are a set, so a like call changes the post's like count by exactly one: down if the caller already liked it, up if not. |
| `ViewsProperties.SerializeAfterEdit` | network/models.py:14-21 | After the owner edits a post, `serialize` reports the same id, user and likes, and the new content. |
| `ViewsProperties.PostHasOneOwner` | network/models.py:9 | Each user's page exists and shows the user themself. A post is on a user's page exactly when that user owns it, so every post has exactly one owner. |
| `ViewsProperties.FirstPostScenario` | network/views.py:122-129 | In an empty post table, a first post "hello" makes the global feed exactly that one post: owned by the caller, content "hello", no likes. |

## Left out

- `login_view`, `logout_view` and `register` are not modelled: authentication, sessions and registration belong to the framework. The store starts from a given user table (the `Network` constructor).
- The `login_required` and `csrf_exempt` decorators are not modelled. A decorated handler's caller is a given existing user. `follow_user`, which has no `login_required`, takes an optional caller.
- The model keeps no template rendering, `HttpResponse`, redirects, or the page object passed to the templates. A feed is the full ordered sequence of post ids.
- Pagination (`Paginator`, `get_page`) is library behaviour not visible in the source. It is not modelled.
- `json.loads` is not modelled: the payload is already parsed. `postId` is an integer or absent, and `content` is a string or absent. Other JSON types are not modelled, such as a post id sent as a string or a content that is a number.
- Persistence (`save`) and the database's concurrency control are not modelled. Each handler is one atomic step on the store.
- The clock is the `now` parameter of `NewPost`.
- Ids are positions starting at 0. The database's auto-increment keys start at 1; the model does not track that offset.
- Posts with equal timestamps come out in no particular order from the database. `Queries.SortNewestFirst` puts the later-created one first.
- A raised lookup error is recorded by its kind, not as an HTTP status code: the framework's answer to an uncaught exception is outside the source.
- `Models.Serialize` does not format the timestamp with `strftime`. It reports the likes as the set of user ids.
- `network/static/network/index.js` (browser code) and `network/urls.py` (the routing table) are not part of this model.
