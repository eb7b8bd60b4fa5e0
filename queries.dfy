/**
  The two query primitives the views use: ordering posts by creation
  timestamp, newest first (`order_by("-timestamp")`), and keeping the
  posts whose owner is in a given set (`filter(...)`). A query result is a
  sequence of post ids.
 */
module Queries {
  import opened Models

  predicate IdsIn(s: seq<PostId>, n: nat) {
    forall i :: 0 <= i < |s| ==> s[i] < n
  }

  /** `s` names posts of `posts`, in non-increasing order of timestamp. */
  predicate NewestFirst(posts: seq<Post>, s: seq<PostId>) {
    IdsIn(s, |posts|) &&
    forall i, j :: 0 <= i < j < |s| ==> posts[s[i]].timestamp >= posts[s[j]].timestamp
  }

  /** `a` is `b` with some elements left out, the rest in the same order. */
  predicate IsSubsequence(a: seq<PostId>, b: seq<PostId>)
    decreases |b|
  {
    a == [] ||
    (b != [] &&
     ((a[|a| - 1] == b[|b| - 1] && IsSubsequence(a[..|a| - 1], b[..|b| - 1])) ||
      IsSubsequence(a, b[..|b| - 1])))
  }

  lemma {:induction false} SubsequenceMembers(a: seq<PostId>, b: seq<PostId>)
    requires IsSubsequence(a, b)
    ensures forall x :: x in a ==> x in b
    decreases |b|
  {
    if a != [] {
      var b' := b[..|b| - 1];
      assert b == b' + [b[|b| - 1]];
      if a[|a| - 1] == b[|b| - 1] && IsSubsequence(a[..|a| - 1], b') {
        SubsequenceMembers(a[..|a| - 1], b');
        assert a == a[..|a| - 1] + [a[|a| - 1]];
      } else {
        SubsequenceMembers(a, b');
      }
    }
  }

  /** Prepending a post no older than every post of a newest-first
      sequence keeps it newest first. */
  lemma PrependNewestFirst(posts: seq<Post>, x: PostId, s: seq<PostId>)
    requires x < |posts| && NewestFirst(posts, s)
    requires forall y :: y in s ==> posts[y].timestamp <= posts[x].timestamp
    ensures NewestFirst(posts, [x] + s)
  {
  }

  /** The head of a newest-first sequence is at least as new as every post in it. */
  lemma HeadIsNewest(posts: seq<Post>, s: seq<PostId>)
    requires NewestFirst(posts, s)
    ensures s != [] ==> forall y :: y in s ==> posts[y].timestamp <= posts[s[0]].timestamp
  {
    forall y | y in s ensures posts[y].timestamp <= posts[s[0]].timestamp {
      var k :| 0 <= k < |s| && s[k] == y;
      assert k == 0 || posts[s[0]].timestamp >= posts[s[k]].timestamp;
    }
  }

  /** What `Insert` builds behind the head of `s` holds no post newer than that head. */
  lemma BehindHead(posts: seq<Post>, id: PostId, s: seq<PostId>, rest: seq<PostId>)
    requires s != [] && NewestFirst(posts, s) && IdsIn(rest, |posts|)
    requires id < |posts| && posts[id].timestamp < posts[s[0]].timestamp
    requires multiset(rest) == multiset(s[1..]) + multiset{id}
    ensures forall y :: y in rest ==> posts[y].timestamp <= posts[s[0]].timestamp
  {
    HeadIsNewest(posts, s);
    assert s == [s[0]] + s[1..];
    forall y | y in rest ensures posts[y].timestamp <= posts[s[0]].timestamp {
      assert y in multiset(rest);
    }
  }

  /** Places post `id` into the newest-first sequence `s`, in front of the
      first post that is not newer than it. */
  function Insert(posts: seq<Post>, id: PostId, s: seq<PostId>): (r: seq<PostId>)
    requires id < |posts| && NewestFirst(posts, s)
    ensures NewestFirst(posts, r)
    ensures multiset(r) == multiset(s) + multiset{id}
  {
    if s == [] || posts[id].timestamp >= posts[s[0]].timestamp then
      HeadIsNewest(posts, s);
      PrependNewestFirst(posts, id, s);
      [id] + s
    else
      assert s == [s[0]] + s[1..];
      var rest := Insert(posts, id, s[1..]);
      BehindHead(posts, id, s, rest);
      PrependNewestFirst(posts, s[0], rest);
      assert multiset([s[0]] + rest) == multiset{s[0]} + multiset(rest);
      [s[0]] + rest
  }

  /** `order_by("-timestamp")` over the first `n` posts: every one of them
      exactly once, newest first. Posts created at the same time keep no
      particular order in the database; here the later-created one comes
      first. */
  function SortNewestFirst(posts: seq<Post>, n: nat): (r: seq<PostId>)
    requires n <= |posts|
    ensures NewestFirst(posts, r)
    ensures forall id: PostId :: multiset(r)[id] == if id < n then 1 else 0
  {
    if n == 0 then []
    else
      var newest: PostId := n - 1;
      var prev := SortNewestFirst(posts, newest);
      var r := Insert(posts, newest, prev);
      CountStep(prev, r, newest);
      r
  }

  lemma CountStep(prev: seq<PostId>, r: seq<PostId>, newest: PostId)
    requires forall id: PostId :: multiset(prev)[id] == if id < newest then 1 else 0
    requires multiset(r) == multiset(prev) + multiset{newest}
    ensures forall id: PostId :: multiset(r)[id] == if id < newest + 1 then 1 else 0
  {
  }

  /** `filter(...)` over the ordered sequence `s`: the posts of `s` whose
      owner is in `owners`, in the order of `s`. */
  function Select(posts: seq<Post>, owners: set<UserId>, s: seq<PostId>): (r: seq<PostId>)
    requires IdsIn(s, |posts|)
    ensures IdsIn(r, |posts|)
    ensures IsSubsequence(r, s)
    ensures forall x :: x in r <==> x in s && posts[x].owner in owners
    ensures NewestFirst(posts, s) ==> NewestFirst(posts, r)
  {
    if s == [] then []
    else
      var init, last := s[..|s| - 1], s[|s| - 1];
      assert s == init + [last];
      var kept := Select(posts, owners, init);
      if posts[last].owner in owners then
        var r := kept + [last];
        assert r[..|r| - 1] == kept && r[|r| - 1] == last;
        assert s[..|s| - 1] == init;
        SelectNewestFirst(posts, s, kept, last);
        r
      else
        assert s[..|s| - 1] == init;
        assert NewestFirst(posts, s) ==> NewestFirst(posts, init) by {
          if NewestFirst(posts, s) {
            forall i, j | 0 <= i < j < |init| ensures posts[init[i]].timestamp >= posts[init[j]].timestamp {
              assert init[i] == s[i] && init[j] == s[j];
            }
          }
        }
        kept
  }

  /** The step of `Select` that keeps the last post of `s`. */
  lemma SelectNewestFirst(posts: seq<Post>, s: seq<PostId>, kept: seq<PostId>, last: PostId)
    requires s != [] && last == s[|s| - 1] && IdsIn(kept, |posts|)
    requires forall x :: x in kept ==> x in s[..|s| - 1]
    requires NewestFirst(posts, s[..|s| - 1]) ==> NewestFirst(posts, kept)
    ensures NewestFirst(posts, s) ==> NewestFirst(posts, kept + [last])
  {
    if NewestFirst(posts, s) {
      var init := s[..|s| - 1];
      forall i, j | 0 <= i < j < |init| ensures posts[init[i]].timestamp >= posts[init[j]].timestamp {
        assert init[i] == s[i] && init[j] == s[j];
      }
      var r := kept + [last];
      forall i, j | 0 <= i < j < |r| ensures posts[r[i]].timestamp >= posts[r[j]].timestamp {
        if j == |r| - 1 {
          assert r[i] == kept[i] && kept[i] in kept;
          var k :| 0 <= k < |init| && init[k] == r[i];
          assert init[k] == s[k];
        } else {
          assert r[i] == kept[i] && r[j] == kept[j];
        }
      }
    }
  }
}
