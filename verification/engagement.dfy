/**
 * The write paths that change counters: registering a like
 * (`POST /post/addlike/:postId`) and adding a comment or a reply.
 */
module Engagement {
  import opened Common
  import opened Models

  /** A user keeps at most this many liked post ids, the most recent ones. */
  const MaxLikesKept: nat := 4000

  /** `$slice: -n`: the last `n` entries. */
  function KeepLast<T>(s: seq<T>, n: nat): (r: seq<T>)
    ensures |r| == Min(|s|, n)
    ensures r == s[|s| - |r|..]
  {
    if |s| > n then s[|s| - n..] else s
  }

  datatype LikeReply = LikeReply(status: int, count: Option<int>, users: map<string, User>, posts: map<string, Post>, refreshCaches: bool)

  /**
   * `POST /post/addlike/:postId` by the session user `session` (`None` when
   * not logged in). Without a session: 401. Unknown post: 404. The like is
   * appended only when the user record exists and does not already hold the
   * post id; then the list keeps its last 4000 entries, the post's count
   * rises by one and a cache refresh runs before the 200 reply. Otherwise the
   * reply is 400 and nothing changes.
   */
  function AddLike(session: Option<string>, users: map<string, User>, posts: map<string, Post>, postId: string): (r: LikeReply)
    ensures session.None? ==> r.status == 401 && r.users == users && r.posts == posts
    ensures session.Some? && postId !in posts ==> r.status == 404 && r.users == users && r.posts == posts
    ensures session.Some? && postId in posts && (session.value !in users || postId in LikesOf(users[session.value])) ==>
              r.status == 400 && r.users == users && r.posts == posts && !r.refreshCaches
    ensures r.status == 200 <==>
              session.Some? && postId in posts && session.value in users && postId !in LikesOf(users[session.value])
    ensures r.status == 200 ==>
              var uid := session.value;
              && r.refreshCaches
              && r.count == Some(posts[postId].likes + 1)
              && r.posts == posts[postId := posts[postId].(likes := posts[postId].likes + 1)]
              && uid in r.users && r.users == users[uid := r.users[uid]]
              && r.users[uid] == users[uid].(likes := Some(KeepLast(LikesOf(users[uid]) + [postId], MaxLikesKept)))
  {
    if session.None? then LikeReply(401, None, users, posts, false)
    else if postId !in posts then LikeReply(404, None, users, posts, false)
    else
      var uid := session.value;
      if uid !in users || postId in LikesOf(users[uid]) then LikeReply(400, None, users, posts, false)
      else
        var u := users[uid];
        var p := posts[postId];
        var u' := u.(likes := Some(KeepLast(LikesOf(u) + [postId], MaxLikesKept)));
        var p' := p.(likes := p.likes + 1);
        LikeReply(200, Some(p'.likes), users[uid := u'], posts[postId := p'], true)
  }

  predicate NoDuplicates<T(==)>(s: seq<T>) {
    forall i, j :: 0 <= i < j < |s| ==> s[i] != s[j]
  }

  /**
   * The like list stays bounded by 4000 and free of duplicates, and after a
   * successful like it ends in the new post id.
   */
  lemma LikeKeepsListWellFormed(session: Option<string>, users: map<string, User>, posts: map<string, Post>, postId: string)
    requires session.Some? && session.value in users
    requires NoDuplicates(LikesOf(users[session.value])) && |LikesOf(users[session.value])| <= MaxLikesKept
    ensures var r := AddLike(session, users, posts, postId);
      var after := LikesOf(r.users[session.value]);
      && |after| <= MaxLikesKept
      && NoDuplicates(after)
      && (r.status == 200 ==> |after| > 0 && after[|after| - 1] == postId && postId in after)
  {
    var r := AddLike(session, users, posts, postId);
    var before := LikesOf(users[session.value]);
    if r.status == 200 {
      var ext := before + [postId];
      assert NoDuplicates(ext) by {
        forall i, j | 0 <= i < j < |ext| ensures ext[i] != ext[j] {
          if j == |before| { assert ext[i] == before[i]; }
        }
      }
      var after := KeepLast(ext, MaxLikesKept);
      assert after == ext[|ext| - |after|..];
      forall i, j | 0 <= i < j < |after| ensures after[i] != after[j] {
        assert after[i] == ext[|ext| - |after| + i] && after[j] == ext[|ext| - |after| + j];
      }
      assert after[|after| - 1] == ext[|ext| - 1];
    } else {
      assert r.users == users;
    }
  }

  /** A reply stored inside a comment. */
  datatype Reply = Reply(username: string, content: string)

  /** A stored comment and its replies. */
  datatype Comment = Comment(postId: string, author: string, body: string, subBody: seq<Reply>)

  /** The posts and comments that the comment handlers touch. */
  datatype Board = Board(posts: map<string, Post>, comments: map<string, Comment>)

  /** `Post.findByIdAndUpdate(id, {$inc: {comments: 1}})`; a missing post is left missing. */
  function IncrementComments(posts: map<string, Post>, postId: string): (r: map<string, Post>)
    ensures r.Keys == posts.Keys
    ensures postId in posts ==> r[postId] == posts[postId].(comments := posts[postId].comments + 1)
    ensures forall id :: id in posts && id != postId ==> r[id] == posts[id]
  {
    if postId in posts then posts[postId := posts[postId].(comments := posts[postId].comments + 1)] else posts
  }

  datatype BoardReply = BoardReply(status: int, board: Board)

  /**
   * `POST /post/comments/:postId/new`: stores the comment under the fresh id
   * and raises the post's comment count by one, then redirects (302). Reading
   * the author from a missing session throws before anything is saved (500).
   */
  function NewComment(b: Board, postId: string, session: Option<string>, body: string, newId: string): (r: BoardReply)
    requires newId !in b.comments
    ensures session.None? ==> r == BoardReply(500, b)
    ensures session.Some? ==>
              && r.status == 302
              && r.board.comments == b.comments[newId := Comment(postId, session.value, body, [])]
              && r.board.posts == IncrementComments(b.posts, postId)
  {
    if session.None? then BoardReply(500, b)
    else
      var c := Comment(postId, session.value, body, []);
      BoardReply(302, Board(IncrementComments(b.posts, postId), b.comments[newId := c]))
  }

  /**
   * `POST /post/comments/:postId/reply`: a missing parent comment answers 404
   * and changes nothing; otherwise the reply is appended to the parent and the
   * post's comment count rises by one (302). The author is read from the
   * session after the parent lookup, so a missing session then answers 500.
   */
  function AddReply(b: Board, postId: string, parentId: string, session: Option<string>, body: string): (r: BoardReply)
    ensures parentId !in b.comments ==> r == BoardReply(404, b)
    ensures parentId in b.comments && session.None? ==> r == BoardReply(500, b)
    ensures parentId in b.comments && session.Some? ==>
              && r.status == 302
              && r.board.comments == b.comments[parentId := b.comments[parentId].(subBody := b.comments[parentId].subBody + [Reply(session.value, body)])]
              && r.board.posts == IncrementComments(b.posts, postId)
  {
    if parentId !in b.comments then BoardReply(404, b)
    else if session.None? then BoardReply(500, b)
    else
      var parent := b.comments[parentId];
      var parent' := parent.(subBody := parent.subBody + [Reply(session.value, body)]);
      BoardReply(302, Board(IncrementComments(b.posts, postId), b.comments[parentId := parent']))
  }

  function CommentCount(posts: map<string, Post>, postId: string): int {
    if postId in posts then posts[postId].comments else 0
  }

  /** Each stored comment or reply on an existing post raises its count by exactly one. */
  lemma CommentRaisesCountByOne(b: Board, postId: string, session: Option<string>, body: string, newId: string, parentId: string)
    requires newId !in b.comments && postId in b.posts && session.Some?
    ensures CommentCount(NewComment(b, postId, session, body, newId).board.posts, postId) == CommentCount(b.posts, postId) + 1
    ensures parentId in b.comments ==>
      CommentCount(AddReply(b, postId, parentId, session, body).board.posts, postId) == CommentCount(b.posts, postId) + 1
  {
  }
}
