/**
 * `GET /user/liked-posts`: the session user's liked posts, most recent like
 * first, one page at a time.
 *
 * The page bounds come from `parseInt(...) || default`, so they may be any
 * integer; the slice of the reversed like list follows JavaScript's
 * `Array.prototype.slice`, where a negative bound counts from the end.
 */
module LikedPosts {
  import opened Common
  import opened Models
  import opened Media
  import Retry

  const DefaultSkip: int := 0
  const DefaultLimit: int := 10

  /** `parseInt(text) || default`, where `parsed` is `None` for NaN. */
  function ParsedOr(parsed: Option<int>, default: int): (r: int)
    ensures parsed.None? ==> r == default
    ensures parsed.Some? && parsed.value == 0 ==> r == default
    ensures parsed.Some? && parsed.value != 0 ==> r == parsed.value
  {
    if parsed.Some? && parsed.value != 0 then parsed.value else default
  }

  /** A bound of `Array.prototype.slice` made relative to a list of length `len`. */
  function RelativeBound(bound: int, len: nat): (r: nat)
    ensures r <= len
    ensures bound >= 0 ==> r == Min(bound, len)
    ensures bound < 0 ==> r == Max(len + bound, 0)
  {
    if bound < 0 then (if len + bound > 0 then len + bound else 0)
    else if bound < len then bound else len
  }

  /** `s.slice(start, end)`. */
  function JsSlice<T>(s: seq<T>, start: int, end: int): (r: seq<T>)
    ensures var a := RelativeBound(start, |s|); var b := RelativeBound(end, |s|);
      r == if a < b then s[a..b] else []
  {
    var a := RelativeBound(start, |s|);
    var b := RelativeBound(end, |s|);
    if a < b then s[a..b] else []
  }

  /** For non-negative bounds the slice is the ordinary window. */
  lemma JsSliceNonNegative<T>(s: seq<T>, start: nat, count: nat)
    ensures JsSlice(s, start, start + count) == if start >= |s| then [] else s[start..Min(start + count, |s|)]
  {
  }

  /** `[...s].reverse()`. */
  function Reverse<T>(s: seq<T>): (r: seq<T>)
    ensures |r| == |s|
    ensures forall i :: 0 <= i < |s| ==> r[i] == s[|s| - 1 - i]
    decreases |s|
  {
    if |s| == 0 then [] else [s[|s| - 1]] + Reverse(s[..|s| - 1])
  }

  /**
   * `idx` lists, in increasing order, exactly the positions of `ids` that
   * name a stored post.
   */
  predicate StoredPositions(ids: seq<string>, store: map<string, Post>, idx: seq<nat>) {
    && (forall k :: 0 <= k < |idx| ==> idx[k] < |ids| && ids[idx[k]] in store)
    && (forall k, l :: 0 <= k < l < |idx| ==> idx[k] < idx[l])
    && (forall i :: 0 <= i < |ids| && ids[i] in store ==> i in idx)
  }

  /** The positions of `ids` that name a stored post. */
  ghost function Positions(ids: seq<string>, store: map<string, Post>): (idx: seq<nat>)
    ensures StoredPositions(ids, store, idx)
    decreases |ids|
  {
    if |ids| == 0 then []
    else
      var init := ids[..|ids| - 1];
      var p := Positions(init, store);
      assert forall k :: 0 <= k < |p| ==> ids[p[k]] == init[p[k]];
      assert forall i :: 0 <= i < |init| ==> ids[i] == init[i];
      p + (if ids[|ids| - 1] in store then [|ids| - 1] else [])
  }

  /**
   * `slicedIds.map(id => postMap[id]).filter(Boolean)`: the stored posts of
   * the selected ids, in the order of the ids; ids with no stored post are
   * dropped and nothing else is added.
   */
  function InIdOrder(ids: seq<string>, store: map<string, Post>): (r: seq<Post>)
    ensures |r| <= |ids|
    ensures (forall i :: 0 <= i < |ids| ==> ids[i] in store) ==>
              |r| == |ids| && forall i :: 0 <= i < |ids| ==> r[i] == store[ids[i]]
    ensures var idx := Positions(ids, store);
              |r| == |idx| && forall k :: 0 <= k < |r| ==> r[k] == store[ids[idx[k]]]
    decreases |ids|
  {
    if |ids| == 0 then []
    else
      var init := ids[..|ids| - 1];
      var last := ids[|ids| - 1];
      var rest := InIdOrder(init, store);
      var r := rest + (if last in store then [store[last]] else []);
      InIdOrderStep(ids, store, rest, r);
      if forall i :: 0 <= i < |ids| ==> ids[i] in store then
        AllStoredStep(ids, store, rest, r);
        r
      else r
  }

  /**
   * The liked posts follow the ids: there is an increasing choice of
   * positions, covering every id that has a stored post, whose posts are the
   * result one for one. So no stored id is dropped, none is repeated or
   * moved, and nothing else is added.
   */
  lemma InIdOrderKeepsStoredIds(ids: seq<string>, store: map<string, Post>)
    ensures var r := InIdOrder(ids, store);
      exists idx :: StoredPositions(ids, store, idx) && |idx| == |r|
                    && forall k :: 0 <= k < |r| ==> r[k] == store[ids[idx[k]]]
  {
    var idx := Positions(ids, store);
    assert StoredPositions(ids, store, idx);
  }

  /** The step of `InIdOrder` when every id is stored: the result stays one post per id. */
  lemma AllStoredStep(ids: seq<string>, store: map<string, Post>, rest: seq<Post>, r: seq<Post>)
    requires |ids| > 0 && forall i :: 0 <= i < |ids| ==> ids[i] in store
    requires var init := ids[..|ids| - 1];
               (forall i :: 0 <= i < |init| ==> init[i] in store) ==>
                 |rest| == |init| && forall i :: 0 <= i < |init| ==> rest[i] == store[init[i]]
    requires r == rest + [store[ids[|ids| - 1]]]
    ensures |r| == |ids| && forall i :: 0 <= i < |ids| ==> r[i] == store[ids[i]]
  {
    var init := ids[..|ids| - 1];
    forall i | 0 <= i < |init| ensures init[i] in store {
      assert init[i] == ids[i];
    }
    forall i | 0 <= i < |ids| ensures r[i] == store[ids[i]] {
      if i < |init| { assert r[i] == rest[i] && init[i] == ids[i]; }
    }
  }

  /** The step of `InIdOrder`: appending the last id's post (if stored) to the result for the others. */
  lemma InIdOrderStep(ids: seq<string>, store: map<string, Post>, rest: seq<Post>, r: seq<Post>)
    requires |ids| > 0
    requires var p := Positions(ids[..|ids| - 1], store);
               |rest| == |p| && forall k :: 0 <= k < |rest| ==> rest[k] == store[ids[..|ids| - 1][p[k]]]
    requires r == rest + (if ids[|ids| - 1] in store then [store[ids[|ids| - 1]]] else [])
    ensures var idx := Positions(ids, store);
              |r| == |idx| && forall k :: 0 <= k < |r| ==> r[k] == store[ids[idx[k]]]
  {
    var init := ids[..|ids| - 1];
    var p := Positions(init, store);
    var idx := Positions(ids, store);
    assert idx == p + (if ids[|ids| - 1] in store then [|ids| - 1] else []);
    forall k | 0 <= k < |r| ensures r[k] == store[ids[idx[k]]] {
      if k < |rest| {
        assert idx[k] == p[k] && p[k] < |init| && init[p[k]] == ids[p[k]];
      }
    }
  }

  datatype Pagination = Pagination(skip: int, limit: int, hasMore: bool)

  /** The outcomes of `/user/liked-posts`. */
  datatype LikedReply =
    | Unauthenticated                 // redirect (302) to the login page
    | UserNotFound                    // 404
    | NoLikes                         // the likes view with an empty post list
    | LikedPage(posts: seq<EnrichedPost>, pagination: Pagination)

  /** The ids shown on a page: the reversed like list sliced by JavaScript rules. */
  function SelectedIds(likes: seq<string>, skip: int, limit: int): seq<string> {
    JsSlice(Reverse(likes), skip, skip + limit)
  }

  /**
   * The handler: `session` is the logged-in user's id, `skipParam` and
   * `limitParam` the parsed query values, `store` the posts by id, `images`
   * the image records and `answers` the hosting service's answers to the
   * path lookups of each handle.
   */
  function LikedPostsPage(session: Option<string>, skipParam: Option<int>, limitParam: Option<int>,
                          users: map<string, User>, store: map<string, Post>, token: string,
                          images: seq<Image>, answers: string -> Retry.Answers<string>): (r: LikedReply)
    ensures session.None? <==> r == Unauthenticated
    ensures session.Some? && session.value !in users <==> r == UserNotFound
    ensures r == NoLikes <==> session.Some? && session.value in users && LikesOf(users[session.value]) == []
    ensures r.LikedPage? ==>
              var likes := LikesOf(users[session.value]);
              var skip := ParsedOr(skipParam, DefaultSkip);
              var limit := ParsedOr(limitParam, DefaultLimit);
              var ordered := InIdOrder(SelectedIds(likes, skip, limit), store);
              && PostsOf(r.posts) == ordered
              && r.pagination == Pagination(skip + limit, limit, |likes| > skip + limit)
              && |r.posts| == |ordered|
              && forall i :: 0 <= i < |r.posts| ==>
                   r.posts[i].images == ViewsOf(token, FeedProxy, ResolvedImages(images, ResolveByHandle(answers), ordered), ordered[i].id)
  {
    if session.None? then Unauthenticated
    else
      var skip := ParsedOr(skipParam, DefaultSkip);
      var limit := ParsedOr(limitParam, DefaultLimit);
      if session.value !in users then UserNotFound
      else
        var likes := LikesOf(users[session.value]);
        if |likes| == 0 then NoLikes
        else
          var ordered := InIdOrder(SelectedIds(likes, skip, limit), store);
          LikedPage(Enrich(token, images, ResolveByHandle(answers), ordered), Pagination(skip + limit, limit, |likes| > skip + limit))
  }

  /**
   * With non-negative bounds the page shows the likes from the `skip`-th most
   * recent on: the first id of the first page is the latest like, and a full
   * page holds `limit` ids.
   */
  lemma {:induction false} SelectedIdsNewestFirst(likes: seq<string>, skip: nat, limit: nat)
    requires limit > 0 && skip < |likes|
    ensures var ids := SelectedIds(likes, skip, limit);
      && |ids| == Min(limit, |likes| - skip)
      && (forall i :: 0 <= i < |ids| ==> ids[i] == likes[|likes| - 1 - skip - i])
      && (skip == 0 ==> ids[0] == likes[|likes| - 1])
  {
    var rev := Reverse(likes);
    JsSliceNonNegative(rev, skip, limit);
  }

  /** Missing query values (or 0) give the first page of ten. */
  lemma DefaultPage(session: string, users: map<string, User>, store: map<string, Post>, token: string,
                    images: seq<Image>, answers: string -> Retry.Answers<string>)
    requires session in users && LikesOf(users[session]) != []
    ensures var r := LikedPostsPage(Some(session), None, Some(0), users, store, token, images, answers);
      r.LikedPage? && r.pagination.skip == 10 && r.pagination.limit == 10
      && (r.pagination.hasMore <==> |LikesOf(users[session])| > 10)
  {
  }
}
