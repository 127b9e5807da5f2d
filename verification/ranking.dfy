/**
 * The store's `find(filter).sort({key: -1}).skip(s).limit(n)` as a pure
 * function: filter, sort by one key in descending order, take a window.
 *
 * The original sorts on a single key with no tie-break, so the order of
 * posts with equal keys is left open: every contract here states only that
 * the result is sorted, is drawn from the candidates without duplication,
 * has the right length, is a window of some sorted order of the candidates
 * and (for a first page) holds the highest keys.
 */
module Ranking {
  import opened Common
  import opened Models

  /** The sort keys used by the feeds: upload time, likes, comments, likes + comments. */
  datatype SortKey = ByUploadTime | ByLikes | ByComments | ByTotal

  function Score(k: SortKey, p: Post): int {
    match k
    case ByUploadTime => p.uploadTime
    case ByLikes => p.likes
    case ByComments => p.comments
    case ByTotal => p.likes + p.comments
  }

  /** Non-increasing in the key. */
  predicate SortedDesc(k: SortKey, s: seq<Post>) {
    forall i, j :: 0 <= i < j < |s| ==> Score(k, s[i]) >= Score(k, s[j])
  }

  /** The tail of a sorted list is sorted and bounded by its head. */
  lemma SortedTail(k: SortKey, s: seq<Post>)
    requires SortedDesc(k, s) && |s| > 0
    ensures SortedDesc(k, s[1..])
    ensures |s| > 1 ==> Score(k, s[0]) >= Score(k, s[1])
  {
  }

  /** A head no lower than the first element of a sorted list keeps it sorted. */
  lemma SortedCons(k: SortKey, h: Post, r: seq<Post>)
    requires SortedDesc(k, r) && (|r| > 0 ==> Score(k, h) >= Score(k, r[0]))
    ensures SortedDesc(k, [h] + r)
  {
    var t := [h] + r;
    forall i, j | 0 <= i < j < |t| ensures Score(k, t[i]) >= Score(k, t[j]) {
      if i == 0 {
        assert t[j] == r[j - 1];
        assert Score(k, r[0]) >= Score(k, r[j - 1]) || j == 1;
      } else {
        assert t[i] == r[i - 1] && t[j] == r[j - 1];
      }
    }
  }

  /** Inserting `x` into a sorted list before the first element with a lower key. */
  function Insert(k: SortKey, x: Post, s: seq<Post>): (r: seq<Post>)
    requires SortedDesc(k, s)
    ensures SortedDesc(k, r)
    ensures multiset(r) == multiset(s) + multiset{x}
    ensures |r| == |s| + 1
    ensures r[0] == x || (|s| > 0 && r[0] == s[0])
    ensures forall i :: 0 <= i < |r| ==> r[i] == x || r[i] in s
    decreases |s|
  {
    if |s| == 0 then [x]
    else if Score(k, x) >= Score(k, s[0]) then
      SortedCons(k, x, s);
      [x] + s
    else
      var t := s[1..];
      assert s == [s[0]] + t;
      SortedTail(k, s);
      var r := Insert(k, x, t);
      SortedCons(k, s[0], r);
      [s[0]] + r
  }

  /** A sorting of `s` by `k`, descending; equal keys end up in an unspecified order. */
  function Sort(k: SortKey, s: seq<Post>): (r: seq<Post>)
    ensures SortedDesc(k, r)
    ensures multiset(r) == multiset(s)
    ensures |r| == |s|
    decreases |s|
  {
    if |s| == 0 then []
    else
      assert s == [s[0]] + s[1..];
      Insert(k, s[0], Sort(k, s[1..]))
  }

  /** How many of `n` items `.skip(skip).limit(limit)` keeps; a limit of 0 means no limit. */
  function WindowLength(n: nat, skip: nat, limit: nat): (len: nat)
    ensures limit == 0 ==> len == Max(0, n - skip)
    ensures limit > 0 ==> len == Min(limit, Max(0, n - skip))
  {
    if skip >= n then 0 else if limit == 0 || skip + limit >= n then n - skip else limit
  }

  /** `.skip(skip).limit(limit)` on an already sorted list; a limit of 0 means no limit. */
  function Window(s: seq<Post>, skip: nat, limit: nat): (r: seq<Post>)
    ensures |r| == WindowLength(|s|, skip, limit)
    ensures forall i :: 0 <= i < |r| ==> r[i] == s[skip + i]
  {
    if skip >= |s| then []
    else if limit == 0 || skip + limit >= |s| then s[skip..]
    else s[skip..skip + limit]
  }

  lemma SortedWindow(k: SortKey, s: seq<Post>, skip: nat, limit: nat)
    requires SortedDesc(k, s)
    ensures SortedDesc(k, Window(s, skip, limit))
  {
    var r := Window(s, skip, limit);
    forall i, j | 0 <= i < j < |r| ensures Score(k, r[i]) >= Score(k, r[j]) {
      assert r[i] == s[skip + i] && r[j] == s[skip + j];
    }
  }

  lemma WindowSubMultiset(s: seq<Post>, skip: nat, limit: nat)
    ensures multiset(Window(s, skip, limit)) <= multiset(s)
  {
    var r := Window(s, skip, limit);
    if skip < |s| {
      var e := if limit == 0 || skip + limit >= |s| then |s| else skip + limit;
      assert r == s[skip..e];
      assert s == s[..skip] + s[skip..e] + s[e..];
      calc {
        multiset(s);
        multiset(s[..skip]) + multiset(s[skip..e]) + multiset(s[e..]);
      }
    }
  }

  /** `r` is the `[skip, skip + limit)` window of some descending ordering of `candidates`. */
  ghost predicate IsPageOf(k: SortKey, candidates: seq<Post>, skip: nat, limit: nat, r: seq<Post>) {
    exists s :: SortedDesc(k, s) && multiset(s) == multiset(candidates) && r == Window(s, skip, limit)
  }

  /**
   * One page of the store's sorted query: the posts at positions `skip` to
   * `skip + limit` (all remaining ones when `limit` is 0) of the candidates
   * sorted by `k`, so it is sorted and each post is a distinct candidate.
   */
  function Page(k: SortKey, candidates: seq<Post>, skip: nat, limit: nat): (r: seq<Post>)
    ensures SortedDesc(k, r)
    ensures multiset(r) <= multiset(candidates)
    ensures |r| == WindowLength(|candidates|, skip, limit)
    ensures IsPageOf(k, candidates, skip, limit, r)
  {
    var s := Sort(k, candidates);
    SortedWindow(k, s, skip, limit);
    WindowSubMultiset(s, skip, limit);
    Window(s, skip, limit)
  }

  /** No two different candidates share a key, so the descending order of the candidates is unique. */
  predicate KeysDistinct(k: SortKey, s: seq<Post>) {
    forall x, y :: x in s && y in s && x != y ==> Score(k, x) != Score(k, y)
  }

  /** The head of a sorted list ranks at least as high as any of its posts. */
  lemma HeadRanksHighest(k: SortKey, s: seq<Post>, x: Post)
    requires SortedDesc(k, s) && x in s
    ensures Score(k, s[0]) >= Score(k, x)
  {
    var i :| 0 <= i < |s| && s[i] == x;
    if i > 0 { assert Score(k, s[0]) >= Score(k, s[i]); }
  }

  /** With distinct keys, two descending orderings of the same posts start with the same post. */
  lemma SortedHeadsAgree(k: SortKey, s: seq<Post>, t: seq<Post>)
    requires SortedDesc(k, s) && SortedDesc(k, t) && multiset(s) == multiset(t) && KeysDistinct(k, s)
    requires |s| > 0
    ensures |t| > 0 && s[0] == t[0]
  {
    assert |t| == |multiset(t)| == |multiset(s)| == |s|;
    assert t[0] in multiset(s) && s[0] in multiset(t);
    HeadRanksHighest(k, s, t[0]);
    HeadRanksHighest(k, t, s[0]);
  }

  /** Dropping the same head from two lists with equal contents leaves equal contents. */
  lemma TailsAgree(s: seq<Post>, t: seq<Post>)
    requires |s| > 0 && |t| > 0 && s[0] == t[0] && multiset(s) == multiset(t)
    ensures multiset(s[1..]) == multiset(t[1..])
  {
    assert s == [s[0]] + s[1..] && t == [t[0]] + t[1..];
    assert multiset(s[1..]) == multiset(s) - multiset{s[0]};
    assert multiset(t[1..]) == multiset(t) - multiset{t[0]};
  }

  lemma KeysDistinctTail(k: SortKey, s: seq<Post>)
    requires |s| > 0 && KeysDistinct(k, s)
    ensures KeysDistinct(k, s[1..])
  {
    forall x, y | x in s[1..] && y in s[1..] && x != y ensures Score(k, x) != Score(k, y) {
      assert x in s && y in s;
    }
  }

  /** With distinct keys, two descending orderings of the same posts are the same list. */
  lemma {:induction false} SortedUnique(k: SortKey, s: seq<Post>, t: seq<Post>)
    requires SortedDesc(k, s) && SortedDesc(k, t) && multiset(s) == multiset(t) && KeysDistinct(k, s)
    ensures s == t
    decreases |s|
  {
    if |s| == 0 {
      assert |t| == |multiset(t)| == 0;
    } else {
      SortedHeadsAgree(k, s, t);
      TailsAgree(s, t);
      SortedTail(k, s);
      SortedTail(k, t);
      KeysDistinctTail(k, s);
      SortedUnique(k, s[1..], t[1..]);
      assert s == [s[0]] + s[1..] && t == [t[0]] + t[1..];
    }
  }

  /** With distinct keys a query has exactly one answer: any page of the sorted order is `Page`. */
  lemma PageUnique(k: SortKey, candidates: seq<Post>, skip: nat, limit: nat, r: seq<Post>)
    requires KeysDistinct(k, candidates) && IsPageOf(k, candidates, skip, limit, r)
    ensures r == Page(k, candidates, skip, limit)
  {
    PageIsSortedWindow(k, candidates, skip, limit, r);
  }

  /** The same, stated on the window of `Sort` that `Page` takes. */
  lemma PageIsSortedWindow(k: SortKey, candidates: seq<Post>, skip: nat, limit: nat, r: seq<Post>)
    requires KeysDistinct(k, candidates) && IsPageOf(k, candidates, skip, limit, r)
    ensures r == Window(Sort(k, candidates), skip, limit)
  {
    var s :| SortedDesc(k, s) && multiset(s) == multiset(candidates) && r == Window(s, skip, limit);
    forall x, y | x in s && y in s && x != y ensures Score(k, x) != Score(k, y) {
      assert x in multiset(candidates) && y in multiset(candidates);
    }
    SortedUnique(k, s, Sort(k, candidates));
  }

  /**
   * When no two candidates share a key, consecutive pages of one query fit
   * together: any page of `n` posts at `skip` followed by any page of `m`
   * posts at `skip + n` is the page of `n + m` posts at `skip` (which
   * `Page` ensures is a page of the sorted order), so paging neither repeats
   * nor skips a post.
   */
  lemma PagesTile(k: SortKey, candidates: seq<Post>, skip: nat, n: nat, m: nat, a: seq<Post>, b: seq<Post>)
    requires n > 0 && m > 0 && KeysDistinct(k, candidates)
    requires IsPageOf(k, candidates, skip, n, a) && IsPageOf(k, candidates, skip + n, m, b)
    ensures a + b == Page(k, candidates, skip, n + m)
  {
    PagesAreSortedWindows(k, candidates, skip, n, m, a, b);
    WindowsTile(Sort(k, candidates), skip, n, m);
  }

  /** Both pages of `PagesTile` are the windows of `Sort` at their offsets. */
  lemma PagesAreSortedWindows(k: SortKey, candidates: seq<Post>, skip: nat, n: nat, m: nat, a: seq<Post>, b: seq<Post>)
    requires KeysDistinct(k, candidates)
    requires IsPageOf(k, candidates, skip, n, a) && IsPageOf(k, candidates, skip + n, m, b)
    ensures a == Window(Sort(k, candidates), skip, n) && b == Window(Sort(k, candidates), skip + n, m)
  {
    PageIsSortedWindow(k, candidates, skip, n, a);
    PageIsSortedWindow(k, candidates, skip + n, m, b);
  }

  /**
   * Without a tie-break, separate queries may order tied posts differently:
   * of two posts uploaded at the same time, the first page of one post and
   * the second page of one post may both be the same post, so the other is
   * never shown.
   */
  lemma TiedPagesMayRepeat(a: Post, b: Post)
    requires a != b && a.uploadTime == b.uploadTime
    ensures IsPageOf(ByUploadTime, [a, b], 0, 1, [a])
    ensures IsPageOf(ByUploadTime, [a, b], 1, 1, [a])
  {
    assert Window([a, b], 0, 1) == [a];
    assert SortedDesc(ByUploadTime, [b, a]) && multiset([b, a]) == multiset([a, b]);
    assert Window([b, a], 1, 1) == [a];
  }

  lemma WindowsTile(s: seq<Post>, skip: nat, n: nat, m: nat)
    requires n > 0 && m > 0
    ensures Window(s, skip, n) + Window(s, skip + n, m) == Window(s, skip, n + m)
  {
    var a := Window(s, skip, n);
    var b := Window(s, skip + n, m);
    var c := Window(s, skip, n + m);
    assert |a| + |b| == |c| by {
      if skip + n >= |s| {
        assert |b| == 0;
      }
    }
    forall i | 0 <= i < |c| ensures (a + b)[i] == c[i] {
      if i < |a| { assert (a + b)[i] == a[i]; } else { assert (a + b)[i] == b[i - |a|]; }
    }
  }

  /** Every candidate left out of `r` ranks no higher than every post in `r`. */
  predicate HoldsHighest(k: SortKey, candidates: seq<Post>, r: seq<Post>) {
    forall x, y :: x in multiset(candidates) - multiset(r) && y in r ==> Score(k, x) <= Score(k, y)
  }

  lemma {:induction false} PrefixHoldsHighest(k: SortKey, s: seq<Post>, m: nat)
    requires SortedDesc(k, s) && m <= |s|
    ensures HoldsHighest(k, s, s[..m])
  {
    assert s == s[..m] + s[m..];
    assert multiset(s) == multiset(s[..m]) + multiset(s[m..]);
    forall x, y | x in multiset(s) - multiset(s[..m]) && y in s[..m]
      ensures Score(k, x) <= Score(k, y)
    {
      assert x in multiset(s[m..]);
      assert x in s[m..];
      var j :| 0 <= j < |s[m..]| && s[m..][j] == x;
      var i :| 0 <= i < m && s[..m][i] == y;
      assert s[m + j] == x && s[i] == y;
    }
  }

  /**
   * `find(filter).sort({k: -1}).limit(n)` with `n > 0`: at most `n` posts,
   * sorted, drawn from the candidates, and no candidate left out ranks above
   * one that was kept.
   */
  function TopN(k: SortKey, candidates: seq<Post>, n: nat): (r: seq<Post>)
    requires n > 0
    ensures |r| == Min(n, |candidates|)
    ensures SortedDesc(k, r)
    ensures multiset(r) <= multiset(candidates)
    ensures HoldsHighest(k, candidates, r)
  {
    var s := Sort(k, candidates);
    var m := Min(n, |s|);
    PrefixHoldsHighest(k, s, m);
    assert s[..m] == Window(s, 0, n);
    WindowSubMultiset(s, 0, n);
    s[..m]
  }

  /** `{tags: tag}`: the posts whose tag list contains `tag`, in store order. */
  function WithTag(posts: seq<Post>, tag: string): (r: seq<Post>)
    ensures forall p :: p in r <==> p in posts && tag in p.tags
    ensures multiset(r) <= multiset(posts)
    decreases |posts|
  {
    if |posts| == 0 then []
    else
      assert posts == [posts[0]] + posts[1..];
      (if tag in posts[0].tags then [posts[0]] else []) + WithTag(posts[1..], tag)
  }

  /** `{author: username}`: the posts written by `author`, in store order. */
  function ByAuthor(posts: seq<Post>, author: string): (r: seq<Post>)
    ensures forall p :: p in r <==> p in posts && p.author == author
    ensures multiset(r) <= multiset(posts)
    decreases |posts|
  {
    if |posts| == 0 then []
    else
      assert posts == [posts[0]] + posts[1..];
      (if posts[0].author == author then [posts[0]] else []) + ByAuthor(posts[1..], author)
  }

  const LatestCap: nat := 30
  const TagCap: nat := 10
  const SpecialCap: nat := 10

  /** The derived rankings and the key each one sorts by. */
  datatype SpecialKind = Hot | Top | Rising

  function KeyOf(kind: SpecialKind): SortKey {
    match kind
    case Hot => ByLikes
    case Rising => ByComments
    case Top => ByTotal
  }

  function KindName(kind: SpecialKind): string {
    match kind
    case Hot => "Hot"
    case Top => "Top"
    case Rising => "Rising"
  }

  /** The `latest` ranking: the 30 most recently uploaded posts, newest first. */
  function LatestPosts(posts: seq<Post>): (r: seq<Post>)
    ensures |r| == Min(LatestCap, |posts|)
    ensures SortedDesc(ByUploadTime, r)
    ensures multiset(r) <= multiset(posts)
    ensures HoldsHighest(ByUploadTime, posts, r)
  {
    TopN(ByUploadTime, posts, LatestCap)
  }

  /** A tag ranking: the 10 most recent posts carrying `tag`, newest first. */
  function TagPosts(posts: seq<Post>, tag: string): (r: seq<Post>)
    ensures |r| == Min(TagCap, |WithTag(posts, tag)|)
    ensures multiset(r) <= multiset(WithTag(posts, tag))
    ensures SortedDesc(ByUploadTime, r)
    ensures forall p :: p in r ==> p in posts && tag in p.tags
    ensures HoldsHighest(ByUploadTime, WithTag(posts, tag), r)
  {
    var r := TopN(ByUploadTime, WithTag(posts, tag), TagCap);
    assert forall p :: p in r ==> p in multiset(WithTag(posts, tag));
    r
  }

  /** `Hot`, `Rising` or `Top`: the 10 posts with the most likes, comments, or likes + comments. */
  function SpecialPosts(posts: seq<Post>, kind: SpecialKind): (r: seq<Post>)
    ensures |r| == Min(SpecialCap, |posts|)
    ensures SortedDesc(KeyOf(kind), r)
    ensures multiset(r) <= multiset(posts)
    ensures HoldsHighest(KeyOf(kind), posts, r)
  {
    TopN(KeyOf(kind), posts, SpecialCap)
  }
}
