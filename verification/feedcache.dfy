/**
 * The in-memory feed caches, their refresh cycle and the `/api/posts`
 * read path.
 *
 * Two maps hold the published lists: `postCache` (only the key `latest`)
 * and `tagCache` (one key per declared tag, plus `Hot`, `Top`, `Rising`).
 * A refresh rebuilds every key from the store; a rebuild that throws leaves
 * its key's previous list in place, and an entry is only ever replaced by
 * a complete new list.
 */
module FeedCache {
  import opened Common
  import opened Models
  import opened Ranking
  import opened Media
  import Retry

  /** The tags whose feeds are cached. */
  const Tags: seq<string> := ["Bazaar", "Admire Apsara", "Influencers", "Kinks and Fantasies", "Apsara Fakes"]
  const LatestKey := "latest"

  /** The rebuilds of one refresh cycle. */
  datatype FeedKey = Latest | RegularTag(name: string) | Derived(kind: SpecialKind)

  datatype Caches = Caches(postCache: map<string, seq<EnrichedPost>>, tagCache: map<string, seq<EnrichedPost>>)

  /** At start-up every declared tag maps to an empty list and `latest` is absent. */
  function Initial(): Caches {
    Caches(map[], map t | t in Tags :: [])
  }

  /**
   * What a rebuild reads: the stored posts and images, the bot token, and
   * how the hosting service answers the path lookups of each handle in this
   * cycle (each handle is resolved with `getTelegramFilePath`). `answers` is
   * a function of the handle, so a handle looked up twice in one cycle, by
   * two rankings say, is assumed to get the same answer both times.
   */
  datatype Store = Store(token: string, posts: seq<Post>, images: seq<Image>, answers: string -> Retry.Answers<string>)

  /** Resolve the images of `ranked` from the store and attach them (the shared tail of every rebuild). */
  function EnrichFrom(st: Store, ranked: seq<Post>): (r: seq<EnrichedPost>)
    ensures PostsOf(r) == ranked
  {
    Enrich(st.token, st.images, ResolveByHandle(st.answers), ranked)
  }

  /** Does the name denote one of the derived rankings? */
  function SpecialOf(name: string): Option<SpecialKind> {
    if name == "Hot" then Some(Hot)
    else if name == "Top" then Some(Top)
    else if name == "Rising" then Some(Rising)
    else None
  }

  lemma SpecialOfKindName(kind: SpecialKind)
    ensures SpecialOf(KindName(kind)) == Some(kind)
  {
  }

  /** The freshly rebuilt list for a `tagCache` key. */
  function RebuiltTagEntry(st: Store, name: string): seq<EnrichedPost> {
    match SpecialOf(name)
    case Some(kind) => EnrichFrom(st, SpecialPosts(st.posts, kind))
    case None => EnrichFrom(st, TagPosts(st.posts, name))
  }

  /** `refreshLatestCache`: replace `latest` unless its rebuild throws. */
  function RefreshLatest(c: Caches, st: Store, failed: set<FeedKey>): Caches {
    if Latest in failed then c
    else c.(postCache := c.postCache[LatestKey := EnrichFrom(st, LatestPosts(st.posts))])
  }

  predicate AnyRegularFailed(failed: set<FeedKey>) {
    exists t :: t in Tags && RegularTag(t) in failed
  }

  /** The `tagCache` keys written by one `refreshTagCache` run. */
  function WrittenTagKeys(failed: set<FeedKey>): set<string> {
    (set t | t in Tags && RegularTag(t) !in failed)
    + (if AnyRegularFailed(failed) then {}
       else set kind: SpecialKind | Derived(kind) !in failed :: KindName(kind))
  }

  /**
   * `refreshTagCache`: every tag whose rebuild succeeds is replaced (a
   * sibling's failure does not stop the others); when any tag rebuild
   * throws, the awaited group rejects and the derived rankings are not
   * rebuilt in this cycle; otherwise each derived ranking is replaced
   * unless its own rebuild throws.
   */
  function RefreshTags(c: Caches, st: Store, failed: set<FeedKey>): Caches {
    var written := WrittenTagKeys(failed);
    c.(tagCache := map name | name in c.tagCache.Keys + written ::
         if name in written then RebuiltTagEntry(st, name) else c.tagCache[name])
  }

  /** `refreshAllCaches`: both refreshes, settled independently of each other. */
  function RefreshAll(c: Caches, st: Store, failed: set<FeedKey>): Caches {
    RefreshTags(RefreshLatest(c, st, failed), st, failed)
  }

  /**
   * Partial-failure structure of a refresh: `latest` is replaced exactly
   * when its own rebuild succeeds, whatever happens to the tags, and any
   * other `postCache` key is untouched.
   */
  lemma RefreshLatestIsolated(c: Caches, st: Store, failed: set<FeedKey>)
    ensures var c' := RefreshAll(c, st, failed);
      && (Latest !in failed ==> LatestKey in c'.postCache
                                && c'.postCache[LatestKey] == EnrichFrom(st, LatestPosts(st.posts)))
      && (Latest in failed ==> c'.postCache == c.postCache)
      && (forall k :: k != LatestKey ==> (k in c'.postCache <==> k in c.postCache))
      && (forall k :: k != LatestKey && k in c.postCache ==> c'.postCache[k] == c.postCache[k])
  {
  }

  /** A tag's entry is replaced exactly when its own rebuild succeeds; a failed one keeps its old list. */
  lemma RefreshTagEntry(c: Caches, st: Store, failed: set<FeedKey>, t: string)
    requires t in Tags
    ensures var c' := RefreshAll(c, st, failed);
      && (RegularTag(t) !in failed ==> t in c'.tagCache
                                       && c'.tagCache[t] == EnrichFrom(st, TagPosts(st.posts, t)))
      && (RegularTag(t) in failed ==> (t in c'.tagCache <==> t in c.tagCache)
                                      && (t in c.tagCache ==> c'.tagCache[t] == c.tagCache[t]))
  {
    assert SpecialOf(t) == None;
  }

  /**
   * A derived ranking is replaced exactly when no regular tag rebuild threw
   * and its own rebuild succeeded; otherwise its old list is kept.
   */
  lemma RefreshDerivedEntry(c: Caches, st: Store, failed: set<FeedKey>, kind: SpecialKind)
    ensures var c' := RefreshAll(c, st, failed);
      var name := KindName(kind);
      && (!AnyRegularFailed(failed) && Derived(kind) !in failed ==>
            name in c'.tagCache && c'.tagCache[name] == EnrichFrom(st, SpecialPosts(st.posts, kind)))
      && (AnyRegularFailed(failed) || Derived(kind) in failed ==>
            (name in c'.tagCache <==> name in c.tagCache)
            && (name in c.tagCache ==> c'.tagCache[name] == c.tagCache[name]))
  {
    var name := KindName(kind);
    SpecialOfKindName(kind);
    assert name !in Tags;
    if AnyRegularFailed(failed) || Derived(kind) in failed {
      assert name !in WrittenTagKeys(failed) by {
        forall k: SpecialKind | KindName(k) == name ensures k == kind {
          SpecialOfKindName(k);
        }
      }
    }
  }

  /** A refresh writes no `tagCache` key outside the declared tags and derived rankings. */
  lemma RefreshLeavesOtherKeys(c: Caches, st: Store, failed: set<FeedKey>, name: string)
    requires name !in Tags && SpecialOf(name).None?
    ensures var c' := RefreshAll(c, st, failed);
      (name in c'.tagCache <==> name in c.tagCache)
      && (name in c.tagCache ==> c'.tagCache[name] == c.tagCache[name])
  {
    forall kind: SpecialKind ensures KindName(kind) != name {
      SpecialOfKindName(kind);
    }
  }

  /** Posts of a list, sorted by `k`, at most `cap` long. */
  predicate Ranked(es: seq<EnrichedPost>, k: SortKey, cap: nat) {
    |es| <= cap && SortedDesc(k, PostsOf(es))
  }

  /**
   * The cache invariant: `latest` holds at most 30 posts newest first; a tag
   * entry at most 10 posts, newest first, all carrying the tag; a derived
   * entry at most 10 posts sorted by its own key.
   */
  predicate Valid(c: Caches) {
    && (LatestKey in c.postCache ==> Ranked(c.postCache[LatestKey], ByUploadTime, LatestCap))
    && (forall t :: t in Tags && t in c.tagCache ==>
          Ranked(c.tagCache[t], ByUploadTime, TagCap)
          && forall p :: p in PostsOf(c.tagCache[t]) ==> t in p.tags)
    && (forall kind: SpecialKind :: KindName(kind) in c.tagCache ==>
          Ranked(c.tagCache[KindName(kind)], KeyOf(kind), SpecialCap))
  }

  lemma InitialValid()
    ensures Valid(Initial())
  {
    var c := Initial();
    forall kind: SpecialKind | KindName(kind) in c.tagCache
      ensures Ranked(c.tagCache[KindName(kind)], KeyOf(kind), SpecialCap)
    {
      assert KindName(kind) in Tags;
      assert c.tagCache[KindName(kind)] == [];
    }
  }

  lemma RebuiltTagRanked(st: Store, t: string)
    ensures Ranked(EnrichFrom(st, TagPosts(st.posts, t)), ByUploadTime, TagCap)
    ensures forall p :: p in PostsOf(EnrichFrom(st, TagPosts(st.posts, t))) ==> t in p.tags
  {
  }

  lemma RebuiltDerivedRanked(st: Store, kind: SpecialKind)
    ensures Ranked(EnrichFrom(st, SpecialPosts(st.posts, kind)), KeyOf(kind), SpecialCap)
  {
  }

  /** After a refresh a declared tag's entry, if any, satisfies the tag part of the invariant. */
  lemma TagEntryValidAfter(c: Caches, st: Store, failed: set<FeedKey>, t: string)
    requires Valid(c) && t in Tags
    ensures var c' := RefreshAll(c, st, failed);
      t in c'.tagCache ==>
        Ranked(c'.tagCache[t], ByUploadTime, TagCap)
        && forall p :: p in PostsOf(c'.tagCache[t]) ==> t in p.tags
  {
    RefreshTagEntry(c, st, failed, t);
    RebuiltTagRanked(st, t);
  }

  /** After a refresh a derived ranking's entry, if any, satisfies its part of the invariant. */
  lemma DerivedEntryValidAfter(c: Caches, st: Store, failed: set<FeedKey>, kind: SpecialKind)
    requires Valid(c)
    ensures var c' := RefreshAll(c, st, failed);
      KindName(kind) in c'.tagCache ==> Ranked(c'.tagCache[KindName(kind)], KeyOf(kind), SpecialCap)
  {
    RefreshDerivedEntry(c, st, failed, kind);
    RebuiltDerivedRanked(st, kind);
  }

  /** Every refresh, whatever fails, keeps the cache invariant. */
  lemma RefreshPreservesValid(c: Caches, st: Store, failed: set<FeedKey>)
    requires Valid(c)
    ensures Valid(RefreshAll(c, st, failed))
  {
    var c' := RefreshAll(c, st, failed);
    RefreshLatestIsolated(c, st, failed);
    forall t | t in Tags
      ensures t in c'.tagCache ==>
        Ranked(c'.tagCache[t], ByUploadTime, TagCap)
        && forall p :: p in PostsOf(c'.tagCache[t]) ==> t in p.tags
    {
      TagEntryValidAfter(c, st, failed, t);
    }
    forall kind: SpecialKind
      ensures KindName(kind) in c'.tagCache ==> Ranked(c'.tagCache[KindName(kind)], KeyOf(kind), SpecialCap)
    {
      DerivedEntryValidAfter(c, st, failed, kind);
    }
  }

  /** The reply of `/api/posts`. */
  datatype PostsReply = Served(posts: seq<EnrichedPost>, fromCache: bool) | ServerError

  /** `tag || 'latest'` looked up in `tag ? tagCache : postCache`, `|| []` when absent. */
  function CachedFor(c: Caches, tag: string): seq<EnrichedPost> {
    var store := if tag != "" then c.tagCache else c.postCache;
    var key := if tag != "" then tag else LatestKey;
    if key in store then store[key] else []
  }

  /** The sort key the live query uses for a tag. */
  function LiveKey(tag: string): SortKey {
    match SpecialOf(tag)
    case Some(kind) => KeyOf(kind)
    case None => ByUploadTime
  }

  /** What the live query ranks: the tagged posts for a regular tag, every post otherwise. */
  function LiveCandidates(posts: seq<Post>, tag: string): (r: seq<Post>)
    ensures multiset(r) <= multiset(posts)
    ensures tag != "" && SpecialOf(tag).None? ==> forall p :: p in r ==> tag in p.tags
  {
    if tag != "" && SpecialOf(tag).None? then WithTag(posts, tag) else posts
  }

  /**
   * The `Top` query is an aggregation whose `$limit` stage must be positive:
   * the store rejects `{$limit: 0}`, while `find().limit(0)` means no limit.
   */
  predicate AggregateRejects(tag: string, limit: nat) {
    SpecialOf(tag) == Some(Top) && limit == 0
  }

  /**
   * The live query of `/api/posts` for a tag ("" for none): the window
   * `[skip, skip + limit)` of the candidates sorted by the tag's key, or
   * `None` when the store rejects the query.
   */
  function LivePage(posts: seq<Post>, tag: string, skip: nat, limit: nat): (r: Option<seq<Post>>)
    ensures r.None? <==> AggregateRejects(tag, limit)
    ensures r.Some? ==> SortedDesc(LiveKey(tag), r.value)
    ensures r.Some? ==> multiset(r.value) <= multiset(LiveCandidates(posts, tag))
    ensures r.Some? ==> |r.value| == WindowLength(|LiveCandidates(posts, tag)|, skip, limit)
    ensures r.Some? ==> IsPageOf(LiveKey(tag), LiveCandidates(posts, tag), skip, limit, r.value)
    ensures r.Some? ==> forall p :: p in r.value ==> p in posts
    ensures r.Some? && tag != "" && SpecialOf(tag).None? ==> forall p :: p in r.value ==> tag in p.tags
  {
    if AggregateRejects(tag, limit) then None
    else
      var cands := LiveCandidates(posts, tag);
      var r := Page(LiveKey(tag), cands, skip, limit);
      assert forall p :: p in r ==> p in multiset(r) && p in multiset(cands) && p in cands;
      Some(r)
  }

  /**
   * When no two candidates share the tag's key, any page of `n` posts at
   * `skip` and any page of `m` posts at `skip + n` that the store may answer
   * join into the live page of `n + m` posts at `skip`.
   */
  lemma LivePagesTile(posts: seq<Post>, tag: string, skip: nat, n: nat, m: nat, a: seq<Post>, b: seq<Post>)
    requires n > 0 && m > 0 && KeysDistinct(LiveKey(tag), LiveCandidates(posts, tag))
    requires IsPageOf(LiveKey(tag), LiveCandidates(posts, tag), skip, n, a)
    requires IsPageOf(LiveKey(tag), LiveCandidates(posts, tag), skip + n, m, b)
    ensures LivePage(posts, tag, skip, n + m) == Some(a + b)
  {
    PagesTile(LiveKey(tag), LiveCandidates(posts, tag), skip, n, m, a, b);
  }

  /** The live branch of `/api/posts`: the store's page for the tag, resolved and attached. */
  function LiveReply(st: Store, tag: string, skip: nat, limit: nat): (r: Option<seq<EnrichedPost>>)
    ensures r.None? <==> AggregateRejects(tag, limit)
    ensures r.Some? ==> SortedDesc(LiveKey(tag), PostsOf(r.value))
    ensures r.Some? ==> |r.value| == WindowLength(|LiveCandidates(st.posts, tag)|, skip, limit)
    ensures r.Some? ==> IsPageOf(LiveKey(tag), LiveCandidates(st.posts, tag), skip, limit, PostsOf(r.value))
    ensures r.Some? ==> forall p :: p in PostsOf(r.value) ==> p in st.posts
    ensures r.Some? && tag != "" && SpecialOf(tag).None? ==> forall p :: p in PostsOf(r.value) ==> tag in p.tags
  {
    match LivePage(st.posts, tag, skip, limit)
    case None => None
    case Some(page) => Some(EnrichFrom(st, page))
  }

  /** The values `/api/posts` reads when `skip` or `limit` is absent from the query. */
  const DefaultSkip: nat := 0
  const DefaultLimit: nat := 10

  /** A query parameter with its default: the given value, or the default when it is absent. */
  function QueryOr(q: Option<nat>, default: nat): (v: nat)
    ensures q.None? ==> v == default
    ensures q.Some? ==> v == q.value
  {
    if q.Some? then q.value else default
  }

  /**
   * `GET /api/posts?tag&skip&limit`, an absent `skip` read as 0 and an
   * absent `limit` as 10. When the cached list has at least `skip + limit`
   * entries the reply is exactly that slice of it and the store is not
   * consulted; otherwise the store is queried (a store failure, or the
   * rejected `Top` aggregation with limit 0, answers 500), the page is
   * resolved and attached, and the cache is not written.
   */
  function ApiPosts(c: Caches, tag: string, skipQ: Option<nat>, limitQ: Option<nat>, st: Store, storeFails: bool): (r: PostsReply)
    ensures var cached := CachedFor(c, tag);
      var skip := QueryOr(skipQ, DefaultSkip);
      var limit := QueryOr(limitQ, DefaultLimit);
      && (|cached| >= skip + limit ==> r == Served(cached[skip..skip + limit], true))
      && (|cached| < skip + limit && (storeFails || AggregateRejects(tag, limit)) ==> r == ServerError)
      && (|cached| < skip + limit && !storeFails && !AggregateRejects(tag, limit) ==>
            r == Served(LiveReply(st, tag, skip, limit).value, false))
  {
    var skip := QueryOr(skipQ, DefaultSkip);
    var limit := QueryOr(limitQ, DefaultLimit);
    var cached := CachedFor(c, tag);
    if |cached| >= skip + limit then Served(cached[skip..skip + limit], true)
    else if storeFails then ServerError
    else match LiveReply(st, tag, skip, limit)
      case None => ServerError
      case Some(page) => Served(page, false)
  }

  /** `?tag=Top&limit=0` past the cached `Top` list is answered 500, whatever the store holds. */
  lemma TopWithoutLimitPastCacheFails(c: Caches, skip: nat, st: Store)
    requires |CachedFor(c, "Top")| < skip
    ensures ApiPosts(c, "Top", Some(skip), Some(0), st, false) == ServerError
  {
  }

  /** A cache hit never depends on the store: any store, reachable or not, gives the same reply. */
  lemma CacheHitIgnoresStore(c: Caches, tag: string, skipQ: Option<nat>, limitQ: Option<nat>,
                             st1: Store, f1: bool, st2: Store, f2: bool)
    requires |CachedFor(c, tag)| >= QueryOr(skipQ, DefaultSkip) + QueryOr(limitQ, DefaultLimit)
    ensures ApiPosts(c, tag, skipQ, limitQ, st1, f1) == ApiPosts(c, tag, skipQ, limitQ, st2, f2)
  {
  }

  /** With 30 cached `latest` posts, `?skip=20` alone is served as cached entries 20 to 29. */
  lemma LatestThirdPageFromCache(c: Caches, st: Store, storeFails: bool)
    requires LatestKey in c.postCache && |c.postCache[LatestKey]| == 30
    ensures ApiPosts(c, "", Some(20), None, st, storeFails) == Served(c.postCache[LatestKey][20..30], true)
  {
  }

  /** A bare `/api/posts` with at least 10 cached `latest` posts answers the first 10 of them. */
  lemma BareRequestIsFirstTen(c: Caches, st: Store, storeFails: bool)
    requires LatestKey in c.postCache && |c.postCache[LatestKey]| >= 10
    ensures ApiPosts(c, "", None, None, st, storeFails) == Served(c.postCache[LatestKey][..10], true)
  {
  }
}
