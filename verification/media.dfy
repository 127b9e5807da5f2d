/**
 * Image enrichment: turning stored image records into the `{fileId, caption,
 * src}` views attached to posts, in the three variants the handlers use.
 *
 * - The feed variant (`mapImagesByPostIdAsync`) re-resolves every image,
 *   replaces its file path by the fresh result (null after failed retries)
 *   and groups the views by owning post; an unresolved image falls back to
 *   the local proxy `/api/images/<fileId>`.
 * - The post-details variant makes one resolution call per image and keeps
 *   the stored path when that call fails; its proxy is `/post/images/<fileId>`.
 * - The user-profile variant never resolves and always points at
 *   `/user/images/<fileId>`.
 */
module Media {
  import opened Common
  import opened Models
  import opened Ranking
  import Retry

  /** One image as shown to the client. */
  datatype ImageView = ImageView(fileId: string, caption: Option<string>, src: string)

  /** A post together with the images shown with it. */
  datatype EnrichedPost = EnrichedPost(post: Post, images: seq<ImageView>)

  const TelegramFileBase := "https://api.telegram.org/file/bot"
  const FeedProxy := "/api/images/"
  const DetailsProxy := "/post/images/"
  const ProfileProxy := "/user/images/"

  /** The hosting service's download URL for a resolved path, given the bot token. */
  function TelegramFileUrl(token: string, path: string): string {
    TelegramFileBase + token + "/" + path
  }

  /** The `src` of an image: the download URL when its path is truthy, else the local proxy. */
  function Src(token: string, proxy: string, img: Image): string {
    if Truthy(img.filePath) then TelegramFileUrl(token, img.filePath.value) else proxy + img.fileId
  }

  function View(token: string, proxy: string, img: Image): ImageView {
    ImageView(img.fileId, img.caption, Src(token, proxy, img))
  }

  /**
   * `{...image, filePath}` for every image: the `i`-th image's path becomes
   * the outcome of resolving it, `paths(i)`, whatever was stored before.
   */
  function Refreshed(images: seq<Image>, paths: nat -> Option<string>): (r: seq<Image>)
    ensures |r| == |images|
    ensures forall i :: 0 <= i < |r| ==> r[i] == images[i].(filePath := paths(i))
  {
    seq(|images|, i requires 0 <= i < |images| => images[i].(filePath := paths(i)))
  }

  /**
   * The `reduce` step of the grouping, applied left to right: append the
   * view of each image to the list under its post id, creating the list on
   * first use.
   */
  function Group(token: string, proxy: string, imgs: seq<Image>): map<string, seq<ImageView>>
    decreases |imgs|
  {
    if |imgs| == 0 then map[]
    else
      var acc := Group(token, proxy, imgs[..|imgs| - 1]);
      var img := imgs[|imgs| - 1];
      var prev := if img.postId in acc then acc[img.postId] else [];
      acc[img.postId := prev + [View(token, proxy, img)]]
  }

  /** The view of `img` when it belongs to `postId`, as a list of zero or one views. */
  function ViewIfOwned(token: string, proxy: string, img: Image, postId: string): seq<ImageView> {
    if img.postId == postId then [View(token, proxy, img)] else []
  }

  /** Reference definition: the views of the images owned by `postId`, in input order. */
  function ViewsOf(token: string, proxy: string, imgs: seq<Image>, postId: string): seq<ImageView>
    decreases |imgs|
  {
    if |imgs| == 0 then []
    else ViewsOf(token, proxy, imgs[..|imgs| - 1], postId) + ViewIfOwned(token, proxy, imgs[|imgs| - 1], postId)
  }

  function PostIds(imgs: seq<Image>): set<string> {
    set i | 0 <= i < |imgs| :: imgs[i].postId
  }

  /** `imagesByPostId[id] || []`. */
  function Lookup(groups: map<string, seq<ImageView>>, id: string): seq<ImageView> {
    if id in groups then groups[id] else []
  }

  lemma ViewsOfSnoc(token: string, proxy: string, imgs: seq<Image>, img: Image, postId: string)
    ensures ViewsOf(token, proxy, imgs + [img], postId)
            == ViewsOf(token, proxy, imgs, postId) + ViewIfOwned(token, proxy, img, postId)
  {
    assert (imgs + [img])[..|imgs|] == imgs;
  }

  lemma {:induction false} ViewsOfEmptyWhenAbsent(token: string, proxy: string, imgs: seq<Image>, postId: string)
    requires postId !in PostIds(imgs)
    ensures ViewsOf(token, proxy, imgs, postId) == []
    decreases |imgs|
  {
    if |imgs| > 0 {
      var init := imgs[..|imgs| - 1];
      assert imgs[|imgs| - 1].postId in PostIds(imgs);
      assert PostIds(init) <= PostIds(imgs) by {
        forall i | 0 <= i < |init| ensures init[i].postId in PostIds(imgs) {
          assert init[i] == imgs[i];
        }
      }
      ViewsOfEmptyWhenAbsent(token, proxy, init, postId);
    }
  }

  /**
   * The grouping puts every image exactly once into the list of its own post,
   * in input order: the keys are exactly the post ids that occur, and the list
   * under an id is the reference filter `ViewsOf`.
   */
  lemma {:induction false} GroupIsByPost(token: string, proxy: string, imgs: seq<Image>)
    ensures Group(token, proxy, imgs).Keys == PostIds(imgs)
    ensures forall id :: Lookup(Group(token, proxy, imgs), id) == ViewsOf(token, proxy, imgs, id)
    decreases |imgs|
  {
    if |imgs| == 0 {
    } else {
      var init := imgs[..|imgs| - 1];
      var img := imgs[|imgs| - 1];
      assert imgs == init + [img];
      GroupIsByPost(token, proxy, init);
      assert PostIds(imgs) == PostIds(init) + {img.postId} by {
        forall i | 0 <= i < |init| ensures init[i].postId in PostIds(imgs) {
          assert init[i] == imgs[i];
        }
        forall x | x in PostIds(imgs) ensures x in PostIds(init) + {img.postId} {
          var i :| 0 <= i < |imgs| && imgs[i].postId == x;
          if i < |init| { assert imgs[i] == init[i]; }
        }
      }
      forall id ensures Lookup(Group(token, proxy, imgs), id) == ViewsOf(token, proxy, imgs, id) {
        ViewsOfSnoc(token, proxy, init, img, id);
      }
    }
  }

  /**
   * `mapImagesByPostIdAsync(images)` where `paths(i)` is the result of
   * resolving the `i`-th image: the views grouped by post, with the feed's
   * proxy as the fallback `src`.
   */
  function MapImagesByPostId(token: string, images: seq<Image>, paths: nat -> Option<string>): map<string, seq<ImageView>> {
    Group(token, FeedProxy, Refreshed(images, paths))
  }

  /**
   * The resolution outcome per handle: the result of `getTelegramFilePath(fileId)`
   * when the service answers its calls for `fileId` with `answers(fileId)`.
   */
  function ResolveByHandle(answers: string -> Retry.Answers<string>): string -> Option<string> {
    (fileId: string) => Retry.GetTelegramFilePath(answers(fileId)).path
  }

  /**
   * Each group entry of the feed variant: the entries of post `id` are its
   * images in input order, each with the download URL when its fresh
   * resolution gave a non-empty path and `/api/images/<fileId>` otherwise.
   */
  lemma FeedGroupEntries(token: string, images: seq<Image>, paths: nat -> Option<string>, id: string)
    ensures var g := MapImagesByPostId(token, images, paths);
      && g.Keys == PostIds(images)
      && Lookup(g, id) == ViewsOf(token, FeedProxy, Refreshed(images, paths), id)
  {
    var r := Refreshed(images, paths);
    GroupIsByPost(token, FeedProxy, r);
    assert PostIds(r) == PostIds(images) by {
      forall i | 0 <= i < |r| ensures r[i].postId == images[i].postId {}
      forall x | x in PostIds(images) ensures x in PostIds(r) {
        var i :| 0 <= i < |images| && images[i].postId == x;
        assert r[i].postId == x;
      }
    }
  }

  /**
   * The feed variant ignores a stored path: an image whose resolution fails
   * is served through the proxy even if a path was stored for it.
   */
  lemma FeedFallsBackOnFailedResolution(token: string, images: seq<Image>, paths: nat -> Option<string>, i: nat)
    requires i < |images| && paths(i).None?
    ensures View(token, FeedProxy, Refreshed(images, paths)[i]).src == FeedProxy + images[i].fileId
  {
  }

  /** `posts.map(post => ({...post, images: imagesByPostId[post._id] || []}))`. */
  function Attach(posts: seq<Post>, groups: map<string, seq<ImageView>>): (r: seq<EnrichedPost>)
    ensures |r| == |posts|
    ensures forall i :: 0 <= i < |r| ==> r[i].post == posts[i]
  {
    seq(|posts|, i requires 0 <= i < |posts| => EnrichedPost(posts[i], Lookup(groups, posts[i].id)))
  }

  /** The posts of an enriched list, in order. */
  function PostsOf(es: seq<EnrichedPost>): (r: seq<Post>)
    ensures |r| == |es|
  {
    seq(|es|, i requires 0 <= i < |es| => es[i].post)
  }

  lemma PostsOfAttach(posts: seq<Post>, groups: map<string, seq<ImageView>>)
    ensures PostsOf(Attach(posts, groups)) == posts
  {
  }

  /** The record belongs to one of `posts`. */
  predicate OwnedByOneOf(img: Image, posts: seq<Post>) {
    exists p :: p in posts && p.id == img.postId
  }

  /**
   * The image records that belong to one of `posts`
   * (`Image.find({postId: {$in: ids}})`), in store order: nothing else, and
   * none of theirs left out.
   */
  function ImagesOfPosts(images: seq<Image>, posts: seq<Post>): (r: seq<Image>)
    ensures forall k :: 0 <= k < |r| ==> r[k] in images && OwnedByOneOf(r[k], posts)
    ensures forall img :: img in images && OwnedByOneOf(img, posts) ==> img in r
    decreases |images|
  {
    if |images| == 0 then []
    else
      var rest := ImagesOfPosts(images[1..], posts);
      var head := if OwnedByOneOf(images[0], posts) then [images[0]] else [];
      assert images == [images[0]] + images[1..];
      head + rest
  }

  /**
   * `ImagesOfPosts` is the in-order filter of the store: one record is kept
   * exactly when it belongs to one of `posts`, and the records kept from two
   * stretches of the store come out one stretch after the other.
   */
  lemma {:induction false} ImagesOfPostsIsFilter(a: seq<Image>, b: seq<Image>, posts: seq<Post>)
    ensures ImagesOfPosts(a + b, posts) == ImagesOfPosts(a, posts) + ImagesOfPosts(b, posts)
    ensures |a| == 1 ==> ImagesOfPosts(a, posts) == (if OwnedByOneOf(a[0], posts) then a else [])
    decreases |a|
  {
    if |a| == 0 {
      assert a + b == b;
    } else {
      ImagesOfPostsIsFilter(a[1..], b, posts);
      ImagesOfPostsCons(a, b, posts);
      var h := if OwnedByOneOf(a[0], posts) then [a[0]] else [];
      Regroup(ImagesOfPosts(a + b, posts), h, ImagesOfPosts(a[1..] + b, posts), ImagesOfPosts(a[1..], posts), ImagesOfPosts(b, posts));
    }
  }

  /** Regrouping a concatenation with its parts named. */
  lemma Regroup(whole: seq<Image>, h: seq<Image>, rest: seq<Image>, x: seq<Image>, y: seq<Image>)
    requires whole == h + rest && rest == x + y
    ensures whole == (h + x) + y
  {
  }

  /** One step of the filter: the first record, then the rest. */
  lemma ImagesOfPostsCons(a: seq<Image>, b: seq<Image>, posts: seq<Post>)
    requires |a| > 0
    ensures ImagesOfPosts(a + b, posts) == (if OwnedByOneOf(a[0], posts) then [a[0]] else []) + ImagesOfPosts(a[1..] + b, posts)
    ensures ImagesOfPosts(a, posts) == (if OwnedByOneOf(a[0], posts) then [a[0]] else []) + ImagesOfPosts(a[1..], posts)
    ensures |a| == 1 ==> ImagesOfPosts(a[1..], posts) == []
  {
    assert (a + b)[1..] == a[1..] + b;
    assert (a + b)[0] == a[0];
  }

  /**
   * Every enriched post gets exactly its own group: the views of its images,
   * in input order, or the empty list when it has none.
   */
  lemma EnrichedImagesAreOwnGroup(token: string, posts: seq<Post>, images: seq<Image>, paths: nat -> Option<string>, i: nat)
    requires i < |posts|
    ensures var r := Attach(posts, MapImagesByPostId(token, images, paths));
      && r[i].post == posts[i]
      && r[i].images == ViewsOf(token, FeedProxy, Refreshed(images, paths), posts[i].id)
      && (posts[i].id !in PostIds(images) ==> r[i].images == [])
  {
    FeedGroupEntries(token, images, paths, posts[i].id);
    if posts[i].id !in PostIds(images) {
      ViewsOfEmptyWhenAbsent(token, FeedProxy, Refreshed(images, paths), posts[i].id);
    }
  }

  /** The resolution outcome of the `i`-th record, looked up by its handle. */
  function PathsByIndex(imgs: seq<Image>, resolve: string -> Option<string>): nat -> Option<string> {
    (i: nat) => if i < |imgs| then resolve(imgs[i].fileId) else None
  }

  /** The image records of `ranked`, each carrying the path its handle resolves to now. */
  function ResolvedImages(images: seq<Image>, resolve: string -> Option<string>, ranked: seq<Post>): seq<Image> {
    var imgs := ImagesOfPosts(images, ranked);
    Refreshed(imgs, PathsByIndex(imgs, resolve))
  }

  /**
   * The enrichment step shared by the feed handlers: fetch the image records
   * of `ranked`, resolve each handle (`resolve(fileId)` is the outcome of its
   * retried resolution) and attach the grouped views, keeping the post order.
   * Each post carries the views of its own records, in store order, with the
   * fresh path or the `/api/images/<fileId>` fallback.
   */
  function Enrich(token: string, images: seq<Image>, resolve: string -> Option<string>, ranked: seq<Post>): (r: seq<EnrichedPost>)
    ensures PostsOf(r) == ranked
    ensures |r| == |ranked|
    ensures forall i :: 0 <= i < |r| ==>
              r[i].images == ViewsOf(token, FeedProxy, ResolvedImages(images, resolve, ranked), ranked[i].id)
  {
    var imgs := ImagesOfPosts(images, ranked);
    var paths := PathsByIndex(imgs, resolve);
    var r := Attach(ranked, MapImagesByPostId(token, imgs, paths));
    PostsOfAttach(ranked, MapImagesByPostId(token, imgs, paths));
    forall i | 0 <= i < |r|
      ensures r[i].images == ViewsOf(token, FeedProxy, Refreshed(imgs, paths), ranked[i].id)
    {
      EnrichedImagesAreOwnGroup(token, ranked, imgs, paths, i);
    }
    r
  }

  /**
   * `/post/details/:postId`: one resolution call per image; its path on
   * success, the stored path on failure; the view keeps input order and
   * falls back to `/post/images/<fileId>`.
   */
  function DetailsImages(token: string, images: seq<Image>, answers: nat -> Retry.Attempt<string>): (r: seq<ImageView>)
    ensures |r| == |images|
    ensures forall i :: 0 <= i < |r| ==> r[i] == DetailView(token, images[i], answers(i))
  {
    seq(|images|, i requires 0 <= i < |images| => DetailView(token, images[i], answers(i)))
  }

  /**
   * The details view of one image after its single resolution call: the
   * fresh path when the call gives a non-empty one, the stored path when the
   * call fails, and the proxy when neither is there.
   */
  function DetailView(token: string, img: Image, answer: Retry.Attempt<string>): (v: ImageView)
    ensures v.fileId == img.fileId && v.caption == img.caption
    ensures answer.Succeeded? && answer.value != "" ==> v.src == TelegramFileUrl(token, answer.value)
    ensures answer.Succeeded? && answer.value == "" ==> v.src == DetailsProxy + img.fileId
    ensures answer.Failed? && Truthy(img.filePath) ==> v.src == TelegramFileUrl(token, img.filePath.value)
    ensures answer.Failed? && !Truthy(img.filePath) ==> v.src == DetailsProxy + img.fileId
  {
    var current := if answer.Succeeded? then img.(filePath := Some(answer.value)) else img;
    View(token, DetailsProxy, current)
  }

  /** The outcome of `/post/details/:postId`. */
  datatype DetailsReply = PostNotFound | Details(post: Post, images: seq<ImageView>)

  /** `Image.find({postId})`: the records owned by `postId`, in store order, and no others. */
  function RecordsOf(images: seq<Image>, postId: string): (r: seq<Image>)
    ensures forall k :: 0 <= k < |r| ==> r[k] in images && r[k].postId == postId
    ensures forall img :: img in images && img.postId == postId ==> img in r
    decreases |images|
  {
    if |images| == 0 then []
    else
      var init := images[..|images| - 1];
      var last := images[|images| - 1];
      var rest := RecordsOf(init, postId);
      assert images == init + [last];
      rest + (if last.postId == postId then [last] else [])
  }

  /**
   * `/post/details/:postId`: 404 when no post has the id; otherwise the post
   * and one details view per image record it owns, in store order, the
   * `i`-th made from the `i`-th resolution call.
   */
  function PostDetails(token: string, posts: map<string, Post>, postId: string, images: seq<Image>,
                       answers: nat -> Retry.Attempt<string>): (r: DetailsReply)
    ensures r == PostNotFound <==> postId !in posts
    ensures r.Details? ==> r.post == posts[postId] && |r.images| == |RecordsOf(images, postId)|
    ensures r.Details? ==> forall i :: 0 <= i < |r.images| ==>
              r.images[i] == DetailView(token, RecordsOf(images, postId)[i], answers(i))
  {
    if postId !in posts then PostNotFound
    else Details(posts[postId], DetailsImages(token, RecordsOf(images, postId), answers))
  }

  /** One row of `/user/posts`: the post and its image views. */
  datatype ProfilePost = ProfilePost(post: Post, images: seq<ImageView>)

  /** The profile view of one image record. */
  function ProfileView(img: Image): ImageView {
    ImageView(img.fileId, img.caption, ProfileProxy + img.fileId)
  }

  /** The profile views of a post's image records: always the `/user/images/<fileId>` proxy. */
  function ProfileViews(imgs: seq<Image>): (vs: seq<ImageView>)
    ensures |vs| == |imgs|
    ensures forall k :: 0 <= k < |imgs| ==> vs[k] == ProfileView(imgs[k])
    ensures forall k :: 0 <= k < |imgs| ==> vs[k].fileId == imgs[k].fileId && vs[k].caption == imgs[k].caption
  {
    seq(|imgs|, k requires 0 <= k < |imgs| => ProfileView(imgs[k]))
  }

  /** One row: the post with the views of its image records, or no images when their lookup failed. */
  function ProfileRow(p: Post, found: Option<seq<Image>>): (row: ProfilePost)
    ensures row.post == p
    ensures found.None? ==> row.images == []
    ensures found.Some? ==> row.images == ProfileViews(found.value)
  {
    if found.Some? then ProfilePost(p, ProfileViews(found.value)) else ProfilePost(p, [])
  }

  /**
   * The outcome of `Image.find({postId})` for one post of `/user/posts`:
   * `None` when the query fails (the post's id is in `failing`), otherwise
   * the post's own records.
   */
  function LookupOf(images: seq<Image>, failing: set<string>, postId: string): (found: Option<seq<Image>>)
    ensures postId in failing <==> found.None?
    ensures found.Some? ==> found.value == RecordsOf(images, postId)
  {
    if postId in failing then None else Some(RecordsOf(images, postId))
  }

  /**
   * `/user/posts` image mapping: one row per post, in order, each with the
   * profile views of the post's own image records; a post whose image query
   * fails (its id is in `failing`) gets no images, and the others are not
   * affected.
   */
  function ProfilePosts(posts: seq<Post>, images: seq<Image>, failing: set<string>): (r: seq<ProfilePost>)
    ensures |r| == |posts|
    ensures forall i :: 0 <= i < |r| ==> r[i].post == posts[i]
    ensures forall i :: 0 <= i < |r| && posts[i].id in failing ==> r[i].images == []
    ensures forall i :: 0 <= i < |r| && posts[i].id !in failing ==>
              r[i].images == ProfileViews(RecordsOf(images, posts[i].id))
  {
    seq(|posts|, i requires 0 <= i < |posts| => ProfileRow(posts[i], LookupOf(images, failing, posts[i].id)))
  }

  /**
   * A row of `/user/posts` whose image query succeeded shows exactly the
   * post's own records: each view is the profile view of a record owned by
   * the post, and every record it owns has its view in the row.
   */
  lemma ProfileRowsAreOwnRecords(posts: seq<Post>, images: seq<Image>, failing: set<string>, i: nat)
    requires i < |posts| && posts[i].id !in failing
    ensures var row := ProfilePosts(posts, images, failing)[i];
      && (forall v :: v in row.images ==> exists img :: img in images && img.postId == posts[i].id && v == ProfileView(img))
      && (forall img :: img in images && img.postId == posts[i].id ==> ProfileView(img) in row.images)
  {
    var row := ProfilePosts(posts, images, failing)[i];
    var recs := RecordsOf(images, posts[i].id);
    assert row.images == ProfileViews(recs);
    forall v | v in row.images
      ensures exists img :: img in images && img.postId == posts[i].id && v == ProfileView(img)
    {
      var k :| 0 <= k < |row.images| && row.images[k] == v;
      assert v == ProfileView(recs[k]);
    }
    forall img | img in images && img.postId == posts[i].id ensures ProfileView(img) in row.images {
      var k :| 0 <= k < |recs| && recs[k] == img;
      assert row.images[k] == ProfileView(img);
    }
  }

  /**
   * The query of `POST /user/posts`: `find({author}).sort({uploadTime: -1})
   * .skip(skip).limit(limit)`, a limit of 0 meaning no limit.
   */
  function AuthorPosts(posts: seq<Post>, username: string, skip: nat, limit: nat): (r: seq<Post>)
    ensures |r| == WindowLength(|ByAuthor(posts, username)|, skip, limit)
    ensures multiset(r) <= multiset(ByAuthor(posts, username))
    ensures IsPageOf(ByUploadTime, ByAuthor(posts, username), skip, limit, r)
    ensures forall i :: 0 <= i < |r| ==> r[i] in posts && r[i].author == username
    ensures forall i, j :: 0 <= i < j < |r| ==> r[i].uploadTime >= r[j].uploadTime
  {
    var mine := ByAuthor(posts, username);
    var page := Page(ByUploadTime, mine, skip, limit);
    AuthorPageFacts(posts, username, page);
    page
  }

  /** A sorted selection of the author's posts is written by the author and newest first. */
  lemma AuthorPageFacts(posts: seq<Post>, username: string, page: seq<Post>)
    requires multiset(page) <= multiset(ByAuthor(posts, username)) && SortedDesc(ByUploadTime, page)
    ensures forall i :: 0 <= i < |page| ==> page[i] in posts && page[i].author == username
    ensures forall i, j :: 0 <= i < j < |page| ==> page[i].uploadTime >= page[j].uploadTime
  {
    var mine := ByAuthor(posts, username);
    forall i | 0 <= i < |page| ensures page[i] in posts && page[i].author == username {
      assert page[i] in multiset(page);
      assert page[i] in multiset(mine);
    }
    forall i, j | 0 <= i < j < |page| ensures page[i].uploadTime >= page[j].uploadTime {
      assert Score(ByUploadTime, page[i]) >= Score(ByUploadTime, page[j]);
    }
  }

  /**
   * `POST /user/posts`: one page of the author's posts, newest first, each
   * with the profile views of its own image records (none when that post's
   * image query fails).
   */
  function UserPosts(posts: seq<Post>, username: string, skip: nat, limit: nat,
                     images: seq<Image>, failing: set<string>): (r: seq<ProfilePost>)
    ensures |r| == WindowLength(|ByAuthor(posts, username)|, skip, limit)
    ensures |r| == |AuthorPosts(posts, username, skip, limit)|
    ensures forall i :: 0 <= i < |r| ==> r[i].post == AuthorPosts(posts, username, skip, limit)[i]
    ensures forall i :: 0 <= i < |r| ==> r[i].post in posts && r[i].post.author == username
    ensures forall i, j :: 0 <= i < j < |r| ==> r[i].post.uploadTime >= r[j].post.uploadTime
    ensures forall i :: 0 <= i < |r| && r[i].post.id in failing ==> r[i].images == []
    ensures forall i :: 0 <= i < |r| && r[i].post.id !in failing ==>
              r[i].images == ProfileViews(RecordsOf(images, r[i].post.id))
  {
    var page := AuthorPosts(posts, username, skip, limit);
    ProfilePosts(page, images, failing)
  }
}
