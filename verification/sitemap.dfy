/**
 * `GET /sitemap.xml`: the XML header, one `<url>` block for each of the
 * four static pages, one block per exported post that carries an object id,
 * and the closing tag. The text is built by appending, as the handler does.
 */
module Sitemap {
  import opened Common

  const BaseUrl := "https://apsarabazaar.onrender.com"

  const Header :=
    "<?xml version=\"1.0\" encoding=\"UTF-8\"?>\n"
    + "<urlset xmlns=\"http://www.sitemaps.org/schemas/sitemap/0.9\" "
    + "xmlns:xsi=\"http://www.w3.org/2001/XMLSchema-instance\" "
    + "xsi:schemaLocation=\"http://www.sitemaps.org/schemas/sitemap/0.9 "
    + "http://www.sitemaps.org/schemas/sitemap/0.9/sitemap.xsd\">\n"

  const Footer := "\n</urlset>"

  datatype StaticPage = StaticPage(path: string, lastmod: string)

  const StaticPages: seq<StaticPage> := [
    StaticPage("/", "2025-01-01"),
    StaticPage("/about", "2025-01-01"),
    StaticPage("/donation", "2025-01-01"),
    StaticPage("/contact", "2025-01-01")
  ]

  /** An exported post: `_id.$oid` when present. */
  datatype ExportedPost = ExportedPost(oid: Option<string>)

  /** One `<url>` block: a static page (monthly, priority 0.8) or a post page (weekly, priority 0.5). */
  datatype UrlEntry = StaticUrl(path: string, lastmod: string) | PostUrl(oid: string)

  /** The public address of a post's details page. */
  function PostDetailsUrl(oid: string): string {
    BaseUrl + "/post/details/" + oid
  }

  /** The `<loc>` of a block. */
  function Loc(e: UrlEntry): string {
    match e
    case StaticUrl(path, _) => BaseUrl + path
    case PostUrl(oid) => PostDetailsUrl(oid)
  }

  function StaticEntry(p: StaticPage): UrlEntry {
    StaticUrl(p.path, p.lastmod)
  }

  /** The static blocks, one per page, in page order. */
  function StaticEntries(pages: seq<StaticPage>): seq<UrlEntry>
    decreases |pages|
  {
    if |pages| == 0 then [] else StaticEntries(pages[..|pages| - 1]) + [StaticEntry(pages[|pages| - 1])]
  }

  /** The block of one exported post: one when it carries a non-empty object id, none otherwise. */
  function PostEntry(p: ExportedPost): seq<UrlEntry> {
    if Truthy(p.oid) then [PostUrl(p.oid.value)] else []
  }

  /** The post blocks: one per post with a non-empty object id, in export order. */
  function PostEntries(posts: seq<ExportedPost>): seq<UrlEntry>
    decreases |posts|
  {
    if |posts| == 0 then [] else PostEntries(posts[..|posts| - 1]) + PostEntry(posts[|posts| - 1])
  }

  /** The blocks of the sitemap, in order: the static pages, then the posts. */
  function Entries(posts: seq<ExportedPost>): seq<UrlEntry> {
    StaticEntries(StaticPages) + PostEntries(posts)
  }

  /** The text of one block, with the indentation of the handler's templates. */
  function Render(e: UrlEntry): string {
    match e
    case StaticUrl(_, lastmod) =>
      "\n        <url>\n          <loc>" + Loc(e) + "</loc>\n          <lastmod>" + lastmod
      + "</lastmod>\n          <changefreq>monthly</changefreq>\n          <priority>0.8</priority>\n        </url>"
    case PostUrl(_) =>
      "\n          <url>\n            <loc>" + Loc(e)
      + "</loc>\n            <changefreq>weekly</changefreq>\n            <priority>0.5</priority>\n          </url>"
  }

  function RenderAll(es: seq<UrlEntry>): string
    decreases |es|
  {
    if |es| == 0 then "" else RenderAll(es[..|es| - 1]) + Render(es[|es| - 1])
  }

  lemma RenderAllSnoc(es: seq<UrlEntry>, e: UrlEntry)
    ensures RenderAll(es + [e]) == RenderAll(es) + Render(e)
  {
    assert (es + [e])[..|es|] == es;
  }

  lemma PostEntriesSnoc(posts: seq<ExportedPost>, p: ExportedPost)
    ensures PostEntries(posts + [p]) == PostEntries(posts) + PostEntry(p)
  {
    assert (posts + [p])[..|posts|] == posts;
  }

  lemma StaticEntriesSnoc(pages: seq<StaticPage>, p: StaticPage)
    ensures StaticEntries(pages + [p]) == StaticEntries(pages) + [StaticEntry(p)]
  {
    assert (pages + [p])[..|pages|] == pages;
  }

  lemma StaticEntriesStep(pages: seq<StaticPage>, i: nat)
    requires i < |pages|
    ensures StaticEntries(pages[..i + 1]) == StaticEntries(pages[..i]) + [StaticEntry(pages[i])]
  {
    assert pages[..i + 1] == pages[..i] + [pages[i]];
    StaticEntriesSnoc(pages[..i], pages[i]);
  }

  /** Appends the block of each static page in turn. */
  method AppendStatics(pages: seq<StaticPage>) returns (xml: string)
    ensures xml == RenderAll(StaticEntries(pages))
  {
    xml := "";
    var i := 0;
    ghost var done: seq<UrlEntry> := [];
    assert pages[..0] == [];
    while i < |pages|
      invariant 0 <= i <= |pages|
      invariant done == StaticEntries(pages[..i])
      invariant xml == RenderAll(done)
    {
      var e := StaticEntry(pages[i]);
      StaticEntriesStep(pages, i);
      RenderAllSnoc(done, e);
      xml := xml + Render(e);
      done := done + [e];
      i := i + 1;
    }
    assert pages[..|pages|] == pages;
  }

  lemma PostEntriesStep(done: seq<UrlEntry>, posts: seq<ExportedPost>, j: nat)
    requires j < |posts|
    ensures done + PostEntries(posts[..j + 1])
            == done + PostEntries(posts[..j]) + PostEntry(posts[j])
  {
    assert posts[..j + 1] == posts[..j] + [posts[j]];
    PostEntriesSnoc(posts[..j], posts[j]);
  }

  lemma PostsPrefixEnds(posts: seq<ExportedPost>)
    ensures PostEntries(posts[..0]) == [] && posts[..|posts|] == posts
  {
    assert posts[..0] == [];
  }

  /** Appends the block of each exported post that carries an object id. */
  method AppendPosts(prefix: string, done: seq<UrlEntry>, posts: seq<ExportedPost>) returns (xml: string)
    requires prefix == RenderAll(done)
    ensures xml == RenderAll(done + PostEntries(posts))
  {
    xml := prefix;
    var j := 0;
    PostsPrefixEnds(posts);
    ghost var acc := done;
    assert acc == done + [];
    while j < |posts|
      invariant 0 <= j <= |posts|
      invariant acc == done + PostEntries(posts[..j])
      invariant xml == RenderAll(acc)
    {
      var p := posts[j];
      PostEntriesStep(done, posts, j);
      if Truthy(p.oid) {
        var e := PostUrl(p.oid.value);
        RenderAllSnoc(acc, e);
        xml := xml + Render(e);
        acc := acc + [e];
      } else {
        SeqAppendEmpty(acc);
      }
      j := j + 1;
    }
  }

  lemma SeqAppendEmpty(a: seq<UrlEntry>)
    ensures a + [] == a
  {
  }

  /** The handler: the header, each static block, each post block, then the footer. */
  method BuildSitemap(posts: seq<ExportedPost>) returns (xml: string)
    ensures xml == Header + RenderAll(Entries(posts)) + Footer
  {
    var statics := AppendStatics(StaticPages);
    var body := AppendPosts(statics, StaticEntries(StaticPages), posts);
    xml := Header + body + Footer;
  }

  /** The number of exported posts that carry an object id. */
  function CountWithOid(posts: seq<ExportedPost>): nat
    decreases |posts|
  {
    if |posts| == 0 then 0 else CountWithOid(posts[..|posts| - 1]) + (if Truthy(posts[|posts| - 1].oid) then 1 else 0)
  }

  /**
   * Exactly one post block per exported post with an object id: every such
   * post is listed and every listed post block belongs to such a post.
   */
  lemma {:induction false} PostEntriesArePosts(posts: seq<ExportedPost>)
    ensures |PostEntries(posts)| == CountWithOid(posts)
    ensures forall i :: 0 <= i < |posts| && Truthy(posts[i].oid) ==>
              PostUrl(posts[i].oid.value) in PostEntries(posts)
    ensures forall e :: e in PostEntries(posts) ==>
              exists i :: 0 <= i < |posts| && Truthy(posts[i].oid) && e == PostUrl(posts[i].oid.value)
    decreases |posts|
  {
    if |posts| > 0 {
      var n := |posts| - 1;
      var init := posts[..n];
      PostEntriesArePosts(init);
      assert forall i :: 0 <= i < n ==> init[i] == posts[i];
      assert PostEntries(posts) == PostEntries(init) + PostEntry(posts[n]);
      forall e | e in PostEntries(posts)
        ensures exists i :: 0 <= i < |posts| && Truthy(posts[i].oid) && e == PostUrl(posts[i].oid.value)
      {
        if e in PostEntry(posts[n]) {
          assert Truthy(posts[n].oid) && e == PostUrl(posts[n].oid.value);
        } else {
          var i :| 0 <= i < n && Truthy(init[i].oid) && e == PostUrl(init[i].oid.value);
          assert init[i] == posts[i];
        }
      }
    }
  }

  /** The four static blocks, spelled out. */
  lemma StaticBlocks()
    ensures StaticEntries(StaticPages) == [
      StaticUrl("/", "2025-01-01"),
      StaticUrl("/about", "2025-01-01"),
      StaticUrl("/donation", "2025-01-01"),
      StaticUrl("/contact", "2025-01-01")]
  {
    var pages := StaticPages;
    assert pages[..0] == [];
    StaticEntriesStep(pages, 0);
    StaticEntriesStep(pages, 1);
    StaticEntriesStep(pages, 2);
    StaticEntriesStep(pages, 3);
    assert pages[..4] == pages;
    assert StaticEntries(pages) == [StaticEntry(pages[0]), StaticEntry(pages[1]), StaticEntry(pages[2]), StaticEntry(pages[3])];
  }

  /** The sitemap holds the four static pages first, then one block per post with an object id. */
  lemma SitemapStartsWithStaticPages(posts: seq<ExportedPost>)
    ensures |Entries(posts)| == 4 + CountWithOid(posts)
    ensures Entries(posts)[..4] == [
      StaticUrl("/", "2025-01-01"),
      StaticUrl("/about", "2025-01-01"),
      StaticUrl("/donation", "2025-01-01"),
      StaticUrl("/contact", "2025-01-01")]
    ensures Entries(posts)[4..] == PostEntries(posts)
  {
    PostEntriesArePosts(posts);
    StaticBlocks();
  }
}
