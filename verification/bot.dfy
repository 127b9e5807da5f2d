/**
 * The admin bot: who may use it, how an uploaded HTML export is cut into
 * articles and each article reduced to a media URL and a title, how those
 * are kept under per-article keys, and what pressing "Post" on one does.
 *
 * The three regular expressions of the document handler are modelled as
 * scanners that reproduce the engine's leftmost, lazy or greedy choice:
 * `<article.*?>.*?</article>` (dot matches newlines), the case-insensitive
 * media URL `https?://[^\s"']+\.(gif|jpg|jpeg|png|webp|mp4)` and the
 * case-insensitive `aria-label="([^"]+)"`.
 */
module Bot {
  import opened Common
  import opened Strings
  import opened Models
  import opened Retry

  const Admins: seq<string> := ["trickytejas", "raghav_0308"]

  /** The sender's username is on the admin list (a sender without a username is not). */
  predicate IsAdmin(username: Option<string>) {
    username.Some? && username.value in Admins
  }

  // ---------------------------------------------------------------------
  // Character classes and literal matching
  // ---------------------------------------------------------------------

  /** ASCII case folding, which is all a case-insensitive match of these ASCII patterns needs. */
  function Lower(c: char): char {
    if 'A' <= c <= 'Z' then (c as int + 32) as char else c
  }

  predicate SameChar(a: char, b: char, caseless: bool) {
    if caseless then Lower(a) == Lower(b) else a == b
  }

  /** The pattern's `\s`: the ECMAScript white-space and line-terminator characters. */
  predicate IsSpace(c: char) {
    c == '\t' || c == '\n' || c == '\U{b}' || c == '\U{c}' || c == '\r' || c == ' '
    || c == '\U{a0}' || c == '\U{1680}' || ('\U{2000}' <= c <= '\U{200a}')
    || c == '\U{2028}' || c == '\U{2029}' || c == '\U{202f}' || c == '\U{205f}'
    || c == '\U{3000}' || c == '\U{feff}'
  }

  /** The class `[^\s"']` of URL body characters. */
  predicate IsUrlChar(c: char) {
    !IsSpace(c) && c != '"' && c != '\''
  }

  /** `lit` occurs in `s` at position `i`, comparing case-insensitively when asked. */
  predicate LiteralAt(s: string, i: nat, lit: string, caseless: bool) {
    i + |lit| <= |s| && forall k :: 0 <= k < |lit| ==> SameChar(s[i + k], lit[k], caseless)
  }

  /** The first position at or after `from` holding `c`. */
  function FindChar(s: string, from: nat, c: char): (r: Option<nat>)
    ensures r.Some? ==> from <= r.value < |s| && s[r.value] == c
    ensures r.Some? ==> forall k :: from <= k < r.value ==> s[k] != c
    ensures r.None? ==> forall k :: from <= k < |s| ==> s[k] != c
    decreases |s| - from
  {
    if from >= |s| then None
    else if s[from] == c then Some(from)
    else FindChar(s, from + 1, c)
  }

  /** The first position at or after `from` where `lit` occurs (case-sensitively). */
  function FindLiteral(s: string, from: nat, lit: string): (r: Option<nat>)
    ensures r.Some? ==> from <= r.value && LiteralAt(s, r.value, lit, false)
    ensures r.Some? ==> forall k :: from <= k < r.value ==> !LiteralAt(s, k, lit, false)
    ensures r.None? ==> forall k :: from <= k <= |s| ==> !LiteralAt(s, k, lit, false)
    decreases |s| - from
  {
    if from > |s| then None
    else if LiteralAt(s, from, lit, false) then Some(from)
    else FindLiteral(s, from + 1, lit)
  }

  /** The first position at or after `from` holding a character outside `[^\s"']`, or `|s|`. */
  function UrlRunEnd(s: string, from: nat): (e: nat)
    requires from <= |s|
    ensures from <= e <= |s|
    ensures forall k :: from <= k < e ==> IsUrlChar(s[k])
    ensures e < |s| ==> !IsUrlChar(s[e])
    decreases |s| - from
  {
    if from == |s| || !IsUrlChar(s[from]) then from else UrlRunEnd(s, from + 1)
  }

  // ---------------------------------------------------------------------
  // The three patterns, tried at one position
  // ---------------------------------------------------------------------

  /** The three characters `a b c` at `q`, compared case-insensitively. */
  predicate Chars3(s: string, q: nat, a: char, b: char, c: char) {
    q + 3 <= |s| && Lower(s[q]) == a && Lower(s[q + 1]) == b && Lower(s[q + 2]) == c
  }

  /** The four characters `a b c d` at `q`, compared case-insensitively. */
  predicate Chars4(s: string, q: nat, a: char, b: char, c: char, d: char) {
    q + 4 <= |s| && Lower(s[q]) == a && Lower(s[q + 1]) == b && Lower(s[q + 2]) == c && Lower(s[q + 3]) == d
  }

  /**
   * The length of the media extension starting at `q`, trying the
   * alternatives `gif|jpg|jpeg|png|webp|mp4` in order; 0 when none matches.
   */
  function ExtensionLength(s: string, q: nat): (n: nat)
    ensures n == 0 || n == 3 || n == 4
    ensures n > 0 ==> q + n <= |s|
  {
    if Chars3(s, q, 'g', 'i', 'f') then 3
    else if Chars3(s, q, 'j', 'p', 'g') then 3
    else if Chars4(s, q, 'j', 'p', 'e', 'g') then 4
    else if Chars3(s, q, 'p', 'n', 'g') then 3
    else if Chars4(s, q, 'w', 'e', 'b', 'p') then 4
    else if Chars3(s, q, 'm', 'p', '4') then 3
    else 0
  }

  /** An extension is made of letters and digits, so of URL characters. */
  lemma ExtensionIsUrlChars(s: string, q: nat, k: nat)
    requires ExtensionLength(s, q) > 0 && q <= k < q + ExtensionLength(s, q)
    ensures IsUrlChar(s[k])
  {
  }

  /** `\.(ext)` matches at `p`. */
  predicate DotExtensionAt(s: string, p: nat) {
    p < |s| && s[p] == '.' && ExtensionLength(s, p + 1) > 0
  }

  /**
   * The last dot in `s[lo..hi]` that is followed by a media extension: the
   * greedy body gives up characters from the right until `\.ext` matches.
   */
  function LastExtensionDot(s: string, lo: nat, hi: nat): (r: Option<nat>)
    ensures r.Some? ==> lo <= r.value < hi && DotExtensionAt(s, r.value)
    ensures r.Some? ==> forall p :: r.value < p < hi ==> !DotExtensionAt(s, p)
    ensures r.None? ==> forall p :: lo <= p < hi ==> !DotExtensionAt(s, p)
    decreases hi
  {
    if hi <= lo then None
    else if DotExtensionAt(s, hi - 1) then Some(hi - 1)
    else LastExtensionDot(s, lo, hi - 1)
  }

  datatype Pattern = ArticlePattern | MediaUrlPattern | AriaLabelPattern

  /** A match: where it ends and the text it yields (the whole match, or the capture for labels). */
  datatype Hit = Hit(end: nat, value: string)

  /** `<article.*?>.*?</article>` at `i`: the first `>` after the tag name, then the first closing tag. */
  function ArticleAt(s: string, i: nat): Option<Hit> {
    if !LiteralAt(s, i, "<article", false) then None
    else match FindChar(s, i + 8, '>')
      case None => None
      case Some(j) =>
        match FindLiteral(s, j + 1, "</article>")
        case None => None
        case Some(k) =>
          Some(Hit(k + 10, s[i..k + 10]))
  }

  /** `http://` at `i`, case-insensitively. */
  predicate HttpAt(s: string, i: nat) {
    i + 7 <= |s| && Lower(s[i]) == 'h' && Lower(s[i + 1]) == 't' && Lower(s[i + 2]) == 't' && Lower(s[i + 3]) == 'p'
    && s[i + 4] == ':' && s[i + 5] == '/' && s[i + 6] == '/'
  }

  /** `https://` at `i`, case-insensitively. */
  predicate HttpsAt(s: string, i: nat) {
    i + 8 <= |s| && Lower(s[i]) == 'h' && Lower(s[i + 1]) == 't' && Lower(s[i + 2]) == 't' && Lower(s[i + 3]) == 'p'
    && Lower(s[i + 4]) == 's' && s[i + 5] == ':' && s[i + 6] == '/' && s[i + 7] == '/'
  }

  /** `https?://` at `i`: the scheme's length, or 0. */
  function SchemeLength(s: string, i: nat): (n: nat)
    ensures n == 0 || n == 7 || n == 8
    ensures n == 8 <==> HttpsAt(s, i)
    ensures n == 7 <==> !HttpsAt(s, i) && HttpAt(s, i)
  {
    if HttpsAt(s, i) then 8
    else if HttpAt(s, i) then 7
    else 0
  }

  /**
   * The dot before the extension of a URL match at `i`: the body
   * `[^\s"']+` runs as far as it can, then gives characters back until
   * `\.ext` follows.
   */
  function UrlDot(s: string, i: nat): (r: Option<nat>)
    requires SchemeLength(s, i) > 0
    ensures r.Some? ==> i + SchemeLength(s, i) < r.value && DotExtensionAt(s, r.value)
    ensures r.Some? ==> forall k :: i + SchemeLength(s, i) <= k < r.value ==> IsUrlChar(s[k])
  {
    var b := i + SchemeLength(s, i);
    if b > |s| then None
    else LastExtensionDot(s, b + 1, UrlRunEnd(s, b))
  }

  /** `https?://[^\s"']+\.(ext)` at `i`: the longest body whose run ends in a media extension. */
  function MediaUrlAt(s: string, i: nat): Option<Hit> {
    if SchemeLength(s, i) == 0 then None
    else match UrlDot(s, i)
      case None => None
      case Some(p) =>
        var end := p + 1 + ExtensionLength(s, p + 1);
        Some(Hit(end, s[i..end]))
  }

  const AriaLabelOpen := "aria-label=\""

  /** `aria-label="([^"]+)"` at `i`: the non-empty text up to the next quote. */
  function AriaLabelAt(s: string, i: nat): Option<Hit> {
    if !LiteralAt(s, i, AriaLabelOpen, true) then None
    else
      var b := i + |AriaLabelOpen|;
      match FindChar(s, b, '"')
      case None => None
      case Some(q) => if q == b then None else Some(Hit(q + 1, s[b..q]))
  }

  /** One pattern tried at one position; a match always consumes at least one character. */
  function MatchAt(p: Pattern, s: string, i: nat): (r: Option<Hit>)
    ensures r.Some? ==> i < r.value.end <= |s|
  {
    match p
    case ArticlePattern => ArticleAt(s, i)
    case MediaUrlPattern => MediaUrlAt(s, i)
    case AriaLabelPattern => AriaLabelAt(s, i)
  }

  /** A global match from `i`: leftmost match, then resume where it ended. */
  function AllMatches(p: Pattern, s: string, i: nat): seq<string>
    decreases |s| - i
  {
    if i >= |s| then []
    else match MatchAt(p, s, i)
      case Some(h) => [h.value] + AllMatches(p, s, h.end)
      case None => AllMatches(p, s, i + 1)
  }

  /** The articles of an uploaded export. */
  function Articles(content: string): seq<string> {
    AllMatches(ArticlePattern, content, 0)
  }

  /** The last of a non-empty list of matched values. */
  function Last(values: seq<string>): string
    requires values != []
  {
    values[|values| - 1]
  }

  /** The article's media URL: the last URL match, if any. */
  function MediaUrlOf(article: string): Option<string> {
    var urls := AllMatches(MediaUrlPattern, article, 0);
    if |urls| == 0 then None else Some(Last(urls))
  }

  const NoTitle := "N/A"

  /** The article's title: the last `aria-label` value, or "N/A". */
  function TitleOf(article: string): string {
    var labels := AllMatches(AriaLabelPattern, article, 0);
    if |labels| == 0 then NoTitle else Last(labels)
  }

  // ---------------------------------------------------------------------
  // What a match looks like
  // ---------------------------------------------------------------------

  /** `u` ends in a dot and a media extension that runs to its end, the dot lying past position `b`. */
  predicate HasMediaExtensionAfter(u: string, b: nat) {
    || (|u| >= 4 && b < |u| - 4 && u[|u| - 4] == '.' && ExtensionLength(u, |u| - 3) == 3)
    || (|u| >= 5 && b < |u| - 5 && u[|u| - 5] == '.' && ExtensionLength(u, |u| - 4) == 4)
  }

  /**
   * A media URL: an http or https scheme, URL characters only, and a
   * non-empty body after the scheme followed by `.ext` for a media extension.
   */
  predicate IsMediaUrl(u: string) {
    && SchemeLength(u, 0) > 0
    && (forall k :: 7 <= k < |u| ==> IsUrlChar(u[k]))
    && HasMediaExtensionAfter(u, SchemeLength(u, 0))
  }

  /** A title value: non-empty and free of double quotes. */
  predicate IsLabel(t: string) {
    t != "" && '"' !in t
  }

  /** The pieces of a URL match: scheme length `n`, the dot at `p` and the extension length `x`. */
  lemma MediaUrlAtParts(s: string, i: nat) returns (n: nat, p: nat, x: nat)
    requires MediaUrlAt(s, i).Some?
    ensures n == SchemeLength(s, i) && n > 0
    ensures i + n < p < |s| && s[p] == '.' && x == ExtensionLength(s, p + 1) && x > 0
    ensures forall k :: i + n <= k < p ==> IsUrlChar(s[k])
    ensures MediaUrlAt(s, i).value.value == s[i..p + 1 + x]
  {
    n := SchemeLength(s, i);
    p := UrlDot(s, i).value;
    x := ExtensionLength(s, p + 1);
  }

  /** The scheme seen in the text is seen at the start of a match. */
  lemma SchemeOfMatch(s: string, i: nat, u: string)
    requires SchemeLength(s, i) > 0 && i + 8 <= i + |u| <= |s| && u == s[i..i + |u|]
    ensures SchemeLength(u, 0) == SchemeLength(s, i)
  {
    assert forall k :: 0 <= k < 8 ==> u[k] == s[i + k];
  }

  /** The extension seen in the text is seen at the end of a match ending with it. */
  lemma ExtensionOfMatch(s: string, q: nat, u: string, q': nat)
    requires ExtensionLength(s, q) > 0 && q' + ExtensionLength(s, q) == |u|
    requires u[q'..] == s[q..q + ExtensionLength(s, q)]
    ensures ExtensionLength(u, q') == ExtensionLength(s, q)
  {
    assert u[q'] == s[q] && u[q' + 1] == s[q + 1] && u[q' + 2] == s[q + 2];
    if ExtensionLength(s, q) == 4 {
      assert u[q' + 3] == s[q + 3];
    }
  }

  /** Text assembled from a scheme, URL characters, a dot and a media extension is a media URL. */
  lemma MediaUrlFromParts(s: string, i: nat, n: nat, p: nat, x: nat)
    requires n == SchemeLength(s, i) && n > 0
    requires i + n < p < |s| && s[p] == '.' && x == ExtensionLength(s, p + 1) && x > 0
    requires forall k :: i + n <= k < p ==> IsUrlChar(s[k])
    ensures IsMediaUrl(s[i..p + 1 + x])
  {
    var u := s[i..p + 1 + x];
    SchemeOfMatch(s, i, u);
    BodyOfMatch(s, i, n, p, x);
    UrlCharsOfSlice(s, i, p + 1 + x);
    assert u[|u| - x - 1] == s[p];
    assert u[|u| - x..] == s[p + 1..p + 1 + x];
    ExtensionOfMatch(s, p + 1, u, |u| - x);
    DotExtensionEnds(u, x, n);
  }

  lemma UrlCharsOfSlice(s: string, i: nat, j: nat)
    requires i + 7 <= j <= |s|
    requires forall k :: i + 7 <= k < j ==> IsUrlChar(s[k])
    ensures forall k :: 7 <= k < j - i ==> IsUrlChar(s[i..j][k])
  {
    forall k | 7 <= k < j - i ensures IsUrlChar(s[i..j][k]) {
      assert s[i..j][k] == s[i + k];
    }
  }

  lemma DotExtensionEnds(u: string, x: nat, b: nat)
    requires x < |u| && u[|u| - x - 1] == '.' && x > 0 && ExtensionLength(u, |u| - x) == x
    requires b < |u| - x - 1
    ensures HasMediaExtensionAfter(u, b)
  {
  }

  /** Past the common seven-character prefix of the schemes, a match holds only URL characters. */
  lemma BodyOfMatch(s: string, i: nat, n: nat, p: nat, x: nat)
    requires n == SchemeLength(s, i) && n > 0
    requires i + n < p < |s| && s[p] == '.' && x == ExtensionLength(s, p + 1) && x > 0
    requires forall k :: i + n <= k < p ==> IsUrlChar(s[k])
    ensures forall k :: i + 7 <= k < p + 1 + x ==> IsUrlChar(s[k])
  {
    forall k | i + 7 <= k < p + 1 + x ensures IsUrlChar(s[k]) {
      if k > p {
        ExtensionIsUrlChars(s, p + 1, k);
      }
    }
  }

  lemma MediaUrlAtShape(s: string, i: nat)
    requires MediaUrlAt(s, i).Some?
    ensures IsMediaUrl(MediaUrlAt(s, i).value.value)
  {
    var n, p, x := MediaUrlAtParts(s, i);
    MediaUrlFromParts(s, i, n, p, x);
  }

  lemma AriaLabelAtShape(s: string, i: nat)
    requires AriaLabelAt(s, i).Some?
    ensures IsLabel(AriaLabelAt(s, i).value.value)
  {
    var b := i + |AriaLabelOpen|;
    var q := FindChar(s, b, '"').value;
    var t := s[b..q];
    assert t == AriaLabelAt(s, i).value.value;
    forall k | 0 <= k < |t| ensures t[k] != '"' {
      assert t[k] == s[b + k];
    }
  }

  /** Every URL the global match collects is a media URL taken from the text. */
  lemma {:induction false} MediaMatchesAreMediaUrls(s: string, i: nat)
    ensures forall u :: u in AllMatches(MediaUrlPattern, s, i) ==> IsMediaUrl(u) && Contains(s, u)
    decreases |s| - i
  {
    if i < |s| {
      match MatchAt(MediaUrlPattern, s, i)
      case Some(h) =>
        MediaMatchesAreMediaUrls(s, h.end);
        MediaUrlAtShape(s, i);
        assert OccursAt(s, h.value, i);
      case None =>
        MediaMatchesAreMediaUrls(s, i + 1);
    }
  }

  /** Every collected label value is non-empty and quote-free. */
  lemma {:induction false} LabelMatchesAreLabels(s: string, i: nat)
    ensures forall t :: t in AllMatches(AriaLabelPattern, s, i) ==> IsLabel(t)
    decreases |s| - i
  {
    if i < |s| {
      match MatchAt(AriaLabelPattern, s, i)
      case Some(h) =>
        LabelMatchesAreLabels(s, h.end);
        AriaLabelAtShape(s, i);
      case None =>
        LabelMatchesAreLabels(s, i + 1);
    }
  }

  /**
   * The chosen media URL is a media URL occurring in the article, and there
   * is none exactly when the URL pattern never matches; the title is "N/A"
   * or a non-empty, quote-free label.
   */
  lemma ExtractionShape(article: string)
    ensures MediaUrlOf(article).Some? ==> IsMediaUrl(MediaUrlOf(article).value) && Contains(article, MediaUrlOf(article).value)
    ensures MediaUrlOf(article).None? <==> AllMatches(MediaUrlPattern, article, 0) == []
    ensures TitleOf(article) == NoTitle || IsLabel(TitleOf(article))
    ensures TitleOf(article) != ""
  {
    MediaMatchesAreMediaUrls(article, 0);
    LabelMatchesAreLabels(article, 0);
    var labels := AllMatches(AriaLabelPattern, article, 0);
    if |labels| > 0 {
      assert labels[|labels| - 1] in labels;
    }
    var urls := AllMatches(MediaUrlPattern, article, 0);
    if |urls| > 0 {
      assert urls[|urls| - 1] in urls;
    }
  }

  /** No position from `i` on starts a match of `p`. */
  ghost predicate NoMatchFrom(p: Pattern, s: string, i: nat) {
    forall j: nat :: i <= j ==> MatchAt(p, s, j).None?
  }

  /** `p` matches at `j` with value `v`, and no position from the match's end on matches again. */
  ghost predicate IsFinalMatch(p: Pattern, s: string, j: nat, v: string) {
    && MatchAt(p, s, j).Some?
    && MatchAt(p, s, j).value.value == v
    && NoMatchFrom(p, s, MatchAt(p, s, j).value.end)
  }

  /** The global match from `i` finds nothing exactly when no position from `i` on matches. */
  lemma {:induction false} NoMatchesIffNoneMatch(p: Pattern, s: string, i: nat)
    ensures AllMatches(p, s, i) == [] <==> NoMatchFrom(p, s, i)
    decreases |s| - i
  {
    if i >= |s| {
      forall j: nat | i <= j
        ensures MatchAt(p, s, j).None?
      {
      }
    } else if MatchAt(p, s, i).None? {
      NoMatchesIffNoneMatch(p, s, i + 1);
      if NoMatchFrom(p, s, i + 1) {
        forall j: nat | i <= j
          ensures MatchAt(p, s, j).None?
        {
          if j > i {
            assert i + 1 <= j;
          }
        }
      }
    } else {
      assert !NoMatchFrom(p, s, i) by {
        assert MatchAt(p, s, i).Some?;
      }
    }
  }

  /** The last value of a non-empty global match comes from a match after which nothing matches. */
  lemma {:induction false} LastMatchIsFinal(p: Pattern, s: string, i: nat)
    requires AllMatches(p, s, i) != []
    ensures exists j: nat :: i <= j && IsFinalMatch(p, s, j, Last(AllMatches(p, s, i)))
    decreases |s| - i
  {
    if MatchAt(p, s, i).Some? {
      var e := MatchAt(p, s, i).value.end;
      if AllMatches(p, s, e) == [] {
        FinalMatchHere(p, s, i);
      } else {
        LastMatchIsFinal(p, s, e);
        LastAfterHit(p, s, i);
      }
    } else {
      LastAfterMiss(p, s, i);
      LastMatchIsFinal(p, s, i + 1);
    }
  }

  /** A match whose remainder matches nothing is the final one. */
  lemma FinalMatchHere(p: Pattern, s: string, i: nat)
    requires MatchAt(p, s, i).Some? && AllMatches(p, s, MatchAt(p, s, i).value.end) == []
    ensures AllMatches(p, s, i) != [] && IsFinalMatch(p, s, i, Last(AllMatches(p, s, i)))
  {
    NoMatchesIffNoneMatch(p, s, MatchAt(p, s, i).value.end);
    assert AllMatches(p, s, i) == [MatchAt(p, s, i).value.value];
  }

  /** After a match, the last value is the last value of the remainder. */
  lemma LastAfterHit(p: Pattern, s: string, i: nat)
    requires MatchAt(p, s, i).Some? && AllMatches(p, s, MatchAt(p, s, i).value.end) != []
    ensures Last(AllMatches(p, s, i)) == Last(AllMatches(p, s, MatchAt(p, s, i).value.end))
  {
    var h := MatchAt(p, s, i).value;
    assert AllMatches(p, s, i) == [h.value] + AllMatches(p, s, h.end);
  }

  /** Where nothing matches, the global match moves on one position. */
  lemma LastAfterMiss(p: Pattern, s: string, i: nat)
    requires AllMatches(p, s, i) != [] && MatchAt(p, s, i).None?
    ensures AllMatches(p, s, i + 1) == AllMatches(p, s, i)
  {
  }

  /**
   * The media URL is absent exactly when no position of the article matches
   * the URL pattern; otherwise it is the value of a match after which the
   * pattern matches nowhere.
   */
  lemma MediaUrlIsFinalMatch(article: string)
    ensures MediaUrlOf(article).None? <==> NoMatchFrom(MediaUrlPattern, article, 0)
    ensures MediaUrlOf(article).Some? ==> exists j: nat :: IsFinalMatch(MediaUrlPattern, article, j, MediaUrlOf(article).value)
  {
    NoMatchesIffNoneMatch(MediaUrlPattern, article, 0);
    if AllMatches(MediaUrlPattern, article, 0) != [] {
      LastMatchIsFinal(MediaUrlPattern, article, 0);
    }
  }

  /**
   * The title is "N/A" when no position of the article matches the label
   * pattern; otherwise it is the value of a match after which the pattern
   * matches nowhere.
   */
  lemma TitleIsFinalMatch(article: string)
    ensures NoMatchFrom(AriaLabelPattern, article, 0) ==> TitleOf(article) == NoTitle
    ensures !NoMatchFrom(AriaLabelPattern, article, 0) ==> exists j: nat :: IsFinalMatch(AriaLabelPattern, article, j, TitleOf(article))
  {
    var labels := AllMatches(AriaLabelPattern, article, 0);
    NoMatchesIffNoneMatch(AriaLabelPattern, article, 0);
    if labels != [] {
      assert TitleOf(article) == Last(labels);
      LastMatchIsFinal(AriaLabelPattern, article, 0);
    }
  }

  /** A URL needs a body between its scheme and its extension. */
  lemma EmptyBodyIsNoMediaUrl()
    ensures !IsMediaUrl("http://.png")
    ensures IsMediaUrl("http://a.png")
  {
  }

  lemma TitleNonEmpty(article: string)
    ensures TitleOf(article) != ""
  {
    LabelMatchesAreLabels(article, 0);
    var labels := AllMatches(AriaLabelPattern, article, 0);
    if |labels| > 0 {
      assert labels[|labels| - 1] in labels;
    }
  }

  // ---------------------------------------------------------------------
  // Commands and the article store
  // ---------------------------------------------------------------------

  /** What the bot sends back to the admin chat. */
  datatype Notice =
    | NoPermission
    | Welcome
    | NoArticles
    | ArticleSent(index: nat, title: string, mediaUrl: string)
    | MediaFailed(index: nat, title: string, mediaUrl: string)
    | NoMedia(index: nat, title: string)

  /** `/start`: a welcome for admins, the permission notice for everybody else. */
  function Start(username: Option<string>): (r: Notice)
    ensures r == Welcome <==> IsAdmin(username)
    ensures r == NoPermission <==> !IsAdmin(username)
  {
    if IsAdmin(username) then Welcome else NoPermission
  }

  /** A remembered article: its title, its media URL and, once sent, the sent photo's file id. */
  datatype StoredArticle = StoredArticle(title: string, mediaUrl: string, fileId: Option<string>)

  type ArticleStore = map<string, StoredArticle>

  const KeyPrefix := "article_"

  /** The key of the article at `index`: counted from one. */
  function StorageKey(index: nat): string {
    KeyPrefix + NatToString(index + 1)
  }

  /** Different articles get different keys. */
  lemma StorageKeyInjective(i: nat, j: nat)
    requires StorageKey(i) == StorageKey(j)
    ensures i == j
  {
    assert NatToString(i + 1) == StorageKey(i)[|KeyPrefix|..];
    assert NatToString(j + 1) == StorageKey(j)[|KeyPrefix|..];
    NatToStringInjective(i + 1, j + 1);
  }

  /**
   * The entry an article with a media URL leaves behind: written before the
   * photo is sent, completed with the file id only when sending succeeds.
   */
  function EntryFor(article: string, sent: Option<string>): StoredArticle
    requires MediaUrlOf(article).Some?
  {
    StoredArticle(TitleOf(article), MediaUrlOf(article).value, sent)
  }

  function NoticeFor(index: nat, article: string, sent: Option<string>): Notice {
    match MediaUrlOf(article)
    case None => NoMedia(index, TitleOf(article))
    case Some(u) => if sent.Some? then ArticleSent(index, TitleOf(article), u) else MediaFailed(index, TitleOf(article), u)
  }

  /** Every remembered title is non-empty. */
  predicate WellFormedStore(store: ArticleStore) {
    forall k :: k in store ==> store[k].title != ""
  }

  /** What article `i` of a batch writes: its entry, when it has a media URL. */
  function WriteOf(article: string, sent: Option<string>): Option<StoredArticle> {
    if MediaUrlOf(article).Some? then Some(EntryFor(article, sent)) else None
  }

  /** The writes of a whole batch, one per article, in article order. */
  function Writes(articles: seq<string>, sent: nat -> Option<string>): (ws: seq<Option<StoredArticle>>)
    ensures |ws| == |articles|
    ensures forall i :: 0 <= i < |ws| ==> ws[i] == WriteOf(articles[i], sent(i))
  {
    seq(|articles|, i requires 0 <= i < |articles| => WriteOf(articles[i], sent(i)))
  }

  /** The store after the writes `ws` have been applied in order, write `i` going to key `StorageKey(i)`. */
  function WriteAll(store: ArticleStore, ws: seq<Option<StoredArticle>>): ArticleStore
    decreases |ws|
  {
    if |ws| == 0 then store
    else
      var prev := WriteAll(store, ws[..|ws| - 1]);
      var w := ws[|ws| - 1];
      if w.Some? then prev[StorageKey(|ws| - 1) := w.value] else prev
  }

  lemma WriteAllStep(store: ArticleStore, ws: seq<Option<StoredArticle>>, i: nat)
    requires i < |ws|
    ensures WriteAll(store, ws[..i + 1])
            == if ws[i].Some? then WriteAll(store, ws[..i])[StorageKey(i) := ws[i].value] else WriteAll(store, ws[..i])
  {
    assert ws[..i + 1][..i] == ws[..i];
  }

  /** The keys the writes `ws` touch. */
  function WrittenKeys(ws: seq<Option<StoredArticle>>): set<string> {
    set i | 0 <= i < |ws| && ws[i].Some? :: StorageKey(i)
  }

  lemma WrittenKeysSnoc(ws: seq<Option<StoredArticle>>)
    requires |ws| > 0
    ensures ws[|ws| - 1].Some? ==> WrittenKeys(ws) == WrittenKeys(ws[..|ws| - 1]) + {StorageKey(|ws| - 1)}
    ensures ws[|ws| - 1].None? ==> WrittenKeys(ws) == WrittenKeys(ws[..|ws| - 1])
  {
    var init := ws[..|ws| - 1];
    assert forall i :: 0 <= i < |init| ==> init[i] == ws[i];
  }

  /** The writes add exactly their own keys and leave every other key alone. */
  lemma {:induction false} WriteAllKeys(store: ArticleStore, ws: seq<Option<StoredArticle>>)
    ensures forall k :: k in WriteAll(store, ws) <==> k in store || k in WrittenKeys(ws)
    ensures forall k :: k in store && k !in WrittenKeys(ws) ==> WriteAll(store, ws)[k] == store[k]
    decreases |ws|
  {
    if |ws| > 0 {
      WriteAllKeys(store, ws[..|ws| - 1]);
      WrittenKeysSnoc(ws);
    }
  }

  /** Every write is found under its own key: keys of different positions differ, so none is overwritten. */
  lemma {:induction false} WriteAllEntries(store: ArticleStore, ws: seq<Option<StoredArticle>>)
    ensures forall j :: 0 <= j < |ws| && ws[j].Some? ==>
              StorageKey(j) in WriteAll(store, ws) && WriteAll(store, ws)[StorageKey(j)] == ws[j].value
    decreases |ws|
  {
    if |ws| > 0 {
      var n := |ws| - 1;
      var init := ws[..n];
      WriteAllEntries(store, init);
      assert forall j :: 0 <= j < n ==> init[j] == ws[j];
      forall j | 0 <= j < n && ws[j].Some? ensures StorageKey(j) != StorageKey(n) {
        if StorageKey(j) == StorageKey(n) { StorageKeyInjective(j, n); }
      }
    }
  }

  /** Writing entries with non-empty titles keeps every title non-empty. */
  lemma {:induction false} WriteAllWellFormed(store: ArticleStore, ws: seq<Option<StoredArticle>>)
    requires WellFormedStore(store)
    requires forall j :: 0 <= j < |ws| && ws[j].Some? ==> ws[j].value.title != ""
    ensures WellFormedStore(WriteAll(store, ws))
    decreases |ws|
  {
    if |ws| > 0 {
      var init := ws[..|ws| - 1];
      assert forall j :: 0 <= j < |init| ==> init[j] == ws[j];
      WriteAllWellFormed(store, init);
    }
  }

  /** The keys a batch writes are those of its articles with a media URL. */
  lemma WrittenKeysOfBatch(articles: seq<string>, sent: nat -> Option<string>, k: string)
    ensures k in WrittenKeys(Writes(articles, sent))
            <==> exists i :: 0 <= i < |articles| && MediaUrlOf(articles[i]).Some? && k == StorageKey(i)
  {
  }

  /** Handling the articles in turn: one notice each, and each one remembered when it has a media URL. */
  method HandleArticles(articles: seq<string>, store: ArticleStore, sent: nat -> Option<string>)
    returns (store': ArticleStore, notices: seq<Notice>)
    ensures store' == WriteAll(store, Writes(articles, sent))
    ensures |notices| == |articles|
    ensures forall i :: 0 <= i < |articles| ==> notices[i] == NoticeFor(i, articles[i], sent(i))
  {
    ghost var ws := Writes(articles, sent);
    store' := store;
    notices := [];
    var i := 0;
    assert ws[..0] == [];
    while i < |articles|
      invariant 0 <= i <= |articles|
      invariant |notices| == i
      invariant forall j :: 0 <= j < i ==> notices[j] == NoticeFor(j, articles[j], sent(j))
      invariant store' == WriteAll(store, ws[..i])
    {
      var article := articles[i];
      var w := WriteOf(article, sent(i));
      WriteAllStep(store, ws, i);
      if w.Some? {
        store' := store'[StorageKey(i) := w.value];
      }
      ghost var earlier := notices;
      notices := notices + [NoticeFor(i, article, sent(i))];
      assert forall j :: 0 <= j < i ==> notices[j] == earlier[j];
      i := i + 1;
    }
    assert ws[..|articles|] == ws;
  }

  /**
   * A document upload. Non-admins get the permission notice and nothing else
   * happens. Otherwise each article is handled in turn: with a media URL it
   * is remembered under its key and its photo sent (`sent(i)` is the file id
   * of the largest size of the sent photo, or none when sending failed);
   * without one it is only reported. Entries of an earlier upload under keys
   * this one does not write are kept.
   */
  method HandleDocument(username: Option<string>, content: string, store: ArticleStore, sent: nat -> Option<string>)
    returns (store': ArticleStore, notices: seq<Notice>)
    ensures !IsAdmin(username) ==> store' == store && notices == [NoPermission]
    ensures IsAdmin(username) && Articles(content) == [] ==> store' == store && notices == [NoArticles]
    ensures IsAdmin(username) && Articles(content) != [] ==>
              && |notices| == |Articles(content)|
              && (forall i :: 0 <= i < |notices| ==> notices[i] == NoticeFor(i, Articles(content)[i], sent(i)))
    ensures IsAdmin(username) ==>
              forall i :: 0 <= i < |Articles(content)| && MediaUrlOf(Articles(content)[i]).Some? ==>
                StorageKey(i) in store' && store'[StorageKey(i)] == EntryFor(Articles(content)[i], sent(i))
    ensures forall k :: k in store' <==> k in store || (IsAdmin(username) && k in WrittenKeys(Writes(Articles(content), sent)))
    ensures forall k :: k in store && !(IsAdmin(username) && k in WrittenKeys(Writes(Articles(content), sent))) ==>
              store'[k] == store[k]
    ensures WellFormedStore(store) ==> WellFormedStore(store')
  {
    if !IsAdmin(username) {
      return store, [NoPermission];
    }
    var articles := Articles(content);
    ghost var ws := Writes(articles, sent);
    if |articles| == 0 {
      assert WrittenKeys(ws) == {};
      return store, [NoArticles];
    }
    store', notices := HandleArticles(articles, store, sent);
    WriteAllKeys(store, ws);
    WriteAllEntries(store, ws);
    if WellFormedStore(store) {
      forall j | 0 <= j < |ws| && ws[j].Some? ensures ws[j].value.title != "" {
        TitleNonEmpty(articles[j]);
      }
      WriteAllWellFormed(store, ws);
    }
  }

  // ---------------------------------------------------------------------
  // Pressing "Post"
  // ---------------------------------------------------------------------

  const BotBody := "Ownership transferred to Apsara Bazaar"
  const BotAuthor := "apsara_bazaar"
  const BotTags: seq<string> := ["recent", "Bazaar"]

  const PostedText := "Post created successfully!"
  const FailedText := "Failed to create post. Please try again."
  const InvalidText := "Invalid article data."

  /** The forwarded photo: the file id of its largest size and the message id. */
  datatype SentPhoto = SentPhoto(largestFileId: string, messageId: nat)

  /** The callback's answer text and the records it leaves behind. */
  datatype CallbackOutcome = CallbackOutcome(answer: string, post: Option<Post>, image: Option<Image>)

  /** The fields of the bot's post; the title is absent when the storage lookup gave no title. */
  function BotPostFields(title: Option<string>): PostFields {
    PostFields(title, Some(BotBody), Some(BotAuthor), None, None, None, None, Some(BotTags))
  }

  /**
   * The names a plain object inherits from `Object.prototype`. The article
   * storage is a plain object, so looking one of them up gives a truthy value
   * (a function, or the prototype itself) with neither a `fileId` nor a
   * `title`.
   */
  const InheritedNames: set<string> := {
    "constructor", "__proto__", "hasOwnProperty", "isPrototypeOf", "propertyIsEnumerable",
    "toString", "toLocaleString", "valueOf",
    "__defineGetter__", "__defineSetter__", "__lookupGetter__", "__lookupSetter__"
  }

  /** The storage lookup for `key` is truthy: an own entry or an inherited name. */
  predicate LookupTruthy(store: ArticleStore, key: string) {
    key in store || key in InheritedNames
  }

  /** An inherited name reaches post creation with no title, which the post schema rejects. */
  lemma InheritedNameFailsSchema(postId: string, now: int)
    ensures NewPost(postId, BotPostFields(None), now).Err?
    ensures "title" in NewPost(postId, BotPostFields(None), now).error
  {
  }

  /**
   * The "Post" button of the article under `key`. A key the storage does not
   * answer is refused and nothing is created. An inherited name such as
   * "constructor" passes the lookup, but the post built from it has no title
   * and fails to save, so the callback reports a failed creation. Otherwise
   * the post is created first (with id `postId` at time `now`), then the
   * photo is forwarded to the group (`forward`), then the image record is
   * created from the forwarded photo; a failure after the post was saved
   * leaves the post in place. An entry stored without a file id (its photo
   * was never sent) forwards nothing, so that send always fails, whatever
   * `forward` says.
   */
  function HandleCallback(store: ArticleStore, key: string, postId: string, now: int, forward: Attempt<SentPhoto>): (r: CallbackOutcome)
    ensures !LookupTruthy(store, key) <==> r.answer == InvalidText
    ensures key !in store && key in InheritedNames ==> r.answer == FailedText
    ensures key !in store ==> r.post.None? && r.image.None?
    ensures r.answer == PostedText <==> r.post.Some? && r.image.Some?
    ensures r.image.Some? ==> r.post.Some? && r.image.value.postId == r.post.value.id
    ensures key in store && r.post.Some? ==> r.post.value.title == store[key].title
    ensures key in store && store[key].fileId.None? ==> r.image.None? && r.answer != PostedText
  {
    if key !in store then
      if key in InheritedNames then
        InheritedNameFailsSchema(postId, now);
        CallbackOutcome(FailedText, None, None)
      else CallbackOutcome(InvalidText, None, None)
    else
      match NewPost(postId, BotPostFields(Some(store[key].title)), now)
      case Err(_) => CallbackOutcome(FailedText, None, None)
      case Ok(post) =>
        if store[key].fileId.None? then CallbackOutcome(FailedText, Some(post), None)
        else match forward
        case Failed(_) => CallbackOutcome(FailedText, Some(post), None)
        case Succeeded(photo) =>
          match NewImage(ImageFields(Some(post.id), Some(photo.largestFileId), None, Some(NatToString(photo.messageId))))
          case Err(_) => CallbackOutcome(FailedText, Some(post), None)
          case Ok(image) => CallbackOutcome(PostedText, Some(post), Some(image))
  }

  /**
   * For a remembered article (whose title is never empty) the callback always
   * creates the bot's post: the stored title, the fixed body, author and
   * tags, and every other field at its default; when forwarding fails the
   * post is still created but gets no image, and it succeeds when a stored
   * photo is forwarded.
   */
  lemma CallbackCreatesBotPost(store: ArticleStore, key: string, postId: string, now: int, forward: Attempt<SentPhoto>)
    requires WellFormedStore(store) && key in store && postId != ""
    ensures HandleCallback(store, key, postId, now, forward).post
            == Some(Post(postId, store[key].title, BotBody, BotAuthor, now, DefaultStatus, 0, 0, BotTags))
    ensures forward.Failed? ==> HandleCallback(store, key, postId, now, forward).image.None?
    ensures store[key].fileId.Some? && forward.Succeeded? && forward.value.largestFileId != "" ==>
              HandleCallback(store, key, postId, now, forward).answer == PostedText
  {
  }
}
