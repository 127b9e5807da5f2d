/**
 * The browser-side helpers of the feed page: the image carousel index
 * arithmetic, the "i / n" counter, the relative-time label and the share URL.
 */
module Client {
  import opened Common
  import opened Strings
  import Sitemap

  /** A post's remembered carousel index; absent (or 0) reads as 0. */
  function CurrentIndex(stored: Option<int>): int {
    if stored.Some? && stored.value != 0 then stored.value else 0
  }

  /** `prevImage`: one step back, wrapping from the first image to the last. */
  function PrevImage(stored: Option<int>, count: nat): (r: int)
    ensures CurrentIndex(stored) > 0 ==> r == CurrentIndex(stored) - 1
    ensures CurrentIndex(stored) <= 0 ==> r == count - 1
  {
    var cur := CurrentIndex(stored);
    if cur > 0 then cur - 1 else count - 1
  }

  /** `nextImage`: one step forward, wrapping from the last image to the first. */
  function NextImage(stored: Option<int>, count: nat): (r: int)
    ensures CurrentIndex(stored) < count - 1 ==> r == CurrentIndex(stored) + 1
    ensures CurrentIndex(stored) >= count - 1 ==> r == 0
  {
    var cur := CurrentIndex(stored);
    if cur < count - 1 then cur + 1 else 0
  }

  /** Starting from a valid index of a non-empty carousel, both steps stay in range. */
  lemma StepsStayInRange(i: int, count: nat)
    requires 0 <= i < count
    ensures 0 <= PrevImage(Some(i), count) < count
    ensures 0 <= NextImage(Some(i), count) < count
  {
  }

  /** With no images the backward step lands on index -1, outside the list. */
  lemma PrevOnEmptyCarousel(stored: Option<int>)
    requires CurrentIndex(stored) <= 0
    ensures PrevImage(stored, 0) == -1
  {
  }

  /** The two steps undo each other on every valid index. */
  lemma StepsAreInverse(i: int, count: nat)
    requires 0 <= i < count
    ensures PrevImage(Some(NextImage(Some(i), count)), count) == i
    ensures NextImage(Some(PrevImage(Some(i), count)), count) == i
  {
  }

  /** `k` forward steps from index `i`. */
  function Forward(i: int, count: nat, k: nat): int
    decreases k
  {
    if k == 0 then i else Forward(NextImage(Some(i), count), count, k - 1)
  }

  /** Up to `count` forward steps from `i` land on `i + k`, wrapped once past the end. */
  lemma {:induction false} ForwardWraps(i: int, count: nat, k: nat)
    requires 0 <= i < count && k <= count
    ensures Forward(i, count, k) == if i + k < count then i + k else i + k - count
    decreases k
  {
    if k > 0 {
      ForwardWraps(NextImage(Some(i), count), count, k - 1);
    }
  }

  /** Stepping forward once per image brings the carousel back to where it started. */
  lemma FullCycle(i: int, count: nat)
    requires 0 <= i < count
    ensures Forward(i, count, count) == i
  {
    ForwardWraps(i, count, count);
  }

  /** `updateImageCounter`: the one-based position and the total, separated by " / ". */
  function CounterText(index: nat, total: nat): string {
    NatToString(index + 1) + (" / " + NatToString(total))
  }

  lemma DigitsThenSpace(a: string, b: string, x: string, y: string)
    requires |a| >= 1 && |b| >= 1 && AllDigits(a) && AllDigits(b)
    requires a + x == b + y && |x| >= 1 && x[0] == ' ' && |y| >= 1 && y[0] == ' '
    ensures a == b && x == y
  {
    assert a == (a + x)[..|a|];
    assert b == (b + y)[..|b|];
    assert x == (a + x)[|a|..];
    assert y == (b + y)[|b|..];
  }

  lemma SkipSeparator(b: string)
    ensures (" / " + b)[3..] == b
  {
  }

  /** The counter text determines the position and the total it shows. */
  lemma CounterTextInjective(i: nat, n: nat, j: nat, m: nat)
    requires CounterText(i, n) == CounterText(j, m)
    ensures i == j && n == m
  {
    var x := " / " + NatToString(n);
    var y := " / " + NatToString(m);
    DigitsThenSpace(NatToString(i + 1), NatToString(j + 1), x, y);
    NatToStringInjective(i + 1, j + 1);
    SkipSeparator(NatToString(n));
    SkipSeparator(NatToString(m));
    NatToStringInjective(n, m);
  }

  /** A unit of the relative-time label. */
  datatype TimeUnit = TimeUnit(name: string, seconds: nat)

  const TimeUnits: seq<TimeUnit> := [
    TimeUnit("year", 31536000),
    TimeUnit("month", 2592000),
    TimeUnit("day", 86400),
    TimeUnit("hour", 3600),
    TimeUnit("minute", 60)
  ]

  /** The label: a count of some unit, or "just now". */
  datatype Ago = Ago(count: nat, unit: TimeUnit) | JustNow

  /** The part of a label after the count: a space, the unit's name, the plural "s" when the count exceeds one, " ago". */
  function AgoTail(count: nat, name: string): string {
    " " + name + (if count > 1 then "s" else "") + " ago"
  }

  /**
   * The label text: the count, a space and the unit's name, with a plural
   * "s" exactly when the count exceeds one, then " ago"; or "just now".
   */
  function AgoText(a: Ago): (r: string)
    ensures a.JustNow? ==> r == "just now"
    ensures a.Ago? ==> StartsWith(r, NatToString(a.count) + " " + a.unit.name) && EndsWith(r, " ago")
    ensures a.Ago? ==> (StartsWith(r, NatToString(a.count) + " " + a.unit.name + "s") <==> a.count > 1)
    ensures a.Ago? ==> |r| == |NatToString(a.count)| + 1 + |a.unit.name| + (if a.count > 1 then 1 else 0) + 4
  {
    match a
    case Ago(count, unit) =>
      var head := NatToString(count) + " " + unit.name;
      var r := NatToString(count) + AgoTail(count, unit.name);
      assert r == head + (if count > 1 then "s" else "") + " ago";
      assert r[..|head|] == head;
      assert r[|r| - 4..] == " ago";
      assert r[|head|] == if count > 1 then 's' else ' ';
      assert StartsWith(r, head + "s") ==> (head + "s")[|head|] == r[|head|];
      r
    case JustNow => "just now"
  }

  /** A label counts a positive number of one of the listed units. */
  predicate ValidAgo(a: Ago) {
    a.Ago? ==> a.count >= 1 && a.unit in TimeUnits
  }

  /** The listed units have distinct names. */
  lemma UnitNamesDistinct(u: TimeUnit, v: TimeUnit)
    requires u in TimeUnits && v in TimeUnits && u.name == v.name
    ensures u == v
  {
  }

  /** With the count known, the tail of a label gives back the unit's name. */
  lemma TailGivesName(count: nat, m: string, n: string)
    requires AgoTail(count, m) == AgoTail(count, n)
    ensures m == n
  {
    var t := AgoTail(count, m);
    assert t[1..1 + |m|] == m;
    assert AgoTail(count, n)[1..1 + |n|] == n;
  }

  /** Different labels never print the same text: the text determines the count and the unit. */
  lemma AgoTextInjective(a: Ago, b: Ago)
    requires ValidAgo(a) && ValidAgo(b) && AgoText(a) == AgoText(b)
    ensures a == b
  {
    if a.Ago? && b.Ago? {
      var x := AgoTail(a.count, a.unit.name);
      var y := AgoTail(b.count, b.unit.name);
      assert x[0] == ' ' && y[0] == ' ';
      DigitsThenSpace(NatToString(a.count), NatToString(b.count), x, y);
      NatToStringInjective(a.count, b.count);
      TailGivesName(a.count, a.unit.name, b.unit.name);
      UnitNamesDistinct(a.unit, b.unit);
    }
  }

  /** Whether `seconds` holds at least one whole `unit`. */
  predicate Fits(unit: TimeUnit, seconds: int)
    requires unit.seconds > 0
  {
    seconds / unit.seconds >= 1
  }

  /** The position of the first unit, largest first, that fits into `seconds`; `|units|` when none does. */
  function FirstFitting(units: seq<TimeUnit>, seconds: int): (i: nat)
    requires forall k :: 0 <= k < |units| ==> units[k].seconds > 0
    ensures i <= |units|
    ensures i < |units| ==> Fits(units[i], seconds)
    ensures forall k :: 0 <= k < i ==> !Fits(units[k], seconds)
    decreases |units|
  {
    if |units| == 0 then 0
    else if Fits(units[0], seconds) then 0
    else
      var j := FirstFitting(units[1..], seconds);
      assert forall k :: 1 <= k < |units| ==> units[k] == units[1..][k - 1];
      j + 1
  }

  /** `timeAgo`: whole seconds elapsed (floored), then the count of the largest unit that fits. */
  function TimeAgo(nowMs: int, pastMs: int): Ago {
    var d := (nowMs - pastMs) / 1000;
    var i := FirstFitting(TimeUnits, d);
    if i < |TimeUnits| then Ago(d / TimeUnits[i].seconds, TimeUnits[i]) else JustNow
  }

  /** The units are listed largest first. */
  lemma UnitsDecreasing()
    ensures forall k, l :: 0 <= k < l < |TimeUnits| ==> TimeUnits[k].seconds > TimeUnits[l].seconds
  {
  }

  /** Every unit larger than the first fitting one holds more seconds than elapsed. */
  lemma LargerUnitsExceed(d: int, i: nat)
    requires i < |TimeUnits| && i == FirstFitting(TimeUnits, d)
    ensures forall k :: 0 <= k < |TimeUnits| && TimeUnits[k].seconds > TimeUnits[i].seconds ==> d < TimeUnits[k].seconds
  {
    UnitsDecreasing();
    forall k | 0 <= k < |TimeUnits| && TimeUnits[k].seconds > TimeUnits[i].seconds
      ensures d < TimeUnits[k].seconds
    {
      assert !Fits(TimeUnits[k], d);
    }
  }

  lemma DivBracket(d: int, s: nat)
    requires s > 0 && d >= s
    ensures (d / s) * s <= d < (d / s + 1) * s
  {
    assert d == (d / s) * s + d % s;
  }

  /**
   * The label is "just now" exactly when less than a minute has elapsed
   * (including a date in the future); otherwise it counts whole units of
   * the largest unit that fits: every larger unit exceeds the elapsed time.
   */
  lemma TimeAgoSpec(nowMs: int, pastMs: int)
    ensures var d := (nowMs - pastMs) / 1000;
            var r := TimeAgo(nowMs, pastMs);
            && (r.JustNow? <==> d < 60)
            && (r.Ago? ==> && r.unit in TimeUnits
                           && r.count >= 1
                           && r.count * r.unit.seconds <= d < (r.count + 1) * r.unit.seconds
                           && (forall k :: 0 <= k < |TimeUnits| && TimeUnits[k].seconds > r.unit.seconds ==>
                                             d < TimeUnits[k].seconds))
  {
    var d := (nowMs - pastMs) / 1000;
    var i := FirstFitting(TimeUnits, d);
    if i < |TimeUnits| {
      var u := TimeUnits[i];
      assert TimeAgo(nowMs, pastMs) == Ago(d / u.seconds, u);
      assert u.seconds >= 60 && d >= u.seconds;
      DivBracket(d, u.seconds);
      LargerUnitsExceed(d, i);
    } else {
      assert TimeAgo(nowMs, pastMs) == JustNow;
      assert !Fits(TimeUnits[4], d);
    }
  }

  lemma NinetySecondsAgo()
    ensures TimeAgo(90000, 0) == Ago(1, TimeUnits[4])
  {
    var i := FirstFitting(TimeUnits, 90);
    assert Fits(TimeUnits[4], 90);
    assert i == 4;
  }

  lemma TwoHoursAgo()
    ensures TimeAgo(7200000, 0) == Ago(2, TimeUnits[3])
  {
    var i := FirstFitting(TimeUnits, 7200);
    assert Fits(TimeUnits[3], 7200);
    assert i == 3;
  }

  /** Two hours render as "2 hours ago", with the plural "s". */
  lemma TwoHoursAgoText()
    ensures AgoText(TimeAgo(7200000, 0)) == "2 hours ago"
  {
    TwoHoursAgo();
    assert NatToString(2) == "2";
    assert AgoText(Ago(2, TimeUnits[3])) == "2" + AgoTail(2, "hour");
  }

  /** One minute renders without the plural "s". */
  lemma OneMinuteAgoText()
    ensures AgoText(TimeAgo(90000, 0)) == "1 minute ago"
  {
    NinetySecondsAgo();
    assert NatToString(1) == "1";
    assert AgoText(Ago(1, TimeUnits[4])) == "1" + AgoTail(1, "minute");
  }

  lemma UnderAMinuteIsJustNow()
    ensures TimeAgo(59999, 0) == JustNow
  {
    TimeAgoSpec(59999, 0);
  }

  /** `sharePost`: the public details URL of a post. */
  function ShareUrl(postId: string): string {
    "https://apsarabazaar.onrender.com/post/details/" + postId
  }

  /** The shared link is the same address the sitemap lists for the post. */
  lemma ShareUrlIsSitemapLoc(postId: string)
    ensures ShareUrl(postId) == Sitemap.PostDetailsUrl(postId)
  {
    assert Sitemap.BaseUrl + "/post/details/" == "https://apsarabazaar.onrender.com/post/details/";
  }
}
