/**
 * Page-count discovery (`get_total_pages`): the number of listing pages of a
 * category, read from the link target of the last item of the landing
 * page's paginator, with 1 as the answer whenever that fails.
 */
module PageCount {
  import opened Wrappers
  import opened Text

  /** An `<a>` element; `href` is absent when the element has no such attribute. */
  datatype Link = Link(href: Option<string>)

  /** An `<li>` of the paginator list, with its first `<a>` descendant if any. */
  datatype PageItem = PageItem(link: Option<Link>)

  /** The `<nav class="paginator">` element, with its first `<ul>` if any. */
  datatype Paginator = Paginator(list: Option<seq<PageItem>>)

  /** What page-count discovery reads of a parsed landing page. */
  datatype LandingPage = LandingPage(paginator: Option<Paginator>)

  /** The fetch of the landing page: it raised, or it gave a page. */
  datatype Probe = ProbeFailed | Probed(page: LandingPage)

  /** The text `page=` followed by a digit starts at index `i` of `s`. */
  predicate PageParamAt(s: string, i: nat) {
    i + 5 < |s| && s[i..i + 5] == "page=" && IsDigit(s[i + 5])
  }

  /** The maximal run of digits that starts at index `i`: what a greedy `\d+` takes there. */
  function DigitRun(s: string, i: nat): (r: string)
    requires i <= |s|
    decreases |s| - i
    ensures i + |r| <= |s| && r == s[i..i + |r|] && AllDigits(r)
    ensures i + |r| == |s| || !IsDigit(s[i + |r|])
    ensures i < |s| && IsDigit(s[i]) ==> r != []
  {
    if i < |s| && IsDigit(s[i]) then [s[i]] + DigitRun(s, i + 1) else []
  }

  /** The leftmost index, from `i` on, at which `page=(\d+)` matches. */
  function FindPageParam(s: string, i: nat): (r: Option<nat>)
    decreases |s| - i
    ensures r.Some? ==> i <= r.value && PageParamAt(s, r.value)
    ensures r.Some? ==> forall j :: i <= j < r.value ==> !PageParamAt(s, j)
    ensures r.None? ==> forall j :: i <= j ==> !PageParamAt(s, j)
  {
    if i + 5 < |s| then
      if PageParamAt(s, i) then Some(i) else FindPageParam(s, i + 1)
    else None
  }

  /** The maximal run of digits that ends `s`. */
  function TrailingDigits(s: string): (r: string)
    ensures |r| <= |s| && r == s[|s| - |r|..] && AllDigits(r)
    ensures |r| == |s| || !IsDigit(s[|s| - |r| - 1])
  {
    if s != [] && IsDigit(s[|s| - 1]) then TrailingDigits(s[..|s| - 1]) + [s[|s| - 1]] else []
  }

  /** `-(\d+)$` matches at index `i` of `s`: a dash followed by digits up to the end. */
  predicate DashSuffixAt(s: string, i: nat) {
    i + 1 < |s| && s[i] == '-' && AllDigits(s[i + 1..])
  }

  /** The number in a trailing `-<digits>`, if `s` ends that way. */
  function TrailingDashNumber(s: string): Option<nat> {
    var t := TrailingDigits(s);
    if 0 < |t| < |s| && s[|s| - |t| - 1] == '-' then Some(DigitsValue(t)) else None
  }

  /** `TrailingDashNumber` finds exactly the matches of `-(\d+)$` and reads their digits. */
  lemma TrailingDashNumberMatches(s: string, i: nat)
    requires DashSuffixAt(s, i)
    ensures TrailingDashNumber(s) == Some(DigitsValue(s[i + 1..]))
  {
    var t := TrailingDigits(s);
    assert !IsDigit(s[i]);
    assert |t| == |s| - i - 1;
  }

  lemma TrailingDashNumberOnlyOnMatch(s: string)
    requires TrailingDashNumber(s).Some?
    ensures DashSuffixAt(s, |s| - |TrailingDigits(s)| - 1)
  {
  }

  /** The number in a link target: `page=(\d+)` first, then `-(\d+)$`. */
  function HrefPageNumber(href: string): Option<nat> {
    match FindPageParam(href, 0)
    case Some(i) => Some(DigitsValue(DigitRun(href, i + 5)))
    case None => TrailingDashNumber(href)
  }

  /** The `href` of the first link of the last paginator item, when all of them exist. */
  function LastHref(page: LandingPage): Option<string> {
    match page.paginator
    case None => None
    case Some(nav) =>
      match nav.list
      case None => None
      case Some(items) =>
        if items == [] then None
        else
          match items[|items| - 1].link
          case None => None
          case Some(a) => a.href
  }

  /** `get_total_pages`: the number found in the last paginator link, else 1. */
  function GetTotalPages(probe: Probe): (r: nat)
    ensures probe.ProbeFailed? ==> r == 1
    ensures probe.Probed? && LastHref(probe.page).None? ==> r == 1
  {
    match probe
    case ProbeFailed => 1
    case Probed(page) =>
      match LastHref(page)
      case None => 1
      case Some(href) => HrefPageNumber(href).GetOr(1)
  }

  /**
   * The leftmost `page=` followed by a digit in the last paginator link
   * decides the page count: it is the value of the whole digit run after it.
   */
  lemma {:induction false} PageParamWins(page: LandingPage, href: string, i: nat)
    requires LastHref(page) == Some(href)
    requires PageParamAt(href, i)
    requires forall j :: 0 <= j < i ==> !PageParamAt(href, j)
    ensures HrefPageNumber(href) == Some(DigitsValue(DigitRun(href, i + 5)))
    ensures GetTotalPages(Probed(page)) == DigitsValue(DigitRun(href, i + 5))
  {
    var r := FindPageParam(href, 0);
    assert r.Some?;
    assert r.value == i;
  }

  /** Without any `page=<digit>` in the last paginator link, a trailing `-<digits>` decides the page count. */
  lemma DashSuffixFallback(page: LandingPage, href: string, i: nat)
    requires LastHref(page) == Some(href)
    requires forall j :: !PageParamAt(href, j)
    requires DashSuffixAt(href, i)
    ensures HrefPageNumber(href) == Some(DigitsValue(href[i + 1..]))
    ensures GetTotalPages(Probed(page)) == DigitsValue(href[i + 1..])
  {
    TrailingDashNumberMatches(href, i);
  }

  /** Without either pattern, the page count is 1. */
  lemma NoPatternMeansOnePage(page: LandingPage, href: string)
    requires LastHref(page) == Some(href)
    requires forall j :: !PageParamAt(href, j)
    requires forall j :: !DashSuffixAt(href, j)
    ensures GetTotalPages(Probed(page)) == 1
  {
    if TrailingDashNumber(href).Some? {
      TrailingDashNumberOnlyOnMatch(href);
    }
  }

  /** Only the last paginator item is read: the items before it do not matter. */
  lemma OnlyLastItemInspected(before: seq<PageItem>, before': seq<PageItem>, last: PageItem)
    ensures GetTotalPages(Probed(LandingPage(Some(Paginator(Some(before + [last]))))))
         == GetTotalPages(Probed(LandingPage(Some(Paginator(Some(before' + [last]))))))
  {
  }

  /** A last link `?page=0` gives a page count of 0: the result is not always at least 1. */
  lemma PageCountCanBeZero()
    ensures GetTotalPages(Probed(LandingPage(Some(Paginator(Some([PageItem(Some(Link(Some("?page=0"))))])))))) == 0
  {
    var href := "?page=0";
    assert PageParamAt(href, 1);
    assert !PageParamAt(href, 0);
    PageParamWins(LandingPage(Some(Paginator(Some([PageItem(Some(Link(Some(href))))])))), href, 1);
    assert DigitRun(href, 6) == "0";
  }
}
