/** The page-number logic of components/shared/pagination.tsx: the list of
    page links, the target of the Previous and Next buttons, when each
    button is disabled, which link is bold, and the URLs the component
    navigates to. */
module Pagination {
  import opened Common
  import opened Strings

  /** `Number(page)` for a page given as a number or a string: an integer,
      or NaN when the text is not a number. */
  datatype PageNumber = Int(n: int) | NaN

  /** `pages`: 1, 2, …, totalPages, built by counting up. */
  method Pages(totalPages: int) returns (pages: seq<int>)
    ensures totalPages < 1 ==> pages == []
    ensures totalPages >= 1 ==> |pages| == totalPages
    ensures forall k :: 0 <= k < |pages| ==> pages[k] == k + 1
  {
    pages := [];
    var index := 1;
    while index <= totalPages
      invariant 1 <= index
      invariant totalPages >= 1 ==> index <= totalPages + 1
      invariant totalPages < 1 ==> index == 1
      invariant |pages| == index - 1
      invariant forall k :: 0 <= k < |pages| ==> pages[k] == k + 1
    {
      pages := pages + [index];
      index := index + 1;
    }
  }

  /** The list is strictly increasing and holds exactly the numbers of
      pages that exist. */
  lemma PagesAscending(pages: seq<int>, totalPages: int)
    requires forall k :: 0 <= k < |pages| ==> pages[k] == k + 1
    requires |pages| == if totalPages < 1 then 0 else totalPages
    ensures forall a, b :: 0 <= a < b < |pages| ==> pages[a] < pages[b]
    ensures forall p :: p in pages <==> 1 <= p <= totalPages
  {
    forall p | 1 <= p <= totalPages ensures p in pages {
      assert pages[p - 1] == p;
    }
  }

  datatype Button = Prev | Next

  /** `handlePagination`'s target page: one more for Next, one less for
      Previous (NaN stays NaN). */
  function Target(page: PageNumber, button: Button): (r: PageNumber)
    ensures r.NaN? <==> page.NaN?
  {
    match page
    case NaN => NaN
    case Int(n) => if button == Next then Int(n + 1) else Int(n - 1)
  }

  /** `Number(page) <= 1` (false for NaN). */
  function PrevDisabled(page: PageNumber): (d: bool)
    // disabled exactly when Previous would leave the pages that can exist
    ensures d <==> page.Int? && Target(page, Prev).n < 1
  {
    page.Int? && page.n <= 1
  }

  /** `Number(page) === totalPages` (false for NaN). */
  function NextDisabled(page: PageNumber, totalPages: int): (d: bool)
    // disabled exactly when Next would land one past the last page
    ensures d <==> page.Int? && Target(page, Next) == Int(totalPages + 1)
  {
    page.Int? && page.n == totalPages
  }

  /** The link for page `p` is bold exactly when `Number(page) === p`. */
  function IsBold(page: PageNumber, p: int): (b: bool)
    // a page that is not a number bolds no link; the first link is bold
    // exactly when Previous is disabled on it
    ensures page.NaN? ==> !b
    ensures b ==> (PrevDisabled(page) <==> p <= 1)
  {
    page.Int? && page.n == p
  }

  /** Next and Previous undo each other. */
  lemma TargetsUndo(page: PageNumber)
    ensures Target(Target(page, Next), Prev) == page
    ensures Target(Target(page, Prev), Next) == page
  {
  }

  /** On a page that exists, each button is enabled exactly when its target
      page exists too. */
  lemma NavigationStaysInRange(page: int, totalPages: int, button: Button)
    requires 1 <= page <= totalPages
    ensures (if button == Prev then !PrevDisabled(Int(page)) else !NextDisabled(Int(page), totalPages))
              <==> 1 <= Target(Int(page), button).n <= totalPages
  {
  }

  /** On a NaN page neither button is disabled and both lead to NaN. */
  lemma NaNPageButtons(totalPages: int, button: Button)
    ensures !PrevDisabled(NaN) && !NextDisabled(NaN, totalPages)
    ensures Target(NaN, button) == NaN
  {
  }

  /** Past the last page, Next stays enabled and leads further out. */
  lemma NextEnabledPastTheEnd(page: int, totalPages: int)
    requires page > totalPages
    ensures !NextDisabled(Int(page), totalPages)
    ensures Target(Int(page), Next).n > totalPages
  {
  }

  /** Exactly one link is bold when the page exists, and none otherwise. */
  lemma {:induction false} BoldLinks(pages: seq<int>, page: PageNumber, totalPages: int)
    requires forall k :: 0 <= k < |pages| ==> pages[k] == k + 1
    requires |pages| == if totalPages < 1 then 0 else totalPages
    ensures page.Int? && 1 <= page.n <= totalPages ==>
              && IsBold(page, pages[page.n - 1])
              && forall k :: 0 <= k < |pages| && IsBold(page, pages[k]) ==> k == page.n - 1
    ensures !(page.Int? && 1 <= page.n <= totalPages) ==>
              forall k :: 0 <= k < |pages| ==> !IsBold(page, pages[k])
  {
  }

  /** `urlParamName || "page"`: an absent or empty name falls back to "page". */
  function ParamName(urlParamName: Option<string>): (name: string)
    ensures urlParamName.Some? && urlParamName.value != "" ==> name == urlParamName.value
    ensures urlParamName.None? || urlParamName.value == "" ==> name == "page"
    ensures name != ""
  {
    match urlParamName
    case Some(s) => if s != "" then s else "page"
    case None => "page"
  }

  /** `Number.prototype.toString` on an integer or NaN. */
  function NumberText(x: PageNumber): string {
    match x
    case NaN => "NaN"
    case Int(n) => if n < 0 then "-" + NatToString(-n) else NatToString(n)
  }

  /* ---------------------------------------------------------------------- */
  /* Query strings                                                          */
  /* ---------------------------------------------------------------------- */

  type Params = seq<(string, string)>

  /** The entries whose name is not `name`, in order. */
  function Without(ps: Params, name: string): (r: Params)
    ensures forall k :: 0 <= k < |r| ==> r[k].0 != name
    ensures |r| <= |ps|
    decreases |ps|
  {
    if |ps| == 0 then []
    else if ps[0].0 == name then Without(ps[1..], name)
    else [ps[0]] + Without(ps[1..], name)
  }

  /** `URLSearchParams.get`: the value of the first entry with this name. */
  function Get(ps: Params, name: string): Option<string>
    decreases |ps|
  {
    if |ps| == 0 then None
    else if ps[0].0 == name then Some(ps[0].1)
    else Get(ps[1..], name)
  }

  /** `URLSearchParams.set`: the first entry with this name takes the value
      and every later one is removed; with no such entry, one is appended. */
  function SetParam(ps: Params, name: string, value: string): (r: Params)
    ensures Get(r, name) == Some(value)
    ensures Without(r, name) == Without(ps, name)
    ensures forall k :: 0 <= k < |r| && r[k].0 == name ==> r[k].1 == value
    decreases |ps|
  {
    if |ps| == 0 then [(name, value)]
    else if ps[0].0 == name then
      var tail := Without(ps[1..], name);
      WithoutIdempotent(ps[1..], name);
      [(name, value)] + tail
    else
      var r := [ps[0]] + SetParam(ps[1..], name, value);
      assert r[1..] == SetParam(ps[1..], name, value);
      r
  }

  lemma {:induction false} WithoutIdempotent(ps: Params, name: string)
    ensures Without(Without(ps, name), name) == Without(ps, name)
    decreases |ps|
  {
    if |ps| > 0 {
      WithoutIdempotent(ps[1..], name);
      if ps[0].0 != name {
        var w := [ps[0]] + Without(ps[1..], name);
        assert w[1..] == Without(ps[1..], name);
      }
    }
  }

  /** `URLSearchParams.toString` for names and values that need no
      escaping: `name=value` pairs joined by "&". */
  function Serialize(ps: Params): string
    decreases |ps|
  {
    if |ps| == 0 then ""
    else if |ps| == 1 then ps[0].0 + "=" + ps[0].1
    else ps[0].0 + "=" + ps[0].1 + "&" + Serialize(ps[1..])
  }

  /** The URL `router.push` receives from a button. */
  function ButtonUrl(pathname: string, search: Params, urlParamName: Option<string>, page: PageNumber, button: Button): (url: string)
    ensures var ps := SetParam(search, ParamName(urlParamName), NumberText(Target(page, button)));
            url == pathname + "?" + Serialize(ps)
            && Get(ps, ParamName(urlParamName)) == Some(NumberText(Target(page, button)))
            && Without(ps, ParamName(urlParamName)) == Without(search, ParamName(urlParamName))
  {
    pathname + "?" + Serialize(SetParam(search, ParamName(urlParamName), NumberText(Target(page, button))))
  }

  /** The `href` of the link to page `p`: a fresh query that holds only the
      page parameter, so every other query parameter is dropped. */
  function LinkUrl(pathname: string, urlParamName: Option<string>, p: nat): (url: string)
    ensures var ps := SetParam([], ParamName(urlParamName), NatToString(p));
            url == pathname + "?" + Serialize(ps)
            && Get(ps, ParamName(urlParamName)) == Some(NatToString(p))
            && Without(ps, ParamName(urlParamName)) == []
  {
    pathname + "?" + ParamName(urlParamName) + "=" + NatToString(p)
  }

  /** A link leads where the Next button would from the page before it, had
      the current URL no query: the link keeps none of the other parameters
      the button keeps. */
  lemma LinkIsNextOnEmptyQuery(pathname: string, urlParamName: Option<string>, p: nat)
    requires p >= 1
    ensures LinkUrl(pathname, urlParamName, p) == ButtonUrl(pathname, [], urlParamName, Int(p - 1), Next)
  {
    assert NumberText(Target(Int(p - 1), Next)) == NatToString(p);
  }
}
