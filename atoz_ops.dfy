/** The number of pages of the A-Z listing: read from the `href` of the last pagination
    link, with a fixed fallback (src/operations/atoz_ops.rs). */
module AtozOps {
  import opened Wrappers
  import opened Text

  /** Page count used whenever the pagination link cannot be read */
  const FallbackLastPage: Uint16 := 212

  /** A link the pagination selector matched; only its `href` attribute is read */
  datatype PageLink = PageLink(href: Option<string>)

  /** What fetching and querying the listing page produced.  HTML parsing and CSS matching
      are outside the model: `Matched` holds the elements the selector found, in document order. */
  datatype AzListPage =
    | FetchFailed(reason: string)       // the GET or reading its body failed
    | SelectorRejected(reason: string)  // `Selector::parse` refused the selector
    | Matched(links: seq<PageLink>)

  predicate AllDigits(s: string)
  {
    forall i :: 0 <= i < |s| ==> IsAsciiDigit(s[i])
  }

  /** The value of a run of decimal digits, most significant first */
  function DigitsValue(s: string): nat
    requires AllDigits(s)
  {
    if |s| == 0 then 0 else DigitsValue(s[..|s| - 1]) * 10 + (s[|s| - 1] as int - '0' as int)
  }

  /** Rust's `str::parse::<u16>`: an optional leading '+', then one or more ASCII digits
      whose value is at most 65535; anything else (empty, a lone '+', a '-', a space,
      a non-digit, an overflow) is an error */
  function ParseU16(s: string): (r: Option<Uint16>)
    ensures r.Some? ==> |s| > 0 && (s[0] == '+' || IsAsciiDigit(s[0]))
    ensures r.Some? ==> forall i :: 0 < i < |s| ==> IsAsciiDigit(s[i])
    ensures s == "" || s == "+" ==> r.None?
  {
    var digits := if |s| > 0 && s[0] == '+' then s[1..] else s;
    if |digits| == 0 || !AllDigits(digits) then None
    else if DigitsValue(digits) <= MaxUint16 then Some(DigitsValue(digits))
    else None
  }

  /** The page number a matched link yields: its `href`'s text after the last '=', parsed */
  function PageOfLink(link: PageLink): (r: Option<Uint16>)
    ensures link.href.None? ==> r.None?
    ensures link.href.Some? && '=' !in link.href.value ==> r == ParseU16(link.href.value)
  {
    match link.href
    case None => None
    case Some(h) =>
      var piece := Last(Split(h, '='));
      assert '=' !in h ==> piece == h by {
        if '=' !in h {
          SplitWithoutSeparator(h, '=');
        }
      }
      ParseU16(piece)
  }

  /** `get_last_page_no_of_atoz_list`: only the fetch and the selector can fail; every way of
      not finding a number gives the fallback */
  function LastPageNo(page: AzListPage): (r: Result<Uint16, string>)
    ensures r.Err? <==> !page.Matched?
    ensures page.Matched? && |page.links| == 0 ==> r == Ok(FallbackLastPage)
    ensures page.Matched? && |page.links| > 0 ==>
      r == Ok(PageOfLink(Last(page.links)).UnwrapOr(FallbackLastPage))
  {
    match page
    case FetchFailed(e) => Err(e)
    case SelectorRejected(e) => Err(e)
    case Matched(links) =>
      if |links| == 0 then Ok(FallbackLastPage)
      else
        match PageOfLink(links[|links| - 1])
        case Some(n) => Ok(n)
        case None => Ok(FallbackLastPage)
  }

  lemma {:induction false} DigitsValueOfDecimal(n: nat)
    ensures AllDigits(DecimalString(n)) && DigitsValue(DecimalString(n)) == n
  {
    var s := DecimalString(n);
    if n >= 10 {
      DigitsValueOfDecimal(n / 10);
      assert s[..|s| - 1] == DecimalString(n / 10);
    }
  }

  /** Parsing the decimal numeral of any `u16`, with or without a leading '+', gives it back. */
  lemma ParseU16Decimal(n: Uint16)
    ensures ParseU16(DecimalString(n)) == Some(n)
    ensures ParseU16("+" + DecimalString(n)) == Some(n)
  {
    DigitsValueOfDecimal(n);
    assert ("+" + DecimalString(n))[1..] == DecimalString(n);
  }

  /** A numeral above 65535 does not parse. */
  lemma ParseU16Overflow(n: nat)
    requires n > MaxUint16
    ensures ParseU16(DecimalString(n)) == None
  {
    DigitsValueOfDecimal(n);
  }

  /** The last matched link with `href` "<anything>=<n>" gives page n, whatever precedes the '='. */
  lemma LastPageFromQuery(links: seq<PageLink>, prefix: string, n: Uint16)
    ensures LastPageNo(Matched(links + [PageLink(Some(prefix + "=" + DecimalString(n)))])) == Ok(n)
  {
    var tail := DecimalString(n);
    SplitAround(prefix, tail, '=');
    SplitWithoutSeparator(tail, '=');
    assert prefix + "=" + tail == prefix + ['='] + tail;
    ParseU16Decimal(n);
  }

  /** An `href` without '=' is parsed whole, with 212 when it does not parse. */
  lemma LastPageWithoutEquals(links: seq<PageLink>, href: string)
    requires '=' !in href
    ensures LastPageNo(Matched(links + [PageLink(Some(href))]))
         == Ok(ParseU16(href).UnwrapOr(FallbackLastPage))
  {
    assert Last(links + [PageLink(Some(href))]) == PageLink(Some(href));
  }

  /** An `href` ending in '=' leaves an empty suffix, which falls back to 212. */
  lemma LastPageEmptySuffix(links: seq<PageLink>, prefix: string)
    ensures LastPageNo(Matched(links + [PageLink(Some(prefix + "="))])) == Ok(FallbackLastPage)
  {
    SplitAround(prefix, "", '=');
    assert prefix + "=" == prefix + ['='] + "";
  }
}
