/**
 * The request URL: the ticker is substituted into the replacement field of a fixed template,
 * then the five-year time period and the output fields are appended. Nothing is escaped.
 */
module FeedUrl {

  import opened Wrappers

  const BBG_URL := "http://www.bloomberg.com/apps/data?pid=webpxta&Securities={}"
  const BBG_TIMEPERIOD := "&TimePeriod=5Y"
  const BBG_OUTFIELDS := "&Outfields=HDATE,PR005-H,PR006-H,PR007-H,PR008-H"

  /** What precedes the ticker in every request URL. */
  const URL_HEAD := "http://www.bloomberg.com/apps/data?pid=webpxta&Securities="

  /** What follows the ticker in every request URL. */
  const URL_TAIL := BBG_TIMEPERIOD + BBG_OUTFIELDS

  /** The position of the first empty replacement field `{}`, if there is one. */
  function FindField(s: string): (r: Option<nat>)
    ensures r.Some? ==> r.value + 1 < |s| && s[r.value] == '{' && s[r.value + 1] == '}'
    ensures r.Some? ==> forall j :: 0 <= j < r.value ==> !(s[j] == '{' && s[j + 1] == '}')
    ensures r.None? ==> forall j :: 0 <= j < |s| - 1 ==> !(s[j] == '{' && s[j + 1] == '}')
  {
    if |s| < 2 then None
    else if s[0] == '{' && s[1] == '}' then Some(0)
    else match FindField(s[1..])
      case None => None
      case Some(k) => Some(k + 1)
  }

  /**
   * `template.format(arg)` for a template with at most one empty replacement field: the field
   * is replaced by `arg` verbatim; a template without a field is returned unchanged.
   */
  function Format(template: string, arg: string): (r: string)
    ensures FindField(template).None? ==> r == template
    ensures FindField(template).Some? ==>
      var k := FindField(template).value;
      && |r| == |template| - 2 + |arg|
      && r[..k] == template[..k]
      && r[k..k + |arg|] == arg
      && r[k + |arg|..] == template[k + 2..]
  {
    match FindField(template)
    case None => template
    case Some(k) => template[..k] + arg + template[k + 2..]
  }

  /** The URL requested for a ticker: the ticker stands verbatim between the fixed head and the query tail. */
  function StockUrl(ticker: string): (url: string)
    ensures url == URL_HEAD + ticker + URL_TAIL
  {
    assert Format(BBG_URL, ticker) == URL_HEAD + ticker by {
      TemplateField();
      assert Format(BBG_URL, ticker) == BBG_URL[..|URL_HEAD|] + ticker + BBG_URL[|URL_HEAD| + 2..];
    }
    assert Format(BBG_URL, ticker) + BBG_TIMEPERIOD + BBG_OUTFIELDS == URL_HEAD + ticker + URL_TAIL;
    Format(BBG_URL, ticker) + BBG_TIMEPERIOD + BBG_OUTFIELDS
  }

  /** The ticker a request URL asks for, or None for a string that is not such a URL. */
  function TickerOf(url: string): Option<string>
  {
    if |URL_HEAD| + |URL_TAIL| <= |url| && url[..|URL_HEAD|] == URL_HEAD && url[|url| - |URL_TAIL|..] == URL_TAIL
    then Some(url[|URL_HEAD|..|url| - |URL_TAIL|])
    else None
  }

  /** A text without an opening brace, followed by `{}`, puts the first field right after it. */
  lemma {:induction false} FindFieldAfter(p: string, rest: string)
    requires '{' !in p
    ensures FindField(p + "{}" + rest) == Some(|p|)
    decreases |p|
  {
    if p != [] {
      assert (p + "{}" + rest)[1..] == p[1..] + "{}" + rest;
      FindFieldAfter(p[1..], rest);
    }
  }

  lemma HostWithoutBrace()
    ensures '{' !in "http://www.bloomberg.com/"
  {
    assert "http://www.bloomberg.com/" == "http://www." + "bloomberg.com/";
  }

  lemma QueryWithoutBrace()
    ensures '{' !in "apps/data?pid=webpxta&Securities="
  {
    assert "apps/data?pid=webpxta&Securities=" == "apps/data?pid=" + "webpxta&Securities=";
  }

  lemma HeadWithoutBrace()
    ensures '{' !in URL_HEAD
  {
    assert URL_HEAD == "http://www.bloomberg.com/" + "apps/data?pid=webpxta&Securities=";
    HostWithoutBrace();
    QueryWithoutBrace();
  }

  lemma TemplateIsHeadAndField()
    ensures BBG_URL == URL_HEAD + "{}" + ""
  {
  }

  /** The template's only field comes right after the head. */
  lemma TemplateField()
    ensures FindField(BBG_URL) == Some(|URL_HEAD|)
    ensures BBG_URL[..|URL_HEAD|] == URL_HEAD && BBG_URL[|URL_HEAD| + 2..] == ""
  {
    HeadWithoutBrace();
    TemplateIsHeadAndField();
    FindFieldAfter(URL_HEAD, "");
  }

  /** Reading the ticker back out of its URL gives the ticker. */
  lemma TickerOfStockUrl(ticker: string)
    ensures TickerOf(StockUrl(ticker)) == Some(ticker)
  {
    var url := StockUrl(ticker);
    assert url[..|URL_HEAD|] == URL_HEAD;
    assert url[|url| - |URL_TAIL|..] == URL_TAIL;
    assert url[|URL_HEAD|..|url| - |URL_TAIL|] == ticker;
  }

  /** Every string from which a ticker is read back is the URL of that ticker. */
  lemma StockUrlOfTicker(url: string, ticker: string)
    requires TickerOf(url) == Some(ticker)
    ensures StockUrl(ticker) == url
  {
    SplitAround(url, URL_HEAD, URL_TAIL);
  }

  /** A string that starts with `head` and ends with `tail` is `head`, the part between, then `tail`. */
  lemma SplitAround(s: string, head: string, tail: string)
    requires |head| + |tail| <= |s| && s[..|head|] == head && s[|s| - |tail|..] == tail
    ensures s == head + s[|head|..|s| - |tail|] + tail
  {
    assert s == s[..|head|] + s[|head|..|s| - |tail|] + s[|s| - |tail|..];
  }
}
