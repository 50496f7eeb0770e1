/** The crawl pipeline of the Sogou WeChat crawler (sougou_crawl.py): the
    WeChatArticle record, parsing a result page into articles, the
    publish-time filter, resolving real article URLs, fetching article
    text and saving it to the store, and the crawl report.  The network
    is an oracle (`Web`); the HTML of a result page is given as the items
    the selectors find in it. */
module SougouCrawl {
  import opened Wrappers
  import opened Text
  import opened Calendar
  import opened SougouParse
  import MinioStorage

  // ---------------------------------------------------------------------
  // The article record
  // ---------------------------------------------------------------------

  /** The fields of a WeChatArticle at one moment. */
  datatype ArticleView = ArticleView(
    title: string, summary: string, source: string, publishTime: string,
    sogouUrl: string, realUrl: string, crawlTime: string,
    success: bool, content: string, contentFetched: bool)

  /** The dataclass defaults. */
  const Blank := ArticleView("", "", "", "", "", "", "", false, "", false)

  /** The WeChatArticle dataclass; the crawler fills it in place. */
  class WeChatArticle {
    var title: string
    var summary: string
    var source: string
    var publishTime: string
    var sogouUrl: string
    var realUrl: string
    var crawlTime: string
    var success: bool
    var content: string
    var contentFetched: bool

    constructor()
      ensures View() == Blank
    {
      title, summary, source, publishTime := "", "", "", "";
      sogouUrl, realUrl, crawlTime := "", "", "";
      success, content, contentFetched := false, "", false;
    }

    function View(): ArticleView
      reads this
    {
      ArticleView(title, summary, source, publishTime, sogouUrl, realUrl,
                  crawlTime, success, content, contentFetched)
    }
  }

  /** The current fields of each article of a list. */
  function Views(arts: seq<WeChatArticle>): (r: seq<ArticleView>)
    reads arts
    ensures |r| == |arts| && forall k :: 0 <= k < |arts| ==> r[k] == arts[k].View()
  {
    seq(|arts|, k reads arts requires 0 <= k < |arts| => arts[k].View())
  }

  lemma ViewsAppend(a: seq<WeChatArticle>, b: seq<WeChatArticle>)
    ensures Views(a + b) == Views(a) + Views(b)
  {
  }

  lemma ViewsSnoc(a: seq<WeChatArticle>, x: WeChatArticle)
    ensures Views(a + [x]) == Views(a) + [x.View()]
  {
  }

  // ---------------------------------------------------------------------
  // The network and the result page
  // ---------------------------------------------------------------------

  /** A response: its text and the document BeautifulSoup parses from it. */
  datatype Response = Response(text: string, page: Page)

  /** The `h3 a` element of a result: its stripped text and its href
      ("" when it has none). */
  datatype Anchor = Anchor(text: string, href: string)

  /** One `ul.news-list li` element of a result page, as the selectors
      see it: `h3 a`, `h3`, the stripped texts of its `p` elements, the
      `div.s-p span.all-time-y2` text and the `div.s-p span.s2 script`
      text. */
  datatype Item = Item(titleLink: Option<Anchor>, heading: Option<string>,
                       paragraphs: seq<string>, sourceSpan: Option<string>,
                       timeScript: Option<string>)

  /** The network as the crawler sees it.  `fetch(url)` is the response of
      a GET of `url`; `search(query, page)` the items of the result page of
      the home-page visit and search request.  None stands for a
      RequestException, including an HTTP error status. */
  datatype Web = Web(fetch: string -> Option<Response>,
                     search: (string, int) -> Option<seq<Item>>)

  // ---------------------------------------------------------------------
  // _parse_search_results
  // ---------------------------------------------------------------------

  /** The title: the `h3 a` text, else the `h3` text. */
  function TitleOf(item: Item): string {
    if item.titleLink.Some? then item.titleLink.value.text
    else if item.heading.Some? then item.heading.value
    else ""
  }

  /** The Sogou link of a result, from the `h3 a` href. */
  function LinkOf(item: Item): string {
    if item.titleLink.Some? && item.titleLink.value.href != "" then SogouLink(item.titleLink.value.href)
    else ""
  }

  /** One result: skipped (None) without a title, an error where the
      timestamp conversion raises, and otherwise the article read from it. */
  function ParseItem(item: Item, crawlTime: string, offset: int): Result<Option<ArticleView>, string> {
    var title := TitleOf(item);
    if title == "" then Ok(None)
    else
      match PublishTime(item.timeScript, offset)
      case Err(e) => Err(e)
      case Ok(published) =>
        Ok(Some(ArticleView(title, SummaryFrom(item.paragraphs, 0), SourceName(item.sourceSpan),
                            published, LinkOf(item), "", crawlTime, false, "", false)))
  }

  /** `vs` in front of a successful result; an error stays. */
  function Prepend(vs: seq<ArticleView>, r: Result<seq<ArticleView>, string>): Result<seq<ArticleView>, string> {
    if r.Ok? then Ok(vs + r.value) else r
  }

  /** The articles of the results from `i` on; the first error stops the
      parse.  Result `i` is read at the clock reading `crawlTimes(i)`. */
  function ParsedFrom(items: seq<Item>, i: nat, crawlTimes: nat -> string, offset: int): Result<seq<ArticleView>, string>
    requires i <= |items|
    decreases |items| - i
  {
    if i == |items| then Ok([])
    else
      match ParseItem(items[i], crawlTimes(i), offset)
      case Err(e) => Err(e)
      case Ok(None) => ParsedFrom(items, i + 1, crawlTimes, offset)
      case Ok(Some(v)) => Prepend([v], ParsedFrom(items, i + 1, crawlTimes, offset))
  }

  /** The articles of a result page. */
  function Parsed(items: seq<Item>, crawlTimes: nat -> string, offset: int): Result<seq<ArticleView>, string> {
    ParsedFrom(items, 0, crawlTimes, offset)
  }

  lemma PrependAssoc(a: seq<ArticleView>, b: seq<ArticleView>, r: Result<seq<ArticleView>, string>)
    ensures Prepend(a, Prepend(b, r)) == Prepend(a + b, r)
  {
    if r.Ok? {
      assert a + (b + r.value) == (a + b) + r.value;
    }
  }

  /** The number of results from `i` on that have a title. */
  function TitledFrom(items: seq<Item>, i: nat): nat
    requires i <= |items|
    decreases |items| - i
  {
    if i == |items| then 0
    else (if TitleOf(items[i]) != "" then 1 else 0) + TitledFrom(items, i + 1)
  }

  /** An article fresh from the result page: nothing resolved or fetched. */
  predicate Unresolved(v: ArticleView) {
    v.realUrl == "" && !v.success && v.content == "" && !v.contentFetched
  }

  /** A parsed page holds one article per result with a title, each with a
      title and nothing resolved or fetched yet. */
  lemma {:induction false} ParsedShape(items: seq<Item>, i: nat, crawlTimes: nat -> string, offset: int)
    requires i <= |items|
    requires ParsedFrom(items, i, crawlTimes, offset).Ok?
    ensures var vs := ParsedFrom(items, i, crawlTimes, offset).value;
      && |vs| == TitledFrom(items, i)
      && forall k :: 0 <= k < |vs| ==> vs[k].title != "" && Unresolved(vs[k])
    decreases |items| - i
  {
    if i < |items| {
      ParsedStep(items, i, crawlTimes, offset);
      ParsedShape(items, i + 1, crawlTimes, offset);
      var vs := ParsedFrom(items, i, crawlTimes, offset).value;
      var rest := ParsedFrom(items, i + 1, crawlTimes, offset).value;
      if TitleOf(items[i]) != "" {
        forall k | 1 <= k < |vs|
          ensures vs[k].title != "" && Unresolved(vs[k])
        {
          assert vs[k] == rest[k - 1];
        }
      }
    }
  }

  /** One result gives an article exactly when it has a title, and the
      article has that title and nothing resolved. */
  lemma ParseItemShape(item: Item, crawlTime: string, offset: int)
    ensures var r := ParseItem(item, crawlTime, offset);
      && (r.Ok? ==> (r.value.Some? <==> TitleOf(item) != ""))
      && (r.Ok? && r.value.Some? ==> r.value.value.title == TitleOf(item) && Unresolved(r.value.value))
  {
  }

  /** One result more: the parse from `i` is the parse from `i + 1`,
      behind the article of result `i` when it has a title. */
  lemma ParsedStep(items: seq<Item>, i: nat, crawlTimes: nat -> string, offset: int)
    requires i < |items|
    requires ParsedFrom(items, i, crawlTimes, offset).Ok?
    ensures ParsedFrom(items, i + 1, crawlTimes, offset).Ok?
    ensures var vs := ParsedFrom(items, i, crawlTimes, offset).value;
      var rest := ParsedFrom(items, i + 1, crawlTimes, offset).value;
      || (TitleOf(items[i]) == "" && vs == rest)
      || (TitleOf(items[i]) != "" && |vs| == |rest| + 1 && vs[1..] == rest && vs[0].title != "" && Unresolved(vs[0]))
  {
    ParseItemShape(items[i], crawlTimes(i), offset);
  }

  /** A result whose timestamp conversion raises ends the whole parse with
      that error when every earlier result parses. */
  lemma {:induction false} ParsedError(items: seq<Item>, i: nat, crawlTimes: nat -> string, offset: int, j: nat)
    requires i <= j < |items|
    requires forall k :: i <= k < j ==> ParseItem(items[k], crawlTimes(k), offset).Ok?
    requires ParseItem(items[j], crawlTimes(j), offset).Err?
    ensures ParsedFrom(items, i, crawlTimes, offset) == Err(ParseItem(items[j], crawlTimes(j), offset).error)
    decreases j - i
  {
    if i < j {
      ParsedError(items, i + 1, crawlTimes, offset, j);
    }
  }

  /** One turn of the parse on values, from the articles read so far. */
  lemma ParsedNext(items: seq<Item>, i: nat, crawlTimes: nat -> string, offset: int, before: seq<ArticleView>)
    requires i < |items|
    requires Parsed(items, crawlTimes, offset) == Prepend(before, ParsedFrom(items, i, crawlTimes, offset))
    ensures match ParseItem(items[i], crawlTimes(i), offset)
      case Err(e) => Parsed(items, crawlTimes, offset) == Err(e)
      case Ok(None) => Parsed(items, crawlTimes, offset) == Prepend(before, ParsedFrom(items, i + 1, crawlTimes, offset))
      case Ok(Some(v)) => Parsed(items, crawlTimes, offset) == Prepend(before + [v], ParsedFrom(items, i + 1, crawlTimes, offset))
  {
    var one := ParseItem(items[i], crawlTimes(i), offset);
    if one.Ok? && one.value.Some? {
      PrependAssoc(before, [one.value.value], ParsedFrom(items, i + 1, crawlTimes, offset));
    }
  }

  /** One loop turn of the parse: a new article filled from one result. */
  method ParseResultItem(item: Item, crawlTime: string, offset: int) returns (r: Result<Option<WeChatArticle>, string>)
    ensures r.Ok? && r.value.Some? ==> fresh(r.value.value)
    ensures ParseItem(item, crawlTime, offset) == match r
      case Err(e) => Err(e)
      case Ok(None) => Ok(None)
      case Ok(Some(a)) => Ok(Some(a.View()))
  {
    var article := new WeChatArticle();
    article.crawlTime := crawlTime;
    if item.titleLink.Some? {
      article.title := item.titleLink.value.text;
    } else if item.heading.Some? {
      article.title := item.heading.value;
    }
    if article.title == "" {
      return Ok(None);
    }
    var published := FillArticle(article, item, offset);
    if published.Err? {
      return Err(published.error);
    }
    return Ok(Some(article));
  }

  /** Steps 2 to 5 of the parse loop on an article that has its title:
      summary, link, source and publish time. */
  method FillArticle(article: WeChatArticle, item: Item, offset: int) returns (r: Result<string, string>)
    requires article.View() == Blank.(crawlTime := article.crawlTime, title := TitleOf(item))
    requires TitleOf(item) != ""
    modifies article
    ensures r == PublishTime(item.timeScript, offset)
    ensures r.Ok? ==> ParseItem(item, old(article.crawlTime), offset) == Ok(Some(article.View()))
  {
    article.summary := PickSummary(item.paragraphs);
    if item.titleLink.Some? {
      var href := item.titleLink.value.href;
      if href != "" {
        article.sogouUrl := SogouLink(href);
      }
    }
    if item.sourceSpan.Some? {
      var sourceText := item.sourceSpan.value;
      if sourceText != "" && sourceText != PlatformName {
        article.source := sourceText;
      }
    }
    r := PublishTime(item.timeScript, offset);
    if r.Ok? {
      article.publishTime := r.value;
    }
  }

  /** _parse_search_results: a new article per result with a title, in
      page order; a timestamp conversion that raises is not caught. */
  method ParseSearchResults(items: seq<Item>, crawlTimes: nat -> string, offset: int)
    returns (r: Result<seq<WeChatArticle>, string>)
    ensures r.Err? ==> Parsed(items, crawlTimes, offset) == Err(r.error)
    ensures r.Ok? ==> Parsed(items, crawlTimes, offset) == Ok(Views(r.value))
    ensures r.Ok? ==> forall k :: 0 <= k < |r.value| ==> fresh(r.value[k])
  {
    var articles: seq<WeChatArticle> := [];
    assert Prepend([], Parsed(items, crawlTimes, offset)) == Parsed(items, crawlTimes, offset) by {
      assert Parsed(items, crawlTimes, offset).Ok? ==> [] + Parsed(items, crawlTimes, offset).value == Parsed(items, crawlTimes, offset).value;
    }
    var i := 0;
    while i < |items|
      invariant i <= |items|
      invariant Parsed(items, crawlTimes, offset) == Prepend(Views(articles), ParsedFrom(items, i, crawlTimes, offset))
      invariant forall k :: 0 <= k < |articles| ==> fresh(articles[k])
    {
      ghost var before := Views(articles);
      var one := ParseResultItem(items[i], crawlTimes(i), offset);
      ParsedNext(items, i, crawlTimes, offset, before);
      match one {
        case Err(e) =>
          return Err(e);
        case Ok(None) =>
        case Ok(Some(article)) =>
          ViewsSnoc(articles, article);
          articles := articles + [article];
      }
      i := i + 1;
    }
    assert Views(articles) + [] == Views(articles);
    return Ok(articles);
  }

  // ---------------------------------------------------------------------
  // _filter_articles_by_time
  // ---------------------------------------------------------------------

  /** An article passes the window when its publish time parses and is
      neither before `start` nor after `end` (datetime comparison). */
  predicate InWindow(v: ArticleView, start: Option<DateTime>, end: Option<DateTime>) {
    && v.publishTime != ""
    && var t := ParseDateTime(v.publishTime);
    && t.Some?
    && (start.None? || !DateTimeBefore(t.value, start.value))
    && (end.None? || !DateTimeBefore(end.value, t.value))
  }

  /** The one-element keep-or-drop step of the filter. */
  function KeepIn(start: Option<DateTime>, end: Option<DateTime>): ArticleView -> seq<ArticleView> {
    v => if InWindow(v, start, end) then [v] else []
  }

  /** The filter on values: all articles without bounds, else those in the
      window, in order. */
  function TimeFiltered(vs: seq<ArticleView>, start: Option<DateTime>, end: Option<DateTime>): seq<ArticleView> {
    if start.None? && end.None? then vs else FlatMap(vs, KeepIn(start, end))
  }

  /** The window is the interval of integer times between the bounds. */
  lemma InWindowSeconds(v: ArticleView, start: Option<DateTime>, end: Option<DateTime>)
    requires start.Some? ==> ValidDateTime(start.value)
    requires end.Some? ==> ValidDateTime(end.value)
    ensures InWindow(v, start, end) <==>
      var t := ParseDateTime(v.publishTime);
      && t.Some?
      && (start.Some? ==> Seconds(start.value) <= Seconds(t.value))
      && (end.Some? ==> Seconds(t.value) <= Seconds(end.value))
  {
    var t := ParseDateTime(v.publishTime);
    if t.Some? {
      assert v.publishTime != "";
      if start.Some? {
        SecondsMonotone(t.value, start.value);
      }
      if end.Some? {
        SecondsMonotone(end.value, t.value);
      }
    }
  }

  /** With a bound, the filter keeps exactly the articles in the window. */
  lemma {:induction false} TimeFilteredMembers(vs: seq<ArticleView>, start: Option<DateTime>, end: Option<DateTime>)
    requires start.Some? || end.Some?
    ensures forall v :: v in TimeFiltered(vs, start, end) <==> v in vs && InWindow(v, start, end)
    decreases |vs|
  {
    if vs != [] {
      var m := |vs| - 1;
      var f := KeepIn(start, end);
      TimeFilteredMembers(vs[..m], start, end);
      assert FlatMap(vs, f) == FlatMap(vs[..m], f) + f(vs[m]);
      forall v
        ensures v in FlatMap(vs, f) <==> v in vs && InWindow(v, start, end)
      {
        assert v in vs <==> v in vs[..m] || v == vs[m] by {
          assert vs == vs[..m] + [vs[m]];
        }
      }
    }
  }

  /** The filter keeps the order of the articles it keeps. */
  lemma {:induction false} TimeFilteredOrder(vs: seq<ArticleView>, start: Option<DateTime>, end: Option<DateTime>)
    ensures IsSubsequence(TimeFiltered(vs, start, end), vs)
    decreases |vs|
  {
    if start.None? && end.None? {
      SubsequenceReflexive(vs);
    } else if vs != [] {
      var m := |vs| - 1;
      var front := TimeFiltered(vs[..m], start, end);
      TimeFilteredOrder(vs[..m], start, end);
      if InWindow(vs[m], start, end) {
        var r := front + [vs[m]];
        assert r[..|r| - 1] == front;
      } else {
        assert TimeFiltered(vs, start, end) == front;
        SubsequenceDropLast(front, vs);
      }
    }
  }

  /** One turn of the filter loop on values: the kept articles so far,
      then this one when it is in the window. */
  lemma FilterNext(vs: seq<ArticleView>, i: nat, start: Option<DateTime>, end: Option<DateTime>,
                   kept: seq<ArticleView>, keep: bool)
    requires i < |vs| && kept == FlatMap(vs[..i], KeepIn(start, end))
    requires keep == InWindow(vs[i], start, end)
    ensures FlatMap(vs[..i + 1], KeepIn(start, end)) == if keep then kept + [vs[i]] else kept
  {
    FlatMapStep(vs, i, KeepIn(start, end));
  }

  /** The body of the filter loop: whether an article's publish time
      parses and lies between the bounds. */
  method InTimeRange(article: WeChatArticle, start: Option<DateTime>, end: Option<DateTime>) returns (keep: bool)
    ensures keep == InWindow(article.View(), start, end)
  {
    if article.publishTime == "" {
      return false;
    }
    var parsed := ParseDateTime(article.publishTime);
    if parsed.None? {
      return false;
    }
    var articleTime := parsed.value;
    var inRange := true;
    if start.Some? && DateTimeBefore(articleTime, start.value) {
      inRange := false;
    }
    if end.Some? && DateTimeBefore(end.value, articleTime) {
      inRange := false;
    }
    return inRange;
  }

  /** _filter_articles_by_time: the list itself without bounds, else the
      articles in the window, in order. */
  method FilterArticlesByTime(articles: seq<WeChatArticle>, start: Option<DateTime>, end: Option<DateTime>)
    returns (r: seq<WeChatArticle>)
    ensures Views(r) == TimeFiltered(Views(articles), start, end)
    ensures forall a :: a in r ==> a in articles
    ensures start.None? && end.None? ==> r == articles
  {
    if start.None? && end.None? {
      return articles;
    }
    ghost var vs := Views(articles);
    r := [];
    var i := 0;
    while i < |articles|
      invariant i <= |articles|
      invariant Views(r) == FlatMap(vs[..i], KeepIn(start, end))
      invariant forall a :: a in r ==> a in articles
    {
      var article := articles[i];
      var keep := InTimeRange(article, start, end);
      FilterNext(vs, i, start, end, Views(r), keep);
      if keep {
        ViewsSnoc(r, article);
        r := r + [article];
      }
      i := i + 1;
    }
    assert vs[..i] == vs;
  }

  // ---------------------------------------------------------------------
  // search_articles
  // ---------------------------------------------------------------------

  /** The articles of a search: none when a request fails, the parse of
      the result page, filtered when a bound is given. */
  function Searched(web: Web, query: string, page: int, start: Option<DateTime>, end: Option<DateTime>,
                    crawlTimes: nat -> string, offset: int): Result<seq<ArticleView>, string>
  {
    match web.search(query, page)
    case None => Ok([])
    case Some(items) =>
      match Parsed(items, crawlTimes, offset)
      case Err(e) => Err(e)
      case Ok(vs) => Ok(if start.Some? || end.Some? then TimeFiltered(vs, start, end) else vs)
  }

  /** Every article a search returns has a title and nothing resolved;
      with a bound, its publish time lies in the window. */
  lemma SearchedShape(web: Web, query: string, page: int, start: Option<DateTime>, end: Option<DateTime>,
                      crawlTimes: nat -> string, offset: int)
    requires Searched(web, query, page, start, end, crawlTimes, offset).Ok?
    ensures var vs := Searched(web, query, page, start, end, crawlTimes, offset).value;
      forall v :: v in vs ==> v.title != "" && Unresolved(v) && (start.Some? || end.Some? ==> InWindow(v, start, end))
  {
    var found := web.search(query, page);
    if found.Some? {
      ParsedShape(found.value, 0, crawlTimes, offset);
      if start.Some? || end.Some? {
        TimeFilteredMembers(Parsed(found.value, crawlTimes, offset).value, start, end);
      }
    }
  }

  /** search_articles: a failed request gives no articles; a parse error
      propagates. */
  method SearchArticles(web: Web, query: string, page: int, start: Option<DateTime>, end: Option<DateTime>,
                        crawlTimes: nat -> string, offset: int)
    returns (r: Result<seq<WeChatArticle>, string>)
    ensures r.Err? ==> Searched(web, query, page, start, end, crawlTimes, offset) == Err(r.error)
    ensures r.Ok? ==> Searched(web, query, page, start, end, crawlTimes, offset) == Ok(Views(r.value))
    ensures r.Ok? ==> forall k :: 0 <= k < |r.value| ==> fresh(r.value[k])
  {
    var response := web.search(query, page);
    if response.None? {
      return Ok([]);
    }
    var parsed := ParseSearchResults(response.value, crawlTimes, offset);
    if parsed.Err? {
      return parsed;
    }
    var articles := parsed.value;
    if start.Some? || end.Some? {
      articles := FilterArticlesByTime(parsed.value, start, end);
      forall k | 0 <= k < |articles|
        ensures fresh(articles[k])
      {
        assert articles[k] in parsed.value;
        var j :| 0 <= j < |parsed.value| && parsed.value[j] == articles[k];
      }
    }
    return Ok(articles);
  }

  // ---------------------------------------------------------------------
  // get_real_wechat_url and get_real_urls_batch
  // ---------------------------------------------------------------------

  /** get_real_wechat_url: the URL extracted from the redirect page, None
      when the request fails or nothing non-empty is found. */
  function RealWechatUrl(web: Web, sogouUrl: string): (r: Option<string>)
    ensures r.Some? ==> r.value != ""
  {
    match web.fetch(sogouUrl)
    case None => None
    case Some(response) =>
      var found := ExtractRealUrl(response.text);
      if found.Some? && found.value != "" then found else None
  }

  /** process_article of get_real_urls_batch on an article's fields. */
  function Resolved(v: ArticleView, web: Web): ArticleView {
    if v.sogouUrl == "" then v
    else
      match RealWechatUrl(web, v.sogouUrl)
      case Some(u) => v.(realUrl := u, success := true)
      case None => v.(success := false)
  }

  /** An article with a Sogou link succeeds exactly when its real URL is
      found, and then carries it; one without is left alone; no other
      field changes. */
  lemma ResolvedOutcome(v: ArticleView, web: Web)
    ensures v.sogouUrl != "" ==>
      (Resolved(v, web).success <==> RealWechatUrl(web, v.sogouUrl).Some?)
      && (Resolved(v, web).success ==> Resolved(v, web).realUrl == RealWechatUrl(web, v.sogouUrl).value != "")
      && (!Resolved(v, web).success ==> Resolved(v, web).realUrl == v.realUrl)
    ensures v.sogouUrl == "" ==> Resolved(v, web) == v
    ensures Resolved(v, web).(realUrl := v.realUrl, success := v.success) == v
  {
  }

  /** Resolving twice is resolving once. */
  lemma ResolvedIdempotent(v: ArticleView, web: Web)
    ensures Resolved(Resolved(v, web), web) == Resolved(v, web)
  {
  }

  /** get_real_urls_batch on values. */
  function ResolveAll(vs: seq<ArticleView>, web: Web): (r: seq<ArticleView>)
    ensures |r| == |vs| && forall k :: 0 <= k < |vs| ==> r[k] == Resolved(vs[k], web)
  {
    seq(|vs|, k requires 0 <= k < |vs| => Resolved(vs[k], web))
  }

  /** process_article. */
  method ResolveArticle(article: WeChatArticle, web: Web)
    modifies article
    ensures article.View() == Resolved(old(article.View()), web)
  {
    if article.sogouUrl != "" {
      var realUrl := RealWechatUrl(web, article.sogouUrl);
      if realUrl.Some? {
        article.realUrl := realUrl.value;
        article.success := true;
      } else {
        article.success := false;
      }
    }
  }

  /** get_real_urls_batch: every article resolved in place, the list
      returned in its order.  The pool's workers are run one after
      another. */
  method GetRealUrlsBatch(articles: seq<WeChatArticle>, web: Web) returns (r: seq<WeChatArticle>)
    modifies articles
    ensures r == articles
    ensures forall k :: 0 <= k < |articles| ==> articles[k].View() == Resolved(old(articles[k].View()), web)
    ensures Views(r) == ResolveAll(old(Views(articles)), web)
  {
    var i := 0;
    while i < |articles|
      invariant i <= |articles|
      invariant forall k :: 0 <= k < |articles| ==>
        articles[k].View() == old(articles[k].View()) || articles[k].View() == Resolved(old(articles[k].View()), web)
      invariant forall k :: 0 <= k < i ==> articles[k].View() == Resolved(old(articles[k].View()), web)
    {
      ResolvedIdempotent(old(articles[i].View()), web);
      ResolveArticle(articles[i], web);
      i := i + 1;
    }
    r := articles;
  }

  // ---------------------------------------------------------------------
  // fetch_article_content, save_article_to_storage, fetch_contents_batch
  // ---------------------------------------------------------------------

  /** The dict fetch_article_content returns. */
  datatype ContentResult = ContentResult(content: string, success: bool)

  /** fetch_article_content: the cleaned article text, successful exactly
      when there is some. */
  function FetchedContent(web: Web, url: string): (r: ContentResult)
    ensures r.success <==> r.content != ""
  {
    match web.fetch(url)
    case None => ContentResult("", false)
    case Some(response) =>
      var text := ArticleText(response.page);
      if text != "" then ContentResult(text, true) else ContentResult("", false)
  }

  /** fetch_article_content */
  method FetchArticleContent(web: Web, url: string) returns (r: ContentResult)
    ensures r == FetchedContent(web, url)
  {
    var response := web.fetch(url);
    if response.None? {
      return ContentResult("", false);
    }
    var text := ExtractArticleText(response.value.page);
    if text != "" {
      return ContentResult(text, true);
    }
    return ContentResult("", false);
  }

  /** The articles fetch_contents_batch works on. */
  predicate Eligible(v: ArticleView) {
    v.success && v.realUrl != ""
  }

  /** fetch_content of fetch_contents_batch on an article's fields. */
  function Fetched(v: ArticleView, web: Web): ArticleView {
    if Eligible(v) then
      var c := FetchedContent(web, v.realUrl);
      v.(content := c.content, contentFetched := c.success)
    else v
  }

  /** Fetching changes only the content fields, and only of an eligible
      article; it then holds the fetched text and is marked fetched
      exactly when there is some. */
  lemma FetchedOutcome(v: ArticleView, web: Web)
    ensures !Eligible(v) ==> Fetched(v, web) == v
    ensures Eligible(v) ==> Fetched(v, web).content == FetchedContent(web, v.realUrl).content
    ensures Eligible(v) ==> (Fetched(v, web).contentFetched <==> Fetched(v, web).content != "")
    ensures Fetched(v, web).(content := v.content, contentFetched := v.contentFetched) == v
    ensures Fetched(v, web).contentFetched && !v.contentFetched ==> Fetched(v, web).success
  {
  }

  /** Fetching twice is fetching once. */
  lemma FetchedIdempotent(v: ArticleView, web: Web)
    ensures Fetched(Fetched(v, web), web) == Fetched(v, web)
  {
  }

  /** fetch_contents_batch on values. */
  function FetchAll(vs: seq<ArticleView>, web: Web): (r: seq<ArticleView>)
    ensures |r| == |vs| && forall k :: 0 <= k < |vs| ==> r[k] == Fetched(vs[k], web)
  {
    seq(|vs|, k requires 0 <= k < |vs| => Fetched(vs[k], web))
  }

  /** The dict save_article_to_storage builds. */
  function ArticleDict(v: ArticleView): MinioStorage.Fields {
    map[
      "title" := MinioStorage.Str(v.title),
      "summary" := MinioStorage.Str(v.summary),
      "source" := MinioStorage.Str(v.source),
      "publish_time" := MinioStorage.Str(v.publishTime),
      "sogou_url" := MinioStorage.Str(v.sogouUrl),
      "real_url" := MinioStorage.Str(v.realUrl),
      "content" := MinioStorage.Str(v.content),
      "crawl_time" := MinioStorage.Str(v.crawlTime),
      "success" := MinioStorage.Bool(v.success),
      "content_fetched" := MinioStorage.Bool(v.contentFetched)
    ]
  }

  /** Reading an article back from a stored dict. */
  function DictView(d: MinioStorage.Fields): Option<ArticleView> {
    if && "title" in d && d["title"].Str?
       && "summary" in d && d["summary"].Str?
       && "source" in d && d["source"].Str?
       && "publish_time" in d && d["publish_time"].Str?
       && "sogou_url" in d && d["sogou_url"].Str?
       && "real_url" in d && d["real_url"].Str?
       && "crawl_time" in d && d["crawl_time"].Str?
       && "success" in d && d["success"].Bool?
       && "content" in d && d["content"].Str?
       && "content_fetched" in d && d["content_fetched"].Bool?
    then
      Some(ArticleView(d["title"].s, d["summary"].s, d["source"].s, d["publish_time"].s,
                       d["sogou_url"].s, d["real_url"].s, d["crawl_time"].s,
                       d["success"].b, d["content"].s, d["content_fetched"].b))
    else None
  }

  /** The dict holds every field of the article: it reads back as the
      article, and it has exactly the ten keys. */
  lemma ArticleDictRoundTrip(v: ArticleView)
    ensures DictView(ArticleDict(v)) == Some(v)
    ensures ArticleDict(v).Keys == {"title", "summary", "source", "publish_time", "sogou_url",
                                    "real_url", "content", "crawl_time", "success", "content_fetched"}
  {
  }

  /** The dicts one article contributes to the store in the batch: its
      fetched dict when it is eligible and its content arrives. */
  function Stored(web: Web): ArticleView -> seq<MinioStorage.Fields> {
    v => if Eligible(v) && Fetched(v, web).contentFetched then [ArticleDict(Fetched(v, web))] else []
  }

  /** The dicts the batch saves, in order. */
  function Saves(vs: seq<ArticleView>, web: Web): seq<MinioStorage.Fields> {
    FlatMap(vs, Stored(web))
  }

  lemma StoredIdempotent(v: ArticleView, web: Web)
    ensures Stored(web)(Fetched(v, web)) == Stored(web)(v)
  {
    FetchedIdempotent(v, web);
  }

  /** save_article_to_storage: the store's save_article on the article's
      dict; the result says whether it was written. */
  method SaveArticleToStorage(article: WeChatArticle, storage: MinioStorage.ArticleStorage,
                              clock: MinioStorage.Clock, md5: string -> string) returns (ok: bool)
    requires storage.Valid()
    modifies storage
    ensures storage.Valid()
    ensures var s := MinioStorage.Save(old(storage.bucket), ArticleDict(article.View()), clock, md5);
      storage.bucket == s.bucket && ok == s.saved
  {
    var doc := new MinioStorage.Document(ArticleDict(article.View()));
    ok := storage.SaveArticle(doc, clock, md5);
  }

  /** fetch_content: an eligible article gets its content, and is saved
      when the content arrived. */
  method FetchContent(article: WeChatArticle, web: Web, storage: MinioStorage.ArticleStorage,
                      clock: MinioStorage.Clock, md5: string -> string)
    requires storage.Valid()
    modifies article, storage
    ensures article.View() == Fetched(old(article.View()), web)
    ensures storage.Valid()
    ensures var d := Stored(web)(old(article.View()));
      storage.bucket == if d == [] then old(storage.bucket)
                        else MinioStorage.Save(old(storage.bucket), d[0], clock, md5).bucket
  {
    if article.realUrl != "" && article.success {
      var result := FetchArticleContent(web, article.realUrl);
      article.content := result.content;
      article.contentFetched := result.success;
      if article.contentFetched {
        var stored := SaveArticleToStorage(article, storage, clock, md5);
      }
    }
  }

  /** The articles of `arts` that are eligible, in order. */
  function Eligibles(arts: seq<WeChatArticle>): seq<WeChatArticle>
    reads arts
  {
    if arts == [] then []
    else
      var m := |arts| - 1;
      Eligibles(arts[..m]) + if Eligible(arts[m].View()) then [arts[m]] else []
  }

  /** The eligible articles are those of the list whose fields make them
      eligible, and they save what the whole list saves. */
  lemma EligiblesFacts(arts: seq<WeChatArticle>, web: Web)
    ensures forall a :: a in Eligibles(arts) <==> a in arts && Eligible(a.View())
    ensures Saves(Views(Eligibles(arts)), web) == Saves(Views(arts), web)
  {
    EligiblesMembers(arts);
    EligiblesSaves(arts, web);
  }

  lemma {:induction false} EligiblesMembers(arts: seq<WeChatArticle>)
    ensures forall a :: a in Eligibles(arts) <==> a in arts && Eligible(a.View())
    decreases |arts|
  {
    if arts != [] {
      var m := |arts| - 1;
      EligiblesMembers(arts[..m]);
      assert arts == arts[..m] + [arts[m]];
    }
  }

  lemma {:induction false} EligiblesSaves(arts: seq<WeChatArticle>, web: Web)
    ensures Saves(Views(Eligibles(arts)), web) == Saves(Views(arts), web)
    decreases |arts|
  {
    if arts != [] {
      var m := |arts| - 1;
      var front := arts[..m];
      EligiblesSaves(front, web);
      assert arts == front + [arts[m]];
      var tail := if Eligible(arts[m].View()) then [arts[m]] else [];
      ViewsAppend(Eligibles(front), tail);
      ViewsAppend(front, [arts[m]]);
      FlatMapAppend(Views(Eligibles(front)), Views(tail), Stored(web));
      FlatMapAppend(Views(front), Views([arts[m]]), Stored(web));
      assert FlatMap(Views([arts[m]]), Stored(web)) == Stored(web)(arts[m].View());
    }
  }

  /** One more article of the batch on values. */
  lemma SavesNext(vs: seq<ArticleView>, j: nat, web: Web)
    requires j < |vs|
    ensures Saves(vs[..j + 1], web) == Saves(vs[..j], web) + Stored(web)(vs[j])
  {
    assert vs[..j + 1][..j] == vs[..j];
  }

  /** The store after one more article: its dict, if any, saved after
      those so far, at the next clock. */
  lemma SaveStep(b: MinioStorage.Bucket, saved: seq<MinioStorage.Fields>, d: seq<MinioStorage.Fields>,
                 clocks: nat -> MinioStorage.Clock, md5: string -> string,
                 before: MinioStorage.Bucket, after: MinioStorage.Bucket)
    requires b.Valid() && |d| <= 1
    requires before == MinioStorage.SaveAll(b, saved, clocks, md5).bucket
    requires d == [] ==> after == before
    requires d != [] ==> after == MinioStorage.Save(before, d[0], clocks(|saved|), md5).bucket
    ensures after == MinioStorage.SaveAll(b, saved + d, clocks, md5).bucket
  {
    if d == [] {
      assert saved + d == saved;
    } else {
      assert d == [d[0]];
      MinioStorage.SaveAllAppend(b, saved, d[0], clocks, md5, MinioStorage.SaveAll(b, saved, clocks, md5),
                                 MinioStorage.Save(before, d[0], clocks(|saved|), md5));
    }
  }

  /** The batch after the first `j` turns: those articles are fetched,
      the rest are fetched or as they were (an article may be listed
      twice), `vs` holding the fields each had at the start. */
  ghost predicate Progress(valid: seq<WeChatArticle>, vs: seq<ArticleView>, j: nat, web: Web)
    reads valid
  {
    && |vs| == |valid| && j <= |valid|
    && (forall m :: 0 <= m < |valid| ==> valid[m].View() == vs[m] || valid[m].View() == Fetched(vs[m], web))
    && (forall m :: 0 <= m < j ==> valid[m].View() == Fetched(vs[m], web))
    && (forall m, n :: 0 <= m < |valid| && 0 <= n < |valid| && valid[m] == valid[n] ==> vs[m] == vs[n])
  }

  /** One turn of the batch: fetch_content on the next article; the
      result says whether it saved. */
  method FetchTurn(valid: seq<WeChatArticle>, ghost vs: seq<ArticleView>, j: nat, web: Web,
                   storage: MinioStorage.ArticleStorage, clock: MinioStorage.Clock, md5: string -> string)
    returns (savedOne: bool)
    requires Progress(valid, vs, j, web) && j < |valid| && storage.Valid()
    modifies valid[j], storage
    ensures Progress(valid, vs, j + 1, web) && storage.Valid()
    ensures var d := Stored(web)(vs[j]);
      && (savedOne <==> d != [])
      && storage.bucket == if d == [] then old(storage.bucket)
                           else MinioStorage.Save(old(storage.bucket), d[0], clock, md5).bucket
  {
    var article := valid[j];
    StoredIdempotent(vs[j], web);
    FetchedIdempotent(vs[j], web);
    var eligible := article.realUrl != "" && article.success;
    FetchContent(article, web, storage, clock, md5);
    savedOne := eligible && article.contentFetched;
    forall m | 0 <= m < |valid|
      ensures valid[m].View() == vs[m] || valid[m].View() == Fetched(vs[m], web)
      ensures m <= j ==> valid[m].View() == Fetched(vs[m], web)
    {
      if valid[m] == article {
        assert vs[m] == vs[j];
      } else {
        assert valid[m].View() == old(valid[m].View());
      }
    }
  }

  /** executor.map(fetch_content, valid_articles), the workers run one
      after another: each article fetched in place, the dicts saved in
      order, the i-th save reading `clocks(i)`. */
  method FetchEach(valid: seq<WeChatArticle>, web: Web, storage: MinioStorage.ArticleStorage,
                   clocks: nat -> MinioStorage.Clock, md5: string -> string)
    requires storage.Valid()
    modifies valid, storage
    ensures forall m :: 0 <= m < |valid| ==> valid[m].View() == Fetched(old(valid[m].View()), web)
    ensures storage.Valid()
    ensures storage.bucket == MinioStorage.SaveAll(old(storage.bucket), Saves(old(Views(valid)), web), clocks, md5).bucket
  {
    ghost var vs := Views(valid);
    ghost var b := storage.bucket;
    ghost var saved: seq<MinioStorage.Fields> := [];
    var saves := 0;
    var j := 0;
    while j < |valid|
      invariant storage.Valid() && Progress(valid, vs, j, web)
      invariant forall m :: 0 <= m < |valid| ==> vs[m] == old(valid[m].View())
      invariant saved == Saves(vs[..j], web) && saves == |saved|
      invariant storage.bucket == MinioStorage.SaveAll(b, saved, clocks, md5).bucket
    {
      SavesNext(vs, j, web);
      ghost var d := Stored(web)(vs[j]);
      ghost var before := storage.bucket;
      var savedOne := FetchTurn(valid, vs, j, web, storage, clocks(saves), md5);
      if savedOne {
        saves := saves + 1;
      }
      SaveStep(b, saved, d, clocks, md5, before, storage.bucket);
      saved := saved + d;
      j := j + 1;
    }
    assert vs[..j] == vs;
  }

  /** fetch_contents_batch: each eligible article fetched in place and,
      when its content arrived, saved, in list order; the i-th save reads
      `clocks(i)`. */
  method FetchContentsBatch(articles: seq<WeChatArticle>, web: Web, storage: MinioStorage.ArticleStorage,
                            clocks: nat -> MinioStorage.Clock, md5: string -> string)
    returns (r: seq<WeChatArticle>)
    requires storage.Valid()
    modifies articles, storage
    ensures r == articles
    ensures forall k :: 0 <= k < |articles| ==> articles[k].View() == Fetched(old(articles[k].View()), web)
    ensures storage.Valid()
    ensures storage.bucket == MinioStorage.SaveAll(old(storage.bucket), Saves(old(Views(articles)), web), clocks, md5).bucket
  {
    var valid := Eligibles(articles);
    EligiblesFacts(articles, web);
    if valid == [] {
      return articles;
    }
    FetchEach(valid, web, storage, clocks, md5);
    forall k | 0 <= k < |articles|
      ensures articles[k].View() == Fetched(old(articles[k].View()), web)
    {
      if articles[k] in valid {
        var m :| 0 <= m < |valid| && valid[m] == articles[k];
      }
    }
    // The map back from ids to the processed articles yields each article itself.
    r := articles;
    var i := 0;
    while i < |articles|
      invariant i <= |articles| && r == articles
    {
      if articles[i] in valid {
        r := r[i := articles[i]];
      }
      i := i + 1;
    }
  }

  // ---------------------------------------------------------------------
  // crawl_and_extract
  // ---------------------------------------------------------------------

  /** The `stats` dict; `asked` is the query and page, which the
      nothing-found report leaves out.  The duration is not modelled. */
  datatype Asked = Asked(query: string, page: int)
  datatype Stats = Stats(total: nat, realUrlsExtracted: nat, contentFetched: nat, asked: Option<Asked>)

  /** The dict crawl_and_extract returns. */
  datatype CrawlReport = CrawlReport(success: bool, message: string, data: seq<ArticleView>, stats: Stats)

  /** The arguments of crawl_and_extract. */
  datatype CrawlRequest = CrawlRequest(query: string, page: int, getRealUrls: bool, fetchContent: bool,
                                       start: Option<DateTime>, end: Option<DateTime>)

  const NotFound := CrawlReport(false, "未找到相关文章", [], Stats(0, 0, 0, None))

  function CountSuccess(vs: seq<ArticleView>): nat {
    if vs == [] then 0 else CountSuccess(vs[..|vs| - 1]) + if vs[|vs| - 1].success then 1 else 0
  }

  function CountFetched(vs: seq<ArticleView>): nat {
    if vs == [] then 0 else CountFetched(vs[..|vs| - 1]) + if vs[|vs| - 1].contentFetched then 1 else 0
  }

  /** An article as a data row: its content cut to 200 characters. */
  function Row(v: ArticleView): ArticleView {
    v.(content := Abbreviate(v.content, 200))
  }

  function Rows(vs: seq<ArticleView>): (r: seq<ArticleView>)
    ensures |r| == |vs| && forall k :: 0 <= k < |vs| ==> r[k] == Row(vs[k])
  {
    seq(|vs|, k requires 0 <= k < |vs| => Row(vs[k]))
  }

  function SuccessMessage(total: nat, fetched: nat, fetchContent: bool): string {
    "成功爬取 " + Decimal(total) + " 篇文章" + if fetchContent then "，获取 " + Decimal(fetched) + " 篇完整内容" else ""
  }

  /** The report on the processed articles. */
  function Report(vs: seq<ArticleView>, req: CrawlRequest): CrawlReport {
    CrawlReport(true, SuccessMessage(|vs|, CountFetched(vs), req.fetchContent), Rows(vs),
                Stats(|vs|, CountSuccess(vs), CountFetched(vs), Some(Asked(req.query, req.page))))
  }

  /** The articles after the optional resolving and fetching steps. */
  function Processed(found: seq<ArticleView>, web: Web, req: CrawlRequest): seq<ArticleView> {
    var resolved := if req.getRealUrls then ResolveAll(found, web) else found;
    if req.fetchContent && req.getRealUrls then FetchAll(resolved, web) else resolved
  }

  /** crawl_and_extract on values; a timestamp error from the parse is not
      caught. */
  function Crawl(web: Web, req: CrawlRequest, crawlTimes: nat -> string, offset: int): Result<CrawlReport, string> {
    match Searched(web, req.query, req.page, req.start, req.end, crawlTimes, offset)
    case Err(e) => Err(e)
    case Ok(found) => Ok(if found == [] then NotFound else Report(Processed(found, web, req), req))
  }

  /** The dicts a crawl saves, in order. */
  function CrawlSaves(web: Web, req: CrawlRequest, crawlTimes: nat -> string, offset: int): seq<MinioStorage.Fields> {
    match Searched(web, req.query, req.page, req.start, req.end, crawlTimes, offset)
    case Err(_) => []
    case Ok(found) =>
      if found != [] && req.fetchContent && req.getRealUrls then Saves(ResolveAll(found, web), web) else []
  }

  /** Step 5 of crawl_and_extract: the data rows, in order. */
  method ArticlesData(articles: seq<WeChatArticle>) returns (data: seq<ArticleView>)
    ensures data == Rows(Views(articles))
  {
    data := [];
    var i := 0;
    while i < |articles|
      invariant i <= |articles| && |data| == i
      invariant forall k :: 0 <= k < i ==> data[k] == Row(articles[k].View())
    {
      data := data + [Row(articles[i].View())];
      i := i + 1;
    }
  }

  /** Steps 2 and 3 of crawl_and_extract: real URLs when asked for, then
      contents when both are asked for. */
  method ProcessArticles(articles: seq<WeChatArticle>, web: Web, storage: MinioStorage.ArticleStorage,
                         req: CrawlRequest, clocks: nat -> MinioStorage.Clock, md5: string -> string)
    returns (r: seq<WeChatArticle>)
    requires storage.Valid()
    modifies articles, storage
    ensures storage.Valid()
    ensures Views(r) == Processed(old(Views(articles)), web, req)
    ensures storage.bucket == MinioStorage.SaveAll(old(storage.bucket),
      if req.fetchContent && req.getRealUrls then Saves(ResolveAll(old(Views(articles)), web), web) else [],
      clocks, md5).bucket
  {
    r := articles;
    if req.getRealUrls {
      r := GetRealUrlsBatch(r, web);
    }
    ghost var resolved := Views(r);
    if req.fetchContent && req.getRealUrls {
      r := FetchContentsBatch(r, web, storage, clocks, md5);
      assert Views(r) == FetchAll(resolved, web);
    }
  }

  /** crawl_and_extract: the store ends with the crawl's dicts saved in
      order, the i-th at clock `clocks(i)`. */
  method CrawlAndExtract(web: Web, storage: MinioStorage.ArticleStorage, req: CrawlRequest,
                         crawlTimes: nat -> string, offset: int,
                         clocks: nat -> MinioStorage.Clock, md5: string -> string)
    returns (r: Result<CrawlReport, string>)
    requires storage.Valid()
    modifies storage
    ensures storage.Valid()
    ensures r == Crawl(web, req, crawlTimes, offset)
    ensures storage.bucket == MinioStorage.SaveAll(old(storage.bucket), CrawlSaves(web, req, crawlTimes, offset), clocks, md5).bucket
  {
    var found := SearchArticles(web, req.query, req.page, req.start, req.end, crawlTimes, offset);
    if found.Err? {
      return Err(found.error);
    }
    var articles := found.value;
    if articles == [] {
      return Ok(NotFound);
    }
    articles := ProcessArticles(articles, web, storage, req, clocks, md5);
    var data := ArticlesData(articles);
    var views := Views(articles);
    var total := |articles|;
    var fetchedCount := CountFetched(views);
    r := Ok(CrawlReport(true, SuccessMessage(total, fetchedCount, req.fetchContent), data,
                        Stats(total, CountSuccess(views), fetchedCount, Some(Asked(req.query, req.page)))));
  }

  // ---------------------------------------------------------------------
  // What a crawl reports and saves
  // ---------------------------------------------------------------------

  /** A data row is the article with its content cut to a preview of at
      most 203 characters that starts like the content. */
  lemma RowPreview(v: ArticleView)
    ensures Row(v).(content := v.content) == v
    ensures |Row(v).content| <= 203
    ensures |v.content| <= 200 ==> Row(v).content == v.content
    ensures |v.content| > 200 ==> Row(v).content == v.content[..200] + "..."
  {
  }

  /** No more articles fetched than succeeded, when only succeeded ones
      were fetched. */
  lemma {:induction false} CountsOrdered(vs: seq<ArticleView>)
    requires forall k :: 0 <= k < |vs| ==> vs[k].contentFetched ==> vs[k].success
    ensures CountFetched(vs) <= CountSuccess(vs) <= |vs|
    decreases |vs|
  {
    if vs != [] {
      CountsOrdered(vs[..|vs| - 1]);
    }
  }

  lemma {:induction false} CountFetchedNone(vs: seq<ArticleView>)
    requires forall k :: 0 <= k < |vs| ==> !vs[k].contentFetched
    ensures CountFetched(vs) == 0
    decreases |vs|
  {
    if vs != [] {
      CountFetchedNone(vs[..|vs| - 1]);
    }
  }

  lemma {:induction false} CountSuccessNone(vs: seq<ArticleView>)
    requires forall k :: 0 <= k < |vs| ==> !vs[k].success
    ensures CountSuccess(vs) == 0
    decreases |vs|
  {
    if vs != [] {
      CountSuccessNone(vs[..|vs| - 1]);
    }
  }

  /** After the optional steps, only articles whose real URL was found
      have content; without URL resolution nothing succeeds; without
      content fetching nothing has content. */
  lemma ProcessedSound(found: seq<ArticleView>, web: Web, req: CrawlRequest)
    requires forall k :: 0 <= k < |found| ==> Unresolved(found[k])
    ensures var p := Processed(found, web, req);
      && |p| == |found|
      && (forall k :: 0 <= k < |p| ==> p[k].contentFetched ==> p[k].success && p[k].content != "")
      && (!req.getRealUrls ==> forall k :: 0 <= k < |p| ==> !p[k].success && !p[k].contentFetched)
      && (!req.fetchContent ==> forall k :: 0 <= k < |p| ==> !p[k].contentFetched)
  {
  }

  /** The stats agree with the data: the total is the number of rows, no
      more contents than real URLs, none of either without the step that
      makes them, and success exactly when something was found. */
  lemma CrawlCounts(web: Web, req: CrawlRequest, crawlTimes: nat -> string, offset: int)
    requires Crawl(web, req, crawlTimes, offset).Ok?
    ensures var rep := Crawl(web, req, crawlTimes, offset).value;
      && rep.stats.total == |rep.data|
      && rep.stats.contentFetched <= rep.stats.realUrlsExtracted <= rep.stats.total
      && (!req.getRealUrls ==> rep.stats.realUrlsExtracted == 0)
      && (!(req.getRealUrls && req.fetchContent) ==> rep.stats.contentFetched == 0)
      && (rep.success <==> rep.stats.total > 0)
  {
    var found := Searched(web, req.query, req.page, req.start, req.end, crawlTimes, offset).value;
    SearchedShape(web, req.query, req.page, req.start, req.end, crawlTimes, offset);
    if found != [] {
      var p := Processed(found, web, req);
      ProcessedSound(found, web, req);
      CountsOrdered(p);
      if !req.getRealUrls {
        CountSuccessNone(p);
      }
      if !(req.getRealUrls && req.fetchContent) {
        CountFetchedNone(p);
      }
    }
  }

  /** With URL resolution, a reported article succeeded exactly when it
      carries a real URL. */
  lemma CrawlRealUrls(web: Web, req: CrawlRequest, crawlTimes: nat -> string, offset: int)
    requires Crawl(web, req, crawlTimes, offset).Ok? && req.getRealUrls
    ensures var rep := Crawl(web, req, crawlTimes, offset).value;
      forall k :: 0 <= k < |rep.data| ==> (rep.data[k].success <==> rep.data[k].realUrl != "")
  {
    var found := Searched(web, req.query, req.page, req.start, req.end, crawlTimes, offset).value;
    SearchedShape(web, req.query, req.page, req.start, req.end, crawlTimes, offset);
    if found != [] {
      var p := Processed(found, web, req);
      forall k | 0 <= k < |p|
        ensures p[k].success <==> p[k].realUrl != ""
      {
        assert found[k] in found;
        var r := Resolved(found[k], web);
        assert r.success <==> r.realUrl != "";
        assert p[k].success == r.success && p[k].realUrl == r.realUrl;
      }
    }
  }

  /** The dict of an article whose content was fetched. */
  const FetchedDict: ArticleView -> seq<MinioStorage.Fields> :=
    (v: ArticleView) => if v.contentFetched then [ArticleDict(v)] else []

  lemma FetchAllPrefix(vs: seq<ArticleView>, web: Web, m: nat)
    requires m <= |vs|
    ensures FetchAll(vs, web)[..m] == FetchAll(vs[..m], web)
  {
  }

  /** On articles without content, the batch saves the dicts of those
      that end up with content, in order. */
  lemma {:induction false} SavesAreFetched(vs: seq<ArticleView>, web: Web)
    requires forall k :: 0 <= k < |vs| ==> !vs[k].contentFetched
    ensures Saves(vs, web) == FlatMap(FetchAll(vs, web), FetchedDict)
    decreases |vs|
  {
    if vs != [] {
      var m := |vs| - 1;
      SavesAreFetched(vs[..m], web);
      FetchAllPrefix(vs, web, m);
      assert Stored(web)(vs[m]) == FetchedDict(Fetched(vs[m], web));
    }
  }

  lemma {:induction false} FetchedDictCount(vs: seq<ArticleView>)
    ensures |FlatMap(vs, FetchedDict)| == CountFetched(vs)
    decreases |vs|
  {
    if vs != [] {
      FetchedDictCount(vs[..|vs| - 1]);
    }
  }

  /** What a crawl saves is the full dict of each reported article that
      got its content, in report order: one per fetched content. */
  lemma CrawlSavesReported(web: Web, req: CrawlRequest, crawlTimes: nat -> string, offset: int)
    requires Crawl(web, req, crawlTimes, offset).Ok?
    ensures var found := Searched(web, req.query, req.page, req.start, req.end, crawlTimes, offset).value;
      && CrawlSaves(web, req, crawlTimes, offset) == FlatMap(Processed(found, web, req), FetchedDict)
      && |CrawlSaves(web, req, crawlTimes, offset)| == Crawl(web, req, crawlTimes, offset).value.stats.contentFetched
  {
    var found := Searched(web, req.query, req.page, req.start, req.end, crawlTimes, offset).value;
    SearchedShape(web, req.query, req.page, req.start, req.end, crawlTimes, offset);
    var p := Processed(found, web, req);
    ProcessedSound(found, web, req);
    FetchedDictCount(p);
    if found != [] && req.fetchContent && req.getRealUrls {
      SavesAreFetched(ResolveAll(found, web), web);
    } else {
      FlatMapNone(p, FetchedDict);
    }
  }

  /** An element of the fetched dicts reads back as a fetched article. */
  lemma FetchedDictFrom(p: seq<ArticleView>, i: nat)
    requires i < |FlatMap(p, FetchedDict)|
    ensures exists k :: 0 <= k < |p| && p[k].contentFetched && DictView(FlatMap(p, FetchedDict)[i]) == Some(p[k])
  {
    FlatMapFrom(p, FetchedDict, i);
    var k :| 0 <= k < |p| && FlatMap(p, FetchedDict)[i] in FetchedDict(p[k]);
    ArticleDictRoundTrip(p[k]);
  }

  /** Each saved dict reads back as a reported article with content, whose
      data row is its preview. */
  lemma CrawlSavedArticle(web: Web, req: CrawlRequest, crawlTimes: nat -> string, offset: int, i: nat)
    requires Crawl(web, req, crawlTimes, offset).Ok?
    requires i < |CrawlSaves(web, req, crawlTimes, offset)|
    ensures var rep := Crawl(web, req, crawlTimes, offset).value;
      exists k, v :: 0 <= k < |rep.data| && DictView(CrawlSaves(web, req, crawlTimes, offset)[i]) == Some(v)
        && v.contentFetched && v.success && v.content != "" && rep.data[k] == Row(v)
  {
    var found := Searched(web, req.query, req.page, req.start, req.end, crawlTimes, offset).value;
    var saves := CrawlSaves(web, req, crawlTimes, offset);
    var rep := Crawl(web, req, crawlTimes, offset).value;
    CrawlSavesReported(web, req, crawlTimes, offset);
    SearchedShape(web, req.query, req.page, req.start, req.end, crawlTimes, offset);
    var p := Processed(found, web, req);
    ProcessedSound(found, web, req);
    assert found != [] && rep.data == Rows(p) by {
      if found == [] {
        FlatMapNone(p, FetchedDict);
      }
    }
    FetchedDictFrom(p, i);
    var k :| 0 <= k < |p| && p[k].contentFetched && DictView(saves[i]) == Some(p[k]);
    assert rep.data[k] == Row(p[k]);
  }
}
