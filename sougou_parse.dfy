/** The text processing of the Sogou WeChat crawler (sougou_crawl.py): the
    redirect-page URL scanner, the article-text cleanup and selector order,
    the search-result rules for titles, summaries, links, sources and
    timestamps, the account configuration lines, and the daily file name.
    Regular expressions are written out as scanners over the text. */
module SougouParse {
  import opened Wrappers
  import opened Text
  import opened Calendar

  // ---------------------------------------------------------------------
  // extract_real_url: the `url += '...';` fragments
  // ---------------------------------------------------------------------

  /** What opens a fragment assignment in the redirect page's script. */
  const UrlOpen := "url += '"

  /** The first quote at or after `k` (|s| when there is none). */
  function QuoteFrom(s: string, k: nat): (r: nat)
    requires k <= |s|
    ensures k <= r <= |s| && (r < |s| ==> s[r] == '\'')
    ensures forall j :: k <= j < r ==> s[j] != '\''
    decreases |s| - k
  {
    if k == |s| || s[k] == '\'' then k else QuoteFrom(s, k + 1)
  }

  /** The pattern `url \+= '([^']+)';` tried at `i`: the index of the
      closing quote when it matches.  The group is greedy and cannot hold a
      quote, so it runs to the first quote, which must be followed by `;`. */
  function FragmentAt(s: string, i: nat): (r: Option<nat>)
    requires i <= |s|
    ensures r.Some? ==> i + |UrlOpen| < r.value && r.value + 1 < |s|
  {
    if UrlOpen <= s[i..] then
      var q := QuoteFrom(s, i + |UrlOpen|);
      if q > i + |UrlOpen| && q + 1 < |s| && s[q + 1] == ';' then Some(q) else None
    else None
  }

  /** re.findall of the fragment pattern from `i`: matches are taken left
      to right and do not overlap. */
  function Fragments(s: string, i: nat): (r: seq<string>)
    requires i <= |s|
    ensures forall k :: 0 <= k < |r| ==> r[k] != "" && '\'' !in r[k]
    decreases |s| - i
  {
    if i == |s| then []
    else
      match FragmentAt(s, i)
      case Some(q) => [s[i + |UrlOpen|..q]] + Fragments(s, q + 2)
      case None => Fragments(s, i + 1)
  }

  /** One assignment `url += '<fragment>';` of the redirect script. */
  function Piece(fragment: string): string {
    UrlOpen + fragment + "';"
  }

  /** A script made of one assignment per fragment, in order. */
  function Script(fragments: seq<string>): string {
    if fragments == [] then "" else Piece(fragments[0]) + Script(fragments[1..])
  }

  /** Scanning for a quote is unaffected by text in front. */
  lemma {:induction false} QuoteFromShift(x: string, t: string, k: nat)
    requires k <= |t|
    ensures QuoteFrom(x + t, |x| + k) == |x| + QuoteFrom(t, k)
    decreases |t| - k
  {
    if k < |t| {
      assert (x + t)[|x| + k] == t[k];
      if t[k] != '\'' {
        QuoteFromShift(x, t, k + 1);
      }
    }
  }

  lemma FragmentAtShift(x: string, t: string, j: nat)
    requires j <= |t|
    ensures FragmentAt(x + t, |x| + j).None? <==> FragmentAt(t, j).None?
    ensures FragmentAt(t, j).Some? ==> FragmentAt(x + t, |x| + j).value == |x| + FragmentAt(t, j).value
  {
    assert (x + t)[|x| + j..] == t[j..];
    if UrlOpen <= t[j..] {
      QuoteFromShift(x, t, j + |UrlOpen|);
      var q := QuoteFrom(t, j + |UrlOpen|);
      if q + 1 < |t| {
        assert (x + t)[|x| + q + 1] == t[q + 1];
      }
    }
  }

  /** The scan from |x| in `x + t` is the scan of `t`. */
  lemma {:induction false} FragmentsShift(x: string, t: string, j: nat)
    requires j <= |t|
    ensures Fragments(x + t, |x| + j) == Fragments(t, j)
    decreases |t| - j
  {
    var s := x + t;
    if j < |t| {
      FragmentAtShift(x, t, j);
      if FragmentAt(t, j).Some? {
        var q := FragmentAt(t, j).value;
        FragmentsShift(x, t, q + 2);
        assert s[|x| + j + |UrlOpen|..|x| + q] == t[j + |UrlOpen|..q];
        assert Fragments(s, |x| + j) == [s[|x| + j + |UrlOpen|..|x| + q]] + Fragments(s, |x| + q + 2);
      } else {
        FragmentsShift(x, t, j + 1);
        assert Fragments(s, |x| + j) == Fragments(s, |x| + j + 1);
      }
    }
  }

  /** A piece at the front is matched whole. */
  lemma PieceMatched(f: string, t: string)
    requires f != "" && '\'' !in f
    ensures FragmentAt(Piece(f) + t, 0) == Some(|UrlOpen| + |f|)
  {
    var s := Piece(f) + t;
    assert s[0..] == s;
    assert s[..|UrlOpen|] == UrlOpen;
    forall j | |UrlOpen| <= j < |UrlOpen| + |f|
      ensures s[j] != '\''
    {
      assert s[j] == f[j - |UrlOpen|];
    }
    assert s[|UrlOpen| + |f|] == '\'' && s[|UrlOpen| + |f| + 1] == ';';
    QuoteFromFirst(s, |UrlOpen|, |UrlOpen| + |f|);
  }

  /** The first quote from `k` is at `q` when `q` holds one and nothing
      between does. */
  lemma {:induction false} QuoteFromFirst(s: string, k: nat, q: nat)
    requires k <= q < |s| && s[q] == '\''
    requires forall j :: k <= j < q ==> s[j] != '\''
    ensures QuoteFrom(s, k) == q
    decreases q - k
  {
    if k < q {
      QuoteFromFirst(s, k + 1, q);
    }
  }

  /** One assignment in front contributes its fragment. */
  lemma FragmentsOfPiece(f: string, t: string)
    requires f != "" && '\'' !in f
    ensures Fragments(Piece(f) + t, 0) == [f] + Fragments(t, 0)
  {
    var p := Piece(f);
    var s := p + t;
    var q := |UrlOpen| + |f|;
    PieceMatched(f, t);
    assert q + 2 == |p|;
    assert Fragments(s, 0) == [s[|UrlOpen|..q]] + Fragments(s, q + 2);
    assert s[|UrlOpen|..q] == f;
    FragmentsShift(p, t, 0);
  }

  /** The scanner recovers the fragments of a script built from them: the
      redirect page's URL comes back piece by piece, in order. */
  lemma {:induction false} FragmentsOfScript(fragments: seq<string>)
    requires forall k :: 0 <= k < |fragments| ==> fragments[k] != "" && '\'' !in fragments[k]
    ensures Fragments(Script(fragments), 0) == fragments
  {
    if fragments != [] {
      FragmentsOfPiece(fragments[0], Script(fragments[1..]));
      FragmentsOfScript(fragments[1..]);
    }
  }

  /** extract_real_url joins the fragments of such a script. */
  lemma ExtractFromScript(fragments: seq<string>)
    requires fragments != []
    requires forall k :: 0 <= k < |fragments| ==> fragments[k] != "" && '\'' !in fragments[k]
    ensures ExtractRealUrl(Script(fragments)) == Some(Concat(fragments))
  {
    FragmentsOfScript(fragments);
    ExtractRealUrlCases(Script(fragments));
  }

  // ---------------------------------------------------------------------
  // extract_real_url: the fallback pattern
  // ---------------------------------------------------------------------

  /** The literal start of the fallback pattern. */
  const MpPrefix := "https://mp.weixin.qq.com/s?"

  predicate IsQuote(c: char) {
    c == '"' || c == '\''
  }

  /** The first quote character (either kind) at or after `k`. */
  function QuoteCharFrom(s: string, k: nat): (r: nat)
    requires k <= |s|
    ensures k <= r <= |s| && (r < |s| ==> IsQuote(s[r]))
    ensures forall j :: k <= j < r ==> !IsQuote(s[j])
    decreases |s| - k
  {
    if k == |s| || IsQuote(s[k]) then k else QuoteCharFrom(s, k + 1)
  }

  /** The last space in s[lo..hi). */
  function LastSpace(s: string, lo: nat, hi: nat): (r: Option<nat>)
    requires lo <= hi <= |s|
    ensures r.Some? ==> lo <= r.value < hi && s[r.value] == ' '
    ensures r.Some? ==> forall j :: r.value < j < hi ==> s[j] != ' '
    ensures r.None? ==> forall j :: lo <= j < hi ==> s[j] != ' '
    decreases hi - lo
  {
    if hi == lo then None
    else if s[hi - 1] == ' ' then Some(hi - 1)
    else LastSpace(s, lo, hi - 1)
  }

  /** The pattern `https://mp\.weixin\.qq\.com/s\?[^"\']* ` tried at `i`.
      The starred class is greedy and then gives back characters until a
      space follows, so the match ends at the last space before the first
      quote. */
  function FullUrlAt(s: string, i: nat): (r: Option<string>)
    requires i <= |s|
  {
    if MpPrefix <= s[i..] then
      var k := i + |MpPrefix|;
      match LastSpace(s, k, QuoteCharFrom(s, k))
      case Some(e) => Some(s[i..e + 1])
      case None => None
    else None
  }

  /** re.search of the fallback pattern from `i`: the leftmost match. */
  function FullUrlFrom(s: string, i: nat): (r: Option<string>)
    requires i <= |s|
    decreases |s| - i
  {
    if i == |s| then None
    else
      match FullUrlAt(s, i)
      case Some(u) => Some(u)
      case None => FullUrlFrom(s, i + 1)
  }

  /** extract_real_url: the fragments joined when there are any, else the
      fallback match, else None. */
  function ExtractRealUrl(page: string): Option<string> {
    var fragments := Fragments(page, 0);
    if |fragments| > 0 then Some(Concat(fragments)) else FullUrlFrom(page, 0)
  }

  /** A match of the fallback pattern at `i` is the article prefix, then
      characters that are not quotes, then a space. */
  lemma FullUrlAtShape(s: string, i: nat)
    requires i <= |s| && FullUrlAt(s, i).Some?
    ensures var u := FullUrlAt(s, i).value;
      && MpPrefix <= u && u[|u| - 1] == ' '
      && forall j :: |MpPrefix| <= j < |u| ==> !IsQuote(u[j])
  {
    var k := i + |MpPrefix|;
    var q := QuoteCharFrom(s, k);
    var e := LastSpace(s, k, q).value;
    assert s[i..e + 1][..|MpPrefix|] == s[i..][..|MpPrefix|];
  }

  /** The same holds of the leftmost match. */
  lemma {:induction false} FullUrlShape(s: string, i: nat)
    requires i <= |s| && FullUrlFrom(s, i).Some?
    ensures var u := FullUrlFrom(s, i).value;
      && MpPrefix <= u && u[|u| - 1] == ' '
      && forall j :: |MpPrefix| <= j < |u| ==> !IsQuote(u[j])
    decreases |s| - i
  {
    if FullUrlAt(s, i).None? {
      FullUrlShape(s, i + 1);
    } else {
      FullUrlAtShape(s, i);
    }
  }

  /** extract_real_url never returns an empty URL, and returns None exactly
      when neither pattern matches. */
  lemma ExtractRealUrlCases(page: string)
    ensures var r := ExtractRealUrl(page);
      && (r.None? <==> Fragments(page, 0) == [] && FullUrlFrom(page, 0).None?)
      && (Fragments(page, 0) != [] ==> r == Some(Concat(Fragments(page, 0))))
      && (r.Some? ==> r.value != "")
  {
    var fragments := Fragments(page, 0);
    if |fragments| > 0 {
      assert Concat(fragments) == fragments[0] + Concat(fragments[1..]);
    } else if FullUrlFrom(page, 0).Some? {
      FullUrlShape(page, 0);
    }
  }

  // ---------------------------------------------------------------------
  // extract_article_text
  // ---------------------------------------------------------------------

  /** An HTML page as BeautifulSoup presents it once scripts and styles are
      removed: `select` gives the newline-separated, stripped text of the
      first element a CSS selector picks (None when it picks none), `body`
      the text of the <body> element when there is one. */
  datatype Page = Page(select: string -> Option<string>, body: Option<string>)

  /** The article-content selectors, tried in this order. */
  const ContentSelectors: seq<string> :=
    ["#js_content", ".rich_media_content", ".article-content", ".content", "article", ".post-content"]

  /** The text of the element picked by the first selector from `i` on
      that picks one. */
  function FirstSelected(page: Page, selectors: seq<string>, i: nat): Option<string>
    requires i <= |selectors|
    decreases |selectors| - i
  {
    if i == |selectors| then None
    else if page.select(selectors[i]).Some? then page.select(selectors[i])
    else FirstSelected(page, selectors, i + 1)
  }

  /** The text before cleanup: that of the first picked element, or the
      body's when nothing was picked or the picked element is empty. */
  function RawText(page: Page): string {
    var picked := FirstSelected(page, ContentSelectors, 0);
    if picked.Some? && picked.value != "" then picked.value
    else if page.body.Some? then page.body.value
    else ""
  }

  lemma {:induction false} FirstSelectedIsEarliest(page: Page, selectors: seq<string>, i: nat, k: nat)
    requires i <= k < |selectors| && page.select(selectors[k]).Some?
    requires forall j :: i <= j < k ==> page.select(selectors[j]).None?
    ensures FirstSelected(page, selectors, i) == page.select(selectors[k])
    decreases k - i
  {
    if i < k {
      FirstSelectedIsEarliest(page, selectors, i + 1, k);
    }
  }

  lemma {:induction false} FirstSelectedNone(page: Page, selectors: seq<string>, i: nat)
    requires i <= |selectors|
    requires forall j :: i <= j < |selectors| ==> page.select(selectors[j]).None?
    ensures FirstSelected(page, selectors, i).None?
    decreases |selectors| - i
  {
    if i < |selectors| {
      FirstSelectedNone(page, selectors, i + 1);
    }
  }

  /** The earliest selector that picks a non-empty element decides the
      text, whatever later selectors and the body hold. */
  lemma SelectorPriority(page: Page, k: nat)
    requires k < |ContentSelectors| && page.select(ContentSelectors[k]).Some?
    requires page.select(ContentSelectors[k]).value != ""
    requires forall j :: 0 <= j < k ==> page.select(ContentSelectors[j]).None?
    ensures RawText(page) == page.select(ContentSelectors[k]).value
  {
    FirstSelectedIsEarliest(page, ContentSelectors, 0, k);
  }

  /** With no selector picking anything, the body's text (or nothing) is
      used. */
  lemma BodyFallback(page: Page)
    requires forall j :: 0 <= j < |ContentSelectors| ==> page.select(ContentSelectors[j]).None?
    ensures RawText(page) == page.body.GetOr("")
  {
    FirstSelectedNone(page, ContentSelectors, 0);
  }

  /** Neither end of `s` is white space. */
  predicate Stripped(s: string) {
    s == "" || (!IsSpace(s[0]) && !IsSpace(s[|s| - 1]))
  }

  /** One line of the cleanup: stripped, dropped when blank. */
  function KeptLine(line: string): seq<string> {
    var t := Strip(line);
    if t != "" then [t] else []
  }

  /** The cleanup's lines: each line stripped, blank ones dropped, in order. */
  function KeptLines(lines: seq<string>): seq<string> {
    FlatMap(lines, KeptLine)
  }

  /** Each kept line is non-empty and stripped, and holds no newline when
      the lines it came from hold none. */
  lemma KeptLinesShape(lines: seq<string>)
    ensures var r := KeptLines(lines);
      forall k :: 0 <= k < |r| ==> r[k] != "" && Stripped(r[k])
    ensures (forall k :: 0 <= k < |lines| ==> '\n' !in lines[k]) ==>
      var r := KeptLines(lines);
      forall k :: 0 <= k < |r| ==> '\n' !in r[k]
  {
    var r := KeptLines(lines);
    forall k | 0 <= k < |r|
      ensures r[k] != "" && Stripped(r[k])
      ensures (forall k :: 0 <= k < |lines| ==> '\n' !in lines[k]) ==> '\n' !in r[k]
    {
      FlatMapFrom(lines, KeptLine, k);
      var j :| 0 <= j < |lines| && r[k] in KeptLine(lines[j]);
      StripAddsNothing(lines[j], '\n');
    }
  }

  /** Every line with visible text survives the cleanup, stripped. */
  lemma KeptLinesKeep(lines: seq<string>, k: nat)
    requires k < |lines| && Strip(lines[k]) != ""
    ensures Strip(lines[k]) in KeptLines(lines)
  {
    assert lines == lines[..k] + [lines[k]] + lines[k + 1..];
    FlatMapAppend(lines[..k] + [lines[k]], lines[k + 1..], KeptLine);
    FlatMapAppend(lines[..k], [lines[k]], KeptLine);
    assert FlatMap([lines[k]], KeptLine) == KeptLine(lines[k]) by {
      assert [lines[k]][..0] == [];
    }
  }

  /** Lines that are already stripped and non-empty are kept as they are. */
  lemma KeptLinesFixed(lines: seq<string>)
    requires forall k :: 0 <= k < |lines| ==> lines[k] != "" && Stripped(lines[k])
    ensures KeptLines(lines) == lines
  {
    forall k | 0 <= k < |lines|
      ensures KeptLine(lines[k]) == [lines[k]]
    {
      StripFixesStripped(lines[k]);
    }
    FlatMapSelf(lines, KeptLine);
  }

  /** The cleanup at the end of extract_article_text. */
  function Clean(text: string): string {
    Join(KeptLines(Split(text, '\n')), '\n')
  }

  /** The cleaned text is made of stripped, non-empty lines. */
  lemma CleanShape(text: string)
    ensures var lines := Split(Clean(text), '\n');
      Clean(text) != "" ==> forall k :: 0 <= k < |lines| ==> lines[k] != "" && Stripped(lines[k])
  {
    var kept := KeptLines(Split(text, '\n'));
    KeptLinesShape(Split(text, '\n'));
    if kept != [] {
      SplitJoin(kept, '\n');
    }
  }

  /** Cleaning cleaned text changes nothing. */
  lemma CleanIdempotent(text: string)
    ensures Clean(Clean(text)) == Clean(text)
  {
    var kept := KeptLines(Split(text, '\n'));
    if kept == [] {
      CleanEmpty();
    } else {
      KeptLinesShape(Split(text, '\n'));
      assert Split(Clean(text), '\n') == kept by {
        SplitJoin(kept, '\n');
      }
      assert KeptLines(kept) == kept by {
        KeptLinesFixed(kept);
      }
    }
  }

  lemma CleanEmpty()
    ensures Clean("") == ""
  {
    assert Split("", '\n') == [""];
    FlatMapNone([""], KeptLine);
  }

  /** The text extract_article_text returns for a page. */
  function ArticleText(page: Page): string {
    Clean(RawText(page))
  }

  /** extract_article_text: the selectors in order until one picks an
      element, the body when that gave nothing, then the cleanup. */
  method ExtractArticleText(page: Page) returns (text: string)
    ensures text == ArticleText(page)
  {
    var content := "";
    var i := 0;
    while i < |ContentSelectors|
      invariant i <= |ContentSelectors|
      invariant FirstSelected(page, ContentSelectors, i) == FirstSelected(page, ContentSelectors, 0)
    {
      var picked := page.select(ContentSelectors[i]);
      if picked.Some? {
        content := picked.value;
        break;
      }
      i := i + 1;
    }
    if content == "" && page.body.Some? {
      content := page.body.value;
    }
    text := Clean(content);
  }

  // ---------------------------------------------------------------------
  // _parse_search_results: summaries
  // ---------------------------------------------------------------------

  /** `\d{4}-\d{1,2}-\d{1,2}` matches at `i`. */
  predicate DateAt(s: string, i: nat) {
    i + 8 <= |s|
    && IsDigit(s[i]) && IsDigit(s[i + 1]) && IsDigit(s[i + 2]) && IsDigit(s[i + 3])
    && s[i + 4] == '-' && IsDigit(s[i + 5])
    && ((s[i + 6] == '-' && IsDigit(s[i + 7]))
        || (i + 9 <= |s| && IsDigit(s[i + 6]) && s[i + 7] == '-' && IsDigit(s[i + 8])))
  }

  predicate HasDate(s: string) {
    exists i :: 0 <= i < |s| && DateAt(s, i)
  }

  /** `\d+小时前` or `\d+分钟前` matches at `i` (one digit is enough). */
  predicate RecencyAt(s: string, i: nat) {
    i < |s| && IsDigit(s[i]) && ("小时前" <= s[i + 1..] || "分钟前" <= s[i + 1..])
  }

  /** `今日|昨日|\d+小时前|\d+分钟前` matches somewhere. */
  predicate HasRecency(s: string) {
    Contains(s, "今日") || Contains(s, "昨日") || exists i :: 0 <= i < |s| && RecencyAt(s, i)
  }

  /** The platform's own name, which is never a summary or a source. */
  const PlatformName := "微信公众平台"

  /** A paragraph that can serve as the summary: long enough, and not a
      date, a relative time or the platform's name. */
  predicate IsSummary(text: string) {
    |text| > 20 && !HasDate(text) && !HasRecency(text) && !Contains(text, PlatformName)
  }

  /** `text[:n] + '...' if len(text) > n else text` */
  function Abbreviate(text: string, n: nat): (r: string)
    ensures |text| <= n ==> r == text
    ensures |text| > n ==> |r| == n + 3 && r[..n] == text[..n] && r[n..] == "..."
  {
    if |text| > n then text[..n] + "..." else text
  }

  /** The summary taken from the paragraphs from `i` on. */
  function SummaryFrom(paragraphs: seq<string>, i: nat): string
    requires i <= |paragraphs|
    decreases |paragraphs| - i
  {
    if i == |paragraphs| then ""
    else if IsSummary(paragraphs[i]) then Abbreviate(paragraphs[i], 300)
    else SummaryFrom(paragraphs, i + 1)
  }

  /** The summary loop: the first paragraph that qualifies, shortened to
      300 characters. */
  method PickSummary(paragraphs: seq<string>) returns (summary: string)
    ensures summary == SummaryFrom(paragraphs, 0)
  {
    summary := "";
    var i := 0;
    while i < |paragraphs|
      invariant i <= |paragraphs|
      invariant SummaryFrom(paragraphs, i) == SummaryFrom(paragraphs, 0)
    {
      if IsSummary(paragraphs[i]) {
        summary := Abbreviate(paragraphs[i], 300);
        break;
      }
      i := i + 1;
    }
  }

  /** Paragraph `k` is the first from `i` on that qualifies. */
  predicate IsFirstSummary(paragraphs: seq<string>, i: nat, k: nat) {
    i <= k < |paragraphs| && IsSummary(paragraphs[k])
    && forall j :: i <= j < k ==> !IsSummary(paragraphs[j])
  }

  /** The summary is the first qualifying paragraph, and there is one
      exactly when some paragraph qualifies. */
  lemma {:induction false} SummaryIsFirst(paragraphs: seq<string>, i: nat)
    requires i <= |paragraphs|
    ensures SummaryFrom(paragraphs, i) != "" <==> exists k :: i <= k < |paragraphs| && IsSummary(paragraphs[k])
    ensures forall k: nat :: IsFirstSummary(paragraphs, i, k) ==> SummaryFrom(paragraphs, i) == Abbreviate(paragraphs[k], 300)
    decreases |paragraphs| - i
  {
    if i < |paragraphs| {
      SummaryIsFirst(paragraphs, i + 1);
    }
  }

  // ---------------------------------------------------------------------
  // _parse_search_results: links, sources, timestamps
  // ---------------------------------------------------------------------

  const SogouHost := "https://weixin.sogou.com"

  /** A result link: site-relative links get the Sogou host in front. */
  function SogouLink(href: string): (r: string)
    ensures r == "" <==> href == ""
    ensures |r| >= |href| && r[|r| - |href|..] == href
  {
    if href != "" && href[0] == '/' then SogouHost + href else href
  }

  /** Completing a link twice is completing it once. */
  lemma SogouLinkIdempotent(href: string)
    ensures SogouLink(SogouLink(href)) == SogouLink(href)
  {
    if href != "" && href[0] == '/' {
      assert SogouLink(href)[0] == 'h';
    }
  }

  /** The account name shown in a result, unless it is empty or the
      platform's own name. */
  function SourceName(span: Option<string>): (r: string)
    ensures r != PlatformName
    ensures r != "" ==> span == Some(r)
  {
    if span.Some? && span.value != "" && span.value != PlatformName then span.value else ""
  }

  /** What opens the publish-time call in a result's script. */
  const TimeConvertOpen := "timeConvert('"

  /** The end of the run of digits from `k`. */
  function DigitsFrom(s: string, k: nat): (r: nat)
    requires k <= |s|
    ensures k <= r <= |s| && (r < |s| ==> !IsDigit(s[r]))
    ensures forall j :: k <= j < r ==> IsDigit(s[j])
    decreases |s| - k
  {
    if k == |s| || !IsDigit(s[k]) then k else DigitsFrom(s, k + 1)
  }

  /** `timeConvert\('(\d+)'\)` tried at `i`: its digits. */
  function TimestampAt(s: string, i: nat): (r: Option<string>)
    requires i <= |s|
  {
    if TimeConvertOpen <= s[i..] then
      var k := i + |TimeConvertOpen|;
      var e := DigitsFrom(s, k);
      if e > k && e + 1 < |s| && s[e] == '\'' && s[e + 1] == ')' then Some(s[k..e]) else None
    else None
  }

  /** re.search of the timestamp pattern from `i`. */
  function TimestampFrom(s: string, i: nat): (r: Option<string>)
    requires i <= |s|
    ensures r.Some? ==> r.value != "" && AllDigits(r.value)
    decreases |s| - i
  {
    if i == |s| then None
    else
      match TimestampAt(s, i)
      case Some(d) => Some(d)
      case None => TimestampFrom(s, i + 1)
  }

  lemma {:induction false} DigitsFromFirst(s: string, k: nat, e: nat)
    requires k <= e < |s| && !IsDigit(s[e])
    requires forall j :: k <= j < e ==> IsDigit(s[j])
    ensures DigitsFrom(s, k) == e
    decreases e - k
  {
    if k < e {
      DigitsFromFirst(s, k + 1, e);
    }
  }

  /** The timestamp a `timeConvert('<n>')` call was written with is read
      back. */
  lemma TimestampOfCall(n: nat, rest: string)
    ensures var s := TimeConvertOpen + Decimal(n) + "')" + rest;
      TimestampFrom(s, 0) == Some(Decimal(n)) && DigitsValue(Decimal(n)) == n
  {
    var d := Decimal(n);
    var s := TimeConvertOpen + d + "')" + rest;
    var k := |TimeConvertOpen|;
    assert s[0..] == s;
    assert s[..k] == TimeConvertOpen;
    forall j | k <= j < k + |d|
      ensures IsDigit(s[j])
    {
      assert s[j] == d[j - k];
    }
    assert s[k + |d|] == '\'' && s[k + |d| + 1] == ')';
    DigitsFromFirst(s, k, k + |d|);
    assert s[k..k + |d|] == d;
    DecimalRoundTrip(n);
  }

  /** The publish time of a result: empty without a timestamp, an error
      where datetime.fromtimestamp raises (the error is not caught). */
  function PublishTime(script: Option<string>, offset: int): Result<string, string> {
    if script.None? then Ok("")
    else
      match TimestampFrom(script.value, 0)
      case None => Ok("")
      case Some(digits) =>
        match FromTimestamp(DigitsValue(digits), offset)
        case None => Err("year is out of range")
        case Some(t) => Ok(FormatDateTime(t))
  }

  /** A publish time taken from a timestamp reads back as that instant
      whenever its year has four digits. */
  lemma PublishTimeReadsBack(script: string, offset: int)
    requires TimestampFrom(script, 0).Some?
    requires var t := FromTimestamp(DigitsValue(TimestampFrom(script, 0).value), offset);
      t.Some? && t.value.date.year >= 1000
    ensures PublishTime(Some(script), offset).Ok?
    ensures var p := ParseDateTime(PublishTime(Some(script), offset).value);
      && p.Some?
      && Seconds(p.value) == DayNumber(Epoch) * 86400 + DigitsValue(TimestampFrom(script, 0).value) + offset
  {
    var t := FromTimestamp(DigitsValue(TimestampFrom(script, 0).value), offset).value;
    DateTimeRoundTrip(t);
  }

  // ---------------------------------------------------------------------
  // load_wechat_accounts and save_wechat_accounts
  // ---------------------------------------------------------------------

  /** The accounts used when the configuration names none. */
  const DefaultAccounts: seq<string> := [
     "中金所发布", "上交所发布", "李迅雷金融与投资", "量子位", "机器之心",
     "证券时报", "财经早餐", "畅游股海的老船长", "索策略", "财天早知道",
     "证监会发布", "中证协发布", "中国基金报", "蓝洞新消费", "上海证券报",
     "21世纪经济报道", "券商中国", "中国证券报", "阿尔法工场研究院", "金石杂谈",
     "宏策股", "180K", "证券时报财富资讯", "韭研公社", "表舅是养基大户",
     "远川研究所", "格上财富", "真是港股圈", "华尔街见闻", "寻瑕记"
  ]

  /** The concatenation of f(x) over the elements x of `s`, in order. */
  function FlatMap<T, U>(s: seq<T>, f: T -> seq<U>): seq<U>
    decreases |s|
  {
    if s == [] then [] else FlatMap(s[..|s| - 1], f) + f(s[|s| - 1])
  }

  lemma {:induction false} FlatMapAppend<T, U>(a: seq<T>, b: seq<T>, f: T -> seq<U>)
    ensures FlatMap(a + b, f) == FlatMap(a, f) + FlatMap(b, f)
    decreases |b|
  {
    if b == [] {
      assert a + b == a;
    } else {
      var m := |b| - 1;
      FlatMapAppend(a, b[..m], f);
      assert (a + b)[..|a + b| - 1] == a + b[..m];
    }
  }

  /** One more element: its image follows the images so far. */
  lemma FlatMapStep<T, U>(s: seq<T>, i: nat, f: T -> seq<U>)
    requires i < |s|
    ensures FlatMap(s[..i + 1], f) == FlatMap(s[..i], f) + f(s[i])
  {
    assert s[..i + 1][..i] == s[..i];
  }

  lemma {:induction false} FlatMapNone<T, U>(s: seq<T>, f: T -> seq<U>)
    requires forall k :: 0 <= k < |s| ==> f(s[k]) == []
    ensures FlatMap(s, f) == []
    decreases |s|
  {
    if s != [] {
      FlatMapNone(s[..|s| - 1], f);
    }
  }

  lemma {:induction false} FlatMapSelf<T>(s: seq<T>, f: T -> seq<T>)
    requires forall k :: 0 <= k < |s| ==> f(s[k]) == [s[k]]
    ensures FlatMap(s, f) == s
    decreases |s|
  {
    if s != [] {
      var m := |s| - 1;
      FlatMapSelf(s[..m], f);
      assert s == s[..m] + [s[m]];
    }
  }

  /** Each element of the result comes from some element's image. */
  lemma {:induction false} FlatMapFrom<T, U>(s: seq<T>, f: T -> seq<U>, k: nat)
    requires k < |FlatMap(s, f)|
    ensures exists j :: 0 <= j < |s| && FlatMap(s, f)[k] in f(s[j])
    decreases |s|
  {
    var m := |s| - 1;
    var front := FlatMap(s[..m], f);
    if k < |front| {
      FlatMapFrom(s[..m], f, k);
      var j :| 0 <= j < m && front[k] in f(s[..m][j]);
      assert s[..m][j] == s[j];
    } else {
      assert FlatMap(s, f)[k] == f(s[m])[k - |front|];
    }
  }

  /** A stripped line names an account unless it is blank or a comment. */
  predicate IsAccount(line: string) {
    line != "" && line[0] != '#'
  }

  /** The account a configuration line names, if any. */
  function AccountOf(line: string): seq<string> {
    var name := Strip(line);
    if IsAccount(name) then [name] else []
  }

  /** The account names among configuration lines: each line stripped,
      blank lines and `#` comments skipped. */
  function AccountLines(lines: seq<string>): seq<string> {
    FlatMap(lines, AccountOf)
  }

  /** Every name found is a stripped line that is neither blank nor a
      comment. */
  lemma AccountLinesNames(lines: seq<string>)
    ensures var r := AccountLines(lines);
      forall k :: 0 <= k < |r| ==> IsAccount(r[k]) && Stripped(r[k])
  {
    var r := AccountLines(lines);
    forall k | 0 <= k < |r|
      ensures IsAccount(r[k]) && Stripped(r[k])
    {
      FlatMapFrom(lines, AccountOf, k);
    }
  }

  /** Every line naming an account contributes it, stripped. */
  lemma AccountLinesKeep(lines: seq<string>, k: nat)
    requires k < |lines| && IsAccount(Strip(lines[k]))
    ensures Strip(lines[k]) in AccountLines(lines)
  {
    assert lines == lines[..k] + [lines[k]] + lines[k + 1..];
    FlatMapAppend(lines[..k] + [lines[k]], lines[k + 1..], AccountOf);
    FlatMapAppend(lines[..k], [lines[k]], AccountOf);
    assert FlatMap([lines[k]], AccountOf) == AccountOf(lines[k]) by {
      assert [lines[k]][..0] == [];
    }
  }

  /** The accounts load_wechat_accounts returns. `config` is the file's
      text after newline translation, None when the file is missing or
      cannot be read. */
  function Accounts(config: Option<string>): (r: seq<string>)
    ensures r != []
  {
    if config.None? then DefaultAccounts
    else
      var listed := AccountLines(Split(config.value, '\n'));
      if listed == [] then DefaultAccounts else listed
  }

  /** load_wechat_accounts: the line loop, then the defaults when it found
      no account. */
  method LoadWechatAccounts(config: Option<string>) returns (accounts: seq<string>)
    ensures accounts == Accounts(config)
    ensures accounts != []
    ensures config.Some? && accounts != DefaultAccounts ==>
      forall k :: 0 <= k < |accounts| ==> IsAccount(accounts[k]) && Stripped(accounts[k])
  {
    if config.None? {
      return DefaultAccounts;
    }
    var lines := Split(config.value, '\n');
    accounts := [];
    var i := 0;
    while i < |lines|
      invariant i <= |lines|
      invariant accounts == AccountLines(lines[..i])
    {
      var line := Strip(lines[i]);
      if IsAccount(line) {
        accounts := accounts + [line];
      }
      FlatMapStep(lines, i, AccountOf);
      i := i + 1;
    }
    assert lines[..i] == lines;
    AccountLinesNames(lines);
    if accounts == [] {
      accounts := DefaultAccounts;
    }
  }

  const HeaderTitle := "# 微信公众号配置文件"
  const HeaderHint := "# 每行一个公众号名称，支持#号注释"

  /** One line per account, each ended by a newline. */
  function AccountFile(accounts: seq<string>): string {
    if accounts == [] then "" else accounts[0] + "\n" + AccountFile(accounts[1..])
  }

  /** The file save_wechat_accounts writes: two comment lines, a blank
      line, then the accounts. */
  function ConfigText(accounts: seq<string>): string {
    HeaderTitle + "\n" + HeaderHint + "\n" + "\n" + AccountFile(accounts)
  }

  lemma {:induction false} SplitAccountFile(accounts: seq<string>)
    requires forall k :: 0 <= k < |accounts| ==> '\n' !in accounts[k]
    ensures Split(AccountFile(accounts), '\n') == accounts + [""]
  {
    if accounts == [] {
      assert Split("", '\n') == [""];
    } else {
      SplitAtSep(accounts[0], '\n', AccountFile(accounts[1..]));
      SplitAccountFile(accounts[1..]);
      assert accounts == [accounts[0]] + accounts[1..];
    }
  }

  /** Comment lines and blank lines name no account. */
  lemma CommentLines(lines: seq<string>)
    requires forall k :: 0 <= k < |lines| ==> lines[k] == "" || (lines[k][0] == '#' && Stripped(lines[k]))
    ensures AccountLines(lines) == []
  {
    forall k | 0 <= k < |lines|
      ensures AccountOf(lines[k]) == []
    {
      StripFixesStripped(lines[k]);
    }
    FlatMapNone(lines, AccountOf);
  }

  /** Lines that already are account names are kept as they are. */
  lemma AccountLinesFixed(lines: seq<string>)
    requires forall k :: 0 <= k < |lines| ==> IsAccount(lines[k]) && Stripped(lines[k])
    ensures AccountLines(lines) == lines
  {
    forall k | 0 <= k < |lines|
      ensures AccountOf(lines[k]) == [lines[k]]
    {
      StripFixesStripped(lines[k]);
    }
    FlatMapSelf(lines, AccountOf);
  }

  /** The lines of two header lines, a blank line and an account file. */
  lemma SplitHeaded(title: string, hint: string, accounts: seq<string>)
    requires '\n' !in title && '\n' !in hint
    requires forall k :: 0 <= k < |accounts| ==> '\n' !in accounts[k]
    ensures Split(title + "\n" + hint + "\n" + "\n" + AccountFile(accounts), '\n')
      == [title, hint, ""] + (accounts + [""])
  {
    var body := AccountFile(accounts);
    assert title + "\n" + hint + "\n" + "\n" + body == title + "\n" + (hint + "\n" + ("" + "\n" + body));
    SplitAtSep(title, '\n', hint + "\n" + ("" + "\n" + body));
    SplitAtSep(hint, '\n', "" + "\n" + body);
    SplitAtSep("", '\n', body);
    SplitAccountFile(accounts);
  }

  /** The lines of a saved configuration. */
  lemma SplitConfig(accounts: seq<string>)
    requires forall k :: 0 <= k < |accounts| ==> '\n' !in accounts[k]
    ensures Split(ConfigText(accounts), '\n') == [HeaderTitle, HeaderHint, ""] + (accounts + [""])
  {
    assert '\n' !in HeaderTitle && '\n' !in HeaderHint;
    SplitHeaded(HeaderTitle, HeaderHint, accounts);
  }

  lemma HeaderNames(title: string, hint: string)
    requires title != "" && title[0] == '#' && Stripped(title)
    requires hint != "" && hint[0] == '#' && Stripped(hint)
    ensures AccountLines([title, hint, ""]) == []
  {
    CommentLines([title, hint, ""]);
  }

  lemma AccountsThenBlank(accounts: seq<string>)
    requires forall k :: 0 <= k < |accounts| ==> IsAccount(accounts[k]) && Stripped(accounts[k])
    ensures AccountLines(accounts + [""]) == accounts
  {
    FlatMapAppend(accounts, [""], AccountOf);
    AccountLinesFixed(accounts);
    CommentLines([""]);
  }

  /** Two comment lines, a blank line, then the accounts: the lines name
      exactly the accounts. */
  lemma ConfigAccounts(title: string, hint: string, accounts: seq<string>)
    requires title != "" && title[0] == '#' && Stripped(title)
    requires hint != "" && hint[0] == '#' && Stripped(hint)
    requires forall k :: 0 <= k < |accounts| ==> IsAccount(accounts[k]) && Stripped(accounts[k])
    ensures AccountLines([title, hint, ""] + (accounts + [""])) == accounts
  {
    HeaderNames(title, hint);
    AccountsThenBlank(accounts);
    FlatMapAppend([title, hint, ""], accounts + [""], AccountOf);
  }

  /** Loading a saved configuration gives back the saved accounts (the
      defaults when none were saved), for names that are stripped, hold
      no newline and do not start with `#`. */
  lemma LoadSavedAccounts(accounts: seq<string>)
    requires forall k :: 0 <= k < |accounts| ==>
      IsAccount(accounts[k]) && Stripped(accounts[k]) && '\n' !in accounts[k]
    ensures Accounts(Some(ConfigText(accounts))) == if accounts == [] then DefaultAccounts else accounts
  {
    SplitConfig(accounts);
    ConfigAccounts(HeaderTitle, HeaderHint, accounts);
  }

  // ---------------------------------------------------------------------
  // ScheduledCrawler: the daily file name and time window
  // ---------------------------------------------------------------------

  /** The characters `[<>:"/\\|?*]` replaced in file names. */
  predicate Unsafe(c: char) {
    c == '<' || c == '>' || c == ':' || c == '"' || c == '/' || c == '\\' || c == '|' || c == '?' || c == '*'
  }

  /** re.sub of the unsafe characters by `_`. */
  function Sanitize(name: string): (r: string)
    ensures |r| == |name|
    ensures forall k :: 0 <= k < |r| ==> !Unsafe(r[k])
    ensures forall k :: 0 <= k < |r| && !Unsafe(name[k]) ==> r[k] == name[k]
  {
    seq(|name|, k requires 0 <= k < |name| => if Unsafe(name[k]) then '_' else name[k])
  }

  /** A name without unsafe characters is left alone; so sanitising twice
      is sanitising once. */
  lemma SanitizeSafe(name: string)
    requires forall k :: 0 <= k < |name| ==> !Unsafe(name[k])
    ensures Sanitize(name) == name
  {
  }

  lemma SanitizeIdempotent(name: string)
    ensures Sanitize(Sanitize(name)) == Sanitize(name)
  {
    SanitizeSafe(Sanitize(name));
  }

  /** The per-account result file `wechat_<account>_<YYYY>_<MMDD>.json`. */
  function DailyFileName(account: string, today: Date): string
    requires InRange(today)
  {
    Sanitize(PlainFileName(account, today))
  }

  /** The unsanitised `wechat_<account>_<YYYY>_<MMDD>.json`. */
  function PlainFileName(account: string, today: Date): string
    requires InRange(today)
  {
    "wechat_" + account + "_" + Decimal(today.year) + "_" + Pad2(today.month) + Pad2(today.day) + ".json"
  }

  /** The file name keeps its fixed parts whatever the account is called. */
  lemma DailyFileNameShape(account: string, today: Date)
    requires InRange(today)
    ensures var r := DailyFileName(account, today);
      && |r| == |account| + |Decimal(today.year)| + 18
      && r[..7] == "wechat_" && r[|r| - 5..] == ".json"
  {
    var name := PlainFileName(account, today);
    var r := Sanitize(name);
    forall k | 0 <= k < 7
      ensures r[k] == "wechat_"[k]
    {
      assert name[k] == "wechat_"[k];
    }
    forall k | |r| - 5 <= k < |r|
      ensures r[k] == ".json"[k - (|r| - 5)]
    {
      assert name[k] == ".json"[k - (|r| - 5)];
    }
  }

  /** An account name without unsafe characters gives the plain name. */
  lemma DailyFileNamePlain(account: string, today: Date)
    requires InRange(today)
    requires forall k :: 0 <= k < |account| ==> !Unsafe(account[k])
    ensures DailyFileName(account, today) == PlainFileName(account, today)
  {
    var name := PlainFileName(account, today);
    var y := Decimal(today.year);
    var md := Pad2(today.month) + Pad2(today.day);
    forall k | 0 <= k < |name|
      ensures !Unsafe(name[k])
    {
      if 7 <= k < 7 + |account| {
        assert name[k] == account[k - 7];
      } else if 8 + |account| <= k < 8 + |account| + |y| {
        assert name[k] == y[k - 8 - |account|];
        assert IsDigit(y[k - 8 - |account|]);
      } else if 9 + |account| + |y| <= k < 13 + |account| + |y| {
        assert name[k] == md[k - 9 - |account| - |y|];
        assert IsDigit(md[k - 9 - |account| - |y|]);
      }
    }
    SanitizeSafe(name);
  }

  /** The window of the daily job: yesterday 15:00 to today 08:00; None
      where stepping back a day leaves datetime's range (Python raises). */
  function DailyWindow(now: DateTime): Option<(DateTime, DateTime)>
    requires ValidDateTime(now) && InRange(now.date)
  {
    var yesterday := PrevDay(now.date);
    if yesterday.year < 1 then None
    else Some((DateTime(yesterday, 15, 0, 0), DateTime(now.date, 8, 0, 0)))
  }

  /** The window exists except on the first representable day, and is
      seventeen hours long. */
  lemma DailyWindowSpan(now: DateTime)
    requires ValidDateTime(now) && InRange(now.date)
    ensures DailyWindow(now).Some? <==> now.date != Date(1, 1, 1)
    ensures DailyWindow(now).Some? ==>
      var (start, end) := DailyWindow(now).value;
      && ValidDateTime(start) && InRange(start.date) && ValidDateTime(end)
      && Seconds(end) - Seconds(start) == 17 * 3600
  {
  }
}
