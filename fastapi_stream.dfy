/** The streaming side of the analysis service (fastapi_stream.py): the
    analysis text cut into 50-character server-sent events, the date and
    empty-result guards in front of it, the article list handed to the
    analysis after a crawl, and saving crawled articles with their query
    keyword.  The language model, json.dumps and the event ids are
    parameters or left out. */
module FastapiStream {
  import opened Wrappers
  import opened Text
  import MinioStorage
  import SougouCrawl

  // ---------------------------------------------------------------------
  // Cutting the analysis into chunks
  // ---------------------------------------------------------------------

  const ChunkSize: nat := 50

  function Min(a: int, b: int): int {
    if a <= b then a else b
  }

  /** The consecutive 50-character slices of `s`; only the last may be
      shorter, and none is empty. */
  function Chunks(s: string): (r: seq<string>)
    ensures forall k :: 0 <= k < |r| ==> 0 < |r[k]| <= ChunkSize
    ensures forall k :: 0 <= k < |r| - 1 ==> |r[k]| == ChunkSize
    ensures r == [] <==> s == []
    decreases |s|
  {
    if s == [] then []
    else if |s| <= ChunkSize then [s]
    else [s[..ChunkSize]] + Chunks(s[ChunkSize..])
  }

  /** The chunks put back together give the text. */
  lemma {:induction false} ChunksConcat(s: string)
    ensures Concat(Chunks(s)) == s
    decreases |s|
  {
    if |s| > ChunkSize {
      var rest := s[ChunkSize..];
      ChunksConcat(rest);
      assert Chunks(s)[1..] == Chunks(rest);
      assert s == s[..ChunkSize] + rest;
    } else if s != [] {
      assert Chunks(s)[1..] == [];
    }
  }

  /** Chunk `k` is the slice from 50k, and there are just enough chunks
      to cover the text. */
  lemma {:induction false} ChunkAt(s: string, k: nat)
    requires k < |Chunks(s)|
    ensures ChunkSize * (|Chunks(s)| - 1) < |s| <= ChunkSize * |Chunks(s)|
    ensures Chunks(s)[k] == s[ChunkSize * k..Min(ChunkSize * k + ChunkSize, |s|)]
    decreases |s|
  {
    if |s| > ChunkSize {
      var rest := s[ChunkSize..];
      if k > 0 {
        var m := k - 1;
        ChunkAt(rest, m);
        assert Chunks(s)[k] == Chunks(rest)[m];
        assert ChunkSize * k == ChunkSize * m + ChunkSize;
        var hi := Min(ChunkSize * m + ChunkSize, |rest|);
        assert hi + ChunkSize == Min(ChunkSize * k + ChunkSize, |s|);
        assert rest[ChunkSize * m..hi] == s[ChunkSize * k..hi + ChunkSize];
      } else {
        ChunkAt(rest, 0);
      }
    }
  }

  /** The chunks from position `i` on: the slice at `i`, then the chunks
      after it. */
  lemma ChunksFrom(s: string, i: nat)
    requires i < |s|
    ensures Chunks(s[i..]) == [s[i..Min(i + ChunkSize, |s|)]] + Chunks(s[Min(i + ChunkSize, |s|)..])
  {
    var t := s[i..];
    if |t| > ChunkSize {
      assert t[..ChunkSize] == s[i..i + ChunkSize];
      assert t[ChunkSize..] == s[i + ChunkSize..];
    } else {
      assert t == s[i..|s|];
      assert s[|s|..] == [];
    }
  }

  // ---------------------------------------------------------------------
  // Line breaks in a chunk
  // ---------------------------------------------------------------------

  /** chunk.replace("\n", "  \n"): two spaces before every line break. */
  function Escape(s: string): string
    decreases |s|
  {
    if s == [] then []
    else (if s[0] == '\n' then "  \n" else [s[0]]) + Escape(s[1..])
  }

  /** Undoes Escape: "  \n" back to a line break, scanning from the left. */
  function Unescape(s: string): string
    decreases |s|
  {
    if s == [] then []
    else if |s| >= 3 && s[..3] == "  \n" then "\n" + Unescape(s[3..])
    else [s[0]] + Unescape(s[1..])
  }

  /** An escaped text never starts with a line break, nor with a space
      followed by one. */
  lemma EscapeStart(s: string)
    ensures var e := Escape(s);
      (|e| >= 1 ==> e[0] != '\n') && (|e| >= 2 && e[0] == ' ' ==> e[1] != '\n')
  {
    if s != [] && s[0] == ' ' && |s| >= 2 && s[1] != '\n' {
      assert Escape(s)[1] == s[1];
    }
  }

  /** Escaping loses nothing: unescaping gives the text back. */
  lemma {:induction false} UnescapeEscape(s: string)
    ensures Unescape(Escape(s)) == s
    decreases |s|
  {
    if s != [] {
      var rest := Escape(s[1..]);
      UnescapeEscape(s[1..]);
      if s[0] == '\n' {
        assert Escape(s) == "  \n" + rest;
        assert (("  \n" + rest)[..3]) == "  \n";
        assert ("  \n" + rest)[3..] == rest;
      } else {
        var e := [s[0]] + rest;
        assert Escape(s) == e;
        EscapeStart(s[1..]);
        if |e| >= 3 {
          assert e[1] == rest[0] && e[2] == rest[1];
        }
        assert e[1..] == rest;
      }
    }
  }

  /** Escaping works line break by line break, so escaping pieces and
      joining them is escaping the whole. */
  lemma {:induction false} EscapeAppend(a: string, b: string)
    ensures Escape(a + b) == Escape(a) + Escape(b)
    decreases |a|
  {
    if a != [] {
      EscapeAppend(a[1..], b);
      assert (a + b)[1..] == a[1..] + b;
      assert (a + b)[0] == a[0];
    } else {
      assert a + b == b;
    }
  }

  // ---------------------------------------------------------------------
  // Events and their framing
  // ---------------------------------------------------------------------

  /** A server-sent event: a "message_chunk" from the assistant on a
      thread and an agent, with an optional finish_reason, or an "error"
      event.  The `id` (a fresh UUID) is left out. */
  datatype Event =
    | Message(threadId: string, agent: string, content: string, finish: Option<string>)
    | Failure(content: string, finish: Option<string>)

  /** One event on the wire: "data: ", its JSON text, a blank line. */
  function Frame(json: string): string {
    "data: " + json + "\n\n"
  }

  /** The JSON text of a frame, if it is one. */
  function Unframe(f: string): Option<string> {
    if |f| >= 8 && f[..6] == "data: " && f[|f| - 2..] == "\n\n" then Some(f[6..|f| - 2]) else None
  }

  /** A frame gives back the JSON text it carries. */
  lemma UnframeFrame(json: string)
    ensures Unframe(Frame(json)) == Some(json)
  {
    var f := Frame(json);
    assert f[..6] == "data: ";
    assert f[|f| - 2..] == "\n\n";
    assert f[6..|f| - 2] == json;
  }

  /** The frames of `es`, each event written by `encode` (json.dumps). */
  function Frames(es: seq<Event>, encode: Event -> string): (r: seq<string>)
    ensures |r| == |es| && forall k :: 0 <= k < |es| ==> r[k] == Frame(encode(es[k]))
  {
    seq(|es|, k requires 0 <= k < |es| => Frame(encode(es[k])))
  }

  lemma FramesOne(e: Event, encode: Event -> string)
    ensures Frames([e], encode) == [Frame(encode(e))]
  {
  }

  lemma FramesAppend(a: seq<Event>, b: seq<Event>, encode: Event -> string)
    ensures Frames(a + b, encode) == Frames(a, encode) + Frames(b, encode)
  {
  }

  /** Every frame of a stream carries the JSON text of its event. */
  lemma FramesCarryEvents(es: seq<Event>, encode: Event -> string)
    ensures forall k :: 0 <= k < |es| ==> Unframe(Frames(es, encode)[k]) == Some(encode(es[k]))
  {
    forall k | 0 <= k < |es|
      ensures Unframe(Frames(es, encode)[k]) == Some(encode(es[k]))
    {
      UnframeFrame(encode(es[k]));
    }
  }

  const Stop := Some("stop")

  /** The event of one chunk: its text with the line breaks escaped. */
  function ChunkEvent(thread: string, agent: string, chunk: string): Event {
    Message(thread, agent, Escape(chunk), None)
  }

  function ChunkEvents(chunks: seq<string>, thread: string, agent: string): (r: seq<Event>)
    ensures |r| == |chunks| && forall k :: 0 <= k < |chunks| ==> r[k] == ChunkEvent(thread, agent, chunks[k])
  {
    seq(|chunks|, k requires 0 <= k < |chunks| => ChunkEvent(thread, agent, chunks[k]))
  }

  lemma ChunkEventsAppend(a: seq<string>, b: seq<string>, thread: string, agent: string)
    ensures ChunkEvents(a + b, thread, agent) == ChunkEvents(a, thread, agent) + ChunkEvents(b, thread, agent)
  {
  }

  /** The closing event: no text, finish_reason "stop". */
  function FinalEvent(thread: string, agent: string): Event {
    Message(thread, agent, "", Stop)
  }

  /** The events of an analysis text: one per chunk, then the closing one. */
  function Streamed(result: string, thread: string, agent: string): seq<Event> {
    ChunkEvents(Chunks(result), thread, agent) + [FinalEvent(thread, agent)]
  }

  /** The contents of some events, in order. */
  function Contents(es: seq<Event>): (r: seq<string>)
    ensures |r| == |es| && forall k :: 0 <= k < |es| ==> r[k] == es[k].content
  {
    seq(|es|, k requires 0 <= k < |es| => es[k].content)
  }

  /** Escaped pieces joined are the escaped whole. */
  lemma {:induction false} ConcatEscaped(parts: seq<string>, thread: string, agent: string)
    ensures Concat(Contents(ChunkEvents(parts, thread, agent))) == Escape(Concat(parts))
    decreases |parts|
  {
    if parts != [] {
      ConcatEscaped(parts[1..], thread, agent);
      assert Contents(ChunkEvents(parts, thread, agent))[1..] == Contents(ChunkEvents(parts[1..], thread, agent));
      EscapeAppend(parts[0], Concat(parts[1..]));
    }
  }

  /** A stream is one event per chunk, each without a finish_reason and
      holding its chunk escaped, then exactly one closing event; together
      the contents are the whole analysis text, escaped. */
  lemma StreamedShape(result: string, thread: string, agent: string)
    ensures var es := Streamed(result, thread, agent);
      var chunks := Chunks(result);
      && |es| == |chunks| + 1
      && es[|es| - 1] == Message(thread, agent, "", Stop)
      && (forall k :: 0 <= k < |es| - 1 ==> es[k].Message? && es[k].finish.None? && es[k].content == Escape(chunks[k]))
      && Concat(Contents(es)) == Escape(result)
  {
    var es := Streamed(result, thread, agent);
    var front := ChunkEvents(Chunks(result), thread, agent);
    ConcatEscaped(Chunks(result), thread, agent);
    ChunksConcat(result);
    ConcatAppendEmpty(Contents(front));
    assert Contents(es) == Contents(front) + [""];
  }

  lemma ConcatAppendEmpty(parts: seq<string>)
    ensures Concat(parts + [""]) == Concat(parts)
  {
    ConcatAppend(parts, [""]);
    assert Concat([""]) == "" + Concat([""][1..]);
  }

  /** The frames of the chunks of `result` from position `i` on. */
  function FramesFrom(result: string, i: nat, thread: string, agent: string, encode: Event -> string): seq<string>
    requires i <= |result|
  {
    Frames(ChunkEvents(Chunks(result[i..]), thread, agent), encode)
  }

  /** One turn of the generator loop: the slice at `i` is not empty and its
      frame comes first. */
  lemma StreamStep(result: string, i: nat, thread: string, agent: string, encode: Event -> string)
    requires i < |result|
    ensures var next := Min(i + ChunkSize, |result|);
      var chunk := result[i..next];
      && chunk != ""
      && FramesFrom(result, i, thread, agent, encode)
         == [Frame(encode(ChunkEvent(thread, agent, chunk)))] + FramesFrom(result, next, thread, agent, encode)
  {
    var next := Min(i + ChunkSize, |result|);
    var chunk := result[i..next];
    var later := Chunks(result[next..]);
    ChunksFrom(result, i);
    ChunkEventsAppend([chunk], later, thread, agent);
    FramesAppend([ChunkEvent(thread, agent, chunk)], ChunkEvents(later, thread, agent), encode);
  }

  /** The generator loop over range(0, len(result), 50): one frame per
      non-empty slice, then the closing frame. */
  method StreamChunks(result: string, thread: string, agent: string, encode: Event -> string)
    returns (frames: seq<string>)
    ensures frames == Frames(Streamed(result, thread, agent), encode)
  {
    assert result[0..] == result;
    frames := [];
    var i := 0;
    while i < |result|
      invariant 0 <= i
      invariant frames + FramesFrom(result, Min(i, |result|), thread, agent, encode)
                == FramesFrom(result, 0, thread, agent, encode)
    {
      var chunk := result[i..Min(i + ChunkSize, |result|)];
      StreamStep(result, i, thread, agent, encode);
      if chunk != "" {
        frames := frames + [Frame(encode(ChunkEvent(thread, agent, chunk)))];
      }
      i := i + ChunkSize;
    }
    assert result[Min(i, |result|)..] == [];
    frames := frames + [Frame(encode(FinalEvent(thread, agent)))];
    FramesAppend(ChunkEvents(Chunks(result), thread, agent), [FinalEvent(thread, agent)], encode);
  }

  // ---------------------------------------------------------------------
  // The daily analysis (analyze_articles_stream_generator)
  // ---------------------------------------------------------------------

  /** re.match(r'\d{4}-\d{2}-\d{2}', s): the text starts with a date
      shape; anything may follow it. */
  predicate DateShaped(s: string) {
    && |s| >= 10
    && AllDigits(s[..4]) && s[4] == '-'
    && AllDigits(s[5..7]) && s[7] == '-'
    && AllDigits(s[8..10])
  }

  const ReportThread := "93207a48-1bdd-4516-85a2-ef42f82a7605"
  const ErrorThread := "error-thread"
  const Reporter := "reporter"

  function DateError(date: string): Event {
    Message(ErrorThread, Reporter, "## ❌ 日期格式错误\n\n无法识别日期: " + date + "。请使用YYYY-MM-DD格式。", Stop)
  }

  function NoArticlesError(date: string): Event {
    Message(ErrorThread, Reporter,
            "## ❌ 未找到指定日期的文章\n\n未找到日期为 " + date + " 的文章。请检查日期是否正确或选择其他日期。", Stop)
  }

  function AnalysisError(e: string): Event {
    Message(ErrorThread, Reporter, "❌ 分析过程中出现错误: " + e, Stop)
  }

  /** fetch_articles_by_date asks for at most this many articles. */
  const TopK := 500

  /** The articles fetch_articles_by_date reads for a day: that day's,
      newest first, at most TopK. */
  function ArticlesOn(b: MinioStorage.Bucket, date: string): seq<MinioStorage.Fields>
    requires b.Valid()
  {
    MinioStorage.ArticlesByDate(b, Some(date), Some(date), Some(TopK))
  }

  /** The events of the daily analysis.  `stored` is what the store holds
      for the date (looked at only past the date check), `dumps` the JSON
      text of the articles, `chain` the analysis of a text (Err: the
      message of the exception it raises). */
  function DailyAnalysis(date: string, stored: seq<MinioStorage.Fields>, dumps: seq<MinioStorage.Fields> -> string,
                         chain: string -> Result<string, string>): seq<Event>
  {
    if !DateShaped(date) then [DateError(date)]
    else if stored == [] then [NoArticlesError(date)]
    else
      match chain(dumps(stored))
      case Err(e) => [AnalysisError(e)]
      case Ok(result) => Streamed(result, ReportThread, Reporter)
  }

  /** A date that does not start like YYYY-MM-DD gets exactly one error
      event, whatever the store holds and whatever the analysis would say. */
  lemma BadDateOneEvent(date: string, stored: seq<MinioStorage.Fields>, dumps: seq<MinioStorage.Fields> -> string,
                        chain: string -> Result<string, string>)
    requires !DateShaped(date)
    ensures DailyAnalysis(date, stored, dumps, chain) == [DateError(date)]
    ensures DailyAnalysis(date, stored, dumps, chain)[0].finish == Stop
  {
  }

  /** A well-shaped date with nothing stored gets exactly one error event,
      whatever the analysis would say. */
  lemma NoArticlesOneEvent(date: string, dumps: seq<MinioStorage.Fields> -> string,
                           chain: string -> Result<string, string>)
    requires DateShaped(date)
    ensures DailyAnalysis(date, [], dumps, chain) == [NoArticlesError(date)]
  {
  }

  /** The guard is a prefix match, but the store reads only a bare
      YYYY-MM-DD: a date with anything after it passes the guard and then
      finds no article. */
  lemma TrailingTextFindsNothing(b: MinioStorage.Bucket, date: string, dumps: seq<MinioStorage.Fields> -> string,
                                 chain: string -> Result<string, string>)
    requires b.Valid() && DateShaped(date) && |date| > 10
    ensures ArticlesOn(b, date) == []
    ensures DailyAnalysis(date, ArticlesOn(b, date), dumps, chain) == [NoArticlesError(date)]
  {
    assert MinioStorage.ChosenPrefixes(Some(date), Some(date)).None?;
    assert MinioStorage.ReadKeys(b, Some(date), Some(date), Some(TopK)) == [];
  }

  /** The daily analysis streams the text in chunks exactly when the date
      is well shaped, the day has articles and the analysis succeeds;
      every other outcome is one event that finishes the stream. */
  lemma DailyAnalysisOutcomes(date: string, stored: seq<MinioStorage.Fields>, dumps: seq<MinioStorage.Fields> -> string,
                              chain: string -> Result<string, string>)
    ensures var es := DailyAnalysis(date, stored, dumps, chain);
      && |es| >= 1 && es[|es| - 1].finish == Stop
      && (DateShaped(date) && stored != [] && chain(dumps(stored)).Ok? ==>
            es == Streamed(chain(dumps(stored)).value, ReportThread, Reporter))
      && (!(DateShaped(date) && stored != [] && chain(dumps(stored)).Ok?) ==>
            |es| == 1 && es[0].Message? && es[0].threadId == ErrorThread)
  {
    if DateShaped(date) && stored != [] && chain(dumps(stored)).Ok? {
      StreamedShape(chain(dumps(stored)).value, ReportThread, Reporter);
    }
  }

  // ---------------------------------------------------------------------
  // Tagging crawled articles with their query
  // ---------------------------------------------------------------------

  const QueryKeyword := "query_keyword"

  /** Each dict with its query keyword set. */
  function Tagged(fs: seq<MinioStorage.Fields>, keyword: string): (r: seq<MinioStorage.Fields>)
    ensures |r| == |fs| && forall k :: 0 <= k < |fs| ==> r[k] == fs[k][QueryKeyword := MinioStorage.Str(keyword)]
  {
    seq(|fs|, k requires 0 <= k < |fs| => fs[k][QueryKeyword := MinioStorage.Str(keyword)])
  }

  /** The keyword does not move an article's key. */
  lemma TaggedKeys(fs: seq<MinioStorage.Fields>, keyword: string, clocks: nat -> MinioStorage.Clock, md5: string -> string)
    ensures MinioStorage.BatchKeys(Tagged(fs, keyword), clocks, md5) == MinioStorage.BatchKeys(fs, clocks, md5)
  {
    var tagged := Tagged(fs, keyword);
    forall i | 0 <= i < |fs|
      ensures MinioStorage.ObjectKey(tagged[i], clocks(i), md5) == MinioStorage.ObjectKey(fs[i], clocks(i), md5)
    {
      MinioStorage.KeyDependsOnTitleAndTime(tagged[i], fs[i], clocks(i), clocks(i), md5);
    }
  }

  /** Saving tagged articles: every dict left behind carries the keyword
      and the rest of what it held, and the count is the number of their
      keys not yet in the store, as without the keyword. */
  lemma SavedTagged(b: MinioStorage.Bucket, fs: seq<MinioStorage.Fields>, keyword: string,
                    clocks: nat -> MinioStorage.Clock, md5: string -> string)
    requires b.Valid()
    ensures var r := MinioStorage.SaveAll(b, Tagged(fs, keyword), clocks, md5);
      && r.count == |MinioStorage.KeysOf(fs, clocks, md5) - b.objects.Keys|
      && forall k :: 0 <= k < |fs| ==> KeepsTag(r.fields[k], fs[k], keyword)
  {
    var tagged := Tagged(fs, keyword);
    var r := MinioStorage.SaveAll(b, tagged, clocks, md5);
    MinioStorage.SaveAllCount(b, tagged, clocks, md5);
    TaggedKeys(fs, keyword, clocks, md5);
    MinioStorage.SaveAllStamps(b, tagged, |tagged|, clocks, md5);
    forall k | 0 <= k < |fs|
      ensures KeepsTag(r.fields[k], fs[k], keyword)
    {
      assert MinioStorage.StampedOrSame(r.fields[k], tagged[k], clocks(k).iso);
    }
  }

  /** `g` holds the keyword and every other entry of `f` but the save stamp. */
  predicate KeepsTag(g: MinioStorage.Fields, f: MinioStorage.Fields, keyword: string) {
    && QueryKeyword in g && g[QueryKeyword] == MinioStorage.Str(keyword)
    && forall key :: key in f && key != QueryKeyword && key != "saved_at" ==> key in g && g[key] == f[key]
  }

  /** The dicts of some articles, as crawl_and_extract reports them. */
  function RowDicts(rows: seq<SougouCrawl.ArticleView>): (r: seq<MinioStorage.Fields>)
    ensures |r| == |rows| && forall k :: 0 <= k < |rows| ==> r[k] == SougouCrawl.ArticleDict(rows[k])
  {
    seq(|rows|, k requires 0 <= k < |rows| => SougouCrawl.ArticleDict(rows[k]))
  }

  /** New dicts, one per entry of `fs`. */
  method NewDocuments(fs: seq<MinioStorage.Fields>) returns (docs: seq<MinioStorage.Document>)
    ensures MinioStorage.FieldsOf(docs) == fs
    ensures forall k :: 0 <= k < |docs| ==> fresh(docs[k])
    ensures forall i, j :: 0 <= i < j < |docs| ==> docs[i] != docs[j]
  {
    docs := [];
    var i := 0;
    while i < |fs|
      invariant i <= |fs| && |docs| == i
      invariant forall k :: 0 <= k < i ==> fresh(docs[k]) && docs[k].fields == fs[k]
      invariant forall a, c :: 0 <= a < c < i ==> docs[a] != docs[c]
    {
      var d := new MinioStorage.Document(fs[i]);
      docs := docs + [d];
      i := i + 1;
    }
    MinioStorage.FieldsOfIs(docs, fs);
  }

  /** WechatArticleFetcher: the store it reads and writes. */
  class ArticleFetcher {
    const storage: MinioStorage.ArticleStorage

    constructor(storage: MinioStorage.ArticleStorage)
      ensures this.storage == storage
    {
      this.storage := storage;
    }

    /** fetch_articles_by_date: the day's articles, newest first, at most
        TopK. */
    method FetchArticlesByDate(date: string) returns (articles: seq<MinioStorage.Fields>)
      requires storage.Valid()
      ensures articles == ArticlesOn(storage.bucket, date)
    {
      articles := storage.GetArticlesByDate(Some(date), Some(date), Some(TopK));
    }

    /** The loop of save_crawled_articles: set the keyword on every dict. */
    method TagArticles(articles: seq<MinioStorage.Document>, keyword: string)
      requires forall i, j :: 0 <= i < j < |articles| ==> articles[i] != articles[j]
      modifies articles
      ensures MinioStorage.FieldsOf(articles) == Tagged(old(MinioStorage.FieldsOf(articles)), keyword)
    {
      ghost var fs := MinioStorage.FieldsOf(articles);
      var i := 0;
      while i < |articles|
        invariant i <= |articles|
        invariant forall k :: 0 <= k < i ==> articles[k].fields == fs[k][QueryKeyword := MinioStorage.Str(keyword)]
        invariant forall k :: i <= k < |articles| ==> articles[k].fields == fs[k]
      {
        articles[i].fields := articles[i].fields[QueryKeyword := MinioStorage.Str(keyword)];
        i := i + 1;
      }
      MinioStorage.FieldsOfIs(articles, Tagged(fs, keyword));
    }

    /** save_crawled_articles: tag every dict with the query, then save
        them all; the result is the number saved. */
    method SaveCrawledArticles(articles: seq<MinioStorage.Document>, keyword: string,
                               clocks: nat -> MinioStorage.Clock, md5: string -> string) returns (count: nat)
      requires storage.Valid()
      requires forall i, j :: 0 <= i < j < |articles| ==> articles[i] != articles[j]
      modifies articles, storage
      ensures storage.Valid()
      ensures var r := MinioStorage.SaveAll(old(storage.bucket), Tagged(old(MinioStorage.FieldsOf(articles)), keyword), clocks, md5);
        storage.bucket == r.bucket && count == r.count && MinioStorage.FieldsOf(articles) == r.fields
    {
      TagArticles(articles, keyword);
      count := storage.SaveArticles(articles, clocks, md5);
    }
  }

  /** WechatAnalyzer: the fetcher and the analysis chain (the language
      model run on a prompt built from a text; Err is the message of the
      exception it raises). */
  class Analyzer {
    const fetcher: ArticleFetcher
    const chain: string -> Result<string, string>

    constructor(fetcher: ArticleFetcher, chain: string -> Result<string, string>)
      ensures this.fetcher == fetcher && this.chain == chain
    {
      this.fetcher := fetcher;
      this.chain := chain;
    }

    /** analyze_articles_stream_generator: the frames it yields. */
    method AnalyzeArticlesStream(date: string, dumps: seq<MinioStorage.Fields> -> string, encode: Event -> string)
      returns (frames: seq<string>)
      requires fetcher.storage.Valid()
      ensures frames == Frames(DailyAnalysis(date, ArticlesOn(fetcher.storage.bucket, date), dumps, chain), encode)
    {
      if !DateShaped(date) {
        return [Frame(encode(DateError(date)))];
      }
      var articles := fetcher.FetchArticlesByDate(date);
      if articles == [] {
        return [Frame(encode(NoArticlesError(date)))];
      }
      var result := chain(dumps(articles));
      if result.Err? {
        return [Frame(encode(AnalysisError(result.error)))];
      }
      frames := StreamChunks(result.value, ReportThread, Reporter, encode);
    }
  }

  // ---------------------------------------------------------------------
  // Crawl, then analyse (crawl_and_analyze)
  // ---------------------------------------------------------------------

  /** One entry of articles_for_analysis. */
  datatype AnalysisItem = AnalysisItem(articleIdx: nat, title: string, summaryContent: string, pubName: string,
                                       publishDate: string, articleUrl: string)

  /** publish_time[:10], or "" without a publish time. */
  function PublishDate(time: string): (r: string)
    ensures r <= time && |r| == if |time| < 10 then |time| else 10
  {
    if time == "" then "" else MinioStorage.Prefix(time, 10)
  }

  /** real_url when it is set, else sogou_url. */
  function ArticleUrl(v: SougouCrawl.ArticleView): string {
    if v.realUrl != "" then v.realUrl else v.sogouUrl
  }

  /** articles_for_analysis: the rows numbered from 1, in order. */
  function ForAnalysis(rows: seq<SougouCrawl.ArticleView>): (r: seq<AnalysisItem>)
    ensures |r| == |rows|
    ensures forall k :: 0 <= k < |rows| ==>
      && r[k].articleIdx == k + 1 && r[k].title == rows[k].title
      && r[k].summaryContent == rows[k].summary && r[k].pubName == rows[k].source
      && r[k].publishDate == PublishDate(rows[k].publishTime)
  {
    seq(|rows|, k requires 0 <= k < |rows| =>
      AnalysisItem(k + 1, rows[k].title, rows[k].summary, rows[k].source, PublishDate(rows[k].publishTime),
                   ArticleUrl(rows[k])))
  }

  /** The request of crawl_and_analyze. */
  datatype AnalyzeRequest = AnalyzeRequest(query: string, page: int, saveToDb: bool)

  /** The crawl it runs: real URLs and contents, no time bounds. */
  function CrawlOf(req: AnalyzeRequest): SougouCrawl.CrawlRequest {
    SougouCrawl.CrawlRequest(req.query, req.page, true, true, None, None)
  }

  const CrawlThread := "crawl-analysis"
  const CrawlAgent := "crawler_analyzer"
  const NothingFound := Failure("未找到相关文章", None)

  function CrawlAnalysisError(e: string): Event {
    Failure("分析过程中出现错误: " + e, Stop)
  }

  /** The events of generate_analysis after the crawl. */
  function CrawlAnalysis(report: SougouCrawl.CrawlReport, dumpItems: seq<AnalysisItem> -> string,
                         chain: string -> Result<string, string>): seq<Event>
  {
    if !report.success || report.data == [] then [NothingFound]
    else
      match chain(dumpItems(ForAnalysis(report.data)))
      case Err(e) => [CrawlAnalysisError(e)]
      case Ok(result) => Streamed(result, CrawlThread, CrawlAgent)
  }

  /** Whether generate_analysis saves the crawled rows. */
  predicate SavesRows(report: SougouCrawl.CrawlReport, req: AnalyzeRequest) {
    report.success && report.data != [] && req.saveToDb
  }

  /** The bucket after generate_analysis: the crawl's own saves, then,
      when asked, the tagged rows at the clocks `saveClocks`. */
  function CrawlAnalysisBucket(b: MinioStorage.Bucket, web: SougouCrawl.Web, req: AnalyzeRequest,
                               crawlTimes: nat -> string, offset: int, clocks: nat -> MinioStorage.Clock,
                               saveClocks: nat -> MinioStorage.Clock, md5: string -> string): (r: MinioStorage.Bucket)
    requires b.Valid()
    ensures r.Valid()
  {
    var crawled := MinioStorage.SaveAll(b, SougouCrawl.CrawlSaves(web, CrawlOf(req), crawlTimes, offset), clocks, md5).bucket;
    var report := SougouCrawl.Crawl(web, CrawlOf(req), crawlTimes, offset);
    if report.Ok? && SavesRows(report.value, req) then
      MinioStorage.SaveAll(crawled, Tagged(RowDicts(report.value.data), req.query), saveClocks, md5).bucket
    else crawled
  }

  /** save_to_db in generate_analysis: new dicts for the rows, saved with
      the query keyword. */
  method SaveRows(fetcher: ArticleFetcher, rows: seq<SougouCrawl.ArticleView>, query: string,
                  saveClocks: nat -> MinioStorage.Clock, md5: string -> string)
    requires fetcher.storage.Valid()
    modifies fetcher.storage
    ensures fetcher.storage.Valid()
    ensures fetcher.storage.bucket
      == MinioStorage.SaveAll(old(fetcher.storage.bucket), Tagged(RowDicts(rows), query), saveClocks, md5).bucket
  {
    var docs := NewDocuments(RowDicts(rows));
    var saved := fetcher.SaveCrawledArticles(docs, query, saveClocks, md5);
  }

  /** Saving the rows after the crawl changes no object already stored,
      in particular none the crawl itself stored with the full text: the
      200-character previews never replace it. */
  lemma RowsKeepStored(b: MinioStorage.Bucket, web: SougouCrawl.Web, req: AnalyzeRequest,
                       crawlTimes: nat -> string, offset: int, clocks: nat -> MinioStorage.Clock,
                       saveClocks: nat -> MinioStorage.Clock, md5: string -> string)
    requires b.Valid()
    ensures var crawled := MinioStorage.SaveAll(b, SougouCrawl.CrawlSaves(web, CrawlOf(req), crawlTimes, offset), clocks, md5).bucket;
      var after := CrawlAnalysisBucket(b, web, req, crawlTimes, offset, clocks, saveClocks, md5);
      forall k :: k in crawled.objects ==> k in after.objects && after.objects[k] == crawled.objects[k]
  {
    var crawled := MinioStorage.SaveAll(b, SougouCrawl.CrawlSaves(web, CrawlOf(req), crawlTimes, offset), clocks, md5).bucket;
    var report := SougouCrawl.Crawl(web, CrawlOf(req), crawlTimes, offset);
    if report.Ok? && SavesRows(report.value, req) {
      var rows := Tagged(RowDicts(report.value.data), req.query);
      MinioStorage.SaveAllKeeps(crawled, rows, |rows|, saveClocks, md5);
    }
  }

  /** Each analysis item is the numbered row it comes from; its link is
      the real URL exactly for the articles whose resolution succeeded. */
  lemma AnalysisItems(web: SougouCrawl.Web, req: AnalyzeRequest, crawlTimes: nat -> string, offset: int)
    requires SougouCrawl.Crawl(web, CrawlOf(req), crawlTimes, offset).Ok?
    ensures var rows := SougouCrawl.Crawl(web, CrawlOf(req), crawlTimes, offset).value.data;
      var items := ForAnalysis(rows);
      forall k :: 0 <= k < |rows| ==>
        items[k] == AnalysisItem(k + 1, rows[k].title, rows[k].summary, rows[k].source,
                                 MinioStorage.Prefix(rows[k].publishTime, 10),
                                 if rows[k].success then rows[k].realUrl else rows[k].sogouUrl)
  {
    SougouCrawl.CrawlRealUrls(web, CrawlOf(req), crawlTimes, offset);
  }

  /** generate_analysis of crawl_and_analyze: the frames it yields, or the
      error the crawl raises. */
  method CrawlAndAnalyze(analyzer: Analyzer, web: SougouCrawl.Web, req: AnalyzeRequest,
                         crawlTimes: nat -> string, offset: int, clocks: nat -> MinioStorage.Clock,
                         saveClocks: nat -> MinioStorage.Clock, md5: string -> string,
                         dumpItems: seq<AnalysisItem> -> string, encode: Event -> string)
    returns (r: Result<seq<string>, string>)
    requires analyzer.fetcher.storage.Valid()
    modifies analyzer.fetcher.storage
    ensures analyzer.fetcher.storage.Valid()
    ensures var report := SougouCrawl.Crawl(web, CrawlOf(req), crawlTimes, offset);
      && (report.Err? ==> r == Err(report.error))
      && (report.Ok? ==> r == Ok(Frames(CrawlAnalysis(report.value, dumpItems, analyzer.chain), encode)))
    ensures analyzer.fetcher.storage.bucket
      == CrawlAnalysisBucket(old(analyzer.fetcher.storage.bucket), web, req, crawlTimes, offset, clocks, saveClocks, md5)
  {
    var storage := analyzer.fetcher.storage;
    var crawl := SougouCrawl.CrawlAndExtract(web, storage, CrawlOf(req), crawlTimes, offset, clocks, md5);
    if crawl.Err? {
      return Err(crawl.error);
    }
    var report := crawl.value;
    if !report.success || report.data == [] {
      FramesOne(NothingFound, encode);
      return Ok([Frame(encode(NothingFound))]);
    }
    if req.saveToDb {
      SaveRows(analyzer.fetcher, report.data, req.query, saveClocks, md5);
    }
    var frames := AnalysisFrames(report, dumpItems, analyzer.chain, encode);
    return Ok(frames);
  }

  /** The analysis part of generate_analysis, once rows were found. */
  method AnalysisFrames(report: SougouCrawl.CrawlReport, dumpItems: seq<AnalysisItem> -> string,
                        chain: string -> Result<string, string>, encode: Event -> string)
    returns (frames: seq<string>)
    requires report.success && report.data != []
    ensures frames == Frames(CrawlAnalysis(report, dumpItems, chain), encode)
  {
    var result := chain(dumpItems(ForAnalysis(report.data)));
    if result.Err? {
      FramesOne(CrawlAnalysisError(result.error), encode);
      return [Frame(encode(CrawlAnalysisError(result.error)))];
    }
    frames := StreamChunks(result.value, CrawlThread, CrawlAgent, encode);
  }
}
