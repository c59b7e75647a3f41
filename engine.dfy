/** The lookup engines: choosing an engine by name, the address of a query
    on the Youdao dictionary site, and which parts of the fetched result
    page a query reads, depending on its language, its number of words and
    whether web translations are wanted. */
module Engine {
  import opened Text
  import opened Report
  import opened Pronunciation
  import opened Definitions
  import opened English
  import opened Japanese
  import opened WebTranslation
  import opened WebPhrase

  datatype Option<T> = None | Some(value: T)

  /** A word query: the words, the language code ("chs" for Chinese,
      "eng", "jap", ...), and whether web translations are wanted. */
  datatype Query = Query(words: seq<string>, lang: string, webTrans: bool)

  /** The parts of a fetched result page that the extraction rules read,
      each in page order, as the selectors find them. */
  datatype Page = Page(
    pronounceBlocks: seq<seq<string>>,
    definitionItems: seq<string>,
    wordGroups: seq<WordGroup>,
    senseContainers: seq<SenseLists>,
    webBlocks: seq<WebBlock>,
    phraseGroups: seq<string>)

  /** The two engine implementations; the second one is a stub. */
  datatype Engine = YDEngine | GoogleEngine

  /** NewEngine: the engine registered under a name, none for any other
      name. */
  function NewEngine(name: string): (e: Option<Engine>)
    ensures e.Some? <==> name == "youdao" || name == "google"
    ensures e.Some? ==> EngineName(e.value) == name
  {
    if name == "youdao" then Some(YDEngine)
    else if name == "google" then Some(GoogleEngine)
    else None
  }

  /** The name each engine is registered under. */
  function EngineName(e: Engine): string
  {
    match e
    case YDEngine => "youdao"
    case GoogleEngine => "google"
  }

  /** Every engine is found again by its name. */
  lemma NewEngineOfName(e: Engine)
    ensures NewEngine(EngineName(e)) == Some(e)
  {
    match e
    case YDEngine =>
    case GoogleEngine => assert "google" != "youdao";
  }

  const BaseURL := "http://www.youdao.com/w/"
  const WordSeparator := "%20"
  const ChineseLang := "chs"

  /** The path segment of the language: none for Chinese. */
  function LangSegment(lang: string): string
  {
    if lang != ChineseLang then lang + "/" else ""
  }

  /** URL: the query's address on the dictionary site (the words joined by
      an encoded blank); the stub engine has no address. */
  function URL(e: Engine, q: Query): (u: string)
    ensures u == "" <==> e == GoogleEngine
    ensures e == YDEngine ==>
              |BaseURL| <= |u| && u[..|BaseURL|] == BaseURL
              && u[|BaseURL|..] == LangSegment(q.lang) + Join(q.words, WordSeparator)
  {
    match e
    case YDEngine => BaseURL + LangSegment(q.lang) + Join(q.words, WordSeparator)
    case GoogleEngine => ""
  }

  /** The report title: the words separated by blanks. */
  function Title(q: Query): string
  {
    Join(q.words, " ")
  }

  /** The translation lines a Youdao query reads: the language's own rule
      for "eng" and "jap", the plain definitions for a single Chinese word,
      nothing otherwise. */
  function TranslatesFor(q: Query, page: Page): seq<string>
  {
    if q.lang != ChineseLang then
      if q.lang == "eng" then EnglishRule(page.wordGroups)
      else if q.lang == "jap" then JapaneseRule(page.senseContainers)
      else []
    else if |q.words| == 1 then page.definitionItems
    else []
  }

  /** The result of a query once its page is fetched: the stub engine
      finds nothing; a Youdao result is titled with the words and keeps the
      query's address as its origin; pronunciations are read for a single
      Chinese word only, translations only for a single Chinese word or for
      English or Japanese, and the web parts only when asked for. */
  function Lookup(e: Engine, q: Query, page: Page): (r: Result)
    ensures e == GoogleEngine ==> r == EmptyResult
    ensures e == YDEngine ==> r.title == Title(q) && r.origin == URL(e, q) && r.origin != ""
    ensures r.pronounceList != [] ==> e == YDEngine && q.lang == ChineseLang && |q.words| == 1
    ensures r.translates != [] ==>
              e == YDEngine && ((q.lang == ChineseLang && |q.words| == 1) || q.lang == "eng" || q.lang == "jap")
    ensures r.webTranslates != [] || r.webPhrases != [] ==> e == YDEngine && q.webTrans
  {
    match e
    case GoogleEngine => EmptyResult
    case YDEngine =>
      Result(
        Title(q),
        if q.lang == ChineseLang && |q.words| == 1 then PronounceRule(page.pronounceBlocks) else [],
        TranslatesFor(q, page),
        if q.webTrans then WebTranslationRule(page.webBlocks) else [],
        if q.webTrans then WebPhraseRule(page.phraseGroups) else [],
        URL(e, q))
  }

  /** Execute, after the page is fetched: title and origin first, then the
      rules the query's language and word count select, then the web rules
      when asked for. */
  method Execute(e: Engine, q: Query, page: Page) returns (result: Result)
    ensures result == Lookup(e, q, page)
  {
    result := EmptyResult;
    if e == GoogleEngine {
      return;
    }
    result := result.(title := Join(q.words, " "));
    result := result.(origin := URL(e, q));
    if q.lang != ChineseLang {
      if q.lang == "eng" {
        var translates := ExtractEngTranslate(page.wordGroups);
        result := result.(translates := translates);
      } else if q.lang == "jap" {
        var translates := ExtractJapTranslate(page.senseContainers);
        result := result.(translates := translates);
      }
    } else if |q.words| == 1 {
      var pronounces := ExtractPronounce(page.pronounceBlocks);
      result := result.(pronounceList := pronounces);
      var translates := ExtractTranslate(page.definitionItems);
      result := result.(translates := translates);
    }
    if q.webTrans {
      var webTranslates := ExtractWebTranslate(page.webBlocks);
      result := result.(webTranslates := webTranslates);
      var webPhrases := ExtractWebPhrase(page.phraseGroups);
      result := result.(webPhrases := webPhrases);
    }
  }

  /** The stub engine has no address, finds nothing, and its report is a
      bare, empty title block. */
  lemma GoogleFindsNothing(q: Query, page: Page)
    ensures URL(GoogleEngine, q) == ""
    ensures Lookup(GoogleEngine, q, page) == EmptyResult
    ensures Render(Lookup(GoogleEngine, q, page)) == Header("")
  {
    RenderIsHeaderOnly(EmptyResult);
  }

  /** A Youdao report opens with the query's words as its title and closes
      with the query's address and a delimiter, with no newline after it. */
  lemma YouDaoReportEnds(q: Query, page: Page)
    ensures var report := Render(Lookup(YDEngine, q, page));
            |Header(Title(q))| <= |report|
            && report[..|Header(Title(q))|] == Header(Title(q))
            && report[|report| - 1] != '\n'
  {
    var r := Lookup(YDEngine, q, page);
    assert r.origin == URL(YDEngine, q);
    assert r.origin[0] == 'h';
    RenderStartsWithHeader(r);
    RenderEndsWithNewline(r);
  }

  /** Index of the first occurrence of c in s, or |s|. */
  function IndexOf(s: string, c: char): (i: nat)
    ensures i <= |s|
    ensures i < |s| ==> s[i] == c
    ensures forall k :: 0 <= k < i ==> s[k] != c
  {
    if s == [] || s[0] == c then 0 else 1 + IndexOf(s[1..], c)
  }

  /** Reads the path of a Youdao address back into its language (Chinese
      when the path has no '/') and its words. */
  function ParsePath(path: string): (string, seq<string>)
  {
    var slash := IndexOf(path, '/');
    if slash == |path| then (ChineseLang, SplitOn(path, WordSeparator))
    else (path[..slash], SplitOn(path[slash + 1..], WordSeparator))
  }

  /** Reads a Youdao address back into its language and words. */
  function ParseURL(url: string): Option<(string, seq<string>)>
  {
    if |url| < |BaseURL| || url[..|BaseURL|] != BaseURL then None
    else Some(ParsePath(url[|BaseURL|..]))
  }

  lemma PathRoundTrip(lang: string, words: seq<string>)
    requires |words| >= 1
    requires forall k :: 0 <= k < |words| ==> '%' !in words[k] && '/' !in words[k]
    requires '/' !in lang
    ensures ParsePath(LangSegment(lang) + Join(words, WordSeparator)) == (lang, words)
  {
    var joined := Join(words, WordSeparator);
    var path := LangSegment(lang) + joined;
    JoinKeepsOut(words, WordSeparator, '/');
    SplitOnJoin(words, WordSeparator);
    if lang != ChineseLang {
      IndexOfAfter(lang, '/', joined);
      assert path == lang + "/" + joined;
      assert path[..|lang|] == lang;
      assert path[|lang| + 1..] == joined;
    } else {
      assert path == joined;
      IndexOfAbsent(joined, '/');
    }
  }

  /** The address keeps the language and the words: both are read back
      from it, provided there is a word, no word holds '%' or '/', and the
      language holds no '/'. */
  lemma URLRoundTrip(q: Query)
    requires |q.words| >= 1
    requires forall k :: 0 <= k < |q.words| ==> '%' !in q.words[k] && '/' !in q.words[k]
    requires '/' !in q.lang
    ensures ParseURL(URL(YDEngine, q)) == Some((q.lang, q.words))
  {
    var path := LangSegment(q.lang) + Join(q.words, WordSeparator);
    var url := URL(YDEngine, q);
    assert url == BaseURL + path;
    assert url[..|BaseURL|] == BaseURL;
    assert url[|BaseURL|..] == path;
    PathRoundTrip(q.lang, q.words);
  }

  lemma {:induction false} IndexOfAfter(a: string, c: char, b: string)
    requires c !in a
    ensures IndexOf(a + [c] + b, c) == |a|
  {
    if a != [] {
      assert (a + [c] + b)[1..] == a[1..] + [c] + b;
      IndexOfAfter(a[1..], c, b);
    }
  }

  lemma IndexOfAbsent(s: string, c: char)
    requires c !in s
    ensures IndexOf(s, c) == |s|
  {
  }

  /** The title gives the words back when no word holds a blank. */
  lemma TitleRoundTrip(q: Query)
    requires |q.words| >= 1
    requires forall k :: 0 <= k < |q.words| ==> ' ' !in q.words[k]
    ensures SplitOn(Title(q), " ") == q.words
  {
    SplitOnJoin(q.words, " ");
  }
}
