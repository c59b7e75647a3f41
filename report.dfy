/** The result of a dictionary lookup and its rendering as the text report
    printed to the terminal. */
module Report {
  import opened Text

  /** One phonetic entry: a label such as a region name, and the bracketed
      transcription. */
  datatype Pronounce = Pronounce(name: string, phonetic: string)

  /** Everything a lookup produces, each list in page order. */
  datatype Result = Result(
    title: string,
    pronounceList: seq<Pronounce>,
    translates: seq<string>,
    webTranslates: seq<string>,
    webPhrases: seq<string>,
    origin: string)

  /** The zero value of Result. */
  const EmptyResult := Result("", [], [], [], [], "")

  /** The horizontal line that closes every block of the report. */
  const Delimiter := "-----------------------"

  /** Headings of the two web blocks, each with its short underline. */
  const WebTranslationsHeading := "Web Translations\n----\n"
  const WebPhrasesHeading := "Web Phrases\n----\n"

  /** Pronounce.String: the label immediately followed by the transcription,
      with no separator between them. */
  function PronounceText(p: Pronounce): (s: string)
    ensures |s| == |p.name| + |p.phonetic|
    ensures s[..|p.name|] == p.name && s[|p.name|..] == p.phonetic
  {
    p.name + p.phonetic
  }

  function PronounceTexts(ps: seq<Pronounce>): (ts: seq<string>)
    ensures |ts| == |ps|
    ensures forall i :: 0 <= i < |ps| ==> ts[i] == PronounceText(ps[i])
  {
    seq(|ps|, i requires 0 <= i < |ps| => PronounceText(ps[i]))
  }

  /** The title between two delimiter lines. */
  function Header(title: string): string
  {
    Delimiter + "\n" + title + "\n" + Delimiter + "\n"
  }

  /** A block of one line per item, closed by a delimiter line; nothing at
      all when there are no items. */
  function LinesBlock(items: seq<string>): (b: string)
    ensures b == [] <==> items == []
  {
    if items == [] then "" else Terminated(items) + Delimiter + "\n"
  }

  /** A labelled block whose items are written verbatim, closed by a
      delimiter line; nothing at all when there are no items. */
  function LabelledBlock(heading: string, items: seq<string>): (b: string)
    ensures b == [] <==> items == []
  {
    if items == [] then "" else heading + Join(items, "") + Delimiter + "\n"
  }

  /** The origin URL and a closing delimiter with no newline after it;
      nothing when there is no origin. */
  function Footer(origin: string): (b: string)
    ensures b == [] <==> origin == []
  {
    if origin == "" then "" else origin + "\n" + Delimiter
  }

  /** The report, block by block in its fixed order. */
  function Render(r: Result): string
  {
    Header(r.title)
    + LinesBlock(PronounceTexts(r.pronounceList))
    + LinesBlock(r.translates)
    + LabelledBlock(WebTranslationsHeading, r.webTranslates)
    + LabelledBlock(WebPhrasesHeading, r.webPhrases)
    + Footer(r.origin)
  }

  /** Writes the lines block of `items` after `out`: each item and a
      newline, then the delimiter line; nothing when there are no items. */
  method WriteLinesBlock(out: string, items: seq<string>) returns (res: string)
    ensures res == out + LinesBlock(items)
  {
    res := out;
    if |items| > 0 {
      var i := 0;
      while i < |items|
        invariant 0 <= i <= |items|
        invariant res == out + Terminated(items[..i])
      {
        assert items[..i + 1] == items[..i] + [items[i]];
        TerminatedAppend(items[..i], [items[i]]);
        assert Terminated([items[i]]) == items[i] + "\n";
        ghost var prev := res;
        res := res + items[i];
        res := res + "\n";
        assert res == prev + (items[i] + "\n");
        i := i + 1;
      }
      assert items[..i] == items;
      res := res + Delimiter + "\n";
    }
  }

  /** Writes the labelled block of `items` after `out`: the heading, the
      items verbatim, then the delimiter line; nothing when there are no
      items. */
  method WriteLabelledBlock(out: string, heading: string, items: seq<string>) returns (res: string)
    ensures res == out + LabelledBlock(heading, items)
  {
    res := out;
    if |items| > 0 {
      res := res + heading;
      var i := 0;
      while i < |items|
        invariant 0 <= i <= |items|
        invariant res == (out + heading) + Join(items[..i], "")
      {
        assert items[..i + 1] == items[..i] + [items[i]];
        JoinAppendOne(items[..i], items[i], "");
        assert Join(items[..i + 1], "") == Join(items[..i], "") + items[i];
        res := res + items[i];
        i := i + 1;
      }
      assert items[..i] == items;
      res := res + Delimiter + "\n";
      assert res == out + (heading + Join(items, "") + Delimiter + "\n");
    }
  }

  /** Result.String: writes the report block by block into one buffer. */
  method RenderReport(r: Result) returns (out: string)
    ensures out == Render(r)
  {
    out := Delimiter + "\n";
    out := out + r.title;
    out := out + "\n" + Delimiter + "\n";
    var texts := seq(|r.pronounceList|, i requires 0 <= i < |r.pronounceList| => PronounceText(r.pronounceList[i]));
    assert texts == PronounceTexts(r.pronounceList);
    out := WriteLinesBlock(out, texts);
    out := WriteLinesBlock(out, r.translates);
    out := WriteLabelledBlock(out, WebTranslationsHeading, r.webTranslates);
    out := WriteLabelledBlock(out, WebPhrasesHeading, r.webPhrases);
    if r.origin != "" {
      out := out + r.origin;
      out := out + "\n" + Delimiter;
    }
  }

  /** Every report opens with the title block. */
  lemma RenderStartsWithHeader(r: Result)
    ensures |Header(r.title)| <= |Render(r)|
    ensures Render(r)[..|Header(r.title)|] == Header(r.title)
  {
  }

  /** The report is the bare title block exactly when there is nothing to
      show: no entry in any list and no origin. */
  lemma RenderIsHeaderOnly(r: Result)
    ensures Render(r) == Header(r.title)
        <==> r.pronounceList == [] && r.translates == [] && r.webTranslates == []
             && r.webPhrases == [] && r.origin == ""
  {
    if Render(r) == Header(r.title) {
      assert |PronounceTexts(r.pronounceList)| == |r.pronounceList|;
    }
  }

  /** The report ends with a newline exactly when it has no origin footer;
      the footer's closing delimiter is not followed by a newline. */
  lemma RenderEndsWithNewline(r: Result)
    ensures |Render(r)| > 0
    ensures Render(r)[|Render(r)| - 1] == '\n' <==> r.origin == ""
  {
    var body := Header(r.title)
      + LinesBlock(PronounceTexts(r.pronounceList))
      + LinesBlock(r.translates)
      + LabelledBlock(WebTranslationsHeading, r.webTranslates)
      + LabelledBlock(WebPhrasesHeading, r.webPhrases);
    assert Render(r) == body + Footer(r.origin);
    assert body[|body| - 1] == '\n';
  }
}
