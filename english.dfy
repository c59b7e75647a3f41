/** The English rule: one line per word group of the translation list, the
    group's first span (its part of speech) in a padded column, then the
    texts of its content titles joined with "; ". */
module English {
  import opened Text
  import opened Lines

  /** A word group: the texts of the spans inside it, in page order (a
      missing span reads as empty text), and, for each content-title span,
      the text of the links inside it. */
  datatype WordGroup = WordGroup(spans: seq<string>, titles: seq<string>)

  const TitleSeparator := "; "

  /** The trimmed text of the group's first span, empty when it has none. */
  function Marker(g: WordGroup): string
  {
    TrimSpace(if g.spans == [] then "" else g.spans[0])
  }

  /** `%-8s %s` of the marker and the trimmed titles joined with "; ". */
  function GroupLine(g: WordGroup): string
  {
    Columns(Marker(g), Join(TrimAll(g.titles), TitleSeparator))
  }

  /** The rule's lines: one per word group, in page order, even for a
      group with no content title. */
  function EnglishRule(groups: seq<WordGroup>): (lines: seq<string>)
    ensures |lines| == |groups|
  {
    Map(GroupLine, groups)
  }

  /** Line k of the rule is the line of word group k. */
  lemma EnglishRuleAt(groups: seq<WordGroup>, k: nat)
    requires k < |groups|
    ensures EnglishRule(groups)[k] == GroupLine(groups[k])
  {
    MapAt(GroupLine, groups, k);
  }

  /** The inner loop of extractEngTranslate: each content title trimmed. */
  method CollectTitles(raw: seq<string>) returns (titles: seq<string>)
    ensures titles == TrimAll(raw)
  {
    titles := [];
    var j := 0;
    while j < |raw|
      invariant 0 <= j <= |raw|
      invariant titles == TrimAll(raw[..j])
    {
      assert raw[..j + 1][..j] == raw[..j];
      titles := titles + [TrimSpace(raw[j])];
      j := j + 1;
    }
    assert raw[..j] == raw;
  }

  /** extractEngTranslate: for each word group, the titles collected, then
      the line written into the shared buffer, appended, and the buffer
      reset. */
  method ExtractEngTranslate(groups: seq<WordGroup>) returns (translates: seq<string>)
    ensures translates == EnglishRule(groups)
  {
    translates := [];
    var builder := "";
    var i := 0;
    assert groups[..0] == [];
    while i < |groups|
      invariant 0 <= i <= |groups|
      invariant translates == EnglishRule(groups[..i])
      invariant builder == ""
    {
      var g := groups[i];
      var first := TrimSpace(if |g.spans| > 0 then g.spans[0] else "");
      var titles := CollectTitles(g.titles);
      var line := Columns(first, Join(titles, TitleSeparator));
      assert line == GroupLine(g);
      builder := builder + line;
      assert builder == line;
      translates := translates + [builder];
      builder := "";
      MapSnoc(GroupLine, groups, i);
      i := i + 1;
    }
    assert groups[..i] == groups;
  }

  /** A group's line can be taken apart again: its first column trims back
      to the marker, a blank follows, and what remains splits on "; " back
      into the trimmed titles (when no title holds ';'); a group without
      titles leaves nothing after the blank. */
  lemma GroupLineSplit(g: WordGroup)
    ensures var line := GroupLine(g);
            var w := HeadWidth(Marker(g));
            |line| > w
            && TrimSpace(line[..w]) == Marker(g)
            && line[w] == ' '
            && (g.titles == [] ==> line[w + 1..] == "")
            && ((g.titles != [] && forall k :: 0 <= k < |g.titles| ==> ';' !in TrimSpace(g.titles[k]))
                ==> SplitOn(line[w + 1..], TitleSeparator) == TrimAll(g.titles))
  {
    var joined := Join(TrimAll(g.titles), TitleSeparator);
    ColumnsSplit(Marker(g), joined);
    if g.titles != [] && forall k :: 0 <= k < |g.titles| ==> ';' !in TrimSpace(g.titles[k]) {
      SplitOnJoin(TrimAll(g.titles), TitleSeparator);
    }
  }

  /** For a group whose first span and titles are already trimmed, the line
      is that span padded, a blank, and the titles joined with "; ". */
  lemma GroupLineOfTrimmed(g: WordGroup)
    requires g.spans != [] && IsTrimmed(g.spans[0])
    requires forall k :: 0 <= k < |g.titles| ==> IsTrimmed(g.titles[k])
    ensures GroupLine(g) == Columns(g.spans[0], Join(g.titles, TitleSeparator))
  {
    TrimSpaceFixesTrimmed(g.spans[0]);
    TrimAllOfTrimmed(g.titles);
  }

  /** Two word groups, "n." with one title and "v." with two, give two
      lines with the markers padded to eight columns. */
  lemma TwoGroupsExample()
    ensures EnglishRule([WordGroup(["n."], ["greeting"]), WordGroup(["v."], ["greet", "salute"])])
         == ["n.       greeting", "v.       greet; salute"]
  {
    var g1 := WordGroup(["n."], ["greeting"]);
    var g2 := WordGroup(["v."], ["greet", "salute"]);
    assert [g1, g2][..1] == [g1];
    NounGroupLine();
    VerbGroupLine();
    assert EnglishRule([g1]) == [GroupLine(g1)];
  }

  lemma NounGroupLine()
    ensures GroupLine(WordGroup(["n."], ["greeting"])) == "n.       greeting"
  {
    GroupLineOfTrimmed(WordGroup(["n."], ["greeting"]));
    assert PadRight("n.", ColumnWidth) == "n.      ";
  }

  lemma VerbGroupLine()
    ensures GroupLine(WordGroup(["v."], ["greet", "salute"])) == "v.       greet; salute"
  {
    var g := WordGroup(["v."], ["greet", "salute"]);
    GroupLineOfTrimmed(g);
    assert Join(g.titles, TitleSeparator) == "greet; salute";
    assert PadRight("v.", ColumnWidth) == "v.      ";
  }
}
