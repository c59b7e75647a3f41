/** The web-translation rule: one text block per web-translation container,
    its title on the first line and every line of its first collapsible
    paragraph indented by four blanks on a line of its own. */
module WebTranslation {
  import opened Text
  import opened Lines

  /** A web-translation container: the text of its title spans and the
      text of its first collapsible paragraph (empty text when either is
      missing: such a container still yields a block). */
  datatype WebBlock = WebBlock(title: string, content: string)

  /** The indentation of a content line. */
  const ContentIndent := "    "

  function IndentAll(lines: seq<string>): (indented: seq<string>)
    ensures |indented| == |lines|
  {
    if lines == [] then []
    else IndentAll(lines[..|lines| - 1]) + [ContentIndent + lines[|lines| - 1]]
  }

  /** A block: the trimmed title, then each trimmed content line indented,
      every line closed by a newline. */
  function BlockText(b: WebBlock): string
  {
    TrimSpace(b.title) + "\n" + Terminated(IndentAll(TrimmedLines(b.content)))
  }

  /** The rule's blocks: one per container, in page order. */
  function WebTranslationRule(blocks: seq<WebBlock>): (texts: seq<string>)
    ensures |texts| == |blocks|
  {
    Map(BlockText, blocks)
  }

  lemma BodySnoc(raw: seq<string>, k: nat)
    requires k < |raw|
    ensures Terminated(IndentAll(TrimAll(raw[..k + 1])))
         == Terminated(IndentAll(TrimAll(raw[..k]))) + (ContentIndent + TrimSpace(raw[k]) + "\n")
  {
    assert raw[..k + 1][..k] == raw[..k];
    var front := IndentAll(TrimAll(raw[..k]));
    var line := ContentIndent + TrimSpace(raw[k]);
    assert IndentAll(TrimAll(raw[..k + 1])) == front + [line];
    TerminatedAppend(front, [line]);
    assert Terminated([line]) == line + "\n";
  }

  /** The three writes of one content line: indentation, line, newline. */
  method WriteContentLine(buf: string, line: string) returns (res: string)
    ensures res == buf + (ContentIndent + line + "\n")
  {
    res := buf + ContentIndent;
    res := res + line;
    res := res + "\n";
  }

  /** One container's block, built line by line in a buffer. */
  method ScanBlock(b: WebBlock) returns (text: string)
    ensures text == BlockText(b)
  {
    var head := TrimSpace(b.title) + "\n";
    var str := TrimSpace(b.content);
    var raw := SplitLines(str);
    text := head;
    var k := 0;
    assert raw[..0] == [];
    while k < |raw|
      invariant 0 <= k <= |raw|
      invariant text == head + Terminated(IndentAll(TrimAll(raw[..k])))
    {
      BodySnoc(raw, k);
      AppendAssoc(head, Terminated(IndentAll(TrimAll(raw[..k]))), ContentIndent + TrimSpace(raw[k]) + "\n");
      text := WriteContentLine(text, TrimSpace(raw[k]));
      k := k + 1;
    }
    assert raw[..k] == raw;
  }

  /** extractWebTranslate. */
  method ExtractWebTranslate(blocks: seq<WebBlock>) returns (translates: seq<string>)
    ensures translates == WebTranslationRule(blocks)
  {
    translates := [];
    var i := 0;
    assert blocks[..0] == [];
    while i < |blocks|
      invariant 0 <= i <= |blocks|
      invariant translates == WebTranslationRule(blocks[..i])
    {
      MapSnoc(BlockText, blocks, i);
      var text := ScanBlock(blocks[i]);
      translates := translates + [text];
      i := i + 1;
    }
    assert blocks[..i] == blocks;
  }

  /** Block k of the rule is the block of container k. */
  lemma WebTranslationRuleAt(blocks: seq<WebBlock>, k: nat)
    requires k < |blocks|
    ensures WebTranslationRule(blocks)[k] == BlockText(blocks[k])
  {
    MapAt(BlockText, blocks, k);
  }

  lemma {:induction false} IndentAllAt(lines: seq<string>, k: nat)
    requires k < |lines|
    ensures IndentAll(lines)[k] == ContentIndent + lines[k]
  {
    var n := |lines| - 1;
    if k < n {
      IndentAllAt(lines[..n], k);
    }
  }

  /** Indenting trimmed single lines keeps them single lines that do not
      end with a carriage return. */
  lemma IndentedLinesClean(lines: seq<string>)
    requires forall k :: 0 <= k < |lines| ==> IsTrimmed(lines[k]) && '\n' !in lines[k]
    ensures forall k :: 0 <= k < |lines| ==> '\n' !in IndentAll(lines)[k] && !EndsWithCR(IndentAll(lines)[k])
  {
    forall k | 0 <= k < |lines|
      ensures '\n' !in IndentAll(lines)[k] && !EndsWithCR(IndentAll(lines)[k])
    {
      IndentAllAt(lines, k);
      var line := lines[k];
      if line != [] {
        assert (ContentIndent + line)[|ContentIndent + line| - 1] == line[|line| - 1];
      }
    }
  }

  /** A block read back line by line gives the trimmed title and then each
      trimmed content line with its indentation, provided the title is a
      single line. */
  lemma BlockLines(b: WebBlock)
    requires '\n' !in b.title
    ensures SplitLines(BlockText(b)) == [TrimSpace(b.title)] + IndentAll(TrimmedLines(b.content))
  {
    var title := TrimSpace(b.title);
    var body := IndentAll(TrimmedLines(b.content));
    var lines := [title] + body;
    TrimSpaceKeepsOut(b.title, '\n');
    IndentedLinesClean(TrimmedLines(b.content));
    assert lines[1..] == body;
    assert Terminated(lines) == BlockText(b);
    assert forall k :: 1 <= k < |lines| ==> lines[k] == body[k - 1];
    SplitLinesOfTerminated(lines);
  }

  /** A container whose paragraph is empty or blank still yields its title
      line. */
  lemma BlankContentBlock(title: string, content: string)
    requires TrimSpace(content) == ""
    ensures BlockText(WebBlock(title, content)) == TrimSpace(title) + "\n"
  {
    assert SplitLines("") == [];
    assert TrimmedLines(content) == [];
  }
}
