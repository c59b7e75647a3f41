/** The Japanese rule, read from the first translation container only:
    first its numbered senses, then its plain senses, each followed by its
    examples, an example taking two lines (the joined title and the
    indented sentence). */
module Japanese {
  import opened Text
  import opened Lines

  /** One example of a plain sense: the text of its first paragraph (empty
      when it has none) and the text of its example sentence. */
  datatype Example = Example(firstParagraph: string, sentence: string)

  /** A plain sense: the text of its sense title and its examples. */
  datatype Sense = Sense(title: string, examples: seq<Example>)

  /** One translation container: the sense-title texts of the items of its
      numbered list, and the items of its plain list. */
  datatype SenseLists = SenseLists(ordered: seq<string>, unordered: seq<Sense>)

  /** The blanks that indent an example sentence. */
  const ExampleIndent := "     "

  /** `%d. %s` of a 1-based position and a sense title. */
  function OrderedLine(n: nat, title: string): string
  {
    DecimalString(n) + ". " + title
  }

  /** The numbered senses: the non-blank titles, trimmed, each numbered by
      its position among all items, so blank items leave gaps. */
  function OrderedLines(titles: seq<string>): seq<string>
  {
    if titles == [] then []
    else
      var n := |titles| - 1;
      var t := TrimSpace(titles[n]);
      OrderedLines(titles[..n]) + (if |t| > 0 then [OrderedLine(n + 1, t)] else [])
  }

  /** An example's title: the non-empty trimmed lines of its first
      paragraph, concatenated without a separator. */
  function ExampleTitle(paragraph: string): string
  {
    Join(NormalizedLines(paragraph), "")
  }

  function ExampleLines(ex: Example): seq<string>
  {
    [ExampleTitle(ex.firstParagraph), ExampleIndent + TrimSpace(ex.sentence)]
  }

  function ExamplesLines(examples: seq<Example>): seq<string>
  {
    if examples == [] then []
    else ExamplesLines(examples[..|examples| - 1]) + ExampleLines(examples[|examples| - 1])
  }

  /** A plain sense: its trimmed title, even when empty, then its examples. */
  function SenseLines(s: Sense): seq<string>
  {
    [TrimSpace(s.title)] + ExamplesLines(s.examples)
  }

  function UnorderedLines(senses: seq<Sense>): seq<string>
  {
    if senses == [] then []
    else UnorderedLines(senses[..|senses| - 1]) + SenseLines(senses[|senses| - 1])
  }

  /** The rule's lines: those of the first container, numbered senses
      before plain ones; nothing when the page has no container. */
  function JapaneseRule(containers: seq<SenseLists>): seq<string>
  {
    if containers == [] then []
    else OrderedLines(containers[0].ordered) + UnorderedLines(containers[0].unordered)
  }

  /** The scan of an example's first paragraph: its lines trimmed, the
      empty ones dropped, the rest concatenated. */
  method ScanExampleTitle(paragraph: string) returns (title: string)
    ensures title == ExampleTitle(paragraph)
  {
    var str := TrimSpace(paragraph);
    var raw := SplitLines(str);
    ghost var lines := TrimAll(raw);
    var parts := [];
    var k := 0;
    while k < |raw|
      invariant 0 <= k <= |raw|
      invariant parts == KeepNonEmpty(lines[..k])
    {
      var content := TrimSpace(raw[k]);
      assert lines[..k + 1][..k] == lines[..k];
      if |content| > 0 {
        parts := parts + [content];
      }
      k := k + 1;
    }
    assert lines[..k] == lines;
    title := Join(parts, "");
  }

  /** Appends the two lines of one example. */
  method AppendExample(acc: seq<string>, ex: Example) returns (res: seq<string>)
    ensures res == acc + ExampleLines(ex)
  {
    var title := ScanExampleTitle(ex.firstParagraph);
    res := acc + [title];
    res := res + [ExampleIndent + TrimSpace(ex.sentence)];
  }

  /** Appends the lines of one plain sense: its title, then two lines per
      example. */
  method AppendSense(acc: seq<string>, s: Sense) returns (res: seq<string>)
    ensures res == acc + SenseLines(s)
  {
    var head := acc + [TrimSpace(s.title)];
    res := head;
    var j := 0;
    ExamplesLinesEmpty(s.examples);
    while j < |s.examples|
      invariant 0 <= j <= |s.examples|
      invariant res == head + ExamplesLines(s.examples[..j])
    {
      ExamplesLinesSnoc(s.examples, j);
      res := AppendExample(res, s.examples[j]);
      AppendAssoc(head, ExamplesLines(s.examples[..j]), ExampleLines(s.examples[j]));
      j := j + 1;
    }
    assert s.examples[..j] == s.examples;
    AppendAssoc(acc, [TrimSpace(s.title)], ExamplesLines(s.examples));
  }

  lemma ExamplesLinesEmpty(examples: seq<Example>)
    ensures ExamplesLines(examples[..0]) == []
  {
    assert examples[..0] == [];
  }

  lemma ExamplesLinesSnoc(examples: seq<Example>, j: nat)
    requires j < |examples|
    ensures ExamplesLines(examples[..j + 1]) == ExamplesLines(examples[..j]) + ExampleLines(examples[j])
  {
    assert examples[..j + 1][..j] == examples[..j];
  }

  /** The numbered list of extractJapTranslate: each item's title trimmed
      and, when not empty, numbered by the item's 1-based position. */
  method ScanOrdered(titles: seq<string>) returns (lines: seq<string>)
    ensures lines == OrderedLines(titles)
  {
    lines := [];
    var i := 0;
    while i < |titles|
      invariant 0 <= i <= |titles|
      invariant lines == OrderedLines(titles[..i])
    {
      var str := TrimSpace(titles[i]);
      OrderedLinesSnoc(titles, i);
      if |str| > 0 {
        lines := lines + [DecimalString(i + 1) + ". " + str];
      }
      i := i + 1;
    }
    assert titles[..i] == titles;
  }

  lemma OrderedLinesSnoc(titles: seq<string>, i: nat)
    requires i < |titles|
    ensures var t := TrimSpace(titles[i]);
            OrderedLines(titles[..i + 1])
            == OrderedLines(titles[..i]) + (if |t| > 0 then [OrderedLine(i + 1, t)] else [])
  {
    assert titles[..i + 1][..i] == titles[..i];
  }

  /** The plain list of extractJapTranslate, appended after `acc`. */
  method AppendUnordered(acc: seq<string>, senses: seq<Sense>) returns (res: seq<string>)
    ensures res == acc + UnorderedLines(senses)
  {
    res := acc;
    var i := 0;
    UnorderedLinesEmpty(senses);
    while i < |senses|
      invariant 0 <= i <= |senses|
      invariant res == acc + UnorderedLines(senses[..i])
    {
      UnorderedLinesSnoc(senses, i);
      res := AppendSense(res, senses[i]);
      AppendAssoc(acc, UnorderedLines(senses[..i]), SenseLines(senses[i]));
      i := i + 1;
    }
    assert senses[..i] == senses;
  }

  lemma UnorderedLinesEmpty(senses: seq<Sense>)
    ensures UnorderedLines(senses[..0]) == []
  {
    assert senses[..0] == [];
  }

  lemma UnorderedLinesSnoc(senses: seq<Sense>, i: nat)
    requires i < |senses|
    ensures UnorderedLines(senses[..i + 1]) == UnorderedLines(senses[..i]) + SenseLines(senses[i])
  {
    assert senses[..i + 1][..i] == senses[..i];
  }

  /** extractJapTranslate: only the first container is read, its numbered
      list before its plain list. */
  method ExtractJapTranslate(containers: seq<SenseLists>) returns (translates: seq<string>)
    ensures translates == JapaneseRule(containers)
  {
    translates := [];
    if |containers| > 0 {
      var c := containers[0];
      translates := ScanOrdered(c.ordered);
      translates := AppendUnordered(translates, c.unordered);
    }
  }

  /** Number of items whose trimmed title is not empty. */
  function CountNonBlank(titles: seq<string>): nat
  {
    if titles == [] then 0
    else CountNonBlank(titles[..|titles| - 1]) + (if TrimSpace(titles[|titles| - 1]) != "" then 1 else 0)
  }

  /** One numbered line per non-blank item. */
  lemma {:induction false} OrderedLinesCount(titles: seq<string>)
    ensures |OrderedLines(titles)| == CountNonBlank(titles)
  {
    if titles != [] {
      OrderedLinesCount(titles[..|titles| - 1]);
    }
  }

  /** A non-blank item k gives the line numbered k + 1 holding its trimmed
      title, placed after the lines of the non-blank items before it. */
  lemma {:induction false} OrderedLineAt(titles: seq<string>, k: nat)
    requires k < |titles| && TrimSpace(titles[k]) != ""
    ensures CountNonBlank(titles[..k]) < |OrderedLines(titles)|
    ensures OrderedLines(titles)[CountNonBlank(titles[..k])] == OrderedLine(k + 1, TrimSpace(titles[k]))
  {
    var n := |titles| - 1;
    OrderedLinesCount(titles[..n]);
    if k == n {
      assert titles[..k] == titles[..n];
    } else {
      assert titles[..n][..k] == titles[..k];
      assert titles[..n][k] == titles[k];
      OrderedLineAt(titles[..n], k);
    }
  }

  /** The number in front of a numbered line reads back as its position. */
  lemma OrderedLineNumber(n: nat, title: string)
    ensures var d := DecimalString(n);
            var line := OrderedLine(n, title);
            |d| + 2 <= |line|
            && line[..|d|] == d && AllDigits(d) && ParseDecimal(d) == n
            && line[|d|..|d| + 2] == ". " && line[|d| + 2..] == title
  {
    ParseDecimalString(n);
  }

  /** Number of examples of all plain senses. */
  function ExampleCount(senses: seq<Sense>): nat
  {
    if senses == [] then 0
    else ExampleCount(senses[..|senses| - 1]) + |senses[|senses| - 1].examples|
  }

  lemma {:induction false} ExamplesLinesCount(examples: seq<Example>)
    ensures |ExamplesLines(examples)| == 2 * |examples|
  {
    if examples != [] {
      ExamplesLinesCount(examples[..|examples| - 1]);
    }
  }

  /** Every plain sense gives one line, and every example two more. */
  lemma {:induction false} UnorderedLinesCount(senses: seq<Sense>)
    ensures |UnorderedLines(senses)| == |senses| + 2 * ExampleCount(senses)
  {
    if senses != [] {
      UnorderedLinesCount(senses[..|senses| - 1]);
      ExamplesLinesCount(senses[|senses| - 1].examples);
    }
  }

  /** An example title is one line: its paragraph's lines are concatenated
      without their line breaks. */
  lemma ExampleTitleOneLine(paragraph: string)
    ensures '\n' !in ExampleTitle(paragraph)
  {
    JoinKeepsOut(NormalizedLines(paragraph), "", '\n');
  }

  /** A paragraph written as trimmed non-empty lines gives those lines
      concatenated. */
  lemma ExampleTitleOfLines(lines: seq<string>)
    requires forall k :: 0 <= k < |lines| ==> NormalLine(lines[k])
    ensures ExampleTitle(Join(lines, "\n")) == Join(lines, "")
  {
    NormalizedLinesIdempotent(lines);
  }
}
