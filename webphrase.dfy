/** The web-phrase rule: every phrase group's trimmed lines longer than one
    byte are its usages; a group with at least two usages yields one line,
    the first usage in a padded column and the others joined with "; ". */
module WebPhrase {
  import opened Text
  import opened Lines

  const UsageSeparator := "; "

  /** A usage is kept when it is longer than one byte in UTF-8, which also
      rules out the empty line. */
  predicate IsUsage(line: string)
  {
    line != "" && Utf8Len(line) > 1
  }

  function KeepUsages(lines: seq<string>): (usages: seq<string>)
    ensures |usages| <= |lines|
  {
    if lines == [] then []
    else
      var n := |lines| - 1;
      KeepUsages(lines[..n]) + (if IsUsage(lines[n]) then [lines[n]] else [])
  }

  /** The usages of one phrase group's text, in order. */
  function Usages(text: string): seq<string>
  {
    KeepUsages(TrimmedLines(text))
  }

  /** `%-8s %s\n` of the first usage and the others joined with "; ". */
  function PhraseLine(usages: seq<string>): string
    requires |usages| >= 2
  {
    Columns(usages[0], Join(usages[1..], UsageSeparator)) + "\n"
  }

  /** A group's lines: one when it has two usages or more, none otherwise. */
  function GroupLines(text: string): seq<string>
  {
    var usages := Usages(text);
    if |usages| <= 1 then [] else [PhraseLine(usages)]
  }

  /** The rule's lines, groups in page order. */
  function WebPhraseRule(groups: seq<string>): (lines: seq<string>)
    ensures |lines| <= |groups|
  {
    if groups == [] then []
    else WebPhraseRule(groups[..|groups| - 1]) + GroupLines(groups[|groups| - 1])
  }

  lemma UsagesSnoc(lines: seq<string>, k: nat)
    requires k < |lines|
    ensures KeepUsages(lines[..k + 1])
         == KeepUsages(lines[..k]) + (if IsUsage(lines[k]) then [lines[k]] else [])
  {
    assert lines[..k + 1][..k] == lines[..k];
  }

  /** The scan of one group: each line trimmed, the long ones kept. */
  method ScanUsages(text: string) returns (usages: seq<string>)
    ensures usages == Usages(text)
  {
    var content := TrimSpace(text);
    var raw := SplitLines(content);
    ghost var lines := TrimAll(raw);
    usages := [];
    var k := 0;
    assert lines[..0] == [];
    while k < |raw|
      invariant 0 <= k <= |raw|
      invariant usages == KeepUsages(lines[..k])
    {
      var usage := TrimSpace(raw[k]);
      UsagesSnoc(lines, k);
      if usage != "" && Utf8Len(usage) > 1 {
        usages := usages + [usage];
      }
      k := k + 1;
    }
    assert lines[..k] == lines;
  }

  lemma RuleSnoc(groups: seq<string>, i: nat)
    requires i < |groups|
    ensures WebPhraseRule(groups[..i + 1]) == WebPhraseRule(groups[..i]) + GroupLines(groups[i])
  {
    assert groups[..i + 1][..i] == groups[..i];
  }

  /** extractWebPhrase: a group with fewer than two usages is skipped. */
  method ExtractWebPhrase(groups: seq<string>) returns (translates: seq<string>)
    ensures translates == WebPhraseRule(groups)
  {
    translates := [];
    var i := 0;
    assert groups[..0] == [];
    while i < |groups|
      invariant 0 <= i <= |groups|
      invariant translates == WebPhraseRule(groups[..i])
    {
      RuleSnoc(groups, i);
      var usages := ScanUsages(groups[i]);
      if |usages| > 1 {
        var line := Columns(usages[0], Join(usages[1..], UsageSeparator)) + "\n";
        translates := translates + [line];
      }
      i := i + 1;
    }
    assert groups[..i] == groups;
  }

  /** Number of groups with at least two usages. */
  function PhraseGroups(groups: seq<string>): nat
  {
    if groups == [] then 0
    else PhraseGroups(groups[..|groups| - 1]) + (if |Usages(groups[|groups| - 1])| >= 2 then 1 else 0)
  }

  /** One line per group that has at least two usages. */
  lemma {:induction false} WebPhraseRuleCount(groups: seq<string>)
    ensures |WebPhraseRule(groups)| == PhraseGroups(groups)
  {
    if groups != [] {
      WebPhraseRuleCount(groups[..|groups| - 1]);
    }
  }

  /** A line is a usage exactly when it is kept: when it has two code
      points or more, or a single one outside ASCII (a single ASCII
      character is one byte and is dropped). */
  lemma {:induction false} KeepUsagesMembers(lines: seq<string>, u: string)
    ensures u in KeepUsages(lines)
        <==> u in lines && (|u| >= 2 || (|u| == 1 && u[0] as int >= 0x80))
  {
    Utf8LenAboveOne(u);
    if lines != [] {
      var n := |lines| - 1;
      KeepUsagesMembers(lines[..n], u);
      assert lines == lines[..n] + [lines[n]];
    }
  }

  /** Every usage is trimmed, non-empty and a single line. */
  lemma {:induction false} KeepUsagesNormal(lines: seq<string>)
    requires forall k :: 0 <= k < |lines| ==> IsTrimmed(lines[k]) && '\n' !in lines[k]
    ensures forall k :: 0 <= k < |KeepUsages(lines)| ==> NormalLine(KeepUsages(lines)[k])
  {
    if lines != [] {
      KeepUsagesNormal(lines[..|lines| - 1]);
    }
  }

  /** A phrase line can be taken apart again: the first column trims back
      to the first usage, a blank follows, the line ends with a newline, and
      what lies between splits on "; " back into the other usages when no
      usage holds ';'. */
  lemma PhraseLineSplit(usages: seq<string>)
    requires |usages| >= 2
    requires forall k :: 0 <= k < |usages| ==> NormalLine(usages[k]) && ';' !in usages[k]
    ensures var line := PhraseLine(usages);
            var w := HeadWidth(usages[0]);
            |line| >= w + 2
            && TrimSpace(line[..w]) == usages[0]
            && line[w] == ' '
            && line[|line| - 1] == '\n'
            && SplitOn(line[w + 1..|line| - 1], UsageSeparator) == usages[1..]
  {
    var rest := Join(usages[1..], UsageSeparator);
    var cols := Columns(usages[0], rest);
    ColumnsSplit(usages[0], rest);
    var line := cols + "\n";
    var w := HeadWidth(usages[0]);
    assert line[..w] == cols[..w];
    assert line[w + 1..|line| - 1] == cols[w + 1..] == rest;
    SplitOnJoin(usages[1..], UsageSeparator);
  }

  /** Hence every line of the rule is a phrase line of some group's usages:
      the rule's lines all end with a newline. */
  lemma {:induction false} WebPhraseRuleLinesEnd(groups: seq<string>)
    ensures forall k :: 0 <= k < |WebPhraseRule(groups)| ==>
              WebPhraseRule(groups)[k] != [] && WebPhraseRule(groups)[k][|WebPhraseRule(groups)[k]| - 1] == '\n'
  {
    if groups != [] {
      WebPhraseRuleLinesEnd(groups[..|groups| - 1]);
    }
  }
}
