/** Line handling shared by the extraction rules: a fragment's text is
    trimmed, scanned into lines, and each line trimmed again; some rules
    keep only the non-empty lines; two rules lay a line out in two columns. */
module Lines {
  import opened Text

  /** Every line trimmed. */
  function TrimAll(raw: seq<string>): (lines: seq<string>)
    ensures |lines| == |raw|
    ensures forall k :: 0 <= k < |raw| ==> lines[k] == TrimSpace(raw[k])
  {
    if raw == [] then [] else TrimAll(raw[..|raw| - 1]) + [TrimSpace(raw[|raw| - 1])]
  }

  /** A trimmed string keeps every character it does not trim away, so it
      has no character its source lacks. */
  lemma TrimSpaceKeepsOut(s: string, c: char)
    requires c !in s
    ensures c !in TrimSpace(s)
  {
    var r := TrimSpace(s);
    var i := LeadingSpace(s);
    TrimSpaceRemovesSpace(s);
    assert r == s[i..i + |r|];
  }

  /** The lines the scanner yields for strings.TrimSpace(text), each
      trimmed: the form in which every multi-line rule reads a fragment. */
  function TrimmedLines(text: string): (lines: seq<string>)
    ensures forall k :: 0 <= k < |lines| ==> IsTrimmed(lines[k]) && '\n' !in lines[k]
  {
    var raw := SplitLines(TrimSpace(text));
    forall k | 0 <= k < |raw| ensures '\n' !in TrimSpace(raw[k]) {
      TrimSpaceKeepsOut(raw[k], '\n');
    }
    TrimAll(raw)
  }

  /** The non-empty lines, in order. */
  function KeepNonEmpty(lines: seq<string>): (kept: seq<string>)
    ensures |kept| <= |lines|
    ensures forall k :: 0 <= k < |kept| ==> kept[k] != "" && kept[k] in lines
    decreases |lines|
  {
    if lines == [] then []
    else
      var n := |lines| - 1;
      var front := KeepNonEmpty(lines[..n]);
      assert forall k :: 0 <= k < |front| ==> front[k] in lines by {
        forall k | 0 <= k < |front| ensures front[k] in lines {
          var m :| 0 <= m < n && lines[..n][m] == front[k];
          assert lines[m] == front[k];
        }
      }
      front + (if lines[n] != "" then [lines[n]] else [])
  }

  /** A text split into trimmed non-empty lines. */
  function NormalizedLines(text: string): (lines: seq<string>)
    ensures forall k :: 0 <= k < |lines| ==> lines[k] != "" && IsTrimmed(lines[k]) && '\n' !in lines[k]
  {
    var t := TrimmedLines(text);
    var lines := KeepNonEmpty(t);
    assert forall k :: 0 <= k < |lines| ==> IsTrimmed(lines[k]) && '\n' !in lines[k] by {
      forall k | 0 <= k < |lines| ensures IsTrimmed(lines[k]) && '\n' !in lines[k] {
        var m :| 0 <= m < |t| && t[m] == lines[k];
      }
    }
    lines
  }

  predicate NormalLine(line: string)
  {
    line != "" && IsTrimmed(line) && '\n' !in line
  }

  lemma {:induction false} KeepNonEmptyOfNonEmpty(lines: seq<string>)
    requires forall k :: 0 <= k < |lines| ==> lines[k] != ""
    ensures KeepNonEmpty(lines) == lines
    decreases |lines|
  {
    if lines != [] {
      var n := |lines| - 1;
      KeepNonEmptyOfNonEmpty(lines[..n]);
      assert lines[..n] + [lines[n]] == lines;
    }
  }

  lemma {:induction false} SplitLinesOfJoin(lines: seq<string>)
    requires forall k :: 0 <= k < |lines| ==> lines[k] != "" && '\n' !in lines[k] && !EndsWithCR(lines[k])
    ensures SplitLines(Join(lines, "\n")) == lines
  {
    if |lines| == 1 {
      assert !EndsWithCR(lines[0]);
    } else if |lines| >= 2 {
      var rest := Join(lines[1..], "\n");
      IndexOfNewlineAfter(lines[0], rest);
      var s := lines[0] + "\n" + rest;
      assert s[..|lines[0]|] == lines[0];
      assert s[|lines[0]| + 1..] == rest;
      SplitLinesOfJoin(lines[1..]);
    }
  }

  lemma {:induction false} JoinNewlineTrimmed(lines: seq<string>)
    requires forall k :: 0 <= k < |lines| ==> NormalLine(lines[k])
    ensures IsTrimmed(Join(lines, "\n"))
    decreases |lines|
  {
    if |lines| >= 2 {
      var rest := Join(lines[1..], "\n");
      JoinNewlineTrimmed(lines[1..]);
      var s := lines[0] + "\n" + rest;
      assert s[0] == lines[0][0];
      assert rest != [] by {
        assert lines[1..][0] != "";
        JoinStartsWithFirst(lines[1..]);
      }
      assert s[|s| - 1] == rest[|rest| - 1];
    }
  }

  lemma {:induction false} JoinStartsWithFirst(lines: seq<string>)
    requires |lines| >= 1
    ensures |Join(lines, "\n")| >= |lines[0]|
  {
  }

  lemma TrimAllOfTrimmed(lines: seq<string>)
    requires forall k :: 0 <= k < |lines| ==> IsTrimmed(lines[k])
    ensures TrimAll(lines) == lines
  {
    forall k | 0 <= k < |lines| ensures TrimSpace(lines[k]) == lines[k] {
      TrimSpaceFixesTrimmed(lines[k]);
    }
  }

  lemma SplitLinesOfNormalJoin(lines: seq<string>)
    requires forall k :: 0 <= k < |lines| ==> NormalLine(lines[k])
    ensures SplitLines(Join(lines, "\n")) == lines
  {
    forall k | 0 <= k < |lines| ensures !EndsWithCR(lines[k]) {
      assert IsTrimmed(lines[k]);
    }
    SplitLinesOfJoin(lines);
  }

  /** Normalizing is idempotent: the text made of normalized lines, one per
      line, normalizes back to exactly those lines. */
  lemma NormalizedLinesIdempotent(lines: seq<string>)
    requires forall k :: 0 <= k < |lines| ==> NormalLine(lines[k])
    ensures NormalizedLines(Join(lines, "\n")) == lines
  {
    var s := Join(lines, "\n");
    JoinNewlineTrimmed(lines);
    TrimSpaceFixesTrimmed(s);
    SplitLinesOfNormalJoin(lines);
    TrimAllOfTrimmed(lines);
    KeepNonEmptyOfNonEmpty(lines);
    assert TrimmedLines(s) == lines;
  }

  /** Width of the first column in the `%-8s %s` layouts. */
  const ColumnWidth: nat := 8

  /** `%-8s %s`: the head left-justified in the first column, one blank,
      then the rest. */
  function Columns(head: string, rest: string): string
  {
    PadRight(head, ColumnWidth) + " " + rest
  }

  /** Width the first column actually takes: a longer head is not cut. */
  function HeadWidth(head: string): nat
  {
    if |head| < ColumnWidth then ColumnWidth else |head|
  }

  lemma TrimPadded(head: string, width: nat)
    requires IsTrimmed(head)
    ensures TrimSpace(PadRight(head, width)) == head
  {
    var s := PadRight(head, width);
    var r := TrimSpace(s);
    PadRightBlanks(head, width);
    TrimSpaceRemovesSpace(s);
    if head == [] {
      assert r == [];
    } else {
      assert s[0] == head[0];
      assert LeadingSpace(s) == 0;
      var j := TrailingStart(s);
      TrailingStartIsSpace(s);
      assert s[|head| - 1] == head[|head| - 1];
      assert j == |head|;
      assert s[0..|head|] == head;
    }
  }

  /** A two-column line can be taken apart again: the first column trims
      back to its (trimmed) head, a blank follows it, and the rest is what
      comes after that blank. */
  lemma ColumnsSplit(head: string, rest: string)
    requires IsTrimmed(head)
    ensures var line := Columns(head, rest);
            var w := HeadWidth(head);
            |line| == w + 1 + |rest|
            && TrimSpace(line[..w]) == head
            && line[w] == ' '
            && line[w + 1..] == rest
  {
    var line := Columns(head, rest);
    var pad := PadRight(head, ColumnWidth);
    assert line[..HeadWidth(head)] == pad;
    TrimPadded(head, ColumnWidth);
  }
}
