/** The pronunciation rule: every pronunciation span of every pronunciation
    container is read line by line; a line holding '[' is a transcription
    and is paired with the latest other line of the same span, its label. */
module Pronunciation {
  import opened Text
  import opened Lines
  import opened Report

  /** A transcription line is one that holds an opening bracket. */
  predicate IsPhoneticLine(line: string)
  {
    '[' in line
  }

  /** The scan over one span's trimmed lines, `name` being the label seen
      so far: transcriptions carry '[' and labels never do. */
  function PairLines(lines: seq<string>, name: string): (ps: seq<Pronounce>)
    ensures forall m :: 0 <= m < |ps| ==> IsPhoneticLine(ps[m].phonetic)
    ensures !IsPhoneticLine(name) ==> forall m :: 0 <= m < |ps| ==> !IsPhoneticLine(ps[m].name)
  {
    if lines == [] then []
    else if IsPhoneticLine(lines[0]) then [Pronounce(name, lines[0])] + PairLines(lines[1..], name)
    else PairLines(lines[1..], lines[0])
  }

  /** The entries of one span; the label starts out empty in every span. */
  function SpanPronounces(text: string): seq<Pronounce>
  {
    PairLines(TrimmedLines(text), "")
  }

  /** The entries of the spans of one container, in order. */
  function BlockPronounces(spans: seq<string>): seq<Pronounce>
  {
    if spans == [] then []
    else BlockPronounces(spans[..|spans| - 1]) + SpanPronounces(spans[|spans| - 1])
  }

  /** The entries of all containers, in order. */
  function PronounceRule(blocks: seq<seq<string>>): seq<Pronounce>
  {
    if blocks == [] then []
    else PronounceRule(blocks[..|blocks| - 1]) + BlockPronounces(blocks[|blocks| - 1])
  }

  /** extractPronounce, one span's scan at a time. */
  method ScanSpan(text: string) returns (found: seq<Pronounce>)
    ensures found == SpanPronounces(text)
  {
    var str := TrimSpace(text);
    var raw := SplitLines(str);
    ghost var lines := TrimAll(raw);
    found := [];
    var pronounce := Pronounce("", "");
    var k := 0;
    while k < |raw|
      invariant 0 <= k <= |raw|
      invariant PairLines(lines, "") == found + PairLines(lines[k..], pronounce.name)
    {
      var line := TrimSpace(raw[k]);
      assert lines[k..] == [line] + lines[k + 1..];
      if IsPhoneticLine(line) {
        pronounce := pronounce.(phonetic := line);
        ghost var rest := PairLines(lines[k + 1..], pronounce.name);
        assert found + ([pronounce] + rest) == (found + [pronounce]) + rest;
        found := found + [pronounce];
      } else {
        pronounce := pronounce.(name := line);
      }
      k := k + 1;
    }
  }

  /** extractPronounce, the spans of one container in turn. */
  method ScanBlock(spans: seq<string>) returns (found: seq<Pronounce>)
    ensures found == BlockPronounces(spans)
  {
    found := [];
    var j := 0;
    while j < |spans|
      invariant 0 <= j <= |spans|
      invariant found == BlockPronounces(spans[..j])
    {
      var more := ScanSpan(spans[j]);
      assert spans[..j + 1][..j] == spans[..j];
      found := found + more;
      j := j + 1;
    }
    assert spans[..j] == spans;
  }

  /** extractPronounce: every pronunciation container in turn. */
  method ExtractPronounce(blocks: seq<seq<string>>) returns (pronounces: seq<Pronounce>)
    ensures pronounces == PronounceRule(blocks)
  {
    pronounces := [];
    var i := 0;
    while i < |blocks|
      invariant 0 <= i <= |blocks|
      invariant pronounces == PronounceRule(blocks[..i])
    {
      var found := ScanBlock(blocks[i]);
      assert blocks[..i + 1][..i] == blocks[..i];
      pronounces := pronounces + found;
      i := i + 1;
    }
    assert blocks[..i] == blocks;
  }

  /** Number of transcription lines. */
  function CountPhonetic(lines: seq<string>): nat
  {
    if lines == [] then 0
    else (if IsPhoneticLine(lines[0]) then 1 else 0) + CountPhonetic(lines[1..])
  }

  /** The latest label line before position k, or `name` if there is none. */
  function LabelBefore(lines: seq<string>, k: nat, name: string): string
    requires k <= |lines|
  {
    if k == 0 then name
    else if !IsPhoneticLine(lines[k - 1]) then lines[k - 1]
    else LabelBefore(lines, k - 1, name)
  }

  /** A span yields exactly one entry per transcription line. */
  lemma {:induction false} PairLinesCount(lines: seq<string>, name: string)
    ensures |PairLines(lines, name)| == CountPhonetic(lines)
  {
    if lines != [] {
      PairLinesCount(lines[1..], if IsPhoneticLine(lines[0]) then name else lines[0]);
    }
  }

  lemma {:induction false} LabelBeforeShift(lines: seq<string>, k: nat, name: string)
    requires 1 <= k <= |lines|
    ensures LabelBefore(lines, k, name)
         == LabelBefore(lines[1..], k - 1, if IsPhoneticLine(lines[0]) then name else lines[0])
  {
    if k > 1 {
      assert lines[1..][k - 2] == lines[k - 1];
      LabelBeforeShift(lines, k - 1, name);
    }
  }

  /** The transcription line at position k yields the entry counted by the
      transcription lines before it, paired with the latest label line
      before it (or with `name` when there is none). */
  lemma {:induction false} PairLinesAt(lines: seq<string>, k: nat, name: string)
    requires k < |lines| && IsPhoneticLine(lines[k])
    ensures CountPhonetic(lines[..k]) < |PairLines(lines, name)|
    ensures PairLines(lines, name)[CountPhonetic(lines[..k])]
         == Pronounce(LabelBefore(lines, k, name), lines[k])
  {
    PairLinesCount(lines, name);
    if k == 0 {
      assert lines[..0] == [];
    } else {
      var next := if IsPhoneticLine(lines[0]) then name else lines[0];
      assert lines[..k][1..] == lines[1..][..k - 1];
      assert lines[1..][k - 1] == lines[k];
      PairLinesAt(lines[1..], k - 1, next);
      LabelBeforeShift(lines, k, name);
    }
  }

  /** Within one span: one entry per transcription line, each paired with
      the latest label line of that same span, or with the empty label
      when no label line precedes it, since the label resets per span. */
  lemma SpanPronouncesPairing(text: string, k: nat)
    requires k < |TrimmedLines(text)| && IsPhoneticLine(TrimmedLines(text)[k])
    ensures var lines := TrimmedLines(text);
            |SpanPronounces(text)| == CountPhonetic(lines)
            && CountPhonetic(lines[..k]) < |SpanPronounces(text)|
            && SpanPronounces(text)[CountPhonetic(lines[..k])]
               == Pronounce(LabelBefore(lines, k, ""), lines[k])
  {
    var lines := TrimmedLines(text);
    assert SpanPronounces(text) == PairLines(lines, "");
    PairLinesCount(lines, "");
    PairLinesAt(lines, k, "");
  }

  /** Number of transcription lines over the spans of all containers. */
  function BlockPhoneticLines(spans: seq<string>): nat
  {
    if spans == [] then 0
    else BlockPhoneticLines(spans[..|spans| - 1]) + CountPhonetic(TrimmedLines(spans[|spans| - 1]))
  }

  function PhoneticLines(blocks: seq<seq<string>>): nat
  {
    if blocks == [] then 0
    else PhoneticLines(blocks[..|blocks| - 1]) + BlockPhoneticLines(blocks[|blocks| - 1])
  }

  /** The rule yields as many entries as there are transcription lines in
      all spans together. */
  lemma {:induction false} PronounceRuleCount(blocks: seq<seq<string>>)
    ensures |PronounceRule(blocks)| == PhoneticLines(blocks)
  {
    if blocks != [] {
      PronounceRuleCount(blocks[..|blocks| - 1]);
      BlockPronouncesCount(blocks[|blocks| - 1]);
    }
  }

  lemma {:induction false} BlockPronouncesCount(spans: seq<string>)
    ensures |BlockPronounces(spans)| == BlockPhoneticLines(spans)
  {
    if spans != [] {
      BlockPronouncesCount(spans[..|spans| - 1]);
      PairLinesCount(TrimmedLines(spans[|spans| - 1]), "");
    }
  }
}
