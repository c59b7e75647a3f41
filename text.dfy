/** String helpers shared by the extraction rules and the report renderer:
    Go's strings.TrimSpace, bufio.ScanLines, strings.Join, strings.Split,
    the `%-8s` and `%d` verbs of fmt, and the UTF-8 byte length that Go's
    len() gives for a string. Strings are sequences of Unicode code points. */
module Text {

  /** unicode.IsSpace: the Latin-1 spaces and the Unicode White_Space set. */
  predicate IsSpace(c: char)
  {
    var n := c as int;
    (9 <= n <= 13) || n == 0x20 || n == 0x85 || n == 0xA0 || n == 0x1680
    || (0x2000 <= n <= 0x200A) || n == 0x2028 || n == 0x2029 || n == 0x202F
    || n == 0x205F || n == 0x3000
  }

  /** Neither end of s is white space. */
  predicate IsTrimmed(s: string)
  {
    s == [] || (!IsSpace(s[0]) && !IsSpace(s[|s| - 1]))
  }

  /** Number of white-space characters that open s. */
  function LeadingSpace(s: string): (i: nat)
    ensures i <= |s|
    ensures i < |s| ==> !IsSpace(s[i])
  {
    if s == [] || !IsSpace(s[0]) then 0 else 1 + LeadingSpace(s[1..])
  }

  /** Where the white space that closes s begins. */
  function TrailingStart(s: string): (j: nat)
    ensures j <= |s|
    ensures j > 0 ==> !IsSpace(s[j - 1])
  {
    if s == [] || !IsSpace(s[|s| - 1]) then |s| else TrailingStart(s[..|s| - 1])
  }

  /** Everything before LeadingSpace(s) is white space. */
  lemma {:induction false} LeadingSpaceIsSpace(s: string)
    ensures forall k :: 0 <= k < LeadingSpace(s) ==> IsSpace(s[k])
  {
    if s != [] && IsSpace(s[0]) {
      LeadingSpaceIsSpace(s[1..]);
      assert forall k :: 1 <= k < LeadingSpace(s) ==> s[k] == s[1..][k - 1];
    }
  }

  /** Everything from TrailingStart(s) on is white space. */
  lemma {:induction false} TrailingStartIsSpace(s: string)
    ensures forall k :: TrailingStart(s) <= k < |s| ==> IsSpace(s[k])
  {
    if s != [] && IsSpace(s[|s| - 1]) {
      TrailingStartIsSpace(s[..|s| - 1]);
    }
  }

  /** strings.TrimSpace: the infix of s left once the white space at both
      ends is removed. */
  function TrimSpace(s: string): (r: string)
    ensures IsTrimmed(r)
  {
    var i := LeadingSpace(s);
    TrailingStartIsSpace(s);
    if i == |s| then [] else s[i..TrailingStart(s)]
  }

  /** What trimming keeps is an infix of s, and everything trimmed away is
      white space. */
  lemma TrimSpaceRemovesSpace(s: string)
    ensures var i := LeadingSpace(s);
            var r := TrimSpace(s);
            i + |r| <= |s| && r == s[i..i + |r|]
            && (forall k :: 0 <= k < i ==> IsSpace(s[k]))
            && (forall k :: i + |r| <= k < |s| ==> IsSpace(s[k]))
  {
    LeadingSpaceIsSpace(s);
    TrailingStartIsSpace(s);
  }

  /** Trimming leaves exactly the trimmed strings unchanged, so it is
      idempotent. */
  lemma TrimSpaceFixesTrimmed(s: string)
    ensures IsTrimmed(s) <==> TrimSpace(s) == s
    ensures TrimSpace(TrimSpace(s)) == TrimSpace(s)
  {
    var t := TrimSpace(s);
    assert TrimSpace(t) == t by {
      assert LeadingSpace(t) == 0;
      if t != [] { assert TrailingStart(t) == |t|; }
    }
  }

  /** Index of the first '\n' in s, or |s| when there is none. */
  function IndexOfNewline(s: string): (i: nat)
    ensures i <= |s|
    ensures i < |s| ==> s[i] == '\n'
    ensures forall k :: 0 <= k < i ==> s[k] != '\n'
  {
    if s == [] || s[0] == '\n' then 0 else 1 + IndexOfNewline(s[1..])
  }

  predicate EndsWithCR(line: string)
  {
    line != [] && line[|line| - 1] == '\r'
  }

  /** bufio's dropCR: one trailing carriage return is not part of a line. */
  function DropCR(line: string): string
  {
    if EndsWithCR(line) then line[..|line| - 1] else line
  }

  /** The tokens of bufio.Scanner with ScanLines: s cut at every '\n', one
      trailing '\r' dropped from each piece, and no empty token after a
      final '\n' (nor for the empty string). */
  function SplitLines(s: string): (lines: seq<string>)
    ensures forall k :: 0 <= k < |lines| ==> '\n' !in lines[k]
    decreases |s|
  {
    if s == [] then []
    else
      var i := IndexOfNewline(s);
      if i == |s| then [DropCR(s)]
      else [DropCR(s[..i])] + SplitLines(s[i + 1..])
  }

  /** Concatenation is associative; stated once for any element type. */
  lemma AppendAssoc<T>(a: seq<T>, b: seq<T>, c: seq<T>)
    ensures (a + b) + c == a + (b + c)
  {
  }

  /** f applied to every element, in order. */
  function Map<A, B>(f: A -> B, xs: seq<A>): (ys: seq<B>)
    ensures |ys| == |xs|
  {
    if xs == [] then [] else Map(f, xs[..|xs| - 1]) + [f(xs[|xs| - 1])]
  }

  lemma {:induction false} MapAt<A, B>(f: A -> B, xs: seq<A>, k: nat)
    requires k < |xs|
    ensures Map(f, xs)[k] == f(xs[k])
  {
    var n := |xs| - 1;
    if k < n {
      MapAt(f, xs[..n], k);
      assert xs[..n][k] == xs[k];
    }
  }

  lemma MapSnoc<A, B>(f: A -> B, xs: seq<A>, i: nat)
    requires i < |xs|
    ensures Map(f, xs[..i + 1]) == Map(f, xs[..i]) + [f(xs[i])]
  {
    assert xs[..i + 1][..i] == xs[..i];
  }

  /** Each line followed by a newline. */
  function Terminated(lines: seq<string>): string
  {
    if lines == [] then "" else lines[0] + "\n" + Terminated(lines[1..])
  }

  lemma {:induction false} TerminatedAppend(xs: seq<string>, ys: seq<string>)
    ensures Terminated(xs + ys) == Terminated(xs) + Terminated(ys)
  {
    if xs != [] {
      assert (xs + ys)[1..] == xs[1..] + ys;
      TerminatedAppend(xs[1..], ys);
    } else {
      assert xs + ys == ys;
    }
  }

  lemma {:induction false} IndexOfNewlineAfter(a: string, b: string)
    requires '\n' !in a
    ensures IndexOfNewline(a + "\n" + b) == |a|
    decreases |a|
  {
    if a != [] {
      assert (a + "\n" + b)[1..] == a[1..] + "\n" + b;
      IndexOfNewlineAfter(a[1..], b);
    }
  }

  /** Scanning newline-terminated lines gives the lines back, provided no
      line holds a newline or ends with a carriage return. */
  lemma {:induction false} SplitLinesOfTerminated(lines: seq<string>)
    requires forall k :: 0 <= k < |lines| ==> '\n' !in lines[k] && !EndsWithCR(lines[k])
    ensures SplitLines(Terminated(lines)) == lines
  {
    if lines != [] {
      var s := Terminated(lines);
      var rest := Terminated(lines[1..]);
      assert s == lines[0] + "\n" + rest;
      IndexOfNewlineAfter(lines[0], rest);
      assert s[..|lines[0]|] == lines[0];
      assert s[|lines[0]| + 1..] == rest;
      SplitLinesOfTerminated(lines[1..]);
    }
  }

  /** Conversely, terminating the scanned lines of a text without carriage
      returns rebuilds the text, with a final newline added if it had none. */
  /** A string is its part before position i, the character at i, and its
      part after; the part after ends like the string. */
  lemma CutAt(s: string, i: nat)
    requires i < |s|
    ensures s[..i] + [s[i]] + s[i + 1..] == s
    ensures i + 1 < |s| ==> s[i + 1..][|s| - i - 2] == s[|s| - 1]
  {
  }

  lemma {:induction false} TerminatedOfSplitLines(s: string)
    requires '\r' !in s
    ensures Terminated(SplitLines(s)) == if s == [] || s[|s| - 1] == '\n' then s else s + "\n"
    decreases |s|
  {
    if s != [] {
      var i := IndexOfNewline(s);
      if i == |s| {
        assert !EndsWithCR(s);
        assert SplitLines(s) == [s];
        assert Terminated([s]) == s + "\n" + Terminated([]);
      } else {
        var head, t := s[..i], s[i + 1..];
        CutAt(s, i);
        assert '\r' !in t;
        assert !EndsWithCR(head) by {
          if head != [] { assert head[i - 1] == s[i - 1]; }
        }
        var rest := SplitLines(t);
        assert SplitLines(s) == [head] + rest;
        assert ([head] + rest)[1..] == rest;
        assert Terminated(SplitLines(s)) == head + "\n" + Terminated(rest);
        TerminatedOfSplitLines(t);
        if t == [] || t[|t| - 1] == '\n' {
          assert Terminated(SplitLines(s)) == head + "\n" + t;
        } else {
          assert Terminated(SplitLines(s)) == (head + "\n" + t) + "\n";
        }
      }
    }
  }

  /** strings.Join. */
  function Join(parts: seq<string>, sep: string): (r: string)
  {
    if parts == [] then ""
    else if |parts| == 1 then parts[0]
    else parts[0] + sep + Join(parts[1..], sep)
  }

  /** A character in neither the parts nor the separator is not in their
      join. */
  lemma {:induction false} JoinKeepsOut(parts: seq<string>, sep: string, c: char)
    requires c !in sep
    requires forall k :: 0 <= k < |parts| ==> c !in parts[k]
    ensures c !in Join(parts, sep)
  {
    if |parts| >= 2 {
      JoinKeepsOut(parts[1..], sep, c);
      assert Join(parts, sep) == parts[0] + sep + Join(parts[1..], sep);
    }
  }

  /** Joining one more part adds the separator and the part at the end. */
  lemma {:induction false} JoinAppendOne(parts: seq<string>, x: string, sep: string)
    ensures Join(parts + [x], sep) == if parts == [] then x else Join(parts, sep) + sep + x
  {
    if |parts| >= 2 {
      assert (parts + [x])[1..] == parts[1..] + [x];
      JoinAppendOne(parts[1..], x, sep);
    } else if |parts| == 1 {
      assert (parts + [x])[1..] == [x];
    } else {
      assert parts + [x] == [x];
    }
  }

  /** strings.Split: the pieces of s between the occurrences of sep,
      found from the left; the empty string gives one empty piece. */
  function SplitOn(s: string, sep: string): (parts: seq<string>)
    requires sep != []
    ensures |parts| >= 1
    decreases |s|
  {
    if |sep| <= |s| && s[..|sep|] == sep then [""] + SplitOn(s[|sep|..], sep)
    else if s == [] then [""]
    else
      var rest := SplitOn(s[1..], sep);
      [[s[0]] + rest[0]] + rest[1..]
  }

  lemma {:induction false} SplitOnAfterWord(w: string, rest: string, sep: string)
    requires sep != [] && sep[0] !in w
    ensures var p := SplitOn(rest, sep);
            SplitOn(w + rest, sep) == [w + p[0]] + p[1..]
    decreases |w|
  {
    if w != [] {
      var s := w + rest;
      assert s[0] == w[0] != sep[0];
      assert s[1..] == w[1..] + rest;
      SplitOnAfterWord(w[1..], rest, sep);
      assert [w[0]] + (w[1..] + SplitOn(rest, sep)[0]) == w + SplitOn(rest, sep)[0];
    } else {
      var p := SplitOn(rest, sep);
      assert w + rest == rest;
      assert w + p[0] == p[0];
      assert p == [p[0]] + p[1..];
    }
  }

  /** Splitting a join on its separator gives the parts back when no part
      holds the separator's first character. */
  lemma {:induction false} SplitOnJoin(parts: seq<string>, sep: string)
    requires sep != [] && |parts| >= 1
    requires forall k :: 0 <= k < |parts| ==> sep[0] !in parts[k]
    ensures SplitOn(Join(parts, sep), sep) == parts
  {
    if |parts| == 1 {
      SplitOnAfterWord(parts[0], "", sep);
      assert parts[0] + "" == parts[0];
    } else {
      var tail := Join(parts[1..], sep);
      assert Join(parts, sep) == parts[0] + (sep + tail);
      SplitOnAfterWord(parts[0], sep + tail, sep);
      assert (sep + tail)[..|sep|] == sep;
      assert (sep + tail)[|sep|..] == tail;
      SplitOnJoin(parts[1..], sep);
      assert parts[0] + "" == parts[0];
    }
  }

  /** n blanks. */
  function Spaces(n: nat): (r: string)
    ensures |r| == n
  {
    seq(n, _ => ' ')
  }

  /** fmt's `%-*s`: s left-justified in a field of `width` code points,
      filled with blanks on the right; never cut. */
  function PadRight(s: string, width: nat): (r: string)
    ensures |r| == if |s| < width then width else |s|
    ensures r[..|s|] == s
  {
    if |s| < width then s + Spaces(width - |s|) else s
  }

  /** What PadRight adds is blanks only. */
  lemma PadRightBlanks(s: string, width: nat)
    ensures forall k :: |s| <= k < |PadRight(s, width)| ==> PadRight(s, width)[k] == ' '
  {
  }

  /** Bytes the UTF-8 encoding of c takes. */
  function Utf8Width(c: char): nat
  {
    if c as int < 0x80 then 1
    else if c as int < 0x800 then 2
    else if c as int < 0x10000 then 3
    else 4
  }

  /** Go's len(s): the length of s in UTF-8 bytes. */
  function Utf8Len(s: string): (n: nat)
    ensures |s| <= n <= 4 * |s|
  {
    if s == [] then 0 else Utf8Width(s[0]) + Utf8Len(s[1..])
  }

  /** A string is longer than one byte exactly when it has two or more code
      points, or a single one outside ASCII. */
  lemma Utf8LenAboveOne(s: string)
    ensures Utf8Len(s) > 1 <==> |s| >= 2 || (|s| == 1 && s[0] as int >= 0x80)
  {
    if |s| == 1 {
      assert Utf8Len(s) == Utf8Width(s[0]);
    }
  }

  function Digit(d: nat): (c: char)
    requires d < 10
    ensures '0' <= c <= '9' && c as int - '0' as int == d
  {
    (('0' as int) + d) as char
  }

  predicate AllDigits(s: string)
  {
    forall k :: 0 <= k < |s| ==> '0' <= s[k] <= '9'
  }

  /** fmt's `%d` for a natural number: its decimal digits, most significant
      first, with no leading zero. */
  function DecimalString(n: nat): (r: string)
    ensures |r| >= 1 && AllDigits(r)
    ensures r[0] == '0' ==> n == 0
    decreases n
  {
    if n < 10 then [Digit(n)] else DecimalString(n / 10) + [Digit(n % 10)]
  }

  /** Reads a string of decimal digits back as a number. */
  function ParseDecimal(s: string): nat
    requires AllDigits(s)
  {
    if s == [] then 0
    else 10 * ParseDecimal(s[..|s| - 1]) + (s[|s| - 1] as int - '0' as int)
  }

  lemma {:induction false} ParseDecimalString(n: nat)
    ensures ParseDecimal(DecimalString(n)) == n
    decreases n
  {
    var r := DecimalString(n);
    if n >= 10 {
      assert r[..|r| - 1] == DecimalString(n / 10);
      ParseDecimalString(n / 10);
    }
  }
}
