/**
 * Python's string operations as the chunkers use them: joining and splitting at a separator,
 * stripping, and breaking into lines.  The characters that count as whitespace and as line breaks
 * are those of Python's str methods, and every operation comes with the laws that the proofs
 * about chunks and sections rest on.
 */
module Text {
  /** Separator between the parts, nowhere else. */
  function Join(separator: string, parts: seq<string>): string
  {
    if parts == [] then "" else if |parts| == 1 then parts[0]
    else parts[0] + separator + Join(separator, parts[1..])
  }

  lemma {:induction false} JoinConcat(separator: string, a: seq<string>, b: seq<string>)
    requires a != [] && b != []
    ensures Join(separator, a + b) == Join(separator, a) + separator + Join(separator, b)
  {
    if |a| == 1 {
      assert (a + b)[1..] == b;
    } else {
      assert (a + b)[1..] == a[1..] + b;
      JoinConcat(separator, a[1..], b);
    }
  }

  lemma JoinSnoc(separator: string, a: seq<string>, last: string)
    ensures Join(separator, a + [last]) == if a == [] then last else Join(separator, a) + separator + last
  {
    if a == [] {
      assert a + [last] == [last];
    } else {
      JoinConcat(separator, a, [last]);
    }
  }

  lemma JoinTwo(separator: string, a: string, b: string)
    ensures Join(separator, [a]) == a && Join(separator, [a, b]) == a + separator + b
  {
    assert [a, b][1..] == [b];
  }

  lemma JoinThree(separator: string, a: string, b: string, c: string)
    ensures Join(separator, [a, b, c]) == a + separator + b + separator + c
  {
    JoinTwo(separator, a, b);
    JoinSnoc(separator, [a, b], c);
    assert [a, b] + [c] == [a, b, c];
  }

  predicate StartsWith(text: string, prefix: string)
  {
    prefix <= text
  }

  /** The first place at or after i where the separator begins, or the end of the text. */
  function Find(text: string, separator: string, i: nat): (r: nat)
    requires i <= |text|
    ensures i <= r <= |text|
    ensures r < |text| && separator != "" ==> StartsWith(text[r..], separator)
    ensures forall j | i <= j < r :: !StartsWith(text[j..], separator)
    decreases |text| - i
  {
    if i == |text| || StartsWith(text[i..], separator) then i else Find(text, separator, i + 1)
  }

  predicate Contains(text: string, separator: string)
  {
    exists i | 0 <= i <= |text| :: StartsWith(text[i..], separator)
  }

  /** str.split with a separator: pieces may be empty. */
  function Split(text: string, separator: string): (r: seq<string>)
    requires separator != ""
    ensures r != []
    decreases |text|
  {
    var i := Find(text, separator, 0);
    if i == |text| then [text] else [text[..i]] + Split(text[i + |separator|..], separator)
  }

  lemma {:induction false} JoinSplit(text: string, separator: string)
    requires separator != ""
    ensures Join(separator, Split(text, separator)) == text
    decreases |text|
  {
    var i := Find(text, separator, 0);
    if i < |text| {
      var first, rest := text[..i], text[i + |separator|..];
      assert text == first + separator + rest;
      JoinSplit(rest, separator);
      JoinFirst(separator, first, Split(rest, separator));
    }
  }

  lemma JoinFirst(separator: string, first: string, rest: seq<string>)
    requires rest != []
    ensures Join(separator, [first] + rest) == first + separator + Join(separator, rest)
  {
    assert ([first] + rest)[1..] == rest;
  }

  /** No part holds the separator. */
  lemma {:induction false} SplitFree(text: string, separator: string)
    requires separator != ""
    ensures forall p | p in Split(text, separator) :: !Contains(p, separator)
    decreases |text|
  {
    var i := Find(text, separator, 0);
    PrefixFree(text, separator, i);
    if i == |text| {
      assert text[..i] == text;
    } else {
      var rest := Split(text[i + |separator|..], separator);
      SplitFree(text[i + |separator|..], separator);
      assert forall p | p in [text[..i]] + rest :: p == text[..i] || p in rest;
    }
  }

  lemma PrefixFree(text: string, separator: string, n: nat)
    requires separator != "" && n <= |text| && forall j | 0 <= j < n :: !StartsWith(text[j..], separator)
    ensures !Contains(text[..n], separator)
  {
    forall j | 0 <= j <= n ensures !StartsWith(text[..n][j..], separator) {
      assert text[..n][j..] <= text[j..] && (j == n ==> text[..n][j..] == "");
    }
  }

  /** Splitting undoes joining when no part holds the one-character separator. */
  lemma {:induction false} SplitJoin(c: char, parts: seq<string>)
    requires parts != [] && forall p | p in parts :: c !in p
    ensures Split(Join([c], parts), [c]) == parts
  {
    var text := Join([c], parts);
    assert parts[0] in parts;
    if |parts| == 1 {
      FirstSeparator(c, parts[0], text);
    } else {
      var rest := Join([c], parts[1..]);
      assert forall p | p in parts[1..] :: p in parts;
      assert parts == [parts[0]] + parts[1..];
      assert text == parts[0] + [c] + rest && text[|parts[0]|] == c;
      FirstSeparator(c, parts[0], text);
      SplitJoin(c, parts[1..]);
      assert text[|parts[0]| + |[c]|..] == rest && text[..|parts[0]|] == parts[0];
    }
  }

  lemma FirstSeparator(c: char, part: string, text: string)
    requires c !in part && part <= text && (text == part || text[|part|] == c)
    ensures Find(text, [c], 0) == |part|
  {
    assert forall j | 0 <= j < |part| :: text[j..][0] == part[j] && !StartsWith(text[j..], [c]);
    assert |part| < |text| ==> text[|part|..][0] == c && StartsWith(text[|part|..], [c]);
  }

  /** The parts one after the other. */
  function Flat<T>(parts: seq<seq<T>>): seq<T>
  {
    if parts == [] then [] else Flat(parts[..|parts| - 1]) + parts[|parts| - 1]
  }

  lemma {:induction false} FlatConcat<T>(a: seq<seq<T>>, b: seq<seq<T>>)
    ensures Flat(a + b) == Flat(a) + Flat(b)
  {
    if b == [] {
      assert a + b == a;
    } else {
      assert (a + b)[..|a + b| - 1] == a + b[..|b| - 1];
      FlatConcat(a, b[..|b| - 1]);
    }
  }

  lemma FlatSnoc<T>(parts: seq<seq<T>>, last: seq<T>)
    ensures Flat(parts + [last]) == Flat(parts) + last
  {
    assert (parts + [last])[..|parts|] == parts;
  }

  // ---------------------------------------------------------------- whitespace and lines

  /** str.isspace. */
  predicate IsSpace(c: char)
  {
    || '\t' <= c <= '\r' || '\U{1c}' <= c <= ' ' || c == '\U{85}' || c == '\U{a0}' || c == '\U{1680}'
    || '\U{2000}' <= c <= '\U{200a}' || c == '\U{2028}' || c == '\U{2029}' || c == '\U{202f}' || c == '\U{205f}'
    || c == '\U{3000}'
  }

  function LStrip(s: string): (r: string)
    ensures |r| <= |s| && (r != "" ==> !IsSpace(r[0]))
  {
    if s == "" || !IsSpace(s[0]) then s else LStrip(s[1..])
  }

  function RStrip(s: string): (r: string)
    ensures |r| <= |s| && r <= s && (r != "" ==> !IsSpace(r[|r| - 1]))
  {
    if s == "" || !IsSpace(s[|s| - 1]) then s else RStrip(s[..|s| - 1])
  }

  function Strip(s: string): (r: string)
    ensures |r| <= |s|
    ensures r != "" ==> !IsSpace(r[0]) && !IsSpace(r[|r| - 1])
  {
    RStrip(LStrip(s))
  }

  lemma {:induction false} LStripSpaces(spaces: string, s: string)
    requires forall c | c in spaces :: IsSpace(c)
    ensures LStrip(spaces + s) == LStrip(s)
  {
    if spaces == "" {
      assert spaces + s == s;
    } else {
      assert (spaces + s)[1..] == spaces[1..] + s;
      LStripSpaces(spaces[1..], s);
    }
  }

  /** The characters at which str.splitlines breaks. */
  predicate IsBreak(c: char)
  {
    '\n' <= c <= '\r' || '\U{1c}' <= c <= '\U{1e}' || c == '\U{85}' || c == '\U{2028}' || c == '\U{2029}'
  }

  predicate Unbroken(line: string)
  {
    forall c | c in line :: !IsBreak(c)
  }

  /** Length of the line terminator at i: two for CR LF. */
  function BreakLength(text: string, i: nat): (n: nat)
    requires i < |text|
    ensures 1 <= n && i + n <= |text|
  {
    if text[i] == '\r' && i + 1 < |text| && text[i + 1] == '\n' then 2 else 1
  }

  function FirstBreak(text: string, i: nat): (r: nat)
    requires i <= |text|
    ensures i <= r <= |text| && (r < |text| ==> IsBreak(text[r]))
    ensures forall j | i <= j < r :: !IsBreak(text[j])
    decreases |text| - i
  {
    if i == |text| || IsBreak(text[i]) then i else FirstBreak(text, i + 1)
  }

  /** str.splitlines: no terminator kept, and none needed after the last line. */
  function SplitLines(text: string): (lines: seq<string>)
    ensures forall line | line in lines :: Unbroken(line)
    decreases |text|
  {
    if text == "" then []
    else
      var i := FirstBreak(text, 0);
      if i == |text| then [text]
      else [text[..i]] + SplitLines(text[i + BreakLength(text, i)..])
  }

  /** A line ends at a break, which is not part of it; CR LF is one break, and so is a CR before anything else. */
  lemma SplitAtTerminator(line: string, terminator: string, rest: string, text: string)
    requires Unbroken(line) && text == line + terminator + rest
    requires terminator == "\r\n" || (|terminator| == 1 && IsBreak(terminator[0]))
    requires terminator == "\r" ==> rest == "" || rest[0] != '\n'
    ensures SplitLines(text) == [line] + SplitLines(rest)
  {
    var n := |line|;
    assert text[n] == terminator[0] && forall j | 0 <= j < n :: text[j] == line[j] && line[j] in line;
    assert FirstBreak(text, 0) == n;
    assert terminator == "\r\n" ==> text[n + 1] == '\n';
    assert |terminator| == 1 && n + 1 < |text| ==> text[n + 1] == rest[0];
    assert BreakLength(text, n) == |terminator|;
    assert text[n + |terminator|..] == rest && text[..n] == line;
  }

  function LinesOf(lines: seq<string>): string
  {
    if lines == [] then "" else lines[0] + "\n" + LinesOf(lines[1..])
  }

  lemma SplitAtBreak(line: string, c: char, rest: string, text: string)
    requires Unbroken(line) && IsBreak(c) && c != '\r' && text == line + [c] + rest
    ensures SplitLines(text) == [line] + SplitLines(rest)
  {
    assert text[|line|] == c;
    assert forall j | 0 <= j < |line| :: text[j] == line[j] && line[j] in line;
    assert FirstBreak(text, 0) == |line|;
    assert text[|line| + 1..] == rest && text[..|line|] == line;
  }

  lemma SplitFirstLine(line: string, rest: string, text: string)
    requires Unbroken(line) && text == line + "\n" + rest
    ensures SplitLines(text) == [line] + SplitLines(rest)
  {
    SplitAtBreak(line, '\n', rest, text);
  }

  /** Lines written with a newline each are read back as they were. */
  lemma {:induction false} SplitLinesOf(lines: seq<string>)
    requires forall line | line in lines :: Unbroken(line)
    ensures SplitLines(LinesOf(lines)) == lines
  {
    if lines != [] {
      assert lines[0] in lines && forall l | l in lines[1..] :: l in lines;
      SplitLinesOf(lines[1..]);
      SplitFirstLine(lines[0], LinesOf(lines[1..]), LinesOf(lines));
    }
  }

  lemma {:induction false} LinesOfJoin(lines: seq<string>)
    requires lines != []
    ensures LinesOf(lines) == Join("\n", lines) + "\n"
  {
    if |lines| > 1 {
      LinesOfJoin(lines[1..]);
    }
  }
}
