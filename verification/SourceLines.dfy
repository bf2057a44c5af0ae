/**
 * A text cut into lines in two ways: as Python's parser counts them, at LF, CR and CR LF alone,
 * and as str.splitlines does, at form feeds and other separators as well.  A statement's line
 * numbers come from the first table and the chunker looks them up in the second.
 */
module SourceLines {
  import opened Text

  datatype Table = Parser | Splitlines

  predicate Terminates(table: Table, c: char)
  {
    c == '\n' || c == '\r' || (table.Splitlines? && IsBreak(c))
  }

  /** A line begins at i; CR LF is one terminator. */
  predicate Begins(table: Table, text: string, i: nat)
    requires i < |text|
  {
    i == 0 || (Terminates(table, text[i - 1]) && !(text[i - 1] == '\r' && text[i] == '\n'))
  }

  /** How many lines begin among the first n characters. */
  function Count(table: Table, text: string, n: nat): nat
    requires n <= |text|
  {
    if n == 0 then 0 else Count(table, text, n - 1) + if Begins(table, text, n - 1) then 1 else 0
  }

  lemma {:induction false} SomeLine(table: Table, text: string, n: nat)
    requires 0 < n <= |text|
    ensures Count(table, text, n) > 0
  {
    if n > 1 { SomeLine(table, text, n - 1); }
  }

  /** The line that character p is on, counting from 0. */
  function Row(table: Table, text: string, p: nat): nat
    requires p < |text|
  {
    SomeLine(table, text, p + 1);
    Count(table, text, p + 1) - 1
  }

  lemma RowStep(table: Table, text: string, p: nat)
    requires p < |text|
    ensures Row(table, text, p)
            == if p == 0 then 0 else Row(table, text, p - 1) + if Begins(table, text, p) then 1 else 0
  {
    if p == 0 { assert Count(table, text, 0) == 0; }
  }

  lemma {:induction false} RowMonotone(table: Table, text: string, p: nat, q: nat)
    requires p <= q < |text|
    ensures Row(table, text, p) <= Row(table, text, q)
    decreases q
  {
    if p < q { RowMonotone(table, text, p, q - 1); }
  }

  /** One character more, on a line of its own or at the end of the last. */
  function Longer(lines: seq<string>, c: char, begins: bool): seq<string>
    requires begins || lines != []
  {
    if begins then lines + [[c]] else lines[..|lines| - 1] + [lines[|lines| - 1] + [c]]
  }

  /** The lines of the first n characters, with their terminators. */
  function LinesUpto(table: Table, text: string, n: nat): (lines: seq<string>)
    requires n <= |text|
    ensures |lines| == Count(table, text, n)
  {
    if n == 0 then []
    else
      assert n > 1 ==> Count(table, text, n - 1) > 0 by { if n > 1 { SomeLine(table, text, n - 1); } }
      Longer(LinesUpto(table, text, n - 1), text[n - 1], Begins(table, text, n - 1))
  }

  function Lines(table: Table, text: string): seq<string>
  {
    LinesUpto(table, text, |text|)
  }

  /** Where line k begins; past the last line, the end of the text. */
  function StartUpto(table: Table, text: string, n: nat, k: nat): nat
    requires n <= |text|
  {
    var lines := LinesUpto(table, text, n);
    |Flat(lines[..if k < |lines| then k else |lines|])|
  }

  function Start(table: Table, text: string, k: nat): nat
  {
    StartUpto(table, text, |text|, k)
  }

  lemma FlatLonger(lines: seq<string>, c: char, begins: bool)
    requires begins || lines != []
    ensures Flat(Longer(lines, c, begins)) == Flat(lines) + [c]
  {
    if begins {
      FlatSnoc(lines, [c]);
    } else {
      var init, last := lines[..|lines| - 1], lines[|lines| - 1];
      FlatSnoc(init, last + [c]);
      FlatSnoc(init, last);
      assert lines == init + [last];
      assert Flat(init) + (last + [c]) == (Flat(init) + last) + [c];
    }
  }

  lemma NextLines(table: Table, text: string, n: nat, prior: seq<string>) returns (begins: bool)
    requires 0 < n <= |text| && prior == LinesUpto(table, text, n - 1)
    ensures (begins || prior != []) && LinesUpto(table, text, n) == Longer(prior, text[n - 1], begins)
  {
    begins := Begins(table, text, n - 1);
    if n > 1 { SomeLine(table, text, n - 1); }
  }

  lemma TakeOneMore(text: string, n: nat)
    requires 0 < n <= |text|
    ensures text[..n] == text[..n - 1] + [text[n - 1]]
  {
  }

  lemma {:induction false} FlatLines(table: Table, text: string, n: nat)
    requires n <= |text|
    ensures Flat(LinesUpto(table, text, n)) == text[..n]
  {
    if n == 0 {
      assert LinesUpto(table, text, 0) == [];
    } else {
      var prior := LinesUpto(table, text, n - 1);
      FlatLines(table, text, n - 1);
      var begins := NextLines(table, text, n, prior);
      FlatLonger(prior, text[n - 1], begins);
      TakeOneMore(text, n);
    }
  }

  /** One character more leaves the start of every line that has begun. */
  lemma StartKept(table: Table, text: string, n: nat, k: nat)
    requires 0 < n <= |text|
    ensures k < Count(table, text, n) ==> StartUpto(table, text, n, k) == StartUpto(table, text, n - 1, k)
    ensures k >= Count(table, text, n) ==> StartUpto(table, text, n, k) == n
    ensures StartUpto(table, text, n - 1, k) <= n - 1
  {
    var lines, prior := LinesUpto(table, text, n), LinesUpto(table, text, n - 1);
    FlatLines(table, text, n);
    FlatLines(table, text, n - 1);
    assert lines[..|lines|] == lines && prior[..|prior|] == prior;
    if k < |lines| {
      assert k <= |prior| && lines[..k] == prior[..k];
    }
    FlatTake(prior, if k < |prior| then k else |prior|);
  }

  /** A line begins at or before p exactly when p is on it or on a later one. */
  lemma {:induction false} StartsBefore(table: Table, text: string, n: nat, k: nat, p: nat)
    requires p < n <= |text|
    ensures StartUpto(table, text, n, k) <= p <==> k <= Row(table, text, p)
    decreases n
  {
    StartKept(table, text, n, k);
    if p < n - 1 {
      StartsBefore(table, text, n - 1, k, p);
      RowMonotone(table, text, p, n - 1);
    }
  }

  lemma RowStart(table: Table, text: string, k: nat, p: nat)
    requires p < |text|
    ensures Start(table, text, k) <= p <==> k <= Row(table, text, p)
  {
    StartsBefore(table, text, |text|, k, p);
  }

  lemma StartBounds(table: Table, text: string, k: nat)
    ensures Start(table, text, k) <= |text|
    ensures k >= |Lines(table, text)| ==> Start(table, text, k) == |text|
  {
    var lines := Lines(table, text);
    FlatLines(table, text, |text|);
    FlatTake(lines, if k < |lines| then k else |lines|);
    assert lines[..|lines|] == lines && text[..|text|] == text;
  }

  lemma StartMonotone(table: Table, text: string, j: nat, k: nat)
    requires j <= k
    ensures Start(table, text, j) <= Start(table, text, k) <= |text|
  {
    StartBounds(table, text, j);
    StartBounds(table, text, k);
    if Start(table, text, k) < Start(table, text, j) {
      var p := Start(table, text, k);
      RowStart(table, text, k, p);
      RowStart(table, text, j, p);
    }
  }

  // ---------------------------------------------------------------- lines as stretches of the text

  lemma FlatTake<T>(parts: seq<seq<T>>, k: nat)
    requires k <= |parts|
    ensures Flat(parts) == Flat(parts[..k]) + Flat(parts[k..])
  {
    FlatConcat(parts[..k], parts[k..]);
    assert parts == parts[..k] + parts[k..];
  }

  lemma FlatSlice<T>(parts: seq<seq<T>>, a: nat, b: nat)
    requires a <= b <= |parts|
    ensures |Flat(parts[..a])| <= |Flat(parts[..b])| <= |Flat(parts)|
    ensures Flat(parts[a..b]) == Flat(parts)[|Flat(parts[..a])|..|Flat(parts[..b])|]
  {
    FlatTake(parts, b);
    FlatTake(parts[..b], a);
    assert parts[..b][..a] == parts[..a] && parts[..b][a..] == parts[a..b];
  }

  /** Consecutive lines are the text from the start of the first to the start of the one after the last. */
  lemma LinesAre(table: Table, text: string, a: nat, b: nat)
    requires a <= b <= |Lines(table, text)|
    ensures Start(table, text, a) <= Start(table, text, b) <= |text|
    ensures Flat(Lines(table, text)[a..b]) == text[Start(table, text, a)..Start(table, text, b)]
  {
    FlatLines(table, text, |text|);
    assert text[..|text|] == text;
    FlatSlice(Lines(table, text), a, b);
  }

  lemma LineIs(table: Table, text: string, k: nat)
    requires k < |Lines(table, text)|
    ensures Start(table, text, k) <= Start(table, text, k + 1) <= |text|
    ensures Lines(table, text)[k] == text[Start(table, text, k)..Start(table, text, k + 1)]
  {
    LinesAre(table, text, k, k + 1);
    var line := Lines(table, text)[k];
    assert Lines(table, text)[k..k + 1] == [line];
    FlatSnoc([], line);
    assert [] + [line] == [line];
  }

  lemma RowExists(table: Table, text: string, p: nat)
    requires p < |text|
    ensures Row(table, text, p) < |Lines(table, text)|
  {
    RowMonotone(table, text, p, |text| - 1);
  }

  // ---------------------------------------------------------------- where the two tables differ

  /** A character that ends a line for str.splitlines alone. */
  predicate Odd(c: char)
  {
    IsBreak(c) && c != '\n' && c != '\r'
  }

  predicate OddBefore(text: string, n: int)
  {
    exists i | 0 <= i < n && i < |text| :: Odd(text[i])
  }

  /** The two tables put a character on the same line exactly when no odd line break comes before it. */
  lemma {:induction false} RowsAgreeIff(text: string, p: nat)
    requires p < |text|
    ensures Row(Parser, text, p) <= Row(Splitlines, text, p)
    ensures Row(Parser, text, p) == Row(Splitlines, text, p) <==> !OddBefore(text, p)
  {
    RowStep(Parser, text, p);
    RowStep(Splitlines, text, p);
    if p > 0 {
      RowsAgreeIff(text, p - 1);
      assert Begins(Splitlines, text, p) <==> Begins(Parser, text, p) || Odd(text[p - 1]);
      assert Odd(text[p - 1]) ==> !Begins(Parser, text, p);
      assert OddBefore(text, p) <==> OddBefore(text, p - 1) || Odd(text[p - 1]);
    }
  }
}
