/**
 * Texts with their whitespace ignored: what a chunker may not lose.  Separators, line terminators
 * and everything that stripping removes are whitespace, so the same account holds for text,
 * Markdown and Python; chunks may repeat what was carried over, and each has its own new text at
 * its end.
 */
module Inks {
  import opened Text
  import opened Splitter

  /** The text without whitespace. */
  function Ink(text: string): string
  {
    if text == "" then ""
    else Ink(text[..|text| - 1]) + if IsSpace(text[|text| - 1]) then "" else [text[|text| - 1]]
  }

  lemma {:induction false} InkConcat(a: string, b: string)
    ensures Ink(a + b) == Ink(a) + Ink(b)
  {
    if b == "" {
      assert a + b == a;
    } else {
      assert (a + b)[..|a + b| - 1] == a + b[..|b| - 1];
      InkConcat(a, b[..|b| - 1]);
    }
  }

  /** Erasing newlines and spaces first changes nothing. */
  lemma {:induction false} InkErase(text: string)
    ensures Ink(Erase(text)) == Ink(text)
  {
    if text != "" {
      var init, last := text[..|text| - 1], text[|text| - 1];
      InkErase(init);
      InkSnoc(Erase(init), last);
      assert Erase(init) + "" == Erase(init);
    }
  }

  lemma InkSnoc(text: string, c: char)
    ensures Ink(text + [c]) == Ink(text) + if IsSpace(c) then "" else [c]
  {
    assert (text + [c])[..|text|] == text;
  }

  lemma {:induction false} InkBlank(spaces: string)
    requires forall i | 0 <= i < |spaces| :: IsSpace(spaces[i])
    ensures Ink(spaces) == ""
  {
    if spaces != "" { InkBlank(spaces[..|spaces| - 1]); }
  }

  lemma {:induction false} InkRStrip(text: string)
    ensures Ink(RStrip(text)) == Ink(text)
  {
    if text != "" && IsSpace(text[|text| - 1]) { InkRStrip(text[..|text| - 1]); }
  }

  lemma {:induction false} InkLStrip(text: string)
    ensures Ink(LStrip(text)) == Ink(text)
  {
    if text != "" && IsSpace(text[0]) {
      InkLStrip(text[1..]);
      InkConcat(text[..1], text[1..]);
      InkBlank(text[..1]);
      assert text == text[..1] + text[1..];
    }
  }

  lemma InkStrip(text: string)
    ensures Ink(Strip(text)) == Ink(text)
  {
    InkLStrip(text);
    InkRStrip(LStrip(text));
  }

  lemma InkLastIsSolid(text: string)
    requires text != "" && !IsSpace(text[|text| - 1])
    ensures Ink(text) != ""
  {
  }

  /** A text has no ink exactly when it strips to nothing. */
  lemma NoInkIff(text: string)
    ensures Ink(text) == "" <==> Strip(text) == ""
  {
    InkStrip(text);
    if Strip(text) != "" { InkLastIsSolid(Strip(text)); }
  }

  lemma InkFlatCons(first: string, rest: seq<string>)
    ensures Ink(Flat([first] + rest)) == Ink(first) + Ink(Flat(rest))
  {
    FlatConcat([first], rest);
    FlatOne(first);
    InkConcat(first, Flat(rest));
  }

  lemma FlatOne(first: string)
    ensures Flat([first]) == first
  {
    assert [first][..0] == [];
  }

  lemma InkFlatConcat(a: seq<string>, b: seq<string>)
    ensures Ink(Flat(a + b)) == Ink(Flat(a)) + Ink(Flat(b))
  {
    FlatConcat(a, b);
    InkConcat(Flat(a), Flat(b));
  }

  lemma InkThenBlank(a: string, spaces: string)
    requires forall i | 0 <= i < |spaces| :: IsSpace(spaces[i])
    ensures Ink(a + spaces) == Ink(a)
  {
    InkConcat(a, spaces);
    InkBlank(spaces);
  }

  lemma InkAround(a: string, spaces: string, b: string)
    requires forall i | 0 <= i < |spaces| :: IsSpace(spaces[i])
    ensures Ink(a + spaces + b) == Ink(a) + Ink(b)
  {
    InkConcat(a + spaces, b);
    InkThenBlank(a, spaces);
  }

  lemma InkJoinStep(separator: string, init: seq<string>, last: string)
    requires forall i | 0 <= i < |separator| :: IsSpace(separator[i])
    ensures Ink(Join(separator, init + [last])) == Ink(Join(separator, init)) + Ink(last)
  {
    JoinSnoc(separator, init, last);
    if init != [] {
      InkAround(Join(separator, init), separator, last);
    } else {
      assert Ink(Join(separator, init)) == "";
    }
  }

  lemma {:induction false} InkJoin(separator: string, parts: seq<string>)
    requires forall i | 0 <= i < |separator| :: IsSpace(separator[i])
    ensures Ink(Join(separator, parts)) == Ink(Flat(parts))
  {
    if parts != [] {
      var init, last := parts[..|parts| - 1], parts[|parts| - 1];
      InkJoin(separator, init);
      assert parts == init + [last];
      InkJoinStep(separator, init, last);
      InkConcat(Flat(init), last);
    }
  }

  lemma BreakIsSpace(text: string, i: nat)
    requires i < |text| && IsBreak(text[i])
    ensures forall j | i <= j < i + BreakLength(text, i) :: IsSpace(text[j])
  {
  }

  lemma InkOfFirstLine(text: string, i: nat, rest: string)
    requires i < |text| && IsBreak(text[i]) && rest == text[i + BreakLength(text, i)..]
    ensures Ink(text) == Ink(text[..i]) + Ink(rest)
  {
    BreakIsSpace(text, i);
    var terminator := text[i..i + BreakLength(text, i)];
    InkAround(text[..i], terminator, rest);
    assert text == text[..i] + terminator + rest;
  }

  /** Splitting into lines drops line terminators only. */
  lemma {:induction false} InkOfLines(text: string)
    ensures Ink(Flat(SplitLines(text))) == Ink(text)
    decreases |text|
  {
    if text != "" {
      var i := FirstBreak(text, 0);
      if i == |text| {
        FlatOne(text);
      } else {
        var rest := text[i + BreakLength(text, i)..];
        InkOfLines(rest);
        InkFlatCons(text[..i], SplitLines(rest));
        InkOfFirstLine(text, i, rest);
      }
    }
  }

  // ---------------------------------------------------------------- what chunks say

  /** In order, the chunks say this: each ends with its own new text, behind a limited carry-over. */
  ghost predicate Says(carry: nat, chunks: seq<string>, ink: string)
  {
    exists news :: Renews(chunks, news, carry) && Ink(Flat(news)) == ink
  }

  lemma SaysNothing(carry: nat)
    ensures Says(carry, [], "")
  {
    assert Renews([], [], carry) && Ink(Flat([])) == "";
  }

  lemma SaysOne(carry: nat, chunk: string)
    ensures Says(carry, [chunk], Ink(chunk))
  {
    assert Renewed(chunk, chunk, carry) && Renews([chunk], [chunk], carry);
    FlatOne(chunk);
  }

  lemma SaysConcat(carry: nat, a: seq<string>, x: string, b: seq<string>, y: string)
    requires Says(carry, a, x) && Says(carry, b, y)
    ensures Says(carry, a + b, x + y)
  {
    var news :| Renews(a, news, carry) && Ink(Flat(news)) == x;
    var more :| Renews(b, more, carry) && Ink(Flat(more)) == y;
    RenewsConcat(a, news, b, more, carry);
    InkFlatConcat(news, more);
  }

  lemma TextSays(limits: Limits, text: string, chunks: seq<string>, news: seq<string>)
    requires Renews(chunks, news, limits.overlap + 2)
    requires if Strip(text) == "" then chunks == [] else Erase(Flat(news)) == Erase(text)
    ensures Says(limits.overlap + 2, chunks, Ink(text))
  {
    if Strip(text) == "" {
      NoInkIff(text);
      SaysNothing(limits.overlap + 2);
    } else {
      InkErase(text);
      InkErase(Flat(news));
    }
  }

  /** Stripping a chunk keeps its own text at its end. */
  lemma StripRenewed(chunk: string, own: string, carry: nat) returns (own': string)
    requires Renewed(chunk, own, carry)
    ensures Renewed(Strip(chunk), own', carry) && Ink(own') == Ink(own)
  {
    var front, stripped := chunk[..|chunk| - |own|], RStrip(own);
    assert chunk == front + own;
    InkRStrip(own);
    var left := LStrip(chunk);
    LStripSplits(front, own);
    if |left| >= |own| {
      own' := stripped;
      RStripSuffix(left, own);
    } else {
      own' := Strip(chunk);
      InkStrip(own);
    }
  }

  /** Stripping the left of a text stops before its own part, or leaves that stripped. */
  lemma {:induction false} LStripSplits(front: string, own: string)
    ensures var left := LStrip(front + own);
      && |left| <= |front + own|
      && (|left| >= |own| ==> EndsWith(left, own))
      && (|left| < |own| ==> left == LStrip(own))
  {
    if front == "" {
      assert front + own == own;
      LStripEnds(own);
    } else if IsSpace(front[0]) {
      assert (front + own)[1..] == front[1..] + own;
      LStripSplits(front[1..], own);
    }
  }

  lemma LStripEnds(own: string)
    ensures |LStrip(own)| == |own| ==> LStrip(own) == own
  {
  }

  lemma {:induction false} RStripSuffix(left: string, own: string)
    requires EndsWith(left, own)
    ensures |RStrip(left)| - |RStrip(own)| <= |left| - |own|
    ensures EndsWith(RStrip(left), RStrip(own))
  {
    if own != "" && IsSpace(own[|own| - 1]) {
      assert own[..|own| - 1] == left[..|left| - 1][|left| - |own|..];
      RStripSuffix(left[..|left| - 1], own[..|own| - 1]);
    } else if own == "" {
      assert RStrip(left) <= left;
    }
  }
}
