/** Entity ids: the lower-cased name with everything but ASCII letters and digits collapsed to single underscores. */
module Slug {
  import opened Text

  predicate Alnum(c: char)
  {
    'a' <= c <= 'z' || '0' <= c <= '9'
  }

  function SkipJunk(s: string): (r: string)
    ensures |r| <= |s| && (r != "" ==> Alnum(r[0]))
  {
    if s == "" || Alnum(s[0]) then s else SkipJunk(s[1..])
  }

  /** Every maximal run of other characters becomes one underscore. */
  function Collapse(s: string): string
    decreases |s|
  {
    if s == "" then ""
    else if Alnum(s[0]) then [s[0]] + Collapse(s[1..])
    else "_" + Collapse(SkipJunk(s[1..]))
  }

  function TrimLeft(s: string): string
  {
    if s == "" || s[0] != '_' then s else TrimLeft(s[1..])
  }

  function TrimRight(s: string): string
  {
    if s == "" || s[|s| - 1] != '_' then s else TrimRight(s[..|s| - 1])
  }

  function Slugify(lowered: string): string
  {
    TrimRight(TrimLeft(Collapse(Strip(lowered))))
  }

  // ---------------------------------------------------------------- words

  function RunLength(s: string): (n: nat)
    ensures n <= |s| && (forall i | 0 <= i < n :: Alnum(s[i])) && (n < |s| ==> !Alnum(s[n]))
  {
    if s == "" || !Alnum(s[0]) then 0 else 1 + RunLength(s[1..])
  }

  /** The maximal runs of letters and digits, in order. */
  function Words(s: string): (words: seq<string>)
    ensures forall w | w in words :: w != "" && forall c | c in w :: Alnum(c)
    decreases |s|
  {
    if s == "" then []
    else if !Alnum(s[0]) then Words(s[1..])
    else [s[..RunLength(s)]] + Words(s[RunLength(s)..])
  }

  lemma {:induction false} WordsSkipJunk(s: string)
    ensures Words(SkipJunk(s)) == Words(s)
  {
    if s != "" && !Alnum(s[0]) { WordsSkipJunk(s[1..]); }
  }

  lemma {:induction false} RunLengthSnoc(s: string, c: char)
    requires !Alnum(c)
    ensures RunLength(s + [c]) == RunLength(s)
  {
    if s != "" {
      assert (s + [c])[1..] == s[1..] + [c];
      RunLengthSnoc(s[1..], c);
    }
  }

  lemma {:induction false} WordsDropLast(s: string, c: char)
    requires !Alnum(c)
    ensures Words(s + [c]) == Words(s)
    decreases |s|
  {
    if s == "" {
      assert (s + [c])[1..] == "";
    } else if !Alnum(s[0]) {
      assert (s + [c])[1..] == s[1..] + [c];
      WordsDropLast(s[1..], c);
    } else {
      var n := RunLength(s);
      RunLengthSnoc(s, c);
      assert (s + [c])[..n] == s[..n] && (s + [c])[n..] == s[n..] + [c];
      WordsDropLast(s[n..], c);
    }
  }

  lemma {:induction false} WordsLStrip(s: string)
    ensures Words(LStrip(s)) == Words(s)
  {
    if s != "" && IsSpace(s[0]) { WordsLStrip(s[1..]); }
  }

  lemma {:induction false} WordsRStrip(s: string)
    ensures Words(RStrip(s)) == Words(s)
  {
    if s != "" && IsSpace(s[|s| - 1]) {
      WordsRStrip(s[..|s| - 1]);
      WordsDropLast(s[..|s| - 1], s[|s| - 1]);
      assert s == s[..|s| - 1] + [s[|s| - 1]];
    }
  }

  // ---------------------------------------------------------------- the slug is its words

  function Lead(s: string): string
  {
    if s != "" && !Alnum(s[0]) then "_" else ""
  }

  function Trail(s: string): string
  {
    if Words(s) != [] && !Alnum(s[|s| - 1]) then "_" else ""
  }

  lemma {:induction false} TakeRun(s: string, n: nat)
    requires n <= RunLength(s)
    ensures Collapse(s) == s[..n] + Collapse(s[n..])
  {
    if n > 0 {
      TakeRun(s[1..], n - 1);
      assert s[..n] == [s[0]] + s[1..][..n - 1] && s[1..][n - 1..] == s[n..];
    } else {
      assert s[..0] == "" && s[0..] == s;
    }
  }

  lemma {:induction false} NoWords(s: string)
    requires Words(s) == []
    ensures s == "" || !Alnum(s[|s| - 1])
  {
    if |s| > 1 { NoWords(s[1..]); }
  }

  lemma {:induction false} SkipJunkIsSuffix(s: string)
    ensures var r := SkipJunk(s); r != "" ==> r[|r| - 1] == s[|s| - 1]
  {
    if s != "" && !Alnum(s[0]) { SkipJunkIsSuffix(s[1..]); }
  }

  lemma JunkFirst(s: string, rest: string)
    requires s != "" && !Alnum(s[0]) && rest == SkipJunk(s[1..])
    ensures Words(s) == Words(rest) && Lead(rest) == "" && Trail(s) == Trail(rest)
  {
    WordsSkipJunk(s[1..]);
    SkipJunkIsSuffix(s[1..]);
  }

  lemma CollapseJunk(s: string, rest: string, middle: string)
    requires s != "" && !Alnum(s[0]) && rest == SkipJunk(s[1..])
    requires Collapse(rest) == Lead(rest) + middle + Trail(rest)
    ensures Collapse(s) == Lead(s) + middle + Trail(s)
  {
    JunkFirst(s, rest);
    assert "_" + ("" + middle + Trail(s)) == "_" + middle + Trail(s);
  }

  lemma RunFirst(s: string, word: string, rest: string)
    requires s != "" && Alnum(s[0]) && word == s[..RunLength(s)] && rest == s[RunLength(s)..]
    ensures Words(s) == [word] + Words(rest) && Trail(s) == if Words(rest) == [] then Lead(rest) else Trail(rest)
  {
    if Words(rest) == [] { NoWords(rest); }
  }

  lemma JoinCons(word: string, words: seq<string>)
    ensures Join("_", [word] + words) == if words == [] then word else word + "_" + Join("_", words)
  {
    assert ([word] + words)[1..] == words;
  }

  lemma {:induction false} CollapseIsWords(s: string)
    ensures Collapse(s) == Lead(s) + Join("_", Words(s)) + Trail(s)
    decreases |s|
  {
    if s != "" && !Alnum(s[0]) {
      var rest := SkipJunk(s[1..]);
      CollapseIsWords(rest);
      CollapseJunk(s, rest, Join("_", Words(rest)));
      JunkFirst(s, rest);
    } else if s != "" {
      var rest := s[RunLength(s)..];
      CollapseIsWords(rest);
      CollapseRun(s, s[..RunLength(s)], rest, Words(rest));
    }
  }

  lemma CollapseRun(s: string, word: string, rest: string, words: seq<string>)
    requires s != "" && Alnum(s[0]) && word == s[..RunLength(s)] && rest == s[RunLength(s)..] && words == Words(rest)
    requires Collapse(rest) == Lead(rest) + Join("_", words) + Trail(rest)
    ensures Collapse(s) == Join("_", Words(s)) + Trail(s)
  {
    TakeRun(s, RunLength(s));
    RunFirst(s, word, rest);
    JoinCons(word, words);
    Pieces(word, words, Lead(rest), Trail(rest));
    if words != [] { RestLeads(s, rest); }
  }

  lemma RestLeads(s: string, rest: string)
    requires rest == s[RunLength(s)..] && Words(rest) != []
    ensures Lead(rest) == "_"
  {
  }

  lemma Pieces(word: string, words: seq<string>, lead: string, trail: string)
    requires words != [] ==> lead == "_"
    requires words == [] ==> trail == ""
    ensures word + (lead + Join("_", words) + trail)
            == if words == [] then word + lead else word + "_" + Join("_", words) + trail
  {
  }

  predicate Tidy(s: string)
  {
    s == "" || (s[0] != '_' && s[|s| - 1] != '_')
  }

  lemma {:induction false} JoinIsTidy(words: seq<string>)
    requires forall w | w in words :: w != "" && forall c | c in w :: Alnum(c)
    ensures Tidy(Join("_", words)) && (words != [] ==> Join("_", words) != "")
  {
    if words != [] {
      assert words[0] in words && words[0][0] in words[0] && words[0][|words[0]| - 1] in words[0];
      assert forall w | w in words[1..] :: w in words;
      JoinIsTidy(words[1..]);
    }
  }

  lemma TrimLeftOnce(lead: string, s: string)
    requires (lead == "" || lead == "_") && (s == "" || s[0] != '_')
    ensures TrimLeft(lead + s) == s
  {
    if lead == "" {
      assert lead + s == s;
    } else {
      assert (lead + s)[1..] == s;
    }
  }

  lemma TrimRightOnce(s: string, trail: string)
    requires (trail == "" || trail == "_") && (s == "" || s[|s| - 1] != '_')
    ensures TrimRight(s + trail) == s
  {
    if trail == "" {
      assert s + trail == s;
    } else {
      assert (s + trail)[..|s|] == s;
    }
  }

  lemma TrimLeads(lead: string, s: string, trail: string)
    requires Tidy(s) && (lead == "" || lead == "_") && (trail == "" || (trail == "_" && s != ""))
    ensures TrimRight(TrimLeft(lead + s + trail)) == s
  {
    TrimLeftOnce(lead, s + trail);
    assert lead + s + trail == lead + (s + trail);
    TrimRightOnce(s, trail);
  }

  /** The slug is the name's words, joined by single underscores. */
  predicate Plain(c: char)
  {
    'a' <= c <= 'z' || '0' <= c <= '9'
  }

  /** The runs hold every letter and digit of the text, in order, and nothing else. */
  lemma {:induction false} WordsHold(s: string)
    ensures Flat(Words(s)) == Filtered(s)
    decreases |s|
  {
    if s == "" {
    } else if !Alnum(s[0]) {
      WordsHold(s[1..]);
    } else {
      var n := RunLength(s);
      WordsHold(s[n..]);
      FilteredRun(s, n);
      FlatCons(s[..n], Words(s[n..]));
    }
  }

  function Filtered(s: string): string
  {
    if s == "" then "" else (if Plain(s[0]) then [s[0]] else "") + Filtered(s[1..])
  }

  lemma {:induction false} FilteredRun(s: string, n: nat)
    requires n <= |s| && forall i | 0 <= i < n :: Alnum(s[i])
    ensures Filtered(s) == s[..n] + Filtered(s[n..])
  {
    if n > 0 {
      FilteredRun(s[1..], n - 1);
      assert s[..n] == [s[0]] + s[1..][..n - 1] && s[1..][n - 1..] == s[n..];
    }
  }

  lemma FlatCons(word: string, words: seq<string>)
    ensures Flat([word] + words) == word + Flat(words)
  {
    FlatConcat([word], words);
    FlatSnoc([], word);
    assert [] + [word] == [word];
  }

  lemma SlugIsWords(lowered: string)
    ensures Slugify(lowered) == Join("_", Words(lowered))
  {
    var s := Strip(lowered);
    WordsLStrip(lowered);
    WordsRStrip(LStrip(lowered));
    CollapseIsWords(s);
    JoinIsTidy(Words(s));
    TrimLeads(Lead(s), Join("_", Words(s)), Trail(s));
  }

  // ---------------------------------------------------------------- which names share an entity

  lemma JoinInjective(a: seq<string>, b: seq<string>)
    requires forall w | w in a + b :: w != "" && forall c | c in w :: Alnum(c)
    requires Join("_", a) == Join("_", b)
    ensures a == b
  {
    assert forall w | w in a :: w in a + b;
    assert forall w | w in b :: w in a + b;
    JoinIsTidy(a);
    JoinIsTidy(b);
    if a != [] && b != [] {
      assert forall w | w in a + b :: '_' !in w;
      SplitJoin('_', a);
      SplitJoin('_', b);
    }
  }

  /** Two names are one entity exactly when their words agree. */
  lemma SameSlugIff(a: string, b: string)
    ensures Slugify(a) == Slugify(b) <==> Words(a) == Words(b)
  {
    SlugIsWords(a);
    SlugIsWords(b);
    if Slugify(a) == Slugify(b) {
      JoinInjective(Words(a), Words(b));
    }
  }

  lemma {:induction false} WordsOfJoin(words: seq<string>)
    requires forall w | w in words :: w != "" && forall c | c in w :: Alnum(c)
    ensures Words(Join("_", words)) == words
  {
    if words != [] {
      assert words[0] in words && forall w | w in words[1..] :: w in words;
      WordsOfJoin(words[1..]);
      JoinCons(words[0], words[1..]);
      assert [words[0]] + words[1..] == words;
      if |words| == 1 {
        FirstWord(words[0], "");
        assert words[0] + "" == words[0];
      } else {
        NextWords(words[0], Join("_", words[1..]));
      }
    }
  }

  lemma NextWords(word: string, rest: string)
    requires word != "" && forall c | c in word :: Alnum(c)
    ensures Words(word + "_" + rest) == [word] + Words(rest)
  {
    FirstWord(word, "_" + rest);
    assert word + ("_" + rest) == word + "_" + rest && ("_" + rest)[1..] == rest;
  }

  lemma FirstWord(word: string, rest: string)
    requires word != "" && (forall c | c in word :: Alnum(c)) && (rest == "" || !Alnum(rest[0]))
    ensures Words(word + rest) == [word] + Words(rest)
  {
    var s := word + rest;
    assert forall i | 0 <= i < |word| :: s[i] == word[i] && word[i] in word;
    assert |word| < |s| ==> s[|word|] == rest[0];
    assert RunLength(s) == |word|;
    assert s[..|word|] == word && s[|word|..] == rest;
  }

  /** Slugs of slugs are themselves, so an id read back names the same entity. */
  lemma SlugIsStable(lowered: string)
    ensures Slugify(Slugify(lowered)) == Slugify(lowered)
  {
    SlugIsWords(lowered);
    WordsOfJoin(Words(lowered));
    SlugIsWords(Slugify(lowered));
  }
}
