/** Markdown sections: cut before headers, but never inside a fenced code block. */
module Markdown {
  import opened Options
  import opened Text

  function LeadingRun(line: string, c: char): (n: nat)
    ensures n <= |line| && (n < |line| ==> line[n] != c)
    ensures forall i | 0 <= i < n :: line[i] == c
  {
    if line == "" || line[0] != c then 0 else 1 + LeadingRun(line[1..], c)
  }

  /** One to six '#' and a space. */
  predicate IsHeader(line: string)
  {
    var n := LeadingRun(line, '#');
    1 <= n <= 6 && n < |line| && line[n] == ' '
  }

  datatype Fence = Fence(mark: char, length: nat, rest: string)

  /** Up to three spaces, then at least three backticks or tildes. */
  function FenceOf(line: string): Option<Fence>
  {
    var indent := LeadingRun(line, ' ');
    if indent > 3 || indent == |line| || (line[indent] != '`' && line[indent] != '~') then None
    else
      var body := line[indent..];
      var n := LeadingRun(body, body[0]);
      if n < 3 then None else Some(Fence(body[0], n, body[n..]))
  }

  /** A backtick fence's info string holds no backtick: ```x``` is inline code. */
  predicate CanOpen(f: Fence)
  {
    !(f.mark == '`' && '`' in f.rest)
  }

  predicate Closes(f: Fence, opener: Fence)
  {
    f.mark == opener.mark && f.length >= opener.length && Strip(f.rest) == ""
  }

  lemma {:induction false} RunIs(line: string, c: char, n: nat)
    requires n <= |line| && (forall i | 0 <= i < n :: line[i] == c) && (n < |line| ==> line[n] != c)
    ensures LeadingRun(line, c) == n
  {
    if n > 0 {
      RunIs(line[1..], c, n - 1);
    }
  }

  /** One to six number signs and a space. */
  lemma HeaderIff(line: string)
    ensures IsHeader(line) <==>
              exists n | 1 <= n <= 6 && n < |line| :: line[n] == ' ' && forall i | 0 <= i < n :: line[i] == '#'
  {
    if n :| 1 <= n <= 6 && n < |line| && line[n] == ' ' && forall i | 0 <= i < n :: line[i] == '#' {
      RunIs(line, '#', n);
    }
  }

  /** At most three spaces, a run of at least three of the mark, and the rest of the line. */
  ghost predicate FenceAt(line: string, f: Fence, indent: nat)
  {
    && indent <= 3 && f.length >= 3 && (f.mark == '`' || f.mark == '~') && indent + f.length <= |line|
    && (forall i | 0 <= i < indent :: line[i] == ' ')
    && (forall i | indent <= i < indent + f.length :: line[i] == f.mark)
    && f.rest == line[indent + f.length..] && (f.rest != "" ==> f.rest[0] != f.mark)
  }

  lemma FenceShown(line: string, f: Fence)
    requires FenceOf(line) == Some(f)
    ensures FenceAt(line, f, LeadingRun(line, ' '))
  {
    var indent := LeadingRun(line, ' ');
    var body := line[indent..];
    assert forall i | indent <= i < indent + f.length :: line[i] == body[i - indent];
  }

  lemma FenceFound(line: string, f: Fence, indent: nat)
    requires FenceAt(line, f, indent)
    ensures FenceOf(line) == Some(f)
  {
    var body := line[indent..];
    assert line[indent] == f.mark && body[0] == f.mark && body[f.length..] == f.rest;
    RunIs(line, ' ', indent);
    assert f.rest != "" ==> body[f.length] == f.rest[0];
    RunIs(body, f.mark, f.length);
  }

  /** A fence is read exactly where the line has one. */
  lemma FenceOfIff(line: string, f: Fence)
    ensures FenceOf(line) == Some(f) <==> exists indent: nat :: FenceAt(line, f, indent)
  {
    if FenceOf(line) == Some(f) {
      FenceShown(line, f);
    }
    if indent: nat :| FenceAt(line, f, indent) {
      FenceFound(line, f, indent);
    }
  }

  lemma HeaderIsNoFence(line: string)
    requires IsHeader(line)
    ensures FenceOf(line) == None
  {
    assert line[0] == '#';
  }

  // ---------------------------------------------------------------- section 4.5 of CommonMark

  /** Line k does not close the block of line o: no fence, another mark, fewer of it, or something behind it. */
  predicate StaysOpen(lines: seq<string>, o: nat, k: nat)
    requires o < k < |lines| && FenceOf(lines[o]).Some?
  {
    var opener, fence := FenceOf(lines[o]).value, FenceOf(lines[k]);
    || fence.None? || fence.value.mark != opener.mark || fence.value.length < opener.length
    || Strip(fence.value.rest) != ""
  }

  /** Line o opens a code block, lying in none itself, and no line before line i closes it. */
  ghost predicate OpenFrom(lines: seq<string>, o: nat, i: nat)
    requires o < i <= |lines|
    decreases i
  {
    && FenceOf(lines[o]).Some? && (FenceOf(lines[o]).value.mark == '`' ==> '`' !in FenceOf(lines[o]).value.rest)
    && (forall p | 0 <= p < o :: !OpenFrom(lines, p, o))
    && forall j | o < j < i :: StaysOpen(lines, o, j)
  }

  /** Line i lies in a fenced code block, as content or as its closing fence. */
  ghost predicate Fenced(lines: seq<string>, i: nat)
    requires i <= |lines|
  {
    exists o | 0 <= o < i :: OpenFrom(lines, o, i)
  }

  // ---------------------------------------------------------------- the one-pass state

  function Step(open: Option<Fence>, line: string): Option<Fence>
  {
    match FenceOf(line)
    case None => open
    case Some(f) =>
      match open
      case None => if CanOpen(f) then Some(f) else None
      case Some(opener) => if Closes(f, opener) then None else open
  }

  function OpenAt(lines: seq<string>, i: nat): Option<Fence>
    requires i <= |lines|
  {
    if i == 0 then None else Step(OpenAt(lines, i - 1), lines[i - 1])
  }

  lemma StaysIff(lines: seq<string>, o: nat, k: nat)
    requires o < k < |lines| && FenceOf(lines[o]).Some?
    ensures StaysOpen(lines, o, k) <==>
              FenceOf(lines[k]).None? || !Closes(FenceOf(lines[k]).value, FenceOf(lines[o]).value)
  {
  }

  lemma OpensIff(lines: seq<string>, k: nat)
    requires k < |lines|
    ensures OpenFrom(lines, k, k + 1) <==>
              FenceOf(lines[k]).Some? && CanOpen(FenceOf(lines[k]).value) && !Fenced(lines, k)
  {
  }

  lemma OpenOneMore(lines: seq<string>, o: nat, k: nat)
    requires o < k < |lines|
    ensures OpenFrom(lines, o, k + 1) <==> OpenFrom(lines, o, k) && StaysOpen(lines, o, k)
  {
  }

  /** The lines whose block is still open before line i. */
  ghost function OpenBefore(lines: seq<string>, i: nat): seq<bool>
    requires i <= |lines|
  {
    seq(i, o requires 0 <= o < i => OpenFrom(lines, o, i))
  }

  /** The state is that of the open blocks: of the one there is, if there is one. */
  ghost predicate StateOf(lines: seq<string>, open: seq<bool>, state: Option<Fence>)
    requires |open| <= |lines|
  {
    && (state.Some? <==> exists o | 0 <= o < |open| :: open[o])
    && forall o | 0 <= o < |open| && open[o] :: FenceOf(lines[o]) == state
  }

  lemma StateStep(lines: seq<string>, was: seq<bool>, now: seq<bool>, state: Option<Fence>)
    requires |now| == |was| + 1 <= |lines| && StateOf(lines, was, state)
    requires var fence := FenceOf(lines[|was|]);
      && (forall o | 0 <= o < |was| ::
            now[o] <==> was[o] && !(state.Some? && fence.Some? && Closes(fence.value, state.value)))
      && (now[|was|] <==> fence.Some? && CanOpen(fence.value) && state.None?)
    ensures StateOf(lines, now, Step(state, lines[|was|]))
  {
    if state.Some? {
      var o :| 0 <= o < |was| && was[o];
      assert now[o] <==> !(FenceOf(lines[|was|]).Some? && Closes(FenceOf(lines[|was|]).value, state.value));
    }
  }

  lemma FencedIff(lines: seq<string>, i: nat)
    requires i <= |lines|
    ensures Fenced(lines, i) <==> exists o | 0 <= o < i :: OpenBefore(lines, i)[o]
  {
    if o :| 0 <= o < i && OpenFrom(lines, o, i) {
      assert OpenBefore(lines, i)[o];
    }
  }

  lemma {:induction false} OpenState(lines: seq<string>, i: nat)
    requires i <= |lines|
    ensures StateOf(lines, OpenBefore(lines, i), OpenAt(lines, i))
  {
    if i > 0 {
      var k := i - 1;
      OpenState(lines, k);
      FencedIff(lines, k);
      OpensIff(lines, k);
      var was, now := OpenBefore(lines, k), OpenBefore(lines, i);
      forall o | 0 <= o < k ensures now[o] <==> was[o] && StaysOpen(lines, o, k) {
        OpenOneMore(lines, o, k);
      }
      forall o | 0 <= o < k && was[o] && FenceOf(lines[o]).Some?
        ensures StaysOpen(lines, o, k) <==>
                  FenceOf(lines[k]).None? || !Closes(FenceOf(lines[k]).value, FenceOf(lines[o]).value)
      {
        StaysIff(lines, o, k);
      }
      StateStep(lines, was, now, OpenAt(lines, k));
    }
  }

  /** The state is open exactly inside a block, and holds the fence that opened it. */
  lemma OnePassIsDeclarative(lines: seq<string>, i: nat)
    requires i <= |lines|
    ensures OpenAt(lines, i).Some? <==> Fenced(lines, i)
    ensures forall o | 0 <= o < i && OpenFrom(lines, o, i) :: FenceOf(lines[o]) == OpenAt(lines, i)
  {
    OpenState(lines, i);
    FencedIff(lines, i);
    forall o | 0 <= o < i && OpenFrom(lines, o, i) ensures FenceOf(lines[o]) == OpenAt(lines, i) {
      assert OpenBefore(lines, i)[o];
    }
  }

  // ---------------------------------------------------------------- sections

  /** Where a new section begins. */
  ghost predicate Cuts(lines: seq<string>, i: nat)
    requires i < |lines|
  {
    i > 0 && IsHeader(lines[i]) && !Fenced(lines, i)
  }

  /** The first n lines in sections: a line starts one when it is the first or a cut, else it joins the last. */
  ghost function Sections(lines: seq<string>, n: nat): seq<seq<string>>
    requires n <= |lines|
  {
    if n == 0 then []
    else
      var prior, line := Sections(lines, n - 1), lines[n - 1];
      if prior == [] || Cuts(lines, n - 1) then prior + [[line]]
      else prior[|prior| - 1 := prior[|prior| - 1] + [line]]
  }

  lemma SectionsStep(lines: seq<string>, n: nat, groups: seq<seq<string>>, current: seq<string>)
    requires n < |lines| && Sections(lines, n) == if n == 0 then groups else groups + [current]
    requires n == 0 ==> groups == [] && current == []
    ensures Sections(lines, n + 1)
            == if n > 0 && Cuts(lines, n) then groups + [current] + [[lines[n]]] else groups + [current + [lines[n]]]
  {
    if n > 0 {
      var prior := groups + [current];
      assert prior[|prior| - 1 := current + [lines[n]]] == groups + [current + [lines[n]]];
    } else {
      assert current + [lines[n]] == [lines[n]];
      assert Sections(lines, 1) == [[lines[0]]];
    }
  }

  /** One line's effect on the open fence, and whether it is a header outside every fence. */
  method ReadLine(line: string, openFence: Option<Fence>) returns (openFence': Option<Fence>, heads: bool)
    ensures openFence' == Step(openFence, line)
    ensures heads <==> IsHeader(line) && openFence == None
  {
    openFence', heads := openFence, false;
    var fence := FenceOf(line);
    if IsHeader(line) { HeaderIsNoFence(line); }
    if fence.Some? {
      if openFence == None {
        if CanOpen(fence.value) {
          openFence' := fence;
        }
      } else if Closes(fence.value, openFence.value) {
        openFence' := None;
      }
    } else if openFence == None && IsHeader(line) {
      heads := true;
    }
  }

  /** The lines of a document in sections, before they are joined and stripped. */
  method SplitSections(lines: seq<string>) returns (groups: seq<seq<string>>)
    ensures groups == Sections(lines, |lines|)
  {
    groups := [];
    var current: seq<string> := [];
    var openFence: Option<Fence> := None;
    for i := 0 to |lines|
      invariant openFence == OpenAt(lines, i) && (current == [] <==> i == 0) && (i == 0 ==> groups == [])
      invariant Sections(lines, i) == if i == 0 then groups else groups + [current]
    {
      OnePassIsDeclarative(lines, i);
      SectionsStep(lines, i, groups, current);
      var heads;
      openFence, heads := ReadLine(lines[i], openFence);
      if heads && current != [] {
        groups := groups + [current];
        current := [];
      }
      assert [] + [lines[i]] == [lines[i]];
      current := current + [lines[i]];
    }
    if current != [] {
      groups := groups + [current];
    }
  }

  // ---------------------------------------------------------------- what the sections are

  /** The line number at which section k starts. */
  function StartOf(groups: seq<seq<string>>, k: nat): nat
    requires k <= |groups|
  {
    |Flat(groups[..k])|
  }

  lemma StartsExtend(groups: seq<seq<string>>, last: seq<string>, k: nat)
    requires k <= |groups|
    ensures StartOf(groups + [last], k) == StartOf(groups, k)
    ensures StartOf(groups + [last], |groups| + 1) == |Flat(groups)| + |last|
  {
    assert (groups + [last])[..k] == groups[..k] && (groups + [last])[..|groups| + 1] == groups + [last];
    FlatSnoc(groups, last);
  }

  /** The last section is what it was before line n - 1, or empty, and that line. */
  lemma SectionsCases(lines: seq<string>, n: nat)
    returns (closed: seq<seq<string>>, earlier: seq<string>, current: seq<string>)
    requires 0 < n <= |lines|
    ensures Sections(lines, n) == closed + [current] && current == earlier + [lines[n - 1]]
    ensures n == 1 ==> closed == [] && earlier == []
    ensures n > 1 && Cuts(lines, n - 1) ==> Sections(lines, n - 1) == closed && earlier == []
    ensures n > 1 && !Cuts(lines, n - 1) ==> Sections(lines, n - 1) == closed + [earlier] && earlier != []
  {
    var prior, line := Sections(lines, n - 1), lines[n - 1];
    earlier, current := [], [line];
    if n == 1 {
      closed := [];
    } else if Cuts(lines, n - 1) {
      closed := prior;
    } else {
      SectionsNonEmpty(lines, n - 1);
      closed, earlier := prior[..|prior| - 1], prior[|prior| - 1];
      current := earlier + [line];
    }
  }

  lemma {:induction false} SectionsNonEmpty(lines: seq<string>, n: nat)
    requires 0 < n <= |lines|
    ensures Sections(lines, n) != [] && Sections(lines, n)[|Sections(lines, n)| - 1] != []
  {
    if n > 1 { SectionsNonEmpty(lines, n - 1); }
  }

  /** In order, the sections are all of the lines. */
  lemma {:induction false} SectionsPartition(lines: seq<string>, n: nat)
    requires n <= |lines|
    ensures Flat(Sections(lines, n)) == lines[..n]
  {
    if n > 0 {
      assert lines[..n] == lines[..n - 1] + [lines[n - 1]];
      SectionsPartition(lines, n - 1);
      var closed, earlier, current := SectionsCases(lines, n);
      FlatSnoc(closed, earlier);
      FlatSnoc(closed, current);
      Assoc3(Flat(closed), earlier, [lines[n - 1]]);
      if n == 1 {
        assert Flat(closed) == [];
      }
    }
  }

  lemma Assoc3(a: seq<string>, b: seq<string>, c: seq<string>)
    ensures (a + b) + c == a + (b + c)
  {
  }

  /** Every section after the first starts at a cut, a header line outside all fences: no block is cut in two. */
  lemma {:induction false} SectionsStartAtCuts(lines: seq<string>, n: nat, k: nat)
    requires n <= |lines| && k < |Sections(lines, n)|
    ensures var groups, i := Sections(lines, n), StartOf(Sections(lines, n), k);
      && i < n && groups[k] != [] && groups[k][0] == lines[i]
      && (k > 0 ==> Cuts(lines, i))
    decreases n
  {
    var closed, earlier, current := SectionsCases(lines, n);
    SectionsPartition(lines, n - 1);
    StartsExtend(closed, current, k);
    if n == 1 {
      assert StartOf(closed, 0) == 0;
    } else if Cuts(lines, n - 1) {
      if k < |closed| {
        SectionsStartAtCuts(lines, n - 1, k);
      } else {
        assert closed[..k] == closed;
      }
    } else {
      var prior := closed + [earlier];
      assert prior == Sections(lines, n - 1) && (k == |closed| ==> prior[k] == earlier && earlier[0] == current[0]);
      SectionsStartAtCuts(lines, n - 1, k);
      StartsExtend(closed, earlier, k);
    }
  }

  /** Every cut starts a section. */
  lemma {:induction false} CutsStartSections(lines: seq<string>, n: nat, i: nat) returns (k: nat)
    requires i < n <= |lines| && (i == 0 || Cuts(lines, i))
    ensures k < |Sections(lines, n)| && StartOf(Sections(lines, n), k) == i
    decreases n
  {
    var closed, earlier, current := SectionsCases(lines, n);
    SectionsPartition(lines, n - 1);
    if i == n - 1 {
      k := |closed|;
      StartsExtend(closed, current, k);
      assert closed[..k] == closed;
      if n == 1 {
        assert StartOf(closed, 0) == 0;
      }
    } else {
      k := CutsStartSections(lines, n - 1, i);
      StartsExtend(closed, current, k);
      if !Cuts(lines, n - 1) {
        StartsExtend(closed, earlier, k);
      }
    }
  }

  /** All lines in order, in sections that begin at the cuts and nowhere else. */
  ghost predicate Sectioned(lines: seq<string>, groups: seq<seq<string>>)
  {
    && Flat(groups) == lines && (forall k | 0 <= k < |groups| :: groups[k] != [])
    && (forall k | 0 < k < |groups| :: StartOf(groups, k) < |lines| && Cuts(lines, StartOf(groups, k)))
    && forall i | 0 <= i < |lines| && Cuts(lines, i) :: exists k: nat :: k < |groups| && StartOf(groups, k) == i
  }

  lemma SectionsMeaning(lines: seq<string>)
    ensures Sectioned(lines, Sections(lines, |lines|))
  {
    var groups := Sections(lines, |lines|);
    SectionsPartition(lines, |lines|);
    assert lines[..|lines|] == lines;
    forall k | 0 <= k < |groups|
      ensures groups[k] != [] && (k > 0 ==> StartOf(groups, k) < |lines| && Cuts(lines, StartOf(groups, k)))
    {
      SectionsStartAtCuts(lines, |lines|, k);
    }
    forall i | 0 <= i < |lines| && Cuts(lines, i) ensures exists k: nat :: k < |groups| && StartOf(groups, k) == i {
      var k := CutsStartSections(lines, |lines|, i);
    }
  }
}
