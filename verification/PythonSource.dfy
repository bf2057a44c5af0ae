/** Which characters of a Python file its chunks are made of. */
module PythonSource {
  // The parser gives each top-level statement lines and columns; the chunker emits the statement's
  // own columns, unless it is an import, and the whole lines between the statements' lines, which it
  // looks up in a table that may number them differently.

  import opened Options
  import opened Text
  import opened Inks
  import opened SourceLines

  /** Lines count from 1. */
  type LineNumber = n: int | 1 <= n witness 1

  /** A top-level statement as the parser reports it: from a column of its first line to one of its last. */
  datatype Statement = Statement(first: LineNumber, firstColumn: nat, last: LineNumber, lastColumn: nat,
                                 isImport: bool, defName: Option<string>)

  function From(text: string, node: Statement): nat
  {
    Start(Parser, text, node.first - 1) + node.firstColumn
  }

  function To(text: string, node: Statement): nat
  {
    Start(Parser, text, node.last - 1) + node.lastColumn
  }

  predicate Within(text: string, node: Statement, p: nat)
  {
    From(text, node) <= p < To(text, node)
  }

  /** The statement is a stretch of the text that starts and ends on the lines it names, and not in a space. */
  predicate Placed(text: string, node: Statement)
  {
    && From(text, node) < To(text, node) <= |text| && !IsSpace(text[To(text, node) - 1])
    && Row(Parser, text, From(text, node)) == node.first - 1
    && Row(Parser, text, To(text, node) - 1) == node.last - 1
  }

  /** What the parser promises: every statement is in the text, after the one before. */
  predicate Parsed(text: string, statements: seq<Statement>)
  {
    && (forall k | 0 <= k < |statements| :: Placed(text, statements[k]))
    && (forall k | 0 < k < |statements| :: To(text, statements[k - 1]) <= From(text, statements[k]))
  }

  function PrevEnd(statements: seq<Statement>): nat
  {
    if statements == [] then 0 else statements[|statements| - 1].last
  }

  function EndOf(text: string, statements: seq<Statement>): nat
  {
    if statements == [] then 0 else To(text, statements[|statements| - 1])
  }

  lemma ParsedInit(text: string, statements: seq<Statement>)
    requires Parsed(text, statements) && statements != []
    ensures var init, node := statements[..|statements| - 1], statements[|statements| - 1];
      Parsed(text, init) && Placed(text, node) && EndOf(text, init) <= From(text, node)
  {
    var init := statements[..|statements| - 1];
    forall k | 0 <= k < |init| ensures Placed(text, init[k]) { assert init[k] == statements[k]; }
    forall k | 0 < k < |init| ensures To(text, init[k - 1]) <= From(text, init[k]) {
      assert init[k] == statements[k] && init[k - 1] == statements[k - 1];
    }
  }

  /** Statements keep to their order in characters and in lines. */
  lemma {:induction false} ParsedBounds(text: string, statements: seq<Statement>)
    requires Parsed(text, statements)
    ensures EndOf(text, statements) <= |text|
    ensures forall k | 0 <= k < |statements| :: To(text, statements[k]) <= EndOf(text, statements)
    ensures forall k | 0 <= k < |statements| :: statements[k].last <= PrevEnd(statements)
  {
    if statements != [] {
      var init, node := statements[..|statements| - 1], statements[|statements| - 1];
      ParsedInit(text, statements);
      ParsedBounds(text, init);
      LinesInOrder(text, init, node);
      forall k | 0 <= k < |init|
        ensures To(text, statements[k]) <= To(text, node) && statements[k].last <= node.last
      {
        assert init[k] == statements[k];
      }
    }
  }

  lemma LinesInOrder(text: string, init: seq<Statement>, node: Statement)
    requires Parsed(text, init) && Placed(text, node) && EndOf(text, init) <= From(text, node)
    ensures PrevEnd(init) <= node.first <= node.last
  {
    RowMonotone(Parser, text, From(text, node), To(text, node) - 1);
    if init != [] {
      var prior := init[|init| - 1];
      assert Placed(text, prior);
      RowMonotone(Parser, text, To(text, prior) - 1, From(text, node));
    }
  }

  // ---------------------------------------------------------------- the stretches that are emitted

  datatype Span = Span(from: nat, to: nat)

  predicate Holds(span: Span, p: nat)
  {
    span.from <= p < span.to
  }

  /** The chunker's own lines a to b: those of str.splitlines. */
  function Gap(text: string, a: nat, b: nat): Span
  {
    Span(Start(Splitlines, text, a), Start(Splitlines, text, b))
  }

  function GapBefore(text: string, init: seq<Statement>, node: Statement): seq<Span>
  {
    if node.first > PrevEnd(init) + 1 then [Gap(text, PrevEnd(init), node.first - 1)] else []
  }

  function Own(text: string, node: Statement): seq<Span>
  {
    if node.isImport then [] else [Span(From(text, node), To(text, node))]
  }

  /** In order: the lines before each statement, and the statement itself unless it imports. */
  function Spans(text: string, statements: seq<Statement>): seq<Span>
  {
    if statements == [] then []
    else
      var init, node := statements[..|statements| - 1], statements[|statements| - 1];
      (Spans(text, init) + GapBefore(text, init, node)) + Own(text, node)
  }

  function GapAfter(text: string, statements: seq<Statement>): seq<Span>
  {
    var n := |Lines(Splitlines, text)|;
    if PrevEnd(statements) < n then [Gap(text, PrevEnd(statements), n)] else []
  }

  function AllSpans(text: string, statements: seq<Statement>): seq<Span>
  {
    Spans(text, statements) + GapAfter(text, statements)
  }

  function NoOwner(gap: bool): seq<Option<Statement>>
  {
    if gap then [None] else []
  }

  function Itself(node: Statement): seq<Option<Statement>>
  {
    if node.isImport then [] else [Some(node)]
  }

  /** For each stretch the statement whose columns it holds; None for the lines of a gap. */
  function Owners(statements: seq<Statement>): seq<Option<Statement>>
  {
    if statements == [] then []
    else
      var init, node := statements[..|statements| - 1], statements[|statements| - 1];
      (Owners(init) + NoOwner(node.first > PrevEnd(init) + 1)) + Itself(node)
  }

  function AllOwners(text: string, statements: seq<Statement>): seq<Option<Statement>>
  {
    Owners(statements) + NoOwner(PrevEnd(statements) < |Lines(Splitlines, text)|)
  }

  /** The whole lines behind the first k statements, up to the next one or to the end of the text. */
  function GapAt(text: string, statements: seq<Statement>, k: nat): Span
    requires k <= |statements|
  {
    Gap(text, if k == 0 then 0 else statements[k - 1].last,
        if k < |statements| then statements[k].first - 1 else |Lines(Splitlines, text)|)
  }

  ghost predicate Owned(text: string, statements: seq<Statement>, span: Span, owner: Option<Statement>)
  {
    match owner
    case Some(node) => node in statements && !node.isImport && span == Span(From(text, node), To(text, node))
    case None => exists k | 0 <= k <= |statements| :: span == GapAt(text, statements, k)
  }

  /** The statements among the owners. */
  function Owning(owners: seq<Option<Statement>>): seq<Statement>
  {
    if owners == [] then []
    else
      var last := owners[|owners| - 1];
      Owning(owners[..|owners| - 1]) + if last.Some? then [last.value] else []
  }

  function Kept(statements: seq<Statement>): seq<Statement>
  {
    if statements == [] then []
    else
      var node := statements[|statements| - 1];
      Kept(statements[..|statements| - 1]) + if node.isImport then [] else [node]
  }

  ghost predicate AllOwned(text: string, statements: seq<Statement>, spans: seq<Span>, owners: seq<Option<Statement>>)
  {
    |owners| == |spans| && forall i | 0 <= i < |spans| :: Owned(text, statements, spans[i], owners[i])
  }

  lemma AllOwnedConcat(text: string, statements: seq<Statement>, a: seq<Span>, x: seq<Option<Statement>>,
                       b: seq<Span>, y: seq<Option<Statement>>)
    requires AllOwned(text, statements, a, x) && AllOwned(text, statements, b, y)
    ensures AllOwned(text, statements, a + b, x + y)
  {
    forall i | 0 <= i < |a + b| ensures Owned(text, statements, (a + b)[i], (x + y)[i]) {
      if i < |a| {
        assert (a + b)[i] == a[i] && (x + y)[i] == x[i];
      } else {
        assert (a + b)[i] == b[i - |a|] && (x + y)[i] == y[i - |a|];
      }
    }
  }

  lemma {:induction false} OwningConcat(a: seq<Option<Statement>>, b: seq<Option<Statement>>)
    ensures Owning(a + b) == Owning(a) + Owning(b)
  {
    if b == [] {
      assert a + b == a;
    } else {
      assert (a + b)[..|a + b| - 1] == a + b[..|b| - 1];
      OwningConcat(a, b[..|b| - 1]);
    }
  }

  lemma GapOwned(text: string, statements: seq<Statement>, k: nat, spans: seq<Span>)
    requires k <= |statements| && (spans == [] || spans == [GapAt(text, statements, k)])
    ensures AllOwned(text, statements, spans, NoOwner(spans != []))
  {
  }

  lemma ItselfOwned(text: string, statements: seq<Statement>, node: Statement)
    requires node in statements
    ensures AllOwned(text, statements, Own(text, node), Itself(node))
  {
  }

  lemma {:induction false} OwnersSoFar(text: string, statements: seq<Statement>, n: nat)
    requires n <= |statements|
    ensures AllOwned(text, statements, Spans(text, statements[..n]), Owners(statements[..n]))
    ensures Owning(Owners(statements[..n])) == Kept(statements[..n])
  {
    if n > 0 {
      var init, node := statements[..n - 1], statements[n - 1];
      assert statements[..n][..n - 1] == init;
      OwnersSoFar(text, statements, n - 1);
      OwnersNext(text, statements, init, node, n - 1);
      OwningNext(Owners(init), node.first > PrevEnd(init) + 1, node);
    }
  }

  lemma GapBeforeOwned(text: string, statements: seq<Statement>, init: seq<Statement>, node: Statement, k: nat)
    requires k < |statements| && init == statements[..k] && node == statements[k]
    ensures AllOwned(text, statements, GapBefore(text, init, node), NoOwner(node.first > PrevEnd(init) + 1))
  {
    GapOwned(text, statements, k, GapBefore(text, init, node));
  }

  lemma OwnersNext(text: string, statements: seq<Statement>, init: seq<Statement>, node: Statement, k: nat)
    requires k < |statements| && init == statements[..k] && node == statements[k]
    requires AllOwned(text, statements, Spans(text, init), Owners(init))
    ensures AllOwned(text, statements, (Spans(text, init) + GapBefore(text, init, node)) + Own(text, node),
                     (Owners(init) + NoOwner(node.first > PrevEnd(init) + 1)) + Itself(node))
  {
    var spans, gap := Spans(text, init), GapBefore(text, init, node);
    var owners, owner := Owners(init), NoOwner(node.first > PrevEnd(init) + 1);
    GapBeforeOwned(text, statements, init, node, k);
    ItselfOwned(text, statements, node);
    AllOwnedConcat(text, statements, spans, owners, gap, owner);
    AllOwnedConcat(text, statements, spans + gap, owners + owner, Own(text, node), Itself(node));
  }

  lemma OwningNext(owners: seq<Option<Statement>>, gap: bool, node: Statement)
    ensures Owning((owners + NoOwner(gap)) + Itself(node)) == Owning(owners) + if node.isImport then [] else [node]
  {
    OwningConcat(owners, NoOwner(gap));
    OwningConcat(owners + NoOwner(gap), Itself(node));
    assert NoOwner(gap) != [] ==> NoOwner(gap)[..0] == [];
    assert Itself(node) != [] ==> Itself(node)[..0] == [];
  }

  /** Each stretch has its owner, and the owners are the statements that are no imports, each once and in order. */
  lemma OwnersMeaning(text: string, statements: seq<Statement>)
    ensures AllOwned(text, statements, AllSpans(text, statements), AllOwners(text, statements))
    ensures Owning(AllOwners(text, statements)) == Kept(statements)
  {
    var n := |statements|;
    assert statements[..n] == statements;
    OwnersSoFar(text, statements, n);
    var gap := GapAfter(text, statements);
    GapOwned(text, statements, n, gap);
    AllOwnedConcat(text, statements, Spans(text, statements), Owners(statements), gap, NoOwner(gap != []));
    OwningConcat(Owners(statements), NoOwner(gap != []));
    assert gap != [] ==> NoOwner(true)[..0] == [];
  }

  /** How often the emitted text has the character at p. */
  function Times(spans: seq<Span>, p: nat): nat
  {
    if spans == [] then 0
    else Times(spans[..|spans| - 1], p) + if Holds(spans[|spans| - 1], p) then 1 else 0
  }

  lemma {:induction false} TimesConcat(a: seq<Span>, b: seq<Span>, p: nat)
    ensures Times(a + b, p) == Times(a, p) + Times(b, p)
  {
    if b == [] {
      assert a + b == a;
    } else {
      assert (a + b)[..|a + b| - 1] == a + b[..|b| - 1];
      TimesConcat(a, b[..|b| - 1], p);
    }
  }

  lemma TimesOne(spans: seq<Span>, p: nat)
    requires |spans| <= 1
    ensures Times(spans, p) == if spans != [] && Holds(spans[0], p) then 1 else 0
  {
    if spans != [] {
      assert spans[..0] == [] && Times([], p) == 0;
    }
  }

  // ---------------------------------------------------------------- how often each character is emitted

  /** The chunker's line s is one of the statement's, by number. */
  predicate OnLines(node: Statement, s: nat)
  {
    node.first - 1 <= s < node.last
  }

  predicate OnSome(statements: seq<Statement>, s: nat)
  {
    exists k | 0 <= k < |statements| :: OnLines(statements[k], s)
  }

  /** Some statement that is no import has p within its columns. */
  predicate InKept(text: string, statements: seq<Statement>, p: nat)
  {
    exists k | 0 <= k < |statements| :: !statements[k].isImport && Within(text, statements[k], p)
  }

  predicate InImport(text: string, statements: seq<Statement>, p: nat)
  {
    exists k | 0 <= k < |statements| :: statements[k].isImport && Within(text, statements[k], p)
  }

  lemma OnSomeSnoc(init: seq<Statement>, node: Statement, s: nat)
    ensures OnSome(init + [node], s) <==> OnSome(init, s) || OnLines(node, s)
  {
    var all := init + [node];
    assert all[|init|] == node && forall k | 0 <= k < |init| :: all[k] == init[k];
    if OnSome(init, s) {
      var k :| 0 <= k < |init| && OnLines(init[k], s);
      assert OnLines(all[k], s);
    }
  }

  lemma InKeptSnoc(text: string, init: seq<Statement>, node: Statement, p: nat)
    ensures InKept(text, init + [node], p) <==> InKept(text, init, p) || (!node.isImport && Within(text, node, p))
  {
    var all := init + [node];
    assert all[|init|] == node && forall k | 0 <= k < |init| :: all[k] == init[k];
    if InKept(text, init, p) {
      var k :| 0 <= k < |init| && !init[k].isImport && Within(text, init[k], p);
      assert !all[k].isImport && Within(text, all[k], p);
    }
  }

  lemma GapHolds(text: string, a: nat, b: nat, p: nat)
    requires p < |text|
    ensures Holds(Gap(text, a, b), p) <==> a <= Row(Splitlines, text, p) < b
  {
    RowStart(Splitlines, text, a, p);
    RowStart(Splitlines, text, b, p);
  }

  lemma GapBeforeHolds(text: string, init: seq<Statement>, node: Statement, p: nat)
    requires p < |text|
    ensures Times(GapBefore(text, init, node), p)
            == if PrevEnd(init) <= Row(Splitlines, text, p) < node.first - 1 then 1 else 0
  {
    TimesOne(GapBefore(text, init, node), p);
    GapHolds(text, PrevEnd(init), node.first - 1, p);
  }

  lemma GapAfterHolds(text: string, statements: seq<Statement>, p: nat)
    requires p < |text|
    ensures Times(GapAfter(text, statements), p) == if PrevEnd(statements) <= Row(Splitlines, text, p) then 1 else 0
  {
    var n := |Lines(Splitlines, text)|;
    TimesOne(GapAfter(text, statements), p);
    GapHolds(text, PrevEnd(statements), n, p);
    RowExists(Splitlines, text, p);
  }

  /** A line that two statements share is the last of the first one's. */
  lemma SharedLine(text: string, init: seq<Statement>, node: Statement, s: nat)
    requires Parsed(text, init) && PrevEnd(init) <= node.first && OnLines(node, s) && s < PrevEnd(init)
    ensures OnSome(init, s)
  {
    var prior := init[|init| - 1];
    assert Placed(text, prior);
    RowMonotone(Parser, text, From(text, prior), To(text, prior) - 1);
    assert OnLines(prior, s);
  }

  lemma NonePast(text: string, init: seq<Statement>, s: nat)
    requires Parsed(text, init) && s >= PrevEnd(init)
    ensures !OnSome(init, s)
  {
    ParsedBounds(text, init);
  }

  /** The lines of the statements so far, and those passed over between them, are all up to the last one's end. */
  lemma RowsPassed(text: string, init: seq<Statement>, node: Statement, s: nat)
    requires Parsed(text, init) && Placed(text, node) && EndOf(text, init) <= From(text, node)
    ensures (if s < node.last && !OnSome(init + [node], s) then 1 else 0)
            == (if s < PrevEnd(init) && !OnSome(init, s) then 1 else 0)
               + if PrevEnd(init) <= s < node.first - 1 then 1 else 0
  {
    LinesInOrder(text, init, node);
    OnSomeSnoc(init, node, s);
    if s >= PrevEnd(init) {
      NonePast(text, init, s);
    } else if OnLines(node, s) {
      SharedLine(text, init, node, s);
    }
  }

  lemma {:induction false} TimesSoFar(text: string, statements: seq<Statement>, p: nat)
    requires Parsed(text, statements) && p < |text|
    ensures var s := Row(Splitlines, text, p);
      Times(Spans(text, statements), p)
      == (if s < PrevEnd(statements) && !OnSome(statements, s) then 1 else 0)
         + if InKept(text, statements, p) then 1 else 0
  {
    if statements != [] {
      var init, node := statements[..|statements| - 1], statements[|statements| - 1];
      ParsedInit(text, statements);
      TimesSoFar(text, init, p);
      assert statements == init + [node];
      TimesNext(text, init, node, p);
    }
  }

  lemma TimesNext(text: string, init: seq<Statement>, node: Statement, p: nat)
    requires Parsed(text, init) && Placed(text, node) && EndOf(text, init) <= From(text, node) && p < |text|
    requires Times(Spans(text, init), p)
             == (if Row(Splitlines, text, p) < PrevEnd(init) && !OnSome(init, Row(Splitlines, text, p)) then 1 else 0)
                + if InKept(text, init, p) then 1 else 0
    ensures var s := Row(Splitlines, text, p);
      Times((Spans(text, init) + GapBefore(text, init, node)) + Own(text, node), p)
      == (if s < node.last && !OnSome(init + [node], s) then 1 else 0)
         + if InKept(text, init + [node], p) then 1 else 0
  {
    TimesConcat(Spans(text, init) + GapBefore(text, init, node), Own(text, node), p);
    TimesConcat(Spans(text, init), GapBefore(text, init, node), p);
    GapBeforeHolds(text, init, node, p);
    TimesOne(Own(text, node), p);
    RowsPassed(text, init, node, Row(Splitlines, text, p));
    InKeptSnoc(text, init, node, p);
    ParsedBounds(text, init);
  }

  /**
   * A character is emitted once for lying on a line that has no statement's number, and once for
   * lying within the columns of a statement that is no import.
   */
  lemma TimesEmitted(text: string, statements: seq<Statement>, p: nat)
    requires Parsed(text, statements) && p < |text|
    ensures Times(AllSpans(text, statements), p)
            == (if OnSome(statements, Row(Splitlines, text, p)) then 0 else 1)
               + if InKept(text, statements, p) then 1 else 0
  {
    TimesSoFar(text, statements, p);
    TimesConcat(Spans(text, statements), GapAfter(text, statements), p);
    GapAfterHolds(text, statements, p);
    ParsedBounds(text, statements);
  }

  // ---------------------------------------------------------------- when nothing but imports is lost

  /** Every character but spaces is emitted once, or not at all when it belongs to an import. */
  predicate NothingLost(text: string, statements: seq<Statement>)
  {
    forall p | 0 <= p < |text| && !IsSpace(text[p]) ::
      Times(AllSpans(text, statements), p) == if InImport(text, statements, p) then 0 else 1
  }

  /** Up to the end of the last statement the chunker counts lines as the parser does. */
  predicate TablesAgree(text: string, statements: seq<Statement>)
  {
    !OddBefore(text, EndOf(text, statements))
  }

  /** On the lines of statements there is nothing but statements: no comment, and no semicolon. */
  predicate NothingBeside(text: string, statements: seq<Statement>)
  {
    forall p | 0 <= p < |text| && !IsSpace(text[p]) && OnSome(statements, Row(Splitlines, text, p)) ::
      InKept(text, statements, p) || InImport(text, statements, p)
  }

  lemma {:induction false} KeptOrImport(text: string, statements: seq<Statement>, p: nat)
    requires Parsed(text, statements)
    ensures !(InKept(text, statements, p) && InImport(text, statements, p))
  {
    if InKept(text, statements, p) && InImport(text, statements, p) {
      var j :| 0 <= j < |statements| && !statements[j].isImport && Within(text, statements[j], p);
      var k :| 0 <= k < |statements| && statements[k].isImport && Within(text, statements[k], p);
      InOrder(text, statements, if j < k then j else k, if j < k then k else j);
    }
  }

  lemma {:induction false} InOrder(text: string, statements: seq<Statement>, j: nat, k: nat)
    requires Parsed(text, statements) && j < k < |statements|
    ensures To(text, statements[j]) <= From(text, statements[k])
    decreases k
  {
    if j < k - 1 {
      InOrder(text, statements, j, k - 1);
      assert Placed(text, statements[k - 1]);
    }
  }

  /** Where the tables agree, a character of a statement is on one of its lines. */
  lemma WithinIsOnLines(text: string, statements: seq<Statement>, p: nat, k: nat)
    requires Parsed(text, statements) && TablesAgree(text, statements)
    requires k < |statements| && Within(text, statements[k], p)
    ensures p < |text| && OnLines(statements[k], Row(Splitlines, text, p))
  {
    var node := statements[k];
    ParsedBounds(text, statements);
    assert Placed(text, node);
    RowMonotone(Parser, text, From(text, node), p);
    RowMonotone(Parser, text, p, To(text, node) - 1);
    RowsAgreeIff(text, p);
  }

  lemma EmittedOnce(text: string, statements: seq<Statement>, p: nat)
    requires Parsed(text, statements) && TablesAgree(text, statements) && NothingBeside(text, statements)
    requires p < |text| && !IsSpace(text[p])
    ensures Times(AllSpans(text, statements), p) == if InImport(text, statements, p) then 0 else 1
  {
    TimesEmitted(text, statements, p);
    KeptOrImport(text, statements, p);
    if k :| 0 <= k < |statements| && Within(text, statements[k], p) {
      WithinIsOnLines(text, statements, p, k);
    }
  }

  /** If the tables part before the last statement ends, its last character is emitted once too often. */
  lemma EmittedTwice(text: string, statements: seq<Statement>)
    requires Parsed(text, statements) && !TablesAgree(text, statements)
    ensures var p := EndOf(text, statements) - 1;
      && 0 <= p < |text| && !IsSpace(text[p])
      && Times(AllSpans(text, statements), p) > if InImport(text, statements, p) then 0 else 1
  {
    var p, last := EndOf(text, statements) - 1, statements[|statements| - 1];
    assert Placed(text, last);
    RowsAgreeIff(text, p);
    assert OddBefore(text, p) by {
      var i :| 0 <= i < EndOf(text, statements) && Odd(text[i]);
      assert i != p;
    }
    ParsedBounds(text, statements);
    TimesEmitted(text, statements, p);
    KeptOrImport(text, statements, p);
    assert Within(text, last, p);
  }

  /**
   * Nothing but imports is lost, and nothing said twice, exactly when no odd line break comes
   * before the end of the last statement and nothing stands beside a statement on its own lines.
   */
  lemma NothingLostIff(text: string, statements: seq<Statement>)
    requires Parsed(text, statements)
    ensures NothingLost(text, statements) <==> TablesAgree(text, statements) && NothingBeside(text, statements)
  {
    if TablesAgree(text, statements) && NothingBeside(text, statements) {
      forall p | 0 <= p < |text| && !IsSpace(text[p])
        ensures Times(AllSpans(text, statements), p) == if InImport(text, statements, p) then 0 else 1
      {
        EmittedOnce(text, statements, p);
      }
    }
    if NothingLost(text, statements) {
      if !TablesAgree(text, statements) {
        EmittedTwice(text, statements);
      }
      forall p | 0 <= p < |text| && !IsSpace(text[p]) && OnSome(statements, Row(Splitlines, text, p))
        ensures InKept(text, statements, p) || InImport(text, statements, p)
      {
        TimesEmitted(text, statements, p);
      }
    }
  }

  // ---------------------------------------------------------------- what is emitted, as one text

  /** The characters before n that are chosen. */
  ghost function Pick(text: string, chosen: nat -> bool, n: nat): string
    requires n <= |text|
  {
    if n == 0 then "" else Pick(text, chosen, n - 1) + if chosen(n - 1) then [text[n - 1]] else ""
  }

  lemma {:induction false} PickSame(text: string, a: nat -> bool, b: nat -> bool, n: nat)
    requires n <= |text| && forall p | 0 <= p < n :: a(p) == b(p)
    ensures Pick(text, a, n) == Pick(text, b, n)
  {
    if n > 0 { PickSame(text, a, b, n - 1); }
  }

  lemma {:induction false} PickRange(text: string, chosen: nat -> bool, m: nat, n: nat, all: bool)
    requires m <= n <= |text| && forall p | m <= p < n :: chosen(p) == all
    ensures Pick(text, chosen, n) == Pick(text, chosen, m) + if all then text[m..n] else ""
    decreases n
  {
    if m < n {
      PickRange(text, chosen, m, n - 1, all);
      assert text[m..n] == text[m..n - 1] + [text[n - 1]];
    }
  }

  lemma {:induction false} PickInk(text: string, a: nat -> bool, b: nat -> bool, n: nat)
    requires n <= |text| && forall p | 0 <= p < n && !IsSpace(text[p]) :: a(p) == b(p)
    ensures Ink(Pick(text, a, n)) == Ink(Pick(text, b, n))
  {
    if n > 0 {
      PickInk(text, a, b, n - 1);
      InkOneMore(Pick(text, a, n - 1), text[n - 1], a(n - 1));
      InkOneMore(Pick(text, b, n - 1), text[n - 1], b(n - 1));
    }
  }

  lemma InkOneMore(text: string, c: char, chosen: bool)
    ensures Ink(text + if chosen then [c] else "") == Ink(text) + if chosen && !IsSpace(c) then [c] else ""
  {
    if chosen {
      InkSnoc(text, c);
    } else {
      assert text + "" == text && Ink(text) + "" == Ink(text);
    }
  }

  /** One after the other, none beyond the end. */
  predicate Ordered(spans: seq<Span>, end: nat)
  {
    if spans == [] then true
    else
      var last := spans[|spans| - 1];
      Ordered(spans[..|spans| - 1], last.from) && last.from <= last.to <= end
  }

  lemma OrderedSnoc(spans: seq<Span>, end: nat, more: seq<Span>, end': nat)
    requires Ordered(spans, end) && end <= end' && |more| <= 1
    requires more != [] ==> end <= more[0].from <= more[0].to <= end'
    ensures Ordered(spans + more, end')
  {
    if more == [] {
      assert spans + more == spans;
    } else {
      assert (spans + more)[..|spans + more| - 1] == spans;
      OrderedLater(spans, end, more[0].from);
    }
  }

  lemma OrderedLater(spans: seq<Span>, end: nat, end': nat)
    requires Ordered(spans, end) && end <= end'
    ensures Ordered(spans, end')
  {
  }

  lemma {:induction false} NoneBeyond(spans: seq<Span>, end: nat, p: nat)
    requires Ordered(spans, end) && p >= end
    ensures Times(spans, p) == 0
  {
    if spans != [] {
      NoneBeyond(spans[..|spans| - 1], spans[|spans| - 1].from, p);
    }
  }

  function Stretch(text: string, span: Span): string
  {
    if span.from <= span.to <= |text| then text[span.from..span.to] else ""
  }

  function Stretches(text: string, spans: seq<Span>): (texts: seq<string>)
    ensures |texts| == |spans| && forall i | 0 <= i < |texts| :: texts[i] == Stretch(text, spans[i])
  {
    seq(|spans|, i requires 0 <= i < |spans| => Stretch(text, spans[i]))
  }

  ghost function Emitted(spans: seq<Span>): nat -> bool
  {
    (p: nat) => Times(spans, p) > 0
  }

  /** Ordered stretches, one after the other, are the characters they hold. */
  lemma {:induction false} StretchesArePicked(text: string, spans: seq<Span>, n: nat)
    requires Ordered(spans, n) && n <= |text|
    ensures Flat(Stretches(text, spans)) == Pick(text, Emitted(spans), n)
  {
    if spans == [] {
      assert Stretches(text, spans) == [];
      PickRange(text, Emitted(spans), 0, n, false);
    } else {
      var init, last := spans[..|spans| - 1], spans[|spans| - 1];
      StretchesArePicked(text, init, last.from);
      assert Stretches(text, spans)[..|init|] == Stretches(text, init);
      forall p: nat ensures Holds(last, p) ==> Emitted(spans)(p)
                    ensures p < last.from ==> Emitted(spans)(p) == Emitted(init)(p)
                    ensures p >= last.to ==> !Emitted(spans)(p) {
        if p >= last.from { NoneBeyond(init, last.from, p); }
      }
      PickSame(text, Emitted(spans), Emitted(init), last.from);
      PickRange(text, Emitted(spans), last.from, last.to, true);
      PickRange(text, Emitted(spans), last.to, n, false);
    }
  }

  /** Where the tables agree a line the chunker looks up by a statement's number is the parser's. */
  lemma GapFits(text: string, statements: seq<Statement>, init: seq<Statement>, node: Statement)
    requires Parsed(text, init) && Placed(text, node) && EndOf(text, init) <= From(text, node)
    requires !OddBefore(text, To(text, node))
    ensures EndOf(text, init) <= Start(Splitlines, text, PrevEnd(init))
    ensures Start(Splitlines, text, node.first - 1) <= From(text, node)
  {
    PastEnd(text, init);
    RowsAgreeIff(text, From(text, node));
    RowStart(Splitlines, text, node.first - 1, From(text, node));
  }

  lemma PastEnd(text: string, statements: seq<Statement>)
    requires Parsed(text, statements) && TablesAgree(text, statements)
    ensures EndOf(text, statements) <= Start(Splitlines, text, PrevEnd(statements))
  {
    if statements != [] {
      var last := statements[|statements| - 1];
      assert Placed(text, last);
      var p := To(text, last) - 1;
      RowsAgreeIff(text, p);
      RowStart(Splitlines, text, last.last, p);
    }
  }

  lemma {:induction false} SpansOrdered(text: string, statements: seq<Statement>)
    requires Parsed(text, statements) && TablesAgree(text, statements)
    ensures Ordered(Spans(text, statements), EndOf(text, statements))
  {
    if statements != [] {
      var init, node := statements[..|statements| - 1], statements[|statements| - 1];
      ParsedInit(text, statements);
      SpansOrdered(text, init);
      GapFits(text, statements, init, node);
      StartMonotone(Splitlines, text, PrevEnd(init),
                    if node.first > PrevEnd(init) then node.first - 1 else PrevEnd(init));
      OrderedSnoc(Spans(text, init), EndOf(text, init), GapBefore(text, init, node), From(text, node));
      OrderedSnoc(Spans(text, init) + GapBefore(text, init, node), From(text, node), Own(text, node), To(text, node));
    }
  }

  lemma AllSpansOrdered(text: string, statements: seq<Statement>)
    requires Parsed(text, statements) && TablesAgree(text, statements)
    ensures Ordered(AllSpans(text, statements), |text|)
  {
    SpansOrdered(text, statements);
    PastEnd(text, statements);
    ParsedBounds(text, statements);
    var n := |Lines(Splitlines, text)|;
    StartMonotone(Splitlines, text, PrevEnd(statements), if PrevEnd(statements) < n then n else PrevEnd(statements));
    OrderedSnoc(Spans(text, statements), EndOf(text, statements), GapAfter(text, statements), |text|);
  }

  /** On a statement's lines its own columns, unless it imports; elsewhere everything. */
  ghost function Spoken(text: string, statements: seq<Statement>): nat -> bool
  {
    (p: nat) => p < |text| && (!OnSome(statements, Row(Splitlines, text, p)) || InKept(text, statements, p))
  }

  ghost function NotImported(text: string, statements: seq<Statement>): nat -> bool
  {
    (p: nat) => !InImport(text, statements, p)
  }

  lemma EmittedIffSpoken(text: string, statements: seq<Statement>, p: nat)
    requires Parsed(text, statements) && p < |text|
    ensures Emitted(AllSpans(text, statements))(p) == Spoken(text, statements)(p)
  {
    TimesEmitted(text, statements, p);
  }

  lemma PickSpoken(text: string, statements: seq<Statement>)
    requires Parsed(text, statements)
    ensures Pick(text, Emitted(AllSpans(text, statements)), |text|) == Pick(text, Spoken(text, statements), |text|)
  {
    var emitted, spoken := Emitted(AllSpans(text, statements)), Spoken(text, statements);
    forall p: nat | p < |text| ensures emitted(p) == spoken(p) {
      EmittedIffSpoken(text, statements, p);
    }
    PickSame(text, emitted, spoken, |text|);
  }

  /** What is emitted is the text without what stands beside a kept statement on its lines. */
  lemma StretchesAreSpoken(text: string, statements: seq<Statement>)
    requires Parsed(text, statements) && TablesAgree(text, statements)
    ensures Flat(Stretches(text, AllSpans(text, statements))) == Pick(text, Spoken(text, statements), |text|)
  {
    AllSpansOrdered(text, statements);
    StretchesArePicked(text, AllSpans(text, statements), |text|);
    PickSpoken(text, statements);
  }

  /** With nothing beside the statements that is all but the imports. */
  lemma SpokenIsNotImported(text: string, statements: seq<Statement>)
    requires Parsed(text, statements) && NothingLost(text, statements)
    ensures Ink(Pick(text, Spoken(text, statements), |text|)) == Ink(Pick(text, NotImported(text, statements), |text|))
  {
    forall p: nat | p < |text| && !IsSpace(text[p])
      ensures Spoken(text, statements)(p) == NotImported(text, statements)(p)
    {
      TimesEmitted(text, statements, p);
    }
    PickInk(text, Spoken(text, statements), NotImported(text, statements), |text|);
  }

  // ---------------------------------------------------------------- how the chunker cuts the stretches out

  /** Python slices clamp their bounds. */
  function Slice<T>(items: seq<T>, from: nat, to: nat): seq<T>
  {
    var a := if from > |items| then |items| else from;
    var b := if to < a then a else if to > |items| then |items| else to;
    items[a..b]
  }

  function RowAt(rows: seq<string>, n: LineNumber): string
  {
    if n <= |rows| then rows[n - 1] else ""
  }

  // The part of a statement on its first line, on the lines between, and on its last line.
  function FirstOf(rows: seq<string>, node: Statement): string
  {
    Slice(RowAt(rows, node.first), node.firstColumn, |RowAt(rows, node.first)|)
  }

  function MiddleOf(rows: seq<string>, node: Statement): string
  {
    Flat(Slice(rows, node.first, node.last - 1))
  }

  function LastOf(rows: seq<string>, node: Statement): string
  {
    Slice(RowAt(rows, node.last), 0, node.lastColumn)
  }

  /** ast.get_source_segment, on the lines of the parser. */
  function SourceSegment(rows: seq<string>, node: Statement): string
  {
    if node.last == node.first then Slice(RowAt(rows, node.first), node.firstColumn, node.lastColumn)
    else FirstOf(rows, node) + MiddleOf(rows, node) + LastOf(rows, node)
  }

  lemma SliceIs(text: string, a: nat, b: nat)
    requires a <= b
    ensures Flat(Slice(Lines(Splitlines, text), a, b)) == Stretch(text, Gap(text, a, b))
  {
    var lines := Lines(Splitlines, text);
    LinesAre(Splitlines, text, if a > |lines| then |lines| else a, if b > |lines| then |lines| else b);
  }

  /** The end column lies on the statement's last line, the first on its first. */
  lemma ColumnsFit(text: string, node: Statement)
    requires Placed(text, node)
    ensures node.first <= node.last <= |Lines(Parser, text)| && To(text, node) <= |text|
    ensures From(text, node) <= Start(Parser, text, node.first) && To(text, node) <= Start(Parser, text, node.last)
  {
    RowMonotone(Parser, text, From(text, node), To(text, node) - 1);
    RowExists(Parser, text, To(text, node) - 1);
    RowStart(Parser, text, node.first, From(text, node));
    RowStart(Parser, text, node.last, To(text, node) - 1);
  }

  lemma SliceOf(text: string, line: string, at: nat, a: nat, b: nat)
    requires at + |line| <= |text| && line == text[at..at + |line|] && a <= b <= |line|
    ensures Slice(line, a, b) == text[at + a..at + b]
  {
    var part, stretch := Slice(line, a, b), text[at + a..at + b];
    assert part == line[a..b] && |part| == |stretch|;
    forall k | 0 <= k < |part| ensures part[k] == stretch[k] {
      assert part[k] == line[a + k] == text[at + (a + k)] == stretch[k];
    }
  }

  lemma OneLineSegment(text: string, node: Statement)
    requires Placed(text, node) && node.first == node.last
    ensures SourceSegment(Lines(Parser, text), node) == text[From(text, node)..To(text, node)]
  {
    ColumnsFit(text, node);
    LineIs(Parser, text, node.first - 1);
    SliceOf(text, Lines(Parser, text)[node.first - 1], Start(Parser, text, node.first - 1),
            node.firstColumn, node.lastColumn);
  }

  lemma FirstPart(text: string, node: Statement)
    requires Placed(text, node)
    ensures From(text, node) <= Start(Parser, text, node.first) <= |text|
    ensures FirstOf(Lines(Parser, text), node) == text[From(text, node)..Start(Parser, text, node.first)]
  {
    ColumnsFit(text, node);
    LineIs(Parser, text, node.first - 1);
    var line := Lines(Parser, text)[node.first - 1];
    SliceOf(text, line, Start(Parser, text, node.first - 1), node.firstColumn, |line|);
  }

  lemma LastPart(text: string, node: Statement)
    requires Placed(text, node)
    ensures Start(Parser, text, node.last - 1) <= To(text, node) <= |text|
    ensures LastOf(Lines(Parser, text), node) == text[Start(Parser, text, node.last - 1)..To(text, node)]
  {
    ColumnsFit(text, node);
    LineIs(Parser, text, node.last - 1);
    SliceOf(text, Lines(Parser, text)[node.last - 1], Start(Parser, text, node.last - 1), 0, node.lastColumn);
  }

  lemma MiddlePart(text: string, node: Statement)
    requires Placed(text, node) && node.first != node.last
    ensures Start(Parser, text, node.first) <= Start(Parser, text, node.last - 1) <= |text|
    ensures MiddleOf(Lines(Parser, text), node)
            == text[Start(Parser, text, node.first)..Start(Parser, text, node.last - 1)]
  {
    ColumnsFit(text, node);
    LinesAre(Parser, text, node.first, node.last - 1);
  }

  lemma ThreeParts(text: string, a: nat, b: nat, c: nat, d: nat, x: string, y: string, z: string)
    requires a <= b <= c <= d <= |text| && x == text[a..b] && y == text[b..c] && z == text[c..d]
    ensures x + y + z == text[a..d]
  {
  }

  lemma LinesSegment(text: string, node: Statement)
    requires Placed(text, node) && node.first != node.last
    ensures SourceSegment(Lines(Parser, text), node) == text[From(text, node)..To(text, node)]
  {
    var rows := Lines(Parser, text);
    FirstPart(text, node);
    MiddlePart(text, node);
    LastPart(text, node);
    ThreeParts(text, From(text, node), Start(Parser, text, node.first), Start(Parser, text, node.last - 1),
               To(text, node), FirstOf(rows, node), MiddleOf(rows, node), LastOf(rows, node));
  }

  lemma SegmentIs(text: string, node: Statement)
    requires Placed(text, node)
    ensures SourceSegment(Lines(Parser, text), node) == text[From(text, node)..To(text, node)] != ""
  {
    if node.first == node.last {
      OneLineSegment(text, node);
    } else {
      LinesSegment(text, node);
    }
  }

  // ---------------------------------------------------------------- two files that lose something

  lemma FirstRow(table: Table, text: string, n: nat)
    requires 0 < n <= |text| && forall i | 0 < i < n :: !Begins(table, text, i)
    ensures forall p | 0 <= p < n :: Row(table, text, p) == 0
  {
    for p := 0 to n
      invariant forall q | 0 <= q < p :: Row(table, text, q) == 0
    {
      RowStep(table, text, p);
    }
  }

  /** A comment after a statement, on its line, is in no chunk. */
  lemma TrailingCommentIsLost() returns (text: string, node: Statement)
    ensures text == "X=1 #n\n" && node == Statement(1, 0, 1, 3, false, None)
    ensures Parsed(text, [node]) && TablesAgree(text, [node]) && text[4] == '#' && Times(AllSpans(text, [node]), 4) == 0
  {
    text, node := "X=1 #n\n", Statement(1, 0, 1, 3, false, None);
    CommentIsLost(text, node);
  }

  lemma CommentIsLost(text: string, node: Statement)
    requires |text| == 7 && text[2] == '1' && text[4] == '#' && forall i | 0 <= i < 6 :: !IsBreak(text[i])
    requires node == Statement(1, 0, 1, 3, false, None)
    ensures Parsed(text, [node]) && TablesAgree(text, [node]) && Times(AllSpans(text, [node]), 4) == 0
  {
    FirstRow(Parser, text, 7);
    FirstRow(Splitlines, text, 7);
    RowStart(Parser, text, 0, 0);
    assert Start(Parser, text, 0) == 0;
    TimesEmitted(text, [node], 4);
    assert OnLines([node][0], 0);
  }

  /** A form feed in front of a comment: the comment is in no chunk, and the statement below is said twice. */
  lemma FormFeedShiftsLines() returns (text: string, node: Statement)
    ensures text == "\U{0c}#a\nX=1\n" && node == Statement(2, 0, 2, 3, false, None)
    ensures Parsed(text, [node]) && !TablesAgree(text, [node])
    ensures text[1] == '#' && Times(AllSpans(text, [node]), 1) == 0
    ensures text[4] == 'X' && Times(AllSpans(text, [node]), 4) == 2
  {
    text, node := "\U{0c}#a\nX=1\n", Statement(2, 0, 2, 3, false, None);
    LinesAreShifted(text, node);
  }

  lemma LinesAreShifted(text: string, node: Statement)
    requires |text| == 8 && text[0] == '\U{0c}' && text[3] == '\n' && text[6] == '1'
    requires forall i | 0 < i < 7 && i != 3 :: !IsBreak(text[i])
    requires node == Statement(2, 0, 2, 3, false, None)
    ensures Parsed(text, [node]) && !TablesAgree(text, [node])
    ensures Times(AllSpans(text, [node]), 1) == 0 && Times(AllSpans(text, [node]), 4) == 2
  {
    FirstRow(Parser, text, 4);
    FirstRow(Splitlines, text, 1);
    for p := 1 to 7
      invariant p > 1 ==> Row(Splitlines, text, p - 1) == if p - 1 < 4 then 1 else 2
      invariant p > 4 ==> Row(Parser, text, p - 1) == 1
      invariant forall q | 1 <= q < p :: Row(Splitlines, text, q) == if q < 4 then 1 else 2
    {
      RowStep(Parser, text, p);
      RowStep(Splitlines, text, p);
    }
    RowStart(Parser, text, 1, 3);
    RowStart(Parser, text, 1, 4);
    assert Start(Parser, text, 1) == 4;
    TimesEmitted(text, [node], 1);
    TimesEmitted(text, [node], 4);
    assert OnLines([node][0], 1) && Within(text, [node][0], 4) && Odd(text[0]);
  }
}
