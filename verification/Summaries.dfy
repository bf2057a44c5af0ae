/** Community summaries cached by content. */
module Summaries {
  // A summary is looked up by the hash of what it describes, so it follows its community when Louvain
  // renumbers it.

  import opened Options
  import opened Text
  import opened TextOrder

  datatype Member = Member(id: string, etype: Option<string>, description: Option<string>)
  datatype Tie = Tie(source: string, target: string, relation: string)
  datatype Community = Community(members: seq<Member>, ties: seq<Tie>)

  // ---------------------------------------------------------------- the member hash

  function OrEmpty(s: Option<string>): string
  {
    match s case Some(x) => x case None => ""
  }

  const FIELD := "\U{1f}"

  function MemberLine(m: Member): string
  {
    m.id + FIELD + OrEmpty(m.etype) + FIELD + OrEmpty(m.description)
  }

  function TieLine(t: Tie): string
  {
    t.source + FIELD + t.target + FIELD + t.relation
  }

  function Insert(line: string, sorted: seq<string>): seq<string>
  {
    if sorted == [] || Leq(line, sorted[0]) then [line] + sorted
    else [sorted[0]] + Insert(line, sorted[1..])
  }

  function Sorted(lines: seq<string>): seq<string>
  {
    if lines == [] then [] else Insert(lines[0], Sorted(lines[1..]))
  }

  function Each<T, U>(f: T -> U, s: seq<T>): seq<U>
  {
    if s == [] then [] else [f(s[0])] + Each(f, s[1..])
  }

  function MemberLines(members: seq<Member>): seq<string>
  {
    Each(MemberLine, members)
  }

  function TieLines(ties: seq<Tie>): seq<string>
  {
    Each(TieLine, ties)
  }

  function AllLines(c: Community): seq<string>
  {
    Sorted(MemberLines(c.members)) + ["---"] + Sorted(TieLines(c.ties))
  }

  /** What the member hash is taken over. */
  function Content(c: Community): string
  {
    Join("\n", AllLines(c))
  }

  predicate InOrder(lines: seq<string>)
  {
    forall i, j | 0 <= i < j < |lines| :: Leq(lines[i], lines[j])
  }

  lemma {:induction false} InsertSorts(line: string, lines: seq<string>)
    requires InOrder(lines)
    ensures InOrder(Insert(line, lines)) && multiset(Insert(line, lines)) == multiset(lines) + multiset{line}
  {
    if lines == [] {
    } else if Leq(line, lines[0]) {
      forall i | 0 <= i < |lines| ensures Leq(line, lines[i]) {
        if i > 0 { LeqTransitive(line, lines[0], lines[i]); }
      }
    } else {
      LeqTotal(line, lines[0]);
      InsertSorts(line, lines[1..]);
      var rest := Insert(line, lines[1..]);
      assert lines == [lines[0]] + lines[1..];
      forall i | 0 <= i < |rest| ensures Leq(lines[0], rest[i]) {
        assert rest[i] in multiset(rest);
        assert rest[i] == line || rest[i] in lines[1..];
      }
    }
  }

  lemma {:induction false} SortedSorts(lines: seq<string>)
    ensures InOrder(Sorted(lines)) && multiset(Sorted(lines)) == multiset(lines)
  {
    if lines != [] {
      SortedSorts(lines[1..]);
      InsertSorts(lines[0], Sorted(lines[1..]));
      assert lines == [lines[0]] + lines[1..];
    }
  }

  /** In a sorted arrangement the first line is below every other. */
  lemma FirstIsLeast(a: seq<string>, x: string)
    requires InOrder(a) && x in a
    ensures Leq(a[0], x)
  {
    var i :| 0 <= i < |a| && a[i] == x;
    if i == 0 { LeqTotal(x, x); }
  }

  lemma SameFirst(a: seq<string>, b: seq<string>)
    requires InOrder(a) && InOrder(b) && multiset(a) == multiset(b) && a != []
    ensures b != [] && a[0] == b[0]
  {
    assert a[0] in multiset(b);
    assert b[0] in multiset(a);
    FirstIsLeast(a, b[0]);
    FirstIsLeast(b, a[0]);
    LeqAntisymmetric(a[0], b[0]);
  }

  /** A multiset of lines has one sorted arrangement. */
  lemma {:induction false} SortedUnique(a: seq<string>, b: seq<string>)
    requires InOrder(a) && InOrder(b) && multiset(a) == multiset(b)
    ensures a == b
  {
    if a == [] {
      assert |multiset(b)| == 0;
    } else {
      SameFirst(a, b);
      assert a == [a[0]] + a[1..] && b == [b[0]] + b[1..];
      assert multiset(a[1..]) == multiset(a) - multiset{a[0]};
      assert multiset(b[1..]) == multiset(b) - multiset{b[0]};
      SortedUnique(a[1..], b[1..]);
    }
  }

  lemma {:induction false} EachConcat<T, U>(f: T -> U, a: seq<T>, b: seq<T>)
    ensures Each(f, a + b) == Each(f, a) + Each(f, b)
  {
    if a == [] {
      assert a + b == b;
    } else {
      assert (a + b)[1..] == a[1..] + b;
      EachConcat(f, a[1..], b);
    }
  }

  lemma EachOne<T, U>(f: T -> U, x: T)
    ensures Each(f, [x]) == [f(x)]
  {
    assert [x][1..] == [];
  }

  lemma EachWithout<T, U>(f: T -> U, front: seq<T>, x: T, back: seq<T>)
    ensures multiset(Each(f, front + [x] + back)) == multiset(Each(f, front + back)) + multiset{f(x)}
  {
    EachConcat(f, front, back);
    EachConcat(f, front, [x]);
    EachConcat(f, front + [x], back);
    assert Each(f, [x]) == [f(x)];
  }

  lemma MultisetWithout<T>(s: seq<T>, i: nat)
    requires i < |s|
    ensures multiset(s[..i] + s[i + 1..]) == multiset(s) - multiset{s[i]}
  {
    assert s == s[..i] + [s[i]] + s[i + 1..];
  }

  lemma PermutationStep<T>(a: seq<T>, b: seq<T>) returns (i: nat)
    requires a != [] && multiset(a) == multiset(b)
    ensures i < |b| && b[i] == a[0] && multiset(a[1..]) == multiset(b[..i] + b[i + 1..])
  {
    assert a[0] in multiset(b);
    i :| 0 <= i < |b| && b[i] == a[0];
    MultisetWithout(a, 0);
    MultisetWithout(b, i);
    assert a[..0] + a[1..] == a[1..];
  }

  lemma {:induction false} EachOfPermutation<T, U>(f: T -> U, a: seq<T>, b: seq<T>)
    requires multiset(a) == multiset(b)
    ensures multiset(Each(f, a)) == multiset(Each(f, b))
    decreases |a|
  {
    if a == [] {
      assert |multiset(b)| == 0;
    } else {
      var i := PermutationStep(a, b);
      assert b == b[..i] + [a[0]] + b[i + 1..];
      EachOfPermutation(f, a[1..], b[..i] + b[i + 1..]);
      EachWithout(f, b[..i], a[0], b[i + 1..]);
    }
  }

  /** The order in which queries return members and ties does not matter. */
  lemma ContentIsOrderIndependent(c: Community, d: Community)
    requires multiset(c.members) == multiset(d.members) && multiset(c.ties) == multiset(d.ties)
    ensures Content(c) == Content(d)
  {
    EachOfPermutation(MemberLine, c.members, d.members);
    EachOfPermutation(TieLine, c.ties, d.ties);
    SortedSorts(MemberLines(c.members));
    SortedSorts(MemberLines(d.members));
    SortedSorts(TieLines(c.ties));
    SortedSorts(TieLines(d.ties));
    SortedUnique(Sorted(MemberLines(c.members)), Sorted(MemberLines(d.members)));
    SortedUnique(Sorted(TieLines(c.ties)), Sorted(TieLines(d.ties)));
  }

  // ---------------------------------------------------------------- different content, different text to hash

  const UNIT := '\U{1f}'

  /** Free of the two characters that separate fields and lines. */
  predicate Clean(field: string)
  {
    UNIT !in field && '\n' !in field
  }

  predicate CleanMember(m: Member)
  {
    Clean(m.id) && Clean(OrEmpty(m.etype)) && Clean(OrEmpty(m.description))
  }

  predicate CleanTie(t: Tie)
  {
    Clean(t.source) && Clean(t.target) && Clean(t.relation)
  }

  predicate CleanCommunity(c: Community)
  {
    (forall m | m in c.members :: CleanMember(m)) && (forall t | t in c.ties :: CleanTie(t))
  }

  /** What the hash sees of a member: a missing type or description counts as an empty one. */
  function Shown(m: Member): Member
  {
    Member(m.id, Some(OrEmpty(m.etype)), Some(OrEmpty(m.description)))
  }

  lemma FieldsBack(a: string, b: string, c: string)
    requires UNIT !in a && UNIT !in b && UNIT !in c
    ensures Split(a + FIELD + b + FIELD + c, FIELD) == [a, b, c]
  {
    JoinThree(FIELD, a, b, c);
    SplitJoin(UNIT, [a, b, c]);
  }

  /** The member, or the tie, that a line describes. */
  function MemberOf(line: string): Member
  {
    var fields := Split(line, FIELD);
    if |fields| == 3 then Member(fields[0], Some(fields[1]), Some(fields[2])) else Member("", None, None)
  }

  function TieOf(line: string): Tie
  {
    var fields := Split(line, FIELD);
    if |fields| == 3 then Tie(fields[0], fields[1], fields[2]) else Tie("", "", "")
  }

  lemma MemberBack(m: Member)
    requires CleanMember(m)
    ensures MemberOf(MemberLine(m)) == Shown(m)
  {
    FieldsBack(m.id, OrEmpty(m.etype), OrEmpty(m.description));
  }

  lemma TieBack(t: Tie)
    requires CleanTie(t)
    ensures TieOf(TieLine(t)) == t
  {
    FieldsBack(t.source, t.target, t.relation);
  }

  lemma {:induction false} EachBack<T, U, V>(f: T -> U, g: U -> V, h: T -> V, s: seq<T>)
    requires forall x | x in s :: g(f(x)) == h(x)
    ensures Each(g, Each(f, s)) == Each(h, s)
  {
    if s != [] {
      assert s[0] in s && forall x | x in s[1..] :: x in s;
      EachBack(f, g, h, s[1..]);
      assert Each(f, s)[0] == f(s[0]) && Each(f, s)[1..] == Each(f, s[1..]);
    }
  }

  lemma MembersBack(members: seq<Member>)
    requires forall m | m in members :: CleanMember(m)
    ensures Each(MemberOf, MemberLines(members)) == Each(Shown, members)
  {
    forall m | m in members ensures MemberOf(MemberLine(m)) == Shown(m) { MemberBack(m); }
    EachBack(MemberLine, MemberOf, Shown, members);
  }

  function Itself(t: Tie): Tie
  {
    t
  }

  lemma {:induction false} EachItself(ties: seq<Tie>)
    ensures Each(Itself, ties) == ties
  {
    if ties != [] { EachItself(ties[1..]); }
  }

  lemma TiesBack(ties: seq<Tie>)
    requires forall t | t in ties :: CleanTie(t)
    ensures Each(TieOf, TieLines(ties)) == ties
  {
    forall t | t in ties ensures TieOf(TieLine(t)) == Itself(t) { TieBack(t); }
    EachBack(TieLine, TieOf, Itself, ties);
    EachItself(ties);
  }

  /** Lines that hold a field separator and no line break. */
  predicate FieldLines(lines: seq<string>)
  {
    forall l | l in lines :: UNIT in l && '\n' !in l
  }

  lemma OneLine(a: string, b: string, c: string)
    requires Clean(a) && Clean(b) && Clean(c)
    ensures FieldLines([a + FIELD + b + FIELD + c])
  {
    var line := a + FIELD + b + FIELD + c;
    assert line[|a|] == UNIT;
  }

  lemma {:induction false} MembersAreLines(members: seq<Member>)
    requires forall m | m in members :: CleanMember(m)
    ensures FieldLines(MemberLines(members))
  {
    if members != [] {
      var m := members[0];
      assert m in members && forall n | n in members[1..] :: n in members;
      OneLine(m.id, OrEmpty(m.etype), OrEmpty(m.description));
      MembersAreLines(members[1..]);
      assert MemberLines(members) == [MemberLine(m)] + MemberLines(members[1..]);
    }
  }

  lemma {:induction false} TiesAreLines(ties: seq<Tie>)
    requires forall t | t in ties :: CleanTie(t)
    ensures FieldLines(TieLines(ties))
  {
    if ties != [] {
      var t := ties[0];
      assert t in ties && forall u | u in ties[1..] :: u in ties;
      OneLine(t.source, t.target, t.relation);
      TiesAreLines(ties[1..]);
      assert TieLines(ties) == [TieLine(t)] + TieLines(ties[1..]);
    }
  }

  lemma SortedLines(lines: seq<string>)
    requires FieldLines(lines)
    ensures FieldLines(Sorted(lines))
  {
    SortedSorts(lines);
    forall l | l in Sorted(lines) ensures l in lines { assert l in multiset(Sorted(lines)); }
  }

  lemma LinesOfCommunity(c: Community)
    requires CleanCommunity(c)
    ensures FieldLines(Sorted(MemberLines(c.members))) && FieldLines(Sorted(TieLines(c.ties)))
    ensures forall l | l in AllLines(c) :: '\n' !in l
  {
    MembersAreLines(c.members);
    TiesAreLines(c.ties);
    SortedLines(MemberLines(c.members));
    SortedLines(TieLines(c.ties));
  }

  /** The ruler stands between members and ties, and only there. */
  lemma OneRuler(a: seq<string>, b: seq<string>, x: seq<string>, y: seq<string>)
    requires FieldLines(a) && FieldLines(b) && FieldLines(x) && FieldLines(y)
    requires a + ["---"] + b == x + ["---"] + y
    ensures a == x && b == y
  {
    var all := a + ["---"] + b;
    assert all[|a|] == "---" && all[|x|] == "---" && UNIT !in "---";
    assert |a| == |x|;
    assert all[..|a|] == a && all[..|x|] == x && all[|a| + 1..] == b && all[|x| + 1..] == y;
  }

  lemma SameLines(c: Community, d: Community)
    requires CleanCommunity(c) && CleanCommunity(d) && Content(c) == Content(d)
    ensures multiset(MemberLines(c.members)) == multiset(MemberLines(d.members))
    ensures multiset(TieLines(c.ties)) == multiset(TieLines(d.ties))
  {
    LinesOfCommunity(c);
    LinesOfCommunity(d);
    SplitJoin('\n', AllLines(c));
    SplitJoin('\n', AllLines(d));
    OneRuler(Sorted(MemberLines(c.members)), Sorted(TieLines(c.ties)),
             Sorted(MemberLines(d.members)), Sorted(TieLines(d.ties)));
    SortedSorts(MemberLines(c.members));
    SortedSorts(MemberLines(d.members));
    SortedSorts(TieLines(c.ties));
    SortedSorts(TieLines(d.ties));
  }

  lemma {:induction false} ShownLines(members: seq<Member>)
    ensures MemberLines(Each(Shown, members)) == MemberLines(members)
  {
    if members != [] { ShownLines(members[1..]); }
  }

  /**
   * The text that is hashed is the same exactly when members and ties are, up to order and to the
   * difference between a missing field and an empty one; so any other change of a member or a tie
   * makes a summary out of date.
   */
  lemma SameContentIff(c: Community, d: Community)
    requires CleanCommunity(c) && CleanCommunity(d)
    ensures Content(c) == Content(d) <==>
              && multiset(Each(Shown, c.members)) == multiset(Each(Shown, d.members))
              && multiset(c.ties) == multiset(d.ties)
  {
    if Content(c) == Content(d) {
      SameLines(c, d);
      MembersBack(c.members);
      MembersBack(d.members);
      TiesBack(c.ties);
      TiesBack(d.ties);
      EachOfPermutation(MemberOf, MemberLines(c.members), MemberLines(d.members));
      EachOfPermutation(TieOf, TieLines(c.ties), TieLines(d.ties));
    }
    var x, y := Each(Shown, c.members), Each(Shown, d.members);
    if multiset(x) == multiset(y) && multiset(c.ties) == multiset(d.ties) {
      ContentIsOrderIndependent(Community(x, c.ties), Community(y, d.ties));
      ShownLines(c.members);
      ShownLines(d.members);
    }
  }

  /** A line break in a description can make one member look like two. */
  lemma LineBreakCollides() returns (c: Community, d: Community)
    ensures Content(c) == Content(d) && |c.members| == 1 && |d.members| == 2
    ensures c.members[0].description == Some("x\n" + "b" + FIELD + FIELD)
  {
    var one := Member("a", None, Some("x\n" + "b" + FIELD + FIELD));
    var first, second := Member("a", None, Some("x")), Member("b", None, None);
    c, d := Community([one], []), Community([first, second], []);
    CollidingLines(one, first, second);
  }

  lemma SortedOne(line: string)
    ensures Sorted([line]) == [line]
  {
    assert [line][1..] == [] && Sorted([]) == [] && Insert(line, []) == [line];
  }

  lemma SortedTwo(a: string, b: string)
    requires Leq(a, b)
    ensures Sorted([a, b]) == [a, b]
  {
    SortedOne(b);
    assert [a, b][1..] == [b] && Insert(a, [b]) == [a] + [b];
  }

  lemma CollidingLines(one: Member, first: Member, second: Member)
    requires MemberLine(one) == MemberLine(first) + "\n" + MemberLine(second)
    requires Leq(MemberLine(first), MemberLine(second))
    ensures Content(Community([one], [])) == Content(Community([first, second], []))
  {
    var x, y, z := MemberLine(one), MemberLine(first), MemberLine(second);
    EachOne(MemberLine, one);
    EachOne(MemberLine, first);
    EachOne(MemberLine, second);
    EachConcat(MemberLine, [first], [second]);
    assert [first, second] == [first] + [second];
    assert MemberLines([one]) == [x] && MemberLines([first, second]) == [y] + [z] == [y, z];
    SortedTwo(y, z);
    SortedOne(x);
    assert Sorted(TieLines([])) == [];
    assert AllLines(Community([one], [])) == [x, "---"] && AllLines(Community([first, second], [])) == [y, z, "---"];
    JoinTwo("\n", x, "---");
    JoinThree("\n", y, z, "---");
  }

  // ---------------------------------------------------------------- the summary rows

  datatype Summary = Summary(text: string, embedding: string)
  datatype Row = Row(summary: Summary, memberHash: Option<string>)
  datatype CommunityId = CommunityId(number: int)
  datatype Prior = Prior(id: CommunityId, row: Row)
  datatype Outcome = Generated | Reused | Empty | Failed

  /** The model answered `summary` when shown a community with this content. */
  datatype Answer = Answer(content: string, summary: Summary)

  predicate Hashed(row: Row)
  {
    row.memberHash.Some? && row.memberHash.value != ""
  }

  /** Every entry is a row under the hash it carries. */
  ghost predicate IndexesFrom(rows: map<CommunityId, Row>, previous: map<string, Prior>)
  {
    forall h | h in previous ::
      && h != "" && previous[h].id in rows && rows[previous[h].id] == previous[h].row
      && previous[h].row.memberHash == Some(h)
  }

  /** The rows by member hash; of rows with the same hash the one read last. */
  ghost predicate IsIndex(rows: map<CommunityId, Row>, previous: map<string, Prior>)
  {
    && IndexesFrom(rows, previous)
    && forall id | id in rows && rows[id].memberHash.Some? && rows[id].memberHash.value != "" ::
         rows[id].memberHash.value in previous
  }

  /** These rows, where there were any, are as they were at the start. */
  predicate Untouched(rows: map<CommunityId, Row>, start: map<CommunityId, Row>, ids: set<CommunityId>)
  {
    forall id | id in ids && id in start :: id in rows && rows[id] == start[id]
  }

  /** No row but this one has changed. */
  ghost predicate OnlyRow(before: map<CommunityId, Row>, after: map<CommunityId, Row>, id: CommunityId)
  {
    forall j | j != id :: (j in after <==> j in before) && (j in after ==> after[j] == before[j])
  }

  lemma UntouchedAfter(before: map<CommunityId, Row>, after: map<CommunityId, Row>, start: map<CommunityId, Row>,
                       rest: set<CommunityId>, id: CommunityId)
    requires Untouched(before, start, rest + {id}) && OnlyRow(before, after, id) && id !in rest
    ensures Untouched(after, start, rest)
  {
  }

  /** The communities gone through: those the model was asked about, and of these the ones that went well; the
      failures; and those that end with a summary. */
  datatype Tally = Tally(asked: set<CommunityId>, made: set<CommunityId>, bad: set<CommunityId>, done: set<CommunityId>)

  predicate TalliedAt(all: set<CommunityId>, inhabited: set<CommunityId>, t: Tally, rest: set<CommunityId>,
                      c: CommunityId)
  {
    && (c in t.asked <==> c in all && c !in rest) && (c in t.made <==> c in t.asked && c !in t.bad)
    && (c in t.bad ==> c in inhabited && c !in rest)
    && (c in t.done <==> c in inhabited && c !in rest && c !in t.bad)
  }

  ghost predicate Tallied(all: set<CommunityId>, inhabited: set<CommunityId>, t: Tally, rest: set<CommunityId>)
  {
    forall c :: TalliedAt(all, inhabited, t, rest, c)
  }

  function OneIf(id: CommunityId, counted: bool): set<CommunityId>
  {
    if counted then {id} else {}
  }

  lemma AddOne(s: set<CommunityId>, id: CommunityId, counted: bool)
    requires id !in s
    ensures |s + OneIf(id, counted)| == |s| + if counted then 1 else 0
  {
  }

  lemma OneMore(all: set<CommunityId>, inhabited: set<CommunityId>, t: Tally, before: set<CommunityId>,
                rest: set<CommunityId>, id: CommunityId, lost: bool)
    returns (t': Tally)
    requires Tallied(all, inhabited, t, before) && id in before && rest == before - {id} && (lost ==> id in inhabited)
    ensures Tallied(all, inhabited, t', rest)
    ensures |t'.asked| == |t.asked| + (if id in all then 1 else 0)
    ensures |t'.made| == |t.made| + (if id in all && !lost then 1 else 0)
    ensures |t'.bad| == |t.bad| + (if lost then 1 else 0)
    ensures t'.done == t.done + OneIf(id, id in inhabited && !lost)
  {
    t' := Tally(t.asked + OneIf(id, id in all), t.made + OneIf(id, id in all && !lost), t.bad + OneIf(id, lost),
                t.done + OneIf(id, id in inhabited && !lost));
    assert TalliedAt(all, inhabited, t, before, id);
    AddOne(t.asked, id, id in all);
    AddOne(t.made, id, id in all && !lost);
    AddOne(t.bad, id, lost);
    forall c ensures TalliedAt(all, inhabited, t', rest, c) {
      assert TalliedAt(all, inhabited, t, before, c);
    }
  }

  lemma AllTallied(all: set<CommunityId>, inhabited: set<CommunityId>, t: Tally)
    requires Tallied(all, inhabited, t, {})
    ensures t.asked == all && t.made == all - t.bad && t.bad <= inhabited && t.done == inhabited - t.bad
  {
    forall c ensures (c in t.asked <==> c in all) && (c in t.made <==> c in all && c !in t.bad)
             ensures (c in t.bad ==> c in inhabited) && (c in t.done <==> c in inhabited && c !in t.bad) {
      assert TalliedAt(all, inhabited, t, {}, c);
    }
  }

  class Summarizer {
    const sha: string -> string
    var rows: map<CommunityId, Row>
    var calls: nat
    ghost var answers: set<Answer>

    constructor (sha: string -> string)
      ensures this.sha == sha && rows == map[] && calls == 0 && answers == {} && Valid()
    {
      this.sha := sha;
      rows, calls, answers := map[], 0, {};
    }

    /** Every stored summary is an answer the model gave about content with the row's hash. */
    ghost predicate Valid()
      reads this
    {
      forall id | id in rows && rows[id].memberHash.Some? :: Honest(rows[id].summary, rows[id].memberHash.value)
    }

    ghost predicate Honest(summary: Summary, memberHash: string)
      reads this
    {
      exists a :: a in answers && a.summary == summary && sha(a.content) == memberHash
    }

    function HashOf(c: Community): string
    {
      sha(Content(c))
    }

    /** Row id is about this community. */
    ghost predicate Describes(id: CommunityId, c: Community)
      reads this
    {
      id in rows && rows[id].memberHash == Some(HashOf(c)) && Honest(rows[id].summary, HashOf(c))
    }

    method SummariesByHash() returns (previous: map<string, Prior>)
      ensures IsIndex(rows, previous)
    {
      previous := map[];
      var rest := rows.Keys;
      while rest != {}
        invariant rest <= rows.Keys && IndexesFrom(rows, previous)
        invariant forall id | id in rows && id !in rest && Hashed(rows[id]) :: rows[id].memberHash.value in previous
        decreases rest
      {
        var id :| id in rest;
        rest := rest - {id};
        if Hashed(rows[id]) {
          previous := previous[rows[id].memberHash.value := Prior(id, rows[id])];
        }
      }
    }

    method UpsertCommunity(id: CommunityId, summary: Summary, memberHash: string) returns (ok: bool)
      modifies this`rows
      ensures rows == if ok then old(rows)[id := Row(summary, Some(memberHash))] else old(rows)
    {
      ok := *;
      if ok {
        rows := rows[id := Row(summary, Some(memberHash))];
      }
    }

    /** One generation and its embedding; either may fail. */
    method Generate(c: Community) returns (ok: bool, summary: Summary)
      modifies this`calls, this`answers
      ensures calls == old(calls) + 1 && old(answers) <= answers
      ensures ok ==> Answer(Content(c), summary) in answers
    {
      calls := calls + 1;
      ok := *;
      var text: string, embedding: string := *, *;
      summary := Summary(text, embedding);
      if ok {
        answers := answers + {Answer(Content(c), summary)};
      }
    }

    /** The summary stored for this content, if the index has one. */
    function Found(previous: Option<map<string, Prior>>, c: Community): Option<Row>
    {
      if previous.Some? && HashOf(c) in previous.value then Some(previous.value[HashOf(c)].row) else None
    }

    /** Row id is about this community, and is the stored summary if there was one. */
    ghost predicate Settled(id: CommunityId, c: Community, previous: Option<map<string, Prior>>)
      reads this
    {
      Describes(id, c) && (Found(previous, c).Some? ==> rows[id] == Found(previous, c).value)
    }

    /** The index was read from `start`, whose row for id has not been touched since. */
    ghost predicate Serves(start: map<CommunityId, Row>, previous: Option<map<string, Prior>>)
      reads this
    {
      previous.Some? ==> IndexesFrom(start, previous.value) && forall id | id in start && start[id].memberHash.Some? ::
        Honest(start[id].summary, start[id].memberHash.value)
    }

    /** previous is None when every summary is to be regenerated. */
    method SummarizeCommunity(id: CommunityId, c: Community, previous: Option<map<string, Prior>>,
                              ghost start: map<CommunityId, Row>)
      returns (outcome: Outcome)
      requires Valid() && Serves(start, previous)
      requires Untouched(rows, start, {id})
      modifies this`rows, this`calls, this`answers
      ensures Valid() && old(answers) <= answers
      ensures OnlyRow(old(rows), rows, id)
      ensures forall j, d | j != id && old(Settled(j, d, previous)) :: Settled(j, d, previous)
      ensures outcome.Empty? <==> c.members == []
      ensures outcome.Empty? ==> rows == old(rows) && calls == old(calls)
      ensures outcome.Generated? || outcome.Reused? ==> Settled(id, c, previous)
      ensures outcome.Failed? ==> rows == old(rows)
      ensures c.members != [] && Found(previous, c).Some? ==> calls == old(calls) && !outcome.Generated?
      ensures c.members != [] && Found(previous, c).None? ==> calls == old(calls) + 1 && !outcome.Reused?
    {
      if c.members == [] {
        return Empty;
      }
      var newHash := HashOf(c);
      if previous.Some? && newHash in previous.value {
        var prior := previous.value[newHash];
        if prior.id != id {
          var ok := UpsertCommunity(id, prior.row.summary, newHash);
          return if ok then Reused else Failed;
        }
        return Reused;
      }
      var ok, summary := Generate(c);
      if ok {
        ok := UpsertCommunity(id, summary, newHash);
      }
      outcome := if ok then Generated else Failed;
    }

    /** Rows of communities that no longer exist go last, so that a long run keeps serving the old ones. */
    method DeleteStale(active: set<CommunityId>) returns (ok: bool)
      modifies this`rows
      ensures rows == if ok then Kept(old(rows), active) else old(rows)
    {
      ok := *;
      if ok {
        rows := Kept(rows, active);
      }
    }

    static function Kept(r: map<CommunityId, Row>, active: set<CommunityId>): map<CommunityId, Row>
    {
      map id | id in r && id in active :: r[id]
    }

    /** The communities that have an entity; a community without one is passed over. */
    static function Inhabited(communities: map<CommunityId, Community>): set<CommunityId>
    {
      set id | id in communities && communities[id].members != []
    }

    /** The communities for which no stored summary has this content: the model is asked about each once. */
    function Asked(previous: Option<map<string, Prior>>, communities: map<CommunityId, Community>): set<CommunityId>
    {
      set id | id in communities && communities[id].members != [] && Found(previous, communities[id]).None?
    }

    predicate AllFound(previous: Option<map<string, Prior>>, communities: map<CommunityId, Community>)
    {
      forall id | id in Inhabited(communities) :: Found(previous, communities[id]).Some?
    }

    ghost predicate AllSettled(communities: map<CommunityId, Community>, previous: Option<map<string, Prior>>,
                               ids: set<CommunityId>)
      reads this
    {
      forall id | id in ids :: id in communities && Settled(id, communities[id], previous)
    }

    lemma SettledSnoc(communities: map<CommunityId, Community>, previous: Option<map<string, Prior>>,
                      ids: set<CommunityId>, id: CommunityId)
      requires AllSettled(communities, previous, ids) && id in communities && Settled(id, communities[id], previous)
      ensures AllSettled(communities, previous, ids + {id})
    {
    }

    /** One community, counted as summarized, skipped or failed. */
    method SummarizeNext(communities: map<CommunityId, Community>, id: CommunityId,
                         previous: Option<map<string, Prior>>, ghost start: map<CommunityId, Row>)
      returns (summarized: nat, skipped: nat, failed: nat)
      requires Valid() && Serves(start, previous) && id in communities && Untouched(rows, start, {id})
      modifies this`rows, this`calls, this`answers
      ensures Valid() && old(answers) <= answers && OnlyRow(old(rows), rows, id)
      ensures summarized + skipped + failed == 1
      ensures summarized == 1 ==> id in Asked(previous, communities)
      ensures skipped == 1 ==> id !in Asked(previous, communities)
      ensures failed == 1 ==> id in Inhabited(communities)
      ensures calls == old(calls) + if id in Asked(previous, communities) then 1 else 0
      ensures id in Inhabited(communities) && failed == 0 ==> Settled(id, communities[id], previous)
      ensures forall ids | id !in ids && old(AllSettled(communities, previous, ids)) ::
                AllSettled(communities, previous, ids)
    {
      var outcome := SummarizeCommunity(id, communities[id], previous, start);
      match outcome
      case Generated => return 1, 0, 0;
      case Reused | Empty => return 0, 1, 0;
      case Failed => return 0, 0, 1;
    }

    /** The communities one after the other, each failure counted and passed over. */
    method SummarizeEach(communities: map<CommunityId, Community>, previous: Option<map<string, Prior>>)
      returns (summarized: nat, skipped: nat, failed: nat, ghost bad: set<CommunityId>)
      requires Valid() && Serves(rows, previous)
      modifies this
      ensures Valid() && old(answers) <= answers
      ensures bad <= Inhabited(communities) && AllSettled(communities, previous, Inhabited(communities) - bad)
      ensures calls == old(calls) + |Asked(previous, communities)|
      ensures summarized == |Asked(previous, communities) - bad| && failed == |bad|
      ensures summarized + skipped + failed == |communities|
    {
      summarized, skipped, failed := 0, 0, 0;
      ghost var start, tally := rows, Tally({}, {}, {}, {});
      ghost var all, inhabited := Asked(previous, communities), Inhabited(communities);
      var rest := communities.Keys;
      while rest != {}
        invariant rest <= communities.Keys && Tallied(all, inhabited, tally, rest)
        invariant Valid() && old(answers) <= answers && Serves(start, previous)
        invariant summarized + skipped + failed + |rest| == |communities|
        invariant calls == old(calls) + |tally.asked| && summarized == |tally.made| && failed == |tally.bad|
        invariant Untouched(rows, start, rest) && AllSettled(communities, previous, tally.done)
        decreases rest
      {
        var id :| id in rest;
        ghost var before, was, earlier := rows, tally, rest;
        rest := rest - {id};
        assert TalliedAt(all, inhabited, was, earlier, id);
        assert AllSettled(communities, previous, was.done) && id !in was.done;
        var made, passed, lost := SummarizeNext(communities, id, previous, start);
        UntouchedAfter(before, rows, start, rest, id);
        summarized, skipped, failed := summarized + made, skipped + passed, failed + lost;
        tally := OneMore(all, inhabited, was, earlier, rest, id, lost == 1);
        assert AllSettled(communities, previous, was.done);
        if lost == 0 && id in inhabited {
          SettledSnoc(communities, previous, was.done, id);
        }
      }
      bad := tally.bad;
      AllTallied(all, inhabited, tally);
    }

    /** With a summary for every content nothing is asked, and without an index everything is. */
    lemma AskedWhen(communities: map<CommunityId, Community>, previous: Option<map<string, Prior>>)
      ensures Asked(previous, communities) == {} <==> AllFound(previous, communities)
      ensures previous.None? ==> Asked(previous, communities) == Inhabited(communities)
    {
      forall id | id in Inhabited(communities) && Found(previous, communities[id]).None?
        ensures id in Asked(previous, communities)
      {
      }
    }

    /**
     * Summarize every community of the partition just detected, then drop the stale rows.  The
     * old ids mean nothing here: `communities` may be any renumbering of what the rows describe.
     */
    method SummarizeAll(communities: map<CommunityId, Community>, force: bool)
      returns (finished: bool, summarized: nat, skipped: nat, failed: nat,
               ghost previous: Option<map<string, Prior>>, ghost bad: set<CommunityId>)
      requires Valid()
      modifies this
      ensures Valid() && old(answers) <= answers
      ensures if force then previous == None else previous.Some? && IsIndex(old(rows), previous.value)
      ensures finished ==> rows.Keys <= communities.Keys
      ensures finished && failed == 0 ==>
                && Inhabited(communities) <= rows.Keys
                && AllSettled(communities, previous, Inhabited(communities))
      ensures bad <= Inhabited(communities) && failed == |bad|
      ensures calls == old(calls) + |Asked(previous, communities)|
      ensures summarized == |Asked(previous, communities) - bad|
      ensures summarized + skipped + failed == |communities|
    {
      var index: Option<map<string, Prior>> := None;
      if !force {
        var byHash := SummariesByHash();
        index := Some(byHash);
      }
      previous := index;
      summarized, skipped, failed, bad := SummarizeEach(communities, index);
      ghost var before := rows;
      finished := DeleteStale(communities.Keys);
      assert Valid() by {
        assert forall id | id in rows :: id in before && rows[id] == before[id];
      }
    }

    /**
     * If some row, under whatever id, carries the current hash of every community, a run that is
     * not forced asks the model nothing, and when no write fails each id ends with a summary the
     * model gave for exactly the content its community has now.
     */
    method SummarizeRenumbered(communities: map<CommunityId, Community>) returns (finished: bool, failed: nat)
      requires Valid()
      requires forall x, y :: sha(x) == sha(y) ==> x == y
      requires forall id | id in Inhabited(communities) :: HashOf(communities[id]) != ""
                 && exists j :: j in rows && rows[j].memberHash == Some(HashOf(communities[id]))
      modifies this
      ensures Valid() && calls == old(calls)
      ensures finished && failed == 0 ==>
                && Inhabited(communities) <= rows.Keys <= communities.Keys
                && forall id | id in Inhabited(communities) ::
                     exists a :: a in answers && a.summary == rows[id].summary && a.content == Content(communities[id])
    {
      var summarized, skipped;
      ghost var previous, bad;
      finished, summarized, skipped, failed, previous, bad := SummarizeAll(communities, false);
      AskedWhen(communities, previous);
    }
  }
}
