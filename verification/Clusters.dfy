/** Community placement by relationships and co-occurrence. */
module Clusters {
  // Louvain over the relationships the model extracted, then rounds that attach the remaining
  // entities by co-occurrence, then Louvain over what no round reached.

  import opened Graphs

  /** One item of the co-occurrence dictionary, or one weighted edge of a graph. */
  datatype Edge = Edge(a: Vertex, b: Vertex, weight: real)
  datatype Graph = Graph(nodes: set<Vertex>, edges: seq<Edge>)

  predicate Covered(communities: seq<set<Vertex>>, e: Vertex)
  {
    exists i | 0 <= i < |communities| :: e in communities[i]
  }

  /** Disjoint, and together exactly the nodes. */
  ghost predicate Partitions(communities: seq<set<Vertex>>, nodes: set<Vertex>)
  {
    && (forall e :: Covered(communities, e) <==> e in nodes)
    && (forall i, j, e | 0 <= i < j < |communities| && e in communities[i] :: e !in communities[j])
  }

  // ---------------------------------------------------------------- distance from the placed entities

  predicate Adjacent(co: seq<Edge>, x: Vertex, y: Vertex)
  {
    exists i | 0 <= i < |co| :: (co[i].a == x && co[i].b == y) || (co[i].a == y && co[i].b == x)
  }

  function Endpoints(co: seq<Edge>): set<Vertex>
  {
    (set i | 0 <= i < |co| :: co[i].a) + (set i | 0 <= i < |co| :: co[i].b)
  }

  predicate Borders(co: seq<Edge>, placed: set<Vertex>, e: Vertex)
  {
    exists i | 0 <= i < |co| :: (co[i].a == e && co[i].b in placed) || (co[i].b == e && co[i].a in placed)
  }

  /** The unplaced entities that co-occur with a placed one. */
  function Frontier(co: seq<Edge>, placed: set<Vertex>): set<Vertex>
  {
    set e | e in Endpoints(co) && e !in placed && Borders(co, placed, e)
  }

  /** The entities at most r co-occurrences away from the base. */
  function Ball(co: seq<Edge>, base: set<Vertex>, r: nat): set<Vertex>
  {
    if r == 0 then base else Ball(co, base, r - 1) + Frontier(co, Ball(co, base, r - 1))
  }

  lemma {:induction false} BallGrows(co: seq<Edge>, base: set<Vertex>, r: nat, q: nat)
    requires r <= q
    ensures Ball(co, base, r) <= Ball(co, base, q)
    decreases q
  {
    if r < q { BallGrows(co, base, r, q - 1); }
  }

  lemma {:induction false} BallStops(co: seq<Edge>, base: set<Vertex>, r: nat, q: nat)
    requires Frontier(co, Ball(co, base, r)) == {} && r <= q
    ensures Ball(co, base, q) == Ball(co, base, r)
    decreases q
  {
    if r < q {
      BallStops(co, base, r, q - 1);
      NoMore(co, base, Ball(co, base, r), q);
    }
  }

  lemma NoMore(co: seq<Edge>, base: set<Vertex>, placed: set<Vertex>, q: nat)
    requires q > 0 && Ball(co, base, q - 1) == placed && Frontier(co, placed) == {}
    ensures Ball(co, base, q) == placed
  {
  }

  /** A chain of co-occurrences. */
  predicate Chain(co: seq<Edge>, path: seq<Vertex>)
  {
    |path| > 0 && forall i | 0 <= i < |path| - 1 :: Adjacent(co, path[i], path[i + 1])
  }

  /** A chain of at most so many entities from the base to e. */
  predicate LeadsTo(co: seq<Edge>, base: set<Vertex>, path: seq<Vertex>, e: Vertex, most: nat)
  {
    Chain(co, path) && path[0] in base && path[|path| - 1] == e && |path| <= most
  }

  /** The ball is exactly what chains of at most r steps lead to, so leaving it takes a longer one. */
  lemma {:induction false} BallIsDistance(co: seq<Edge>, base: set<Vertex>, r: nat, e: Vertex)
    ensures e in Ball(co, base, r) <==>
              exists path :: Chain(co, path) && path[0] in base && path[|path| - 1] == e && |path| <= r + 1
  {
    if e in Ball(co, base, r) {
      var path := ChainTo(co, base, r, e);
    }
    if path :| Chain(co, path) && path[0] in base && path[|path| - 1] == e && |path| <= r + 1 {
      ChainStays(co, base, path);
      BallGrows(co, base, |path| - 1, r);
    }
  }

  lemma {:induction false} ChainTo(co: seq<Edge>, base: set<Vertex>, r: nat, e: Vertex) returns (path: seq<Vertex>)
    requires e in Ball(co, base, r)
    ensures LeadsTo(co, base, path, e, r + 1)
  {
    if r == 0 {
      path := [e];
    } else if e in Ball(co, base, r - 1) {
      path := ChainTo(co, base, r - 1, e);
      LeadsLonger(co, base, path, e, r);
    } else {
      var y := FrontierNeighbour(co, Ball(co, base, r - 1), e);
      var prior := ChainTo(co, base, r - 1, y);
      path := ChainSnoc(co, base, prior, y, e, r);
    }
  }

  lemma LeadsLonger(co: seq<Edge>, base: set<Vertex>, path: seq<Vertex>, e: Vertex, most: nat)
    requires LeadsTo(co, base, path, e, most)
    ensures LeadsTo(co, base, path, e, most + 1)
  {
  }

  lemma ChainSnoc(co: seq<Edge>, base: set<Vertex>, prior: seq<Vertex>, y: Vertex, e: Vertex, most: nat)
    returns (path: seq<Vertex>)
    requires LeadsTo(co, base, prior, y, most) && Adjacent(co, y, e)
    ensures LeadsTo(co, base, path, e, most + 1)
  {
    path := prior + [e];
  }

  lemma FrontierNeighbour(co: seq<Edge>, placed: set<Vertex>, e: Vertex) returns (y: Vertex)
    requires e in Frontier(co, placed)
    ensures y in placed && Adjacent(co, y, e)
  {
    var i :| 0 <= i < |co| && ((co[i].a == e && co[i].b in placed) || (co[i].b == e && co[i].a in placed));
    y := if co[i].a == e && co[i].b in placed then co[i].b else co[i].a;
  }

  lemma {:induction false} ChainStays(co: seq<Edge>, base: set<Vertex>, path: seq<Vertex>)
    requires Chain(co, path) && path[0] in base
    ensures path[|path| - 1] in Ball(co, base, |path| - 1)
  {
    if |path| > 1 {
      var n := |path| - 1;
      ChainStays(co, base, path[..n]);
      assert Adjacent(co, path[n - 1], path[n]);
      var i :| 0 <= i < |co|
               && ((co[i].a == path[n - 1] && co[i].b == path[n]) || (co[i].a == path[n] && co[i].b == path[n - 1]));
      assert path[n] in Endpoints(co);
    }
  }

  // ---------------------------------------------------------------- affinity

  /** The co-occurrence that edge x gives the unplaced entity e with community k. */
  function Share(x: Edge, placed: map<Vertex, nat>, e: Vertex, k: nat): real
  {
    if x.a in placed && x.b !in placed && x.b == e && placed[x.a] == k then x.weight
    else if x.b in placed && x.a !in placed && x.a == e && placed[x.b] == k then x.weight
    else 0.0
  }

  predicate Shares(x: Edge, placed: map<Vertex, nat>, e: Vertex, k: nat)
  {
    || (x.a in placed && x.b !in placed && x.b == e && placed[x.a] == k)
    || (x.b in placed && x.a !in placed && x.a == e && placed[x.b] == k)
  }

  function Score(co: seq<Edge>, placed: map<Vertex, nat>, e: Vertex, k: nat): real
  {
    if co == [] then 0.0
    else Score(co[..|co| - 1], placed, e, k) + Share(co[|co| - 1], placed, e, k)
  }

  predicate Related(co: seq<Edge>, placed: map<Vertex, nat>, e: Vertex, k: nat)
  {
    exists i | 0 <= i < |co| :: Shares(co[i], placed, e, k)
  }

  /** The community of the greatest score; of equal scores the lowest. */
  ghost predicate Best(co: seq<Edge>, placed: map<Vertex, nat>, e: Vertex, k: nat)
  {
    && Related(co, placed, e, k)
    && forall j: nat | Related(co, placed, e, j) ::
         Score(co, placed, e, j) < Score(co, placed, e, k)
         || (Score(co, placed, e, j) == Score(co, placed, e, k) && k <= j)
  }

  /** One row of the affinity table: the scores of e with each community it is related to. */
  ghost predicate IsRow(co: seq<Edge>, placed: map<Vertex, nat>, e: Vertex, row: map<nat, real>)
  {
    && (forall k: nat :: k in row <==> Related(co, placed, e, k))
    && (forall k | k in row :: row[k] == Score(co, placed, e, k))
  }

  ghost predicate IsTable(co: seq<Edge>, placed: map<Vertex, nat>, table: map<Vertex, map<nat, real>>)
  {
    forall e: Vertex :: HasRow(co, placed, table, e)
  }

  /** The entity has the row of its scores, or none if it has no score. */
  ghost predicate HasRow(co: seq<Edge>, placed: map<Vertex, nat>, table: map<Vertex, map<nat, real>>, e: Vertex)
  {
    IsRow(co, placed, e, RowOf(table, e)) && (e in table ==> table[e] != map[])
  }

  function AddTo(table: map<Vertex, map<nat, real>>, e: Vertex, k: nat, w: real): map<Vertex, map<nat, real>>
  {
    var row := if e in table then table[e] else map[];
    table[e := row[k := (if k in row then row[k] else 0.0) + w]]
  }

  lemma SharesSnoc(co: seq<Edge>, x: Edge, placed: map<Vertex, nat>, e: Vertex, k: nat)
    ensures Related(co + [x], placed, e, k) <==> Related(co, placed, e, k) || Shares(x, placed, e, k)
    ensures Score(co + [x], placed, e, k) == Score(co, placed, e, k) + Share(x, placed, e, k)
  {
    var all := co + [x];
    assert all[..|co|] == co;
    if Shares(x, placed, e, k) { assert Shares(all[|co|], placed, e, k); }
    if Related(co, placed, e, k) {
      var i :| 0 <= i < |co| && Shares(co[i], placed, e, k);
      assert Shares(all[i], placed, e, k);
    }
  }

  /**
   * A co-occurrence of the unplaced entity with a member of the community adds its weight to the
   * score, whichever way round it is, and relates the two; any other adds nothing.
   */
  lemma OneMoreEdge(co: seq<Edge>, x: Edge, placed: map<Vertex, nat>, e: Vertex, k: nat)
    requires e !in placed
    ensures var counts := (x.a == e && x.b in placed && placed[x.b] == k)
                          || (x.b == e && x.a in placed && placed[x.a] == k);
      && Score([], placed, e, k) == 0.0 && !Related([], placed, e, k)
      && Score(co + [x], placed, e, k) == Score(co, placed, e, k) + (if counts then x.weight else 0.0)
      && (Related(co + [x], placed, e, k) <==> Related(co, placed, e, k) || counts)
  {
    SharesSnoc(co, x, placed, e, k);
  }

  lemma {:induction false} UnrelatedScore(co: seq<Edge>, placed: map<Vertex, nat>, e: Vertex, k: nat)
    requires !Related(co, placed, e, k)
    ensures Score(co, placed, e, k) == 0.0
  {
    if co != [] {
      var init, x := co[..|co| - 1], co[|co| - 1];
      assert co == init + [x];
      SharesSnoc(init, x, placed, e, k);
      UnrelatedScore(init, placed, e, k);
    }
  }

  /** The table with one more co-occurrence counted. */
  function Counted(x: Edge, placed: map<Vertex, nat>, table: map<Vertex, map<nat, real>>): map<Vertex, map<nat, real>>
  {
    if x.a in placed && x.b !in placed then AddTo(table, x.b, placed[x.a], x.weight)
    else if x.b in placed && x.a !in placed then AddTo(table, x.a, placed[x.b], x.weight)
    else table
  }

  method AffinityTable(co: seq<Edge>, placed: map<Vertex, nat>) returns (table: map<Vertex, map<nat, real>>)
    ensures IsTable(co, placed, table)
    ensures table.Keys == Frontier(co, placed.Keys)
  {
    table := map[];
    for i := 0 to |co|
      invariant IsTable(co[..i], placed, table)
    {
      var x := co[i];
      assert co[..i + 1] == co[..i] + [x];
      ghost var before := table;
      if x.a in placed && x.b !in placed {
        table := AddTo(table, x.b, placed[x.a], x.weight);
      } else if x.b in placed && x.a !in placed {
        table := AddTo(table, x.a, placed[x.b], x.weight);
      }
      TableStep(co[..i], x, placed, before, table);
    }
    assert co[..|co|] == co;
    TableKeys(co, placed, table);
  }

  lemma RowStep(co: seq<Edge>, x: Edge, placed: map<Vertex, nat>, e: Vertex, row: map<nat, real>, row': map<nat, real>)
    requires IsRow(co, placed, e, row)
    requires forall k: nat :: k in row' <==> k in row || Shares(x, placed, e, k)
    requires forall k: nat | k in row' :: row'[k] == (if k in row then row[k] else 0.0) + Share(x, placed, e, k)
    ensures IsRow(co + [x], placed, e, row')
  {
    forall k: nat
      ensures k in row' <==> Related(co + [x], placed, e, k)
      ensures k in row' ==> row'[k] == Score(co + [x], placed, e, k)
    {
      SharesSnoc(co, x, placed, e, k);
      if !Related(co, placed, e, k) { UnrelatedScore(co, placed, e, k); }
    }
  }

  function RowOf(table: map<Vertex, map<nat, real>>, e: Vertex): map<nat, real>
  {
    if e in table then table[e] else map[]
  }

  lemma CountedRow(x: Edge, placed: map<Vertex, nat>, before: map<Vertex, map<nat, real>>, e: Vertex)
    requires e in before ==> before[e] != map[]
    ensures e in Counted(x, placed, before) ==> Counted(x, placed, before)[e] != map[]
  {
    var after := Counted(x, placed, before);
    if e in after && (e !in before || after[e] != before[e]) {
      assert (if x.a in placed && x.b !in placed then placed[x.a] else placed[x.b]) in after[e];
    }
  }

  lemma TableStepAt(co: seq<Edge>, x: Edge, placed: map<Vertex, nat>, before: map<Vertex, map<nat, real>>, e: Vertex)
    requires HasRow(co, placed, before, e)
    ensures HasRow(co + [x], placed, Counted(x, placed, before), e)
  {
    RowStep(co, x, placed, e, RowOf(before, e), RowOf(Counted(x, placed, before), e));
    CountedRow(x, placed, before, e);
  }

  lemma TableStep(co: seq<Edge>, x: Edge, placed: map<Vertex, nat>, before: map<Vertex, map<nat, real>>,
                  after: map<Vertex, map<nat, real>>)
    requires IsTable(co, placed, before) && after == Counted(x, placed, before)
    ensures IsTable(co + [x], placed, after)
  {
    forall e: Vertex ensures HasRow(co + [x], placed, after, e) {
      assert HasRow(co, placed, before, e);
      TableStepAt(co, x, placed, before, e);
    }
  }

  lemma TableKeys(co: seq<Edge>, placed: map<Vertex, nat>, table: map<Vertex, map<nat, real>>)
    requires IsTable(co, placed, table)
    ensures table.Keys == Frontier(co, placed.Keys)
  {
    forall e ensures e in table <==> e in Frontier(co, placed.Keys) {
      assert HasRow(co, placed, table, e);
      if e in table {
        var k :| k in table[e];
        var i :| 0 <= i < |co| && Shares(co[i], placed, e, k);
        assert e in Endpoints(co);
      }
      if e in Frontier(co, placed.Keys) {
        var i :| 0 <= i < |co| && ((co[i].a == e && co[i].b in placed) || (co[i].b == e && co[i].a in placed));
        var k := if co[i].a == e && co[i].b in placed then placed[co[i].b] else placed[co[i].a];
        assert Shares(co[i], placed, e, k);
        assert Related(co, placed, e, k);
        assert k in RowOf(table, e);
      }
    }
  }

  /** The best-scoring community of a row. */
  method BestOf(row: map<nat, real>) returns (best: nat)
    requires row != map[]
    ensures best in row && forall j | j in row :: row[j] < row[best] || (row[j] == row[best] && best <= j)
  {
    var rest := row.Keys;
    best :| best in rest;
    rest := rest - {best};
    while rest != {}
      invariant best in row && rest <= row.Keys
      invariant forall j | j in row && j !in rest :: row[j] < row[best] || (row[j] == row[best] && best <= j)
      decreases rest
    {
      var k :| k in rest;
      rest := rest - {k};
      if row[k] > row[best] || (row[k] == row[best] && k < best) {
        best := k;
      }
    }
  }

  /** The community that e joins, given where the others are placed. */
  method Choose(co: seq<Edge>, placed: map<Vertex, nat>, e: Vertex, row: map<nat, real>) returns (best: nat)
    requires IsRow(co, placed, e, row) && row != map[]
    ensures Best(co, placed, e, best) && best in placed.Values
  {
    best := BestOf(row);
    RelatedIsCommunity(co, placed, e, best);
  }

  lemma RelatedIsCommunity(co: seq<Edge>, placed: map<Vertex, nat>, e: Vertex, k: nat)
    requires Related(co, placed, e, k)
    ensures k in placed.Values
  {
    var i :| 0 <= i < |co| && Shares(co[i], placed, e, k);
    assert if co[i].a in placed && placed[co[i].a] == k then true else co[i].b in placed && placed[co[i].b] == k;
  }

  // ---------------------------------------------------------------- the rounds

  /** The list of communities and the map from entity to community say the same. */
  ghost predicate Consistent(communities: seq<set<Vertex>>, communityOf: map<Vertex, nat>)
  {
    && (forall e | e in communityOf :: communityOf[e] < |communities|)
    && (forall i, e | 0 <= i < |communities| :: e in communities[i] <==> e in communityOf && communityOf[e] == i)
  }

  lemma ConsistentAdd(communities: seq<set<Vertex>>, communityOf: map<Vertex, nat>, e: Vertex, k: nat)
    requires Consistent(communities, communityOf) && e !in communityOf && k < |communities|
    ensures Consistent(communities[k := communities[k] + {e}], communityOf[e := k])
  {
  }

  /** The first n communities, as a dictionary. */
  ghost predicate Indexed(communities: seq<set<Vertex>>, n: nat, communityOf: map<Vertex, nat>)
    requires n <= |communities|
  {
    forall e :: if e in communityOf then communityOf[e] < n && e in communities[communityOf[e]]
                else forall i | 0 <= i < n :: e !in communities[i]
  }

  method CommunityIndex(communities: seq<set<Vertex>>, ghost nodes: set<Vertex>) returns (communityOf: map<Vertex, nat>)
    requires Partitions(communities, nodes)
    ensures Consistent(communities, communityOf) && communityOf.Keys == nodes
  {
    communityOf := map[];
    for i := 0 to |communities|
      invariant Indexed(communities, i, communityOf)
    {
      communityOf := communityOf + map e | e in communities[i] :: i;
    }
    IndexedIsConsistent(communities, communityOf, nodes);
  }

  lemma IndexedIsConsistent(communities: seq<set<Vertex>>, communityOf: map<Vertex, nat>, nodes: set<Vertex>)
    requires Partitions(communities, nodes) && Indexed(communities, |communities|, communityOf)
    ensures Consistent(communities, communityOf) && communityOf.Keys == nodes
  {
    forall i, e | 0 <= i < |communities| ensures e in communities[i] <==> e in communityOf && communityOf[e] == i {
      assert e in communityOf ==> e in communities[communityOf[e]];
    }
    forall e ensures e in communityOf <==> e in nodes {
      assert Covered(communities, e) <==> e in nodes;
      if e in communityOf { assert e in communities[communityOf[e]]; }
    }
  }

  /** Part of the table has been worked off: those entities have joined, nobody else has moved. */
  ghost predicate Attached(co: seq<Edge>, placed: map<Vertex, nat>, done: set<Vertex>, communities: seq<set<Vertex>>,
                           communityOf: map<Vertex, nat>)
  {
    && Consistent(communities, communityOf)
    && communityOf.Keys == placed.Keys + done
    && (forall e | e in placed :: communityOf[e] == placed[e])
    && (forall e | e in done :: Best(co, placed, e, communityOf[e]))
  }

  lemma AttachedStep(co: seq<Edge>, placed: map<Vertex, nat>, done: set<Vertex>, communities: seq<set<Vertex>>,
                     communityOf: map<Vertex, nat>, e: Vertex, k: nat)
    requires Attached(co, placed, done, communities, communityOf)
    requires e !in placed && e !in done && Best(co, placed, e, k) && k in placed.Values
    ensures k < |communities|
    ensures Attached(co, placed, done + {e}, communities[k := communities[k] + {e}], communityOf[e := k])
  {
    var x :| x in placed && placed[x] == k;
    assert x in communityOf && communityOf[x] == k;
    ConsistentAdd(communities, communityOf, e, k);
  }

  method AttachOne(co: seq<Edge>, ghost done: set<Vertex>, e: Vertex, row: map<nat, real>, placed: map<Vertex, nat>,
                   communities: seq<set<Vertex>>, communityOf: map<Vertex, nat>)
    returns (communities': seq<set<Vertex>>, communityOf': map<Vertex, nat>)
    requires Attached(co, placed, done, communities, communityOf)
    requires e !in placed && e !in done && row != map[] && IsRow(co, placed, e, row)
    ensures Attached(co, placed, done + {e}, communities', communityOf') && |communities'| == |communities|
  {
    var best := Choose(co, placed, e, row);
    AttachedStep(co, placed, done, communities, communityOf, e, best);
    communities' := communities[best := communities[best] + {e}];
    communityOf' := communityOf[e := best];
  }

  /** Every frontier entity joins its best community, all by the placements before the round. */
  method Attach(co: seq<Edge>, table: map<Vertex, map<nat, real>>, communities: seq<set<Vertex>>,
                communityOf: map<Vertex, nat>)
    returns (communities': seq<set<Vertex>>, communityOf': map<Vertex, nat>)
    requires Consistent(communities, communityOf) && IsTable(co, communityOf, table)
    requires table.Keys !! communityOf.Keys
    ensures Attached(co, communityOf, table.Keys, communities', communityOf') && |communities'| == |communities|
  {
    communities', communityOf' := communities, communityOf;
    var rest := table.Keys;
    ghost var done := {};
    while rest != {}
      invariant done + rest == table.Keys && done !! rest
      invariant |communities'| == |communities|
      invariant Attached(co, communityOf, done, communities', communityOf')
      decreases rest
    {
      var e :| e in rest;
      RowInTable(co, communityOf, table, e);
      OneMoreDone(done, rest, table.Keys, e);
      communities', communityOf' := AttachOne(co, done, e, table[e], communityOf, communities', communityOf');
      rest, done := rest - {e}, done + {e};
    }
    assert done == table.Keys;
  }

  lemma OneMoreDone(done: set<Vertex>, rest: set<Vertex>, all: set<Vertex>, e: Vertex)
    requires done + rest == all && done !! rest && e in rest
    ensures (done + {e}) + (rest - {e}) == all && done + {e} !! rest - {e}
  {
  }

  lemma RowInTable(co: seq<Edge>, placed: map<Vertex, nat>, table: map<Vertex, map<nat, real>>, e: Vertex)
    requires IsTable(co, placed, table) && e in table
    ensures IsRow(co, placed, e, table[e]) && table[e] != map[]
  {
    assert HasRow(co, placed, table, e);
  }

  function Restrict(placed: map<Vertex, nat>, to: set<Vertex>): map<Vertex, nat>
  {
    map e | e in placed && e in to :: placed[e]
  }

  /** The balls around the base, by radius. */
  function Balls(co: seq<Edge>, base: set<Vertex>): nat -> set<Vertex>
  {
    (r: nat) => Ball(co, base, r)
  }

  ghost predicate NextBall(co: seq<Edge>, balls: nat -> set<Vertex>, r: nat)
  {
    balls(r + 1) == balls(r) + Frontier(co, balls(r)) && balls(r) <= balls(r + 1)
  }

  lemma BallsAreNext(co: seq<Edge>, base: set<Vertex>)
    ensures Balls(co, base)(0) == base && forall r: nat :: NextBall(co, Balls(co, base), r)
  {
  }

  /** Vertex e joined in round r: the first ball that holds it, at the place its placed neighbours then gave it. */
  ghost predicate JoinedAt(co: seq<Edge>, balls: nat -> set<Vertex>, communityOf: map<Vertex, nat>, e: Vertex, r: nat)
  {
    && e in communityOf && e in balls(r)
    && (r > 0 ==> e !in balls(r - 1) && Best(co, Restrict(communityOf, balls(r - 1)), e, communityOf[e]))
  }

  lemma {:induction false} BallsGrow(co: seq<Edge>, balls: nat -> set<Vertex>, r: nat, q: nat)
    requires r <= q && forall p: nat :: NextBall(co, balls, p)
    ensures balls(r) <= balls(q)
    decreases q
  {
    if r < q {
      BallsGrow(co, balls, r, q - 1);
      assert NextBall(co, balls, q - 1);
    }
  }

  /** Later rounds change nothing about an entity that has joined. */
  lemma JoinedStays(co: seq<Edge>, balls: nat -> set<Vertex>, before: map<Vertex, nat>, after: map<Vertex, nat>,
                    e: Vertex, j: nat, r: nat)
    requires forall p: nat :: NextBall(co, balls, p)
    requires before.Keys == balls(r) && j <= r && JoinedAt(co, balls, before, e, j)
    requires before.Keys <= after.Keys && forall x | x in before :: after[x] == before[x]
    ensures JoinedAt(co, balls, after, e, j)
  {
    if j > 0 {
      BallsGrow(co, balls, j - 1, r);
      RestrictionsAgree(before, after, balls(j - 1));
    }
  }

  lemma RestrictionsAgree(before: map<Vertex, nat>, after: map<Vertex, nat>, to: set<Vertex>)
    requires to <= before.Keys <= after.Keys && forall x | x in before :: after[x] == before[x]
    ensures Restrict(after, to) == Restrict(before, to)
  {
  }

  ghost predicate AllJoined(co: seq<Edge>, balls: nat -> set<Vertex>, communityOf: map<Vertex, nat>,
                            joined: map<Vertex, nat>, r: nat)
  {
    && joined.Keys == communityOf.Keys
    && forall e | e in joined :: joined[e] <= r && JoinedAt(co, balls, communityOf, e, joined[e])
  }

  function InRound(entities: set<Vertex>, r: nat): map<Vertex, nat>
  {
    map e | e in entities :: r
  }

  lemma RoundJoins(co: seq<Edge>, balls: nat -> set<Vertex>, before: map<Vertex, nat>, after: map<Vertex, nat>,
                   joined: map<Vertex, nat>, r: nat)
    requires forall p: nat :: NextBall(co, balls, p)
    requires before.Keys == balls(r) && AllJoined(co, balls, before, joined, r)
    requires after.Keys == before.Keys + Frontier(co, before.Keys) && forall x | x in before :: after[x] == before[x]
    requires forall e | e in Frontier(co, before.Keys) :: Best(co, before, e, after[e])
    ensures after.Keys == balls(r + 1)
    ensures AllJoined(co, balls, after, joined + InRound(Frontier(co, before.Keys), r + 1), r + 1)
  {
    assert NextBall(co, balls, r);
    RestrictionsAgree(before, after, balls(r));
    assert Restrict(before, balls(r)) == before;
    forall e | e in joined ensures JoinedAt(co, balls, after, e, joined[e]) {
      JoinedStays(co, balls, before, after, e, joined[e], r);
    }
    forall e | e in Frontier(co, before.Keys) ensures JoinedAt(co, balls, after, e, r + 1) {
    }
  }

  /** After so many rounds the placed entities are a ball around the start, each where its round put it. */
  ghost predicate AfterRounds(co: seq<Edge>, startOf: map<Vertex, nat>, communityOf: map<Vertex, nat>,
                              joined: map<Vertex, nat>, rounds: nat)
  {
    && (forall e | e in startOf :: e in communityOf && communityOf[e] == startOf[e])
    && communityOf.Keys == Ball(co, startOf.Keys, rounds)
    && AllJoined(co, Balls(co, startOf.Keys), communityOf, joined, rounds)
  }

  lemma RoundKeeps(co: seq<Edge>, startOf: map<Vertex, nat>, before: map<Vertex, nat>, joined: map<Vertex, nat>,
                   rounds: nat, communities: seq<set<Vertex>>, after: map<Vertex, nat>)
    requires AfterRounds(co, startOf, before, joined, rounds)
    requires Attached(co, before, Frontier(co, before.Keys), communities, after)
    ensures AfterRounds(co, startOf, after, joined + InRound(Frontier(co, before.Keys), rounds + 1), rounds + 1)
  {
    BallsAreNext(co, startOf.Keys);
    RoundJoins(co, Balls(co, startOf.Keys), before, after, joined, rounds);
  }

  /** One turn of the loop: score the frontier and attach it, or report that it is empty. */
  method AttachRound(co: seq<Edge>, communities: seq<set<Vertex>>, communityOf: map<Vertex, nat>)
    returns (grew: bool, communities': seq<set<Vertex>>, communityOf': map<Vertex, nat>)
    requires Consistent(communities, communityOf)
    ensures grew <==> Frontier(co, communityOf.Keys) != {}
    ensures !grew ==> communities' == communities && communityOf' == communityOf
    ensures Attached(co, communityOf, Frontier(co, communityOf.Keys), communities', communityOf')
    ensures |communities'| == |communities|
  {
    var table := AffinityTable(co, communityOf);
    grew := table != map[];
    if grew {
      communities', communityOf' := Attach(co, table, communities, communityOf);
    } else {
      communities', communityOf' := communities, communityOf;
    }
  }

  /**
   * The attachment loop.  It ends, an entity joins in round r exactly when its shortest chain of
   * co-occurrences to a clustered entity has r steps, and it joins the community it then shared
   * the most with.
   */
  method AttachAll(co: seq<Edge>, start: seq<set<Vertex>>, startOf: map<Vertex, nat>)
    returns (communities: seq<set<Vertex>>, communityOf: map<Vertex, nat>, ghost joined: map<Vertex, nat>,
              ghost rounds: nat)
    requires Consistent(start, startOf)
    ensures Consistent(communities, communityOf) && |communities| == |start|
    ensures AfterRounds(co, startOf, communityOf, joined, rounds) && Frontier(co, communityOf.Keys) == {}
  {
    communities, communityOf := start, startOf;
    joined, rounds := InRound(startOf.Keys, 0), 0;
    var grew := true;
    while grew
      invariant Consistent(communities, communityOf) && |communities| == |start|
      invariant AfterRounds(co, startOf, communityOf, joined, rounds)
      invariant !grew ==> Frontier(co, communityOf.Keys) == {}
      decreases grew, Endpoints(co) - communityOf.Keys
    {
      ghost var before := communityOf;
      grew, communities, communityOf := AttachRound(co, communities, communityOf);
      if grew {
        RoundKeeps(co, startOf, before, joined, rounds, communities, communityOf);
        joined := joined + InRound(Frontier(co, before.Keys), rounds + 1);
        rounds := rounds + 1;
        FewerLeft(co, before.Keys, Frontier(co, before.Keys));
      }
    }
  }

  lemma FewerLeft(co: seq<Edge>, placed: set<Vertex>, added: set<Vertex>)
    requires added == Frontier(co, placed) && added != {}
    ensures Endpoints(co) - (placed + added) < Endpoints(co) - placed
  {
    var e :| e in added;
    assert e in Endpoints(co) - placed && e !in Endpoints(co) - (placed + added);
  }

  // ---------------------------------------------------------------- the whole clustering

  function Unplaced(co: seq<Edge>, placed: set<Vertex>): seq<Edge>
  {
    if co == [] then []
    else
      var init, x := Unplaced(co[..|co| - 1], placed), co[|co| - 1];
      if x.a !in placed && x.b !in placed then init + [x] else init
  }

  /** The co-occurrences at these places, in order: all those of which neither end is placed. */
  ghost predicate LeftAt(co: seq<Edge>, placed: set<Vertex>, places: seq<nat>, left: seq<Edge>)
  {
    && |places| == |left| && (forall i, j | 0 <= i < j < |places| :: places[i] < places[j])
    && (forall i | 0 <= i < |left| :: places[i] < |co| && left[i] == co[places[i]])
    && forall i: nat | i < |co| :: i in places <==> co[i].a !in placed && co[i].b !in placed
  }

  lemma LeftSnoc(init: seq<Edge>, x: Edge, placed: set<Vertex>, places: seq<nat>, left: seq<Edge>)
    requires LeftAt(init, placed, places, left)
    ensures if x.a !in placed && x.b !in placed then LeftAt(init + [x], placed, places + [|init|], left + [x])
            else LeftAt(init + [x], placed, places, left)
  {
    var co, n := init + [x], |init|;
    assert co[n] == x && forall i | 0 <= i < n :: co[i] == init[i];
    if x.a !in placed && x.b !in placed {
      forall i ensures i in places + [n] <==> i in places || i == n {
        assert i == n ==> (places + [n])[|places|] == i;
      }
    }
  }

  /** What is left to cluster are the co-occurrences among unplaced entities, as often and in the order given. */
  lemma {:induction false} UnplacedInOrder(co: seq<Edge>, placed: set<Vertex>) returns (places: seq<nat>)
    ensures LeftAt(co, placed, places, Unplaced(co, placed))
  {
    if co == [] {
      places := [];
    } else {
      var init, x := co[..|co| - 1], co[|co| - 1];
      assert co == init + [x];
      places := UnplacedInOrder(init, placed);
      LeftSnoc(init, x, placed, places, Unplaced(init, placed));
      if x.a !in placed && x.b !in placed {
        places := places + [|init|];
      }
    }
  }

  lemma {:induction false} UnplacedEndpoints(co: seq<Edge>, placed: set<Vertex>)
    ensures forall x :: x in Unplaced(co, placed) <==> x in co && x.a !in placed && x.b !in placed
  {
    if co != [] {
      UnplacedEndpoints(co[..|co| - 1], placed);
      assert co == co[..|co| - 1] + [co[|co| - 1]];
    }
  }

  /** With an empty frontier the residual graph holds every entity not yet placed. */
  lemma ResidualNodes(co: seq<Edge>, placed: set<Vertex>)
    requires Frontier(co, placed) == {}
    ensures Endpoints(Unplaced(co, placed)) == Endpoints(co) - placed
  {
    var left := Unplaced(co, placed);
    UnplacedEndpoints(co, placed);
    forall e | e in Endpoints(co) - placed ensures e in Endpoints(left) {
      var i :| 0 <= i < |co| && (co[i].a == e || co[i].b == e);
      assert (if co[i].a == e then co[i].b else co[i].a) in placed ==> e in Frontier(co, placed);
      assert co[i] in left;
      var j :| 0 <= j < |left| && left[j] == co[i];
    }
    forall e | e in Endpoints(left) ensures e in Endpoints(co) - placed {
      var j :| 0 <= j < |left| && (left[j].a == e || left[j].b == e);
      assert left[j] in co;
      var i :| 0 <= i < |co| && co[i] == left[j];
    }
  }

  /** Some chain of co-occurrences leads from the base to e. */
  ghost predicate Connected(co: seq<Edge>, base: set<Vertex>, e: Vertex)
  {
    exists r: nat :: e in Ball(co, base, r)
  }

  lemma PlacedIsConnected(co: seq<Edge>, base: set<Vertex>, rounds: nat, e: Vertex)
    requires Frontier(co, Ball(co, base, rounds)) == {}
    ensures Connected(co, base, e) <==> e in Ball(co, base, rounds)
  {
    if r: nat :| e in Ball(co, base, r) {
      if r <= rounds { BallGrows(co, base, r, rounds); } else { BallStops(co, base, rounds, r); }
    }
  }

  lemma {:induction false} BallInNodes(co: seq<Edge>, base: set<Vertex>, r: nat)
    ensures base <= Ball(co, base, r) <= base + Endpoints(co)
  {
    if r > 0 { BallInNodes(co, base, r - 1); }
  }

  lemma JoinPartitions(communities: seq<set<Vertex>>, placed: map<Vertex, nat>, rest: seq<set<Vertex>>,
                       nodes: set<Vertex>)
    requires Consistent(communities, placed) && placed.Keys <= nodes && Partitions(rest, nodes - placed.Keys)
    ensures Partitions(communities + rest, nodes)
  {
    var all, n := communities + rest, |communities|;
    forall e ensures Covered(all, e) <==> e in nodes {
      assert Covered(rest, e) <==> e in nodes - placed.Keys;
      if e in placed { assert e in all[placed[e]]; }
      if Covered(rest, e) {
        var j :| 0 <= j < |rest| && e in rest[j];
        assert e in all[n + j];
      }
      if i :| 0 <= i < |all| && e in all[i] {
        if i >= n { assert e in rest[i - n]; }
      }
    }
    forall i, j, e | 0 <= i < j < |all| && e in all[i] ensures e !in all[j] {
      assert Covered(rest, e) <==> e in nodes - placed.Keys;
      if i >= n {
        assert e in rest[i - n] ==> e !in rest[j - n];
      } else if j >= n {
        assert e in communities[i];
        assert e in rest[j - n] ==> Covered(rest, e);
      }
    }
  }

  /** No co-occurrence joins a residual community to a placed entity. */
  lemma ResidualApart(co: seq<Edge>, placed: set<Vertex>, e: Vertex, x: Vertex)
    requires Frontier(co, placed) == {} && e !in placed && x in placed
    ensures !Adjacent(co, e, x)
  {
    assert forall i | 0 <= i < |co| && ((co[i].a == e && co[i].b == x) || (co[i].a == x && co[i].b == e)) ::
             e in Frontier(co, placed);
  }

  /** What the clustering promises about the communities that Louvain over the relationships started. */
  ghost predicate Grown(start: seq<set<Vertex>>, communities: seq<set<Vertex>>, placed: map<Vertex, nat>)
  {
    && |start| <= |communities|
    && (forall i, e | 0 <= i < |start| :: e in communities[i] <==> e in placed && placed[e] == i)
    && (forall i, e | 0 <= i < |start| && e in start[i] :: e in communities[i])
  }

  lemma GrowthHolds(start: seq<set<Vertex>>, startOf: map<Vertex, nat>, communities: seq<set<Vertex>>,
                    placed: map<Vertex, nat>, rest: seq<set<Vertex>>)
    requires Consistent(start, startOf) && Consistent(communities, placed) && |communities| == |start|
    requires forall e | e in startOf :: e in placed && placed[e] == startOf[e]
    ensures Grown(start, communities + rest, placed)
  {
    forall i, e | 0 <= i < |start| && e in start[i] ensures e in communities[i] {
      assert e in startOf && placed[e] == i;
    }
  }

  ghost predicate Apart(co: seq<Edge>, communities: seq<set<Vertex>>, from: nat, placed: set<Vertex>)
  {
    forall i, e, x | from <= i < |communities| && e in communities[i] && x in placed :: !Adjacent(co, e, x)
  }

  lemma RestApart(co: seq<Edge>, communities: seq<set<Vertex>>, rest: seq<set<Vertex>>, placed: set<Vertex>,
                  nodes: set<Vertex>)
    requires Frontier(co, placed) == {} && Partitions(rest, nodes - placed)
    ensures Apart(co, communities + rest, |communities|, placed)
  {
    var all, n := communities + rest, |communities|;
    forall i, e, x | n <= i < |all| && e in all[i] && x in placed ensures !Adjacent(co, e, x) {
      assert e in rest[i - n];
      assert Covered(rest, e);
      ResidualApart(co, placed, e, x);
    }
  }

  /** Louvain is assumed to partition the nodes it is given, and nothing else. */
  method Cluster(louvain: Graph -> seq<set<Vertex>>, llm: Graph, co: seq<Edge>)
    returns (communities: seq<set<Vertex>>, ghost placed: map<Vertex, nat>, ghost joined: map<Vertex, nat>)
    requires forall g :: Partitions(louvain(g), g.nodes)
    ensures Partitions(communities, llm.nodes + Endpoints(co))
    ensures Grown(louvain(llm), communities, placed)
    ensures forall e :: e in placed <==> Connected(co, llm.nodes, e)
    ensures joined.Keys == placed.Keys
            && forall e | e in joined :: JoinedAt(co, Balls(co, llm.nodes), placed, e, joined[e])
    ensures Apart(co, communities, |louvain(llm)|, placed.Keys)
    ensures var left := Unplaced(co, placed.Keys);
            communities[|louvain(llm)|..] == louvain(Graph(Endpoints(left), left))
  {
    var startOf := CommunityIndex(louvain(llm), llm.nodes);
    var communityOf;
    ghost var rounds;
    communities, communityOf, joined, rounds := AttachAll(co, louvain(llm), startOf);
    placed := communityOf;
    var left := Unplaced(co, communityOf.Keys);
    var residual := Graph(Endpoints(left), left);
    ResidualNodes(co, communityOf.Keys);
    BallInNodes(co, llm.nodes, rounds);
    assert residual.nodes == llm.nodes + Endpoints(co) - placed.Keys;
    forall e ensures e in placed <==> Connected(co, llm.nodes, e) {
      PlacedIsConnected(co, llm.nodes, rounds, e);
    }
    JoinPartitions(communities, placed, louvain(residual), llm.nodes + Endpoints(co));
    GrowthHolds(louvain(llm), startOf, communities, placed, louvain(residual));
    RestApart(co, communities, louvain(residual), placed.Keys, llm.nodes + Endpoints(co));
    communities := communities + louvain(residual);
  }
}
