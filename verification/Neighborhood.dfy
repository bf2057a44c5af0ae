/** Neighbourhood expansion under a budget. */
module Neighborhood {
  // Breadth-first from the seeds, each hop taking neighbours round-robin across the parents that
  // found them.

  import opened Graphs
  import opened Text
  import opened TextOrder

  /** For each entity its neighbours in either direction, heaviest first, as the query ranks them. */
  type Ranking = Vertex -> seq<Vertex>

  function Elements(s: seq<Vertex>): set<Vertex>
  {
    set i | 0 <= i < |s| :: s[i]
  }

  predicate WithoutRepeats(s: seq<Vertex>)
  {
    forall i, j | 0 <= i < j < |s| :: s[i] != s[j]
  }

  function Take(s: seq<Vertex>, n: nat): seq<Vertex>
  {
    if n <= |s| then s[..n] else s
  }

  // ---------------------------------------------------------------- one hop

  /** The candidates not seen before, in order, each once. */
  function Fresh(candidates: seq<Vertex>, seen: set<Vertex>): seq<Vertex>
  {
    if candidates == [] then []
    else
      var init, last := Fresh(candidates[..|candidates| - 1], seen), candidates[|candidates| - 1];
      if last in seen || last in init then init else init + [last]
  }

  lemma {:induction false} FreshMeaning(candidates: seq<Vertex>, seen: set<Vertex>)
    ensures WithoutRepeats(Fresh(candidates, seen))
    ensures Elements(Fresh(candidates, seen)) == Elements(candidates) - seen
  {
    if candidates != [] {
      var init, last := candidates[..|candidates| - 1], candidates[|candidates| - 1];
      FreshMeaning(init, seen);
      ElementsSnoc(init, last);
      ElementsSnoc(Fresh(init, seen), last);
      assert candidates == init + [last];
    }
  }

  lemma ElementsSnoc(s: seq<Vertex>, e: Vertex)
    ensures Elements(s + [e]) == Elements(s) + {e}
  {
    var all := s + [e];
    assert all[|s|] == e;
    forall i | 0 <= i < |s| ensures s[i] in Elements(all) { assert all[i] == s[i]; }
  }

  lemma {:induction false} FreshPrefix(a: seq<Vertex>, b: seq<Vertex>, seen: set<Vertex>)
    ensures Fresh(a, seen) <= Fresh(a + b, seen)
  {
    if b == [] {
      assert a + b == a;
    } else {
      var init := b[..|b| - 1];
      FreshPrefix(a, init, seen);
      assert (a + b)[..|a + b| - 1] == a + init;
    }
  }

  function Unseen(s: seq<Vertex>, seen: set<Vertex>): seq<Vertex>
  {
    if s == [] then []
    else
      var init, last := Unseen(s[..|s| - 1], seen), s[|s| - 1];
      if last in seen then init else init + [last]
  }

  lemma {:induction false} UnseenElements(s: seq<Vertex>, seen: set<Vertex>)
    ensures Elements(Unseen(s, seen)) == Elements(s) - seen
  {
    if s != [] {
      var init, last := s[..|s| - 1], s[|s| - 1];
      UnseenElements(init, seen);
      ElementsSnoc(init, last);
      ElementsSnoc(Unseen(init, seen), last);
      assert s == init + [last];
    }
  }

  /** Entry t of each of the first n lists that has one. */
  function Tier(lists: seq<seq<Vertex>>, t: nat, n: nat): seq<Vertex>
    requires n <= |lists|
  {
    if n == 0 then []
    else if t < |lists[n - 1]| then Tier(lists, t, n - 1) + [lists[n - 1][t]]
    else Tier(lists, t, n - 1)
  }

  /** The first t tiers, one after the other. */
  function Tiers(lists: seq<seq<Vertex>>, t: nat): seq<Vertex>
  {
    if t == 0 then [] else Tiers(lists, t - 1) + Tier(lists, t - 1, |lists|)
  }

  function Longest(lists: seq<seq<Vertex>>): nat
  {
    if lists == [] then 0
    else
      var rest, n := Longest(lists[..|lists| - 1]), |lists[|lists| - 1]|;
      if n > rest then n else rest
  }

  lemma {:induction false} LongestBounds(lists: seq<seq<Vertex>>)
    ensures forall i | 0 <= i < |lists| :: |lists[i]| <= Longest(lists)
  {
    if lists != [] { LongestBounds(lists[..|lists| - 1]); }
  }

  lemma {:induction false} TierElements(lists: seq<seq<Vertex>>, t: nat, n: nat)
    requires n <= |lists|
    ensures forall e :: e in Elements(Tier(lists, t, n)) <==>
              exists i | 0 <= i < n :: t < |lists[i]| && lists[i][t] == e
  {
    if n > 0 {
      TierElements(lists, t, n - 1);
      if t < |lists[n - 1]| { ElementsSnoc(Tier(lists, t, n - 1), lists[n - 1][t]); }
    }
  }

  lemma ElementsConcat(a: seq<Vertex>, b: seq<Vertex>)
    ensures Elements(a + b) == Elements(a) + Elements(b)
  {
    var all := a + b;
    forall i | 0 <= i < |a| ensures a[i] in Elements(all) { assert all[i] == a[i]; }
    forall i | 0 <= i < |b| ensures b[i] in Elements(all) { assert all[|a| + i] == b[i]; }
  }

  lemma {:induction false} TiersElements(lists: seq<seq<Vertex>>, t: nat)
    ensures forall e :: e in Elements(Tiers(lists, t)) <==>
              exists i, k | 0 <= i < |lists| && 0 <= k < t :: k < |lists[i]| && lists[i][k] == e
  {
    if t > 0 {
      TiersElements(lists, t - 1);
      TierElements(lists, t - 1, |lists|);
      ElementsConcat(Tiers(lists, t - 1), Tier(lists, t - 1, |lists|));
    }
  }

  /** Per parent, its neighbours not chosen before this hop. */
  function Lists(g: Ranking, frontier: seq<Vertex>, chosen: set<Vertex>): seq<seq<Vertex>>
  {
    seq(|frontier|, i requires 0 <= i < |frontier| => Unseen(g(frontier[i]), chosen))
  }

  /** Everything one hop can reach, in round-robin order. */
  function Hop(g: Ranking, frontier: seq<Vertex>, chosen: set<Vertex>): seq<Vertex>
  {
    var lists := Lists(g, frontier, chosen);
    Fresh(Tiers(lists, Longest(lists)), chosen)
  }

  function NeighboursOf(g: Ranking, entities: set<Vertex>): set<Vertex>
  {
    set e, y | e in entities && y in Elements(g(e)) :: y
  }

  /** A hop reaches exactly the neighbours of the frontier that were not chosen before, each once. */
  lemma HopMeaning(g: Ranking, frontier: seq<Vertex>, chosen: set<Vertex>)
    ensures WithoutRepeats(Hop(g, frontier, chosen))
    ensures Elements(Hop(g, frontier, chosen)) == NeighboursOf(g, Elements(frontier)) - chosen
  {
    var lists := Lists(g, frontier, chosen);
    var n := Longest(lists);
    FreshMeaning(Tiers(lists, n), chosen);
    TiersElements(lists, n);
    LongestBounds(lists);
    forall y ensures y in Elements(Tiers(lists, n)) <==> y in NeighboursOf(g, Elements(frontier)) - chosen {
      if y in Elements(Tiers(lists, n)) {
        var i, k :| 0 <= i < |lists| && 0 <= k < n && k < |lists[i]| && lists[i][k] == y;
        UnseenElements(g(frontier[i]), chosen);
        assert y in Elements(lists[i]);
        assert frontier[i] in Elements(frontier);
      }
      if y in NeighboursOf(g, Elements(frontier)) - chosen {
        var e :| e in Elements(frontier) && y in Elements(g(e));
        var i :| 0 <= i < |frontier| && frontier[i] == e;
        UnseenElements(g(e), chosen);
        assert y in Elements(lists[i]);
        var k :| 0 <= k < |lists[i]| && lists[i][k] == y;
      }
    }
  }

  /** What the pass has read after i entries of tier t. */
  function ReadSoFar(lists: seq<seq<Vertex>>, t: nat, i: nat): seq<Vertex>
    requires i <= |lists|
  {
    Tiers(lists, t) + Tier(lists, t, i)
  }

  lemma ReadOne(lists: seq<seq<Vertex>>, t: nat, i: nat, seen: set<Vertex>)
    requires i < |lists|
    ensures t >= |lists[i]| ==> ReadSoFar(lists, t, i + 1) == ReadSoFar(lists, t, i)
    ensures t < |lists[i]| ==>
              var picked, e := Fresh(ReadSoFar(lists, t, i), seen), lists[i][t];
              Fresh(ReadSoFar(lists, t, i + 1), seen) == if e in seen + Elements(picked) then picked else picked + [e]
  {
    if t < |lists[i]| {
      var read := ReadSoFar(lists, t, i);
      assert ReadSoFar(lists, t, i + 1) == read + [lists[i][t]];
      assert (read + [lists[i][t]])[..|read|] == read;
    }
  }

  /** Once the budget is spent the rest of the pass does not matter. */
  lemma BudgetSpent(lists: seq<seq<Vertex>>, t: nat, i: nat, n: nat, seen: set<Vertex>, budget: nat)
    requires t < n && i <= |lists| && |Fresh(ReadSoFar(lists, t, i), seen)| == budget
    ensures Take(Fresh(Tiers(lists, n), seen), budget) == Fresh(ReadSoFar(lists, t, i), seen)
  {
    TiersPrefix(lists, t, i, n);
    var read := ReadSoFar(lists, t, i);
    assert Tiers(lists, n) == read + Tiers(lists, n)[|read|..];
    FreshPrefix(read, Tiers(lists, n)[|read|..], seen);
  }

  /** Picking round-robin stops as soon as the budget is spent. */
  method RoundRobin(lists: seq<seq<Vertex>>, n: nat, chosen: set<Vertex>, budget: nat) returns (picked: seq<Vertex>)
    requires budget > 0
    ensures picked == Take(Fresh(Tiers(lists, n), chosen), budget)
  {
    var seen := chosen;
    picked := [];
    for t := 0 to n
      invariant picked == Fresh(Tiers(lists, t), chosen) && |picked| < budget
      invariant seen == chosen + Elements(picked)
    {
      picked, seen := PassTier(lists, t, n, chosen, picked, seen, budget);
      if |picked| == budget {
        return;
      }
    }
  }

  method PassTier(lists: seq<seq<Vertex>>, t: nat, ghost n: nat, ghost chosen: set<Vertex>,
                  prior: seq<Vertex>, before: set<Vertex>, budget: nat)
    returns (picked: seq<Vertex>, seen: set<Vertex>)
    requires t < n && prior == Fresh(Tiers(lists, t), chosen) && before == chosen + Elements(prior) && |prior| < budget
    ensures |picked| == budget ==> picked == Take(Fresh(Tiers(lists, n), chosen), budget)
    ensures |picked| != budget ==> |picked| < budget && picked == Fresh(Tiers(lists, t + 1), chosen)
    ensures seen == chosen + Elements(picked)
  {
    ghost var steps := Progress(lists, t, chosen);
    ProgressSteps(lists, t, chosen);
    assert ReadSoFar(lists, t, 0) == Tiers(lists, t);
    assert ReadSoFar(lists, t, |lists|) == Tiers(lists, t + 1);
    var at;
    picked, seen, at := TakeTier(lists, t, chosen, steps, prior, before, budget);
    if |picked| == budget {
      BudgetSpent(lists, t, at, n, chosen, budget);
    }
  }

  lemma SeenGrows(chosen: set<Vertex>, picked: seq<Vertex>, e: Vertex)
    ensures chosen + Elements(picked) + {e} == chosen + Elements(picked + [e])
  {
    ElementsSnoc(picked, e);
  }

  /** What has been picked before each entry of tier t, and after the last. */
  function Progress(lists: seq<seq<Vertex>>, t: nat, chosen: set<Vertex>): (steps: seq<seq<Vertex>>)
    ensures |steps| == |lists| + 1 && forall i | 0 <= i <= |lists| :: steps[i] == Fresh(ReadSoFar(lists, t, i), chosen)
  {
    seq(|lists| + 1, i requires 0 <= i <= |lists| => Fresh(ReadSoFar(lists, t, i), chosen))
  }

  ghost predicate Steps(lists: seq<seq<Vertex>>, t: nat, chosen: set<Vertex>, steps: seq<seq<Vertex>>)
  {
    && |steps| == |lists| + 1
    && forall i | 0 <= i < |lists| :: steps[i + 1] ==
         if t < |lists[i]| && lists[i][t] !in chosen + Elements(steps[i]) then steps[i] + [lists[i][t]] else steps[i]
  }

  lemma ProgressSteps(lists: seq<seq<Vertex>>, t: nat, chosen: set<Vertex>)
    ensures Steps(lists, t, chosen, Progress(lists, t, chosen))
  {
    var steps := Progress(lists, t, chosen);
    forall i | 0 <= i < |lists|
      ensures steps[i + 1] ==
        if t < |lists[i]| && lists[i][t] !in chosen + Elements(steps[i]) then steps[i] + [lists[i][t]] else steps[i]
    {
      ReadOne(lists, t, i, chosen);
    }
  }

  /** One entry of each parent, up to where the budget is spent. */
  method TakeTier(lists: seq<seq<Vertex>>, t: nat, ghost chosen: set<Vertex>, ghost steps: seq<seq<Vertex>>,
                  prior: seq<Vertex>, before: set<Vertex>, budget: nat)
    returns (picked: seq<Vertex>, seen: set<Vertex>, at: nat)
    requires Steps(lists, t, chosen, steps) && prior == steps[0] && before == chosen + Elements(prior)
             && |prior| < budget
    ensures at <= |lists| && picked == steps[at] && seen == chosen + Elements(picked)
    ensures |picked| == budget || (|picked| < budget && at == |lists|)
  {
    picked, seen, at := prior, before, 0;
    while at < |lists| && |picked| < budget
      invariant at <= |lists| && picked == steps[at] && seen == chosen + Elements(picked)
      invariant |picked| <= budget
    {
      if t < |lists[at]| && lists[at][t] !in seen {
        SeenGrows(chosen, picked, lists[at][t]);
        seen := seen + {lists[at][t]};
        picked := picked + [lists[at][t]];
      }
      at := at + 1;
    }
  }

  method NextHop(g: Ranking, frontier: seq<Vertex>, chosen: set<Vertex>, budget: nat) returns (picked: seq<Vertex>)
    requires budget > 0
    ensures picked == Take(Hop(g, frontier, chosen), budget)
  {
    var lists := Lists(g, frontier, chosen);
    picked := RoundRobin(lists, Longest(lists), chosen, budget);
  }

  lemma {:induction false} TierPrefix(lists: seq<seq<Vertex>>, t: nat, i: nat, n: nat)
    requires i <= n <= |lists|
    ensures Tier(lists, t, i) <= Tier(lists, t, n)
    decreases n
  {
    if i < n { TierPrefix(lists, t, i, n - 1); }
  }

  lemma {:induction false} TiersGrow(lists: seq<seq<Vertex>>, t: nat, n: nat)
    requires t <= n
    ensures Tiers(lists, t) <= Tiers(lists, n)
    decreases n
  {
    if t < n { TiersGrow(lists, t, n - 1); }
  }

  lemma TiersPrefix(lists: seq<seq<Vertex>>, t: nat, i: nat, n: nat)
    requires t < n && i <= |lists|
    ensures ReadSoFar(lists, t, i) <= Tiers(lists, n)
  {
    TierPrefix(lists, t, i, |lists|);
    TiersGrow(lists, t + 1, n);
    assert ReadSoFar(lists, t, i) <= Tiers(lists, t + 1);
  }

  // ---------------------------------------------------------------- expansion

  /** Selection and frontier after so many hops when nothing limits them. */
  datatype Search = Search(selected: seq<Vertex>, frontier: seq<Vertex>)

  function Unlimited(g: Ranking, seeds: seq<Vertex>, hops: nat): Search
  {
    if hops == 0 then Search(Fresh(seeds, {}), Fresh(seeds, {}))
    else
      var s := Unlimited(g, seeds, hops - 1);
      var next := Hop(g, s.frontier, Elements(s.selected));
      Search(s.selected + next, next)
  }

  /** The entities at most so many relationships away from a seed. */
  function Ball(g: Ranking, seeds: seq<Vertex>, hops: nat): set<Vertex>
  {
    if hops == 0 then Elements(seeds)
    else Ball(g, seeds, hops - 1) + NeighboursOf(g, Ball(g, seeds, hops - 1))
  }

  lemma {:induction false} UnlimitedMeaning(g: Ranking, seeds: seq<Vertex>, hops: nat)
    ensures var s := Unlimited(g, seeds, hops);
      && WithoutRepeats(s.selected)
      && Elements(s.selected) == Ball(g, seeds, hops)
      && Elements(s.frontier) <= Elements(s.selected)
      && NeighboursOf(g, Elements(s.selected) - Elements(s.frontier)) <= Elements(s.selected)
  {
    if hops == 0 {
      FreshMeaning(seeds, {});
    } else {
      UnlimitedMeaning(g, seeds, hops - 1);
      var s, s' := Unlimited(g, seeds, hops - 1), Unlimited(g, seeds, hops);
      HopMeaning(g, s.frontier, Elements(s.selected));
      ElementsConcat(s.selected, s'.frontier);
      DistinctConcat(s.selected, s'.frontier);
      NeighboursSplit(g, Elements(s.selected), Elements(s.frontier));
      assert Elements(s'.selected) - Elements(s'.frontier) == Elements(s.selected);
    }
  }

  lemma DistinctConcat(a: seq<Vertex>, b: seq<Vertex>)
    requires WithoutRepeats(a) && WithoutRepeats(b) && Elements(a) !! Elements(b)
    ensures WithoutRepeats(a + b)
  {
    forall i, j | 0 <= i < |a| && 0 <= j < |b| ensures a[i] != b[j] {
      assert a[i] in Elements(a) && b[j] in Elements(b);
    }
  }

  lemma NeighboursSplit(g: Ranking, all: set<Vertex>, part: set<Vertex>)
    requires part <= all
    ensures NeighboursOf(g, all) == NeighboursOf(g, all - part) + NeighboursOf(g, part)
  {
    forall y | y in NeighboursOf(g, all) ensures y in NeighboursOf(g, all - part) + NeighboursOf(g, part) {
      var e :| e in all && y in Elements(g(e));
      assert e in all - part || e in part;
    }
  }

  lemma {:induction false} UnlimitedPrefix(g: Ranking, seeds: seq<Vertex>, h: nat, hops: nat)
    requires h <= hops
    ensures Unlimited(g, seeds, h).selected <= Unlimited(g, seeds, hops).selected
    ensures Unlimited(g, seeds, h).frontier == [] ==> Unlimited(g, seeds, hops) == Unlimited(g, seeds, h)
    decreases hops
  {
    if h < hops {
      UnlimitedPrefix(g, seeds, h, hops - 1);
      var s := Unlimited(g, seeds, hops - 1);
      if Unlimited(g, seeds, h).frontier == [] {
        assert Lists(g, [], Elements(s.selected)) == [];
        assert Hop(g, [], Elements(s.selected)) == [];
      }
    }
  }

  lemma HopUnderBudget(g: Ranking, seeds: seq<Vertex>, h: nat, budget: nat)
    requires |Unlimited(g, seeds, h).selected| < budget
    ensures var s, s' := Unlimited(g, seeds, h), Unlimited(g, seeds, h + 1);
            var picked := Take(Hop(g, s.frontier, Elements(s.selected)), budget - |s.selected|);
      && Take(s'.selected, budget) == s.selected + picked
      && (|s.selected + picked| < budget ==> picked == s'.frontier)
  {
  }

  /** Once the frontier is empty or the budget spent, further hops add nothing. */
  lemma SearchSettles(g: Ranking, seeds: seq<Vertex>, h: nat, hops: nat, budget: nat)
    requires h <= hops
    requires Unlimited(g, seeds, h).frontier == [] || |Unlimited(g, seeds, h).selected| >= budget
    ensures Take(Unlimited(g, seeds, hops).selected, budget) == Take(Unlimited(g, seeds, h).selected, budget)
  {
    UnlimitedPrefix(g, seeds, h, hops);
  }

  /** The budgeted search selects exactly the first `maxEntities` of the unlimited one. */
  method ExpandNeighborhood(g: Ranking, seeds: seq<Vertex>, hops: nat, maxEntities: nat) returns (selected: seq<Vertex>)
    ensures selected == Take(Unlimited(g, seeds, hops).selected, maxEntities)
  {
    selected := Take(Fresh(seeds, {}), maxEntities);
    var chosen := Elements(selected);
    var frontier := selected;
    for h := 0 to hops
      invariant selected == Take(Unlimited(g, seeds, h).selected, maxEntities)
      invariant |selected| < maxEntities ==> frontier == Unlimited(g, seeds, h).frontier
      invariant chosen == Elements(selected)
      invariant frontier == [] ==> |selected| < maxEntities || maxEntities == 0
    {
      if frontier == [] || |selected| >= maxEntities {
        SearchSettles(g, seeds, h, hops, maxEntities);
        return;
      }
      HopUnderBudget(g, seeds, h, maxEntities);
      frontier := NextHop(g, frontier, chosen, maxEntities - |selected|);
      ElementsConcat(selected, frontier);
      chosen := chosen + Elements(frontier);
      selected := selected + frontier;
    }
  }

  /**
   * The budget: no duplicates, never more than allowed, only entities within the hops, all of them
   * unless the budget ran out, and a smaller budget selects a prefix of what a larger one does.
   */
  lemma SelectionWithinBudget(g: Ranking, seeds: seq<Vertex>, hops: nat, budget: nat, larger: nat)
    requires budget <= larger
    ensures var selected := Take(Unlimited(g, seeds, hops).selected, budget);
      && WithoutRepeats(selected) && |selected| <= budget
      && Elements(selected) <= Ball(g, seeds, hops)
      && (|selected| < budget ==> Elements(selected) == Ball(g, seeds, hops))
      && selected <= Take(Unlimited(g, seeds, hops).selected, larger)
  {
    UnlimitedMeaning(g, seeds, hops);
    var all := Unlimited(g, seeds, hops).selected;
    assert forall e | e in Elements(Take(all, budget)) :: e in Elements(all);
  }

  // ---------------------------------------------------------------- the ranking query

  datatype Edge = Edge(source: Vertex, target: Vertex, weight: real)

  /** The entities at the other end of e's relationships, in either direction. */
  function Neighbours(edges: seq<Edge>, e: Vertex): set<Vertex>
  {
    (set i | 0 <= i < |edges| && edges[i].source == e :: edges[i].target)
    + (set i | 0 <= i < |edges| && edges[i].target == e :: edges[i].source)
  }

  /** SUM(weight) of the relationships between the two, each seen from both of its ends. */
  function Tie(edges: seq<Edge>, e: Vertex, y: Vertex): real
  {
    if edges == [] then 0.0
    else
      var last := edges[|edges| - 1];
      Tie(edges[..|edges| - 1], e, y)
      + (if last.source == e && last.target == y then last.weight else 0.0)
      + (if last.target == e && last.source == y then last.weight else 0.0)
  }

  /**
   * A relationship adds its whole weight to the tie of the two entities it joins, whichever of
   * them it starts from, and nothing to any other; and it makes each a neighbour of the other.
   */
  lemma OneMoreEdge(edges: seq<Edge>, x: Edge, e: Vertex, y: Vertex)
    requires e != y
    ensures var joined := (x.source == e && x.target == y) || (x.source == y && x.target == e);
      && Tie([], e, y) == 0.0 && Tie(edges + [x], e, y) == Tie(edges, e, y) + (if joined then x.weight else 0.0)
      && y !in Neighbours([], e) && (y in Neighbours(edges + [x], e) <==> y in Neighbours(edges, e) || joined)
  {
    var all, n := edges + [x], |edges|;
    assert all[..n] == edges && all[n] == x;
    if y in Neighbours(edges, e) {
      var i :| 0 <= i < n && ((edges[i].source == e && edges[i].target == y)
                              || (edges[i].target == e && edges[i].source == y));
      assert all[i] == edges[i];
    }
  }

  /** ORDER BY SUM(weight) DESC, neighbor. */
  predicate Heavier(edges: seq<Edge>, e: Vertex, y: Vertex, z: Vertex)
  {
    Tie(edges, e, y) > Tie(edges, e, z) || (Tie(edges, e, y) == Tie(edges, e, z) && Leq(y.id, z.id))
  }

  ghost predicate Sorted(edges: seq<Edge>, e: Vertex, ranked: seq<Vertex>)
  {
    forall i, j | 0 <= i < j < |ranked| :: Heavier(edges, e, ranked[i], ranked[j])
  }

  /** What the query returns for e: its neighbours, each once, the heaviest first. */
  ghost predicate Ranks(edges: seq<Edge>, e: Vertex, among: set<Vertex>, ranked: seq<Vertex>)
  {
    WithoutRepeats(ranked) && Elements(ranked) == among && Sorted(edges, e, ranked)
  }

  lemma HeavierIsAnOrder(edges: seq<Edge>, e: Vertex)
    ensures forall y, z :: Heavier(edges, e, y, z) || Heavier(edges, e, z, y)
    ensures forall y, z :: Heavier(edges, e, y, z) && Heavier(edges, e, z, y) ==> y == z
    ensures forall x, y, z :: Heavier(edges, e, x, y) && Heavier(edges, e, y, z) ==> Heavier(edges, e, x, z)
  {
    forall y, z ensures Heavier(edges, e, y, z) || Heavier(edges, e, z, y) { LeqTotal(y.id, z.id); }
    forall y, z | Heavier(edges, e, y, z) && Heavier(edges, e, z, y) ensures y == z { LeqAntisymmetric(y.id, z.id); }
    forall x, y, z | Heavier(edges, e, x, y) && Heavier(edges, e, y, z) ensures Heavier(edges, e, x, z) {
      if Leq(x.id, y.id) && Leq(y.id, z.id) { LeqTransitive(x.id, y.id, z.id); }
    }
  }

  lemma FirstIsUnique(edges: seq<Edge>, e: Vertex, among: set<Vertex>)
    requires among != {}
    ensures exists y :: y in among && forall z | z in among :: Heavier(edges, e, y, z)
    ensures forall x, y :: Heavier(edges, e, x, y) && Heavier(edges, e, y, x) ==> x == y
  {
    HeavierIsAnOrder(edges, e);
    var y := FirstExists(among, (y, z) => Heavier(edges, e, y, z));
    assert forall z | z in among :: Heavier(edges, e, y, z);
  }

  function Ranked(edges: seq<Edge>, e: Vertex, among: set<Vertex>): seq<Vertex>
  {
    if among == {} then []
    else
      FirstIsUnique(edges, e, among);
      var y :| y in among && forall z | z in among :: Heavier(edges, e, y, z);
      [y] + Ranked(edges, e, among - {y})
  }

  /** For each entity its neighbours as the query ranks them. */
  function HeaviestFirst(edges: seq<Edge>): Ranking
  {
    e => Ranked(edges, e, Neighbours(edges, e))
  }

  lemma RanksCons(edges: seq<Edge>, e: Vertex, y: Vertex, among: set<Vertex>, rest: seq<Vertex>)
    requires y !in among && Ranks(edges, e, among, rest) && forall z | z in among :: Heavier(edges, e, y, z)
    ensures Ranks(edges, e, among + {y}, [y] + rest)
  {
    var all := [y] + rest;
    forall i | 0 <= i < |rest| ensures rest[i] in among && all[i + 1] == rest[i] {
      assert rest[i] in Elements(rest);
    }
    forall z ensures z in Elements(all) <==> z in among + {y} {
      if z in among { var i :| 0 <= i < |rest| && rest[i] == z; assert all[i + 1] == z; }
      assert all[0] == y;
    }
  }

  lemma {:induction false} RankedRanks(edges: seq<Edge>, e: Vertex, among: set<Vertex>)
    ensures Ranks(edges, e, among, Ranked(edges, e, among))
    decreases among
  {
    if among != {} {
      var y := Ranked(edges, e, among)[0];
      RankedFirst(edges, e, among);
      RankedRanks(edges, e, among - {y});
      RanksCons(edges, e, y, among - {y}, Ranked(edges, e, among - {y}));
      assert (among - {y}) + {y} == among;
    }
  }

  lemma RankedFirst(edges: seq<Edge>, e: Vertex, among: set<Vertex>)
    requires among != {}
    ensures var r := Ranked(edges, e, among);
      && r != [] && r[0] in among && (forall z | z in among :: Heavier(edges, e, r[0], z))
      && r == [r[0]] + Ranked(edges, e, among - {r[0]})
  {
    FirstIsUnique(edges, e, among);
  }

  /** The order fixes the list: whatever sorts the neighbours this way returns the ranking. */
  lemma {:induction false} RankingIsUnique(edges: seq<Edge>, e: Vertex, among: set<Vertex>, ranked: seq<Vertex>)
    requires Ranks(edges, e, among, ranked)
    ensures ranked == Ranked(edges, e, among)
    decreases among
  {
    if ranked == [] {
      assert among == {};
    } else {
      var y, rest := ranked[0], ranked[1..];
      RanksTail(edges, e, among, ranked);
      RankedFirst(edges, e, among);
      HeavierIsAnOrder(edges, e);
      FirstOfSorted(edges, e, among, ranked, Ranked(edges, e, among)[0]);
      RankingIsUnique(edges, e, among - {y}, rest);
      assert ranked == [y] + rest;
    }
  }

  lemma RanksTail(edges: seq<Edge>, e: Vertex, among: set<Vertex>, ranked: seq<Vertex>)
    requires Ranks(edges, e, among, ranked) && ranked != []
    ensures ranked[0] in among && Ranks(edges, e, among - {ranked[0]}, ranked[1..])
  {
    var rest := ranked[1..];
    assert ranked[0] in Elements(ranked);
    forall i | 0 <= i < |rest| ensures rest[i] == ranked[i + 1] && rest[i] != ranked[0] {}
    forall z ensures z in Elements(rest) <==> z in among - {ranked[0]} {
      if z in among && z != ranked[0] {
        var i :| 0 <= i < |ranked| && ranked[i] == z;
        assert rest[i - 1] == z;
      }
      if z in Elements(rest) {
        var i :| 0 <= i < |rest| && rest[i] == z;
        assert ranked[i + 1] in Elements(ranked);
      }
    }
  }

  lemma FirstOfSorted(edges: seq<Edge>, e: Vertex, among: set<Vertex>, ranked: seq<Vertex>, first: Vertex)
    requires Ranks(edges, e, among, ranked) && ranked != []
    requires first in among && forall z | z in among :: Heavier(edges, e, first, z)
    ensures ranked[0] == first
  {
    HeavierIsAnOrder(edges, e);
    assert ranked[0] in Elements(ranked) && first in Elements(ranked);
    var i :| 0 <= i < |ranked| && ranked[i] == first;
  }

  // ---------------------------------------------------------------- the order within a hop

  /** Where the round-robin meets an entity: in this round, at this parent. */
  datatype Seat = Seat(round: nat, parent: nat)

  predicate Before(a: Seat, b: Seat)
  {
    a.round < b.round || (a.round == b.round && a.parent < b.parent)
  }

  predicate InTurn(seats: seq<Seat>)
  {
    forall i, j | 0 <= i < j < |seats| :: Before(seats[i], seats[j])
  }

  predicate Seated(lists: seq<seq<Vertex>>, seat: Seat, y: Vertex)
  {
    seat.parent < |lists| && seat.round < |lists[seat.parent]| && lists[seat.parent][seat.round] == y
  }

  /** The entries read are those at these seats, and every seat of the rounds read is among them. */
  ghost predicate ReadAt(lists: seq<seq<Vertex>>, read: seq<Vertex>, seats: seq<Seat>, rounds: nat, parents: nat)
  {
    && |seats| == |read| && InTurn(seats)
    && (forall k | 0 <= k < |read| :: Seated(lists, seats[k], read[k]) && Before(seats[k], Seat(rounds, parents)))
    && forall y, seat | Seated(lists, seat, y) && Before(seat, Seat(rounds, parents)) :: seat in seats
  }

  lemma ReadAtStep(lists: seq<seq<Vertex>>, read: seq<Vertex>, seats: seq<Seat>, t: nat, i: nat)
    requires ReadAt(lists, read, seats, t, i) && i < |lists|
    ensures if t < |lists[i]| then ReadAt(lists, read + [lists[i][t]], seats + [Seat(t, i)], t, i + 1)
            else ReadAt(lists, read, seats, t, i + 1)
  {
    var here := Seat(t, i);
    forall seat | Before(seat, Seat(t, i + 1)) ensures Before(seat, here) || seat == here {}
    if t < |lists[i]| {
      forall seat ensures seat in seats + [here] <==> seat in seats || seat == here {
        assert seat == here ==> (seats + [here])[|seats|] == seat;
      }
    }
  }

  lemma NextRound(lists: seq<seq<Vertex>>, read: seq<Vertex>, seats: seq<Seat>, t: nat)
    requires ReadAt(lists, read, seats, t, |lists|)
    ensures ReadAt(lists, read, seats, t + 1, 0)
  {
    forall y, seat | Seated(lists, seat, y) && Before(seat, Seat(t + 1, 0)) ensures seat in seats {
      assert Before(seat, Seat(t, |lists|));
    }
  }

  lemma {:induction false} RoundsRead(lists: seq<seq<Vertex>>, t: nat, i: nat) returns (seats: seq<Seat>)
    requires i <= |lists|
    ensures ReadAt(lists, ReadSoFar(lists, t, i), seats, t, i)
    decreases t, i
  {
    if i > 0 {
      seats := RoundsRead(lists, t, i - 1);
      ReadAtStep(lists, ReadSoFar(lists, t, i - 1), seats, t, i - 1);
      if t < |lists[i - 1]| {
        seats := seats + [Seat(t, i - 1)];
        assert ReadSoFar(lists, t, i) == ReadSoFar(lists, t, i - 1) + [lists[i - 1][t]];
      }
    } else if t > 0 {
      seats := RoundsRead(lists, t - 1, |lists|);
      NextRound(lists, ReadSoFar(lists, t - 1, |lists|), seats, t - 1);
      assert ReadSoFar(lists, t, 0) == ReadSoFar(lists, t - 1, |lists|);
    } else {
      seats := [];
      assert ReadSoFar(lists, 0, 0) == [];
    }
  }

  /** The kept entries are first occurrences, in order. */
  ghost predicate FirstsAt(candidates: seq<Vertex>, places: seq<nat>, kept: seq<Vertex>)
  {
    && |places| == |kept| && (forall i, j | 0 <= i < j < |places| :: places[i] < places[j])
    && forall i | 0 <= i < |kept| ::
         && places[i] < |candidates| && kept[i] == candidates[places[i]]
         && forall j | 0 <= j < places[i] :: candidates[j] != kept[i]
  }

  lemma FirstsSnoc(init: seq<Vertex>, last: Vertex, places: seq<nat>, kept: seq<Vertex>)
    requires FirstsAt(init, places, kept)
    ensures FirstsAt(init + [last], places, kept)
    ensures last !in init ==> FirstsAt(init + [last], places + [|init|], kept + [last])
  {
  }

  lemma {:induction false} FreshFirsts(candidates: seq<Vertex>, seen: set<Vertex>) returns (places: seq<nat>)
    ensures FirstsAt(candidates, places, Fresh(candidates, seen))
  {
    if candidates == [] {
      places := [];
    } else {
      var init, last := candidates[..|candidates| - 1], candidates[|candidates| - 1];
      assert candidates == init + [last];
      places := FreshFirsts(init, seen);
      FreshMeaning(init, seen);
      FirstsSnoc(init, last, places, Fresh(init, seen));
      if last !in seen && last !in Fresh(init, seen) {
        assert last in init ==> last in Elements(init) && last in Elements(Fresh(init, seen));
        places := places + [|init|];
      }
    }
  }

  /** The round-robin meets y here and nowhere before. */
  ghost predicate FirstSeat(lists: seq<seq<Vertex>>, y: Vertex, seat: Seat)
  {
    Seated(lists, seat, y) && forall other | Seated(lists, other, y) :: !Before(other, seat)
  }

  lemma FirstSeatOf(lists: seq<seq<Vertex>>, read: seq<Vertex>, seats: seq<Seat>, rounds: nat, k: nat)
    requires ReadAt(lists, read, seats, rounds, 0) && k < |read| && forall j | 0 <= j < k :: read[j] != read[k]
    ensures FirstSeat(lists, read[k], seats[k])
  {
    forall other | Seated(lists, other, read[k]) ensures !Before(other, seats[k]) {
      if Before(other, seats[k]) {
        assert other in seats;
        var j :| 0 <= j < |seats| && seats[j] == other;
        assert false;
      }
    }
  }

  /** What a hop adds comes in the order in which the round-robin first meets it. */
  lemma FreshInTurn(lists: seq<seq<Vertex>>, n: nat, chosen: set<Vertex>) returns (seats: seq<Seat>)
    ensures var picked := Fresh(Tiers(lists, n), chosen);
      && |seats| == |picked| && InTurn(seats) && forall i | 0 <= i < |picked| :: FirstSeat(lists, picked[i], seats[i])
  {
    var read := Tiers(lists, n);
    var all := RoundsRead(lists, n, 0);
    assert ReadSoFar(lists, n, 0) == read;
    var places := FreshFirsts(read, chosen);
    var picked := Fresh(read, chosen);
    seats := seq(|picked|, i requires 0 <= i < |picked| => all[places[i]]);
    forall i | 0 <= i < |picked| ensures FirstSeat(lists, picked[i], seats[i]) {
      FirstSeatOf(lists, read, all, n, places[i]);
    }
  }

  // ---------------------------------------------------------------- the same order, said of the relationships

  lemma {:induction false} DistinctCount(s: seq<Vertex>)
    requires WithoutRepeats(s)
    ensures |Elements(s)| == |s|
  {
    if s != [] {
      var init, last := s[..|s| - 1], s[|s| - 1];
      DistinctCount(init);
      ElementsSnoc(init, last);
      assert s == init + [last];
    }
  }

  /** Among these neighbours of e the ones that come before y: heavier, or as heavy and of a smaller id. */
  function Ahead(edges: seq<Edge>, e: Vertex, among: set<Vertex>, y: Vertex): set<Vertex>
  {
    set z | z in among && z != y
            && (Tie(edges, e, z) > Tie(edges, e, y) || (Tie(edges, e, z) == Tie(edges, e, y) && Leq(z.id, y.id)))
  }

  lemma RankIsPlace(edges: seq<Edge>, e: Vertex, among: set<Vertex>, ranked: seq<Vertex>, t: nat)
    requires Ranks(edges, e, among, ranked) && t < |ranked|
    ensures |Ahead(edges, e, among, ranked[t])| == t
  {
    var y := ranked[t];
    HeavierIsAnOrder(edges, e);
    assert Ahead(edges, e, among, y) == Elements(ranked[..t]) by {
      forall z ensures z in Ahead(edges, e, among, y) <==> z in Elements(ranked[..t]) {
        if z in Ahead(edges, e, among, y) {
          var i :| 0 <= i < |ranked| && ranked[i] == z;
          assert Heavier(edges, e, z, y) && (i > t ==> Heavier(edges, e, y, z));
          assert ranked[..t][i] == z;
        }
        if z in Elements(ranked[..t]) {
          var i :| 0 <= i < t && ranked[..t][i] == z;
          assert ranked[i] == z && ranked[i] in Elements(ranked) && Heavier(edges, e, ranked[i], ranked[t]);
        }
      }
    }
    DistinctCount(ranked[..t]);
  }

  lemma RanksInit(edges: seq<Edge>, e: Vertex, among: set<Vertex>, init: seq<Vertex>, last: Vertex)
    requires Ranks(edges, e, among, init + [last])
    ensures last in among && Ranks(edges, e, among - {last}, init)
    ensures forall z | z in among :: z == last || Heavier(edges, e, z, last)
  {
    var all := init + [last];
    ElementsSnoc(init, last);
    assert forall i | 0 <= i < |init| :: all[i] == init[i] && Heavier(edges, e, all[i], all[|init|]);
  }

  lemma RanksSnoc(edges: seq<Edge>, e: Vertex, among: set<Vertex>, init: seq<Vertex>, last: Vertex)
    requires Ranks(edges, e, among, init) && last !in among && forall z | z in among :: Heavier(edges, e, z, last)
    ensures Ranks(edges, e, among + {last}, init + [last])
  {
    ElementsSnoc(init, last);
    assert forall i | 0 <= i < |init| :: init[i] in Elements(init);
  }

  /** Leaving out what is chosen leaves the rest ranked. */
  lemma {:induction false} UnseenRanks(edges: seq<Edge>, e: Vertex, among: set<Vertex>, ranked: seq<Vertex>,
                                       chosen: set<Vertex>)
    requires Ranks(edges, e, among, ranked)
    ensures Ranks(edges, e, among - chosen, Unseen(ranked, chosen))
    decreases |ranked|
  {
    if ranked == [] {
      assert among == {};
    } else {
      var init, last := ranked[..|ranked| - 1], ranked[|ranked| - 1];
      assert ranked == init + [last];
      RanksInit(edges, e, among, init, last);
      UnseenRanks(edges, e, among - {last}, init, chosen);
      if last in chosen {
        assert among - {last} - chosen == among - chosen;
      } else {
        RanksSnoc(edges, e, among - {last} - chosen, Unseen(init, chosen), last);
        assert among - {last} - chosen + {last} == among - chosen;
      }
    }
  }

  /** y is a neighbour of this parent, and as many of the parent's unchosen neighbours come before it as rounds. */
  predicate FoundAt(edges: seq<Edge>, frontier: seq<Vertex>, chosen: set<Vertex>, y: Vertex, seat: Seat)
  {
    && seat.parent < |frontier| && y in Neighbours(edges, frontier[seat.parent])
    && seat.round == |Ahead(edges, frontier[seat.parent], Neighbours(edges, frontier[seat.parent]) - chosen, y)|
  }

  lemma FoundIffSeated(edges: seq<Edge>, frontier: seq<Vertex>, chosen: set<Vertex>, y: Vertex, seat: Seat)
    requires y !in chosen
    ensures Seated(Lists(HeaviestFirst(edges), frontier, chosen), seat, y) <==>
              FoundAt(edges, frontier, chosen, y, seat)
  {
    if seat.parent < |frontier| {
      var e := frontier[seat.parent];
      var among, list := Neighbours(edges, e) - chosen, Lists(HeaviestFirst(edges), frontier, chosen)[seat.parent];
      RankedRanks(edges, e, Neighbours(edges, e));
      UnseenRanks(edges, e, Neighbours(edges, e), HeaviestFirst(edges)(e), chosen);
      assert Ranks(edges, e, among, list);
      if seat.round < |list| && list[seat.round] == y {
        RankIsPlace(edges, e, among, list, seat.round);
        assert y in Elements(list);
      }
      if y in among {
        assert y in Elements(list);
        var t :| 0 <= t < |list| && list[t] == y;
        RankIsPlace(edges, e, among, list, t);
      }
    }
  }

  /** The first round, and in it the first parent, to find y. */
  ghost predicate FirstFound(edges: seq<Edge>, frontier: seq<Vertex>, chosen: set<Vertex>, y: Vertex, seat: Seat)
  {
    && FoundAt(edges, frontier, chosen, y, seat)
    && forall other | FoundAt(edges, frontier, chosen, y, other) :: !Before(other, seat)
  }

  /** The entities at the other end of the frontier's relationships that were not chosen before, as they are found. */
  ghost predicate NextLayer(edges: seq<Edge>, frontier: seq<Vertex>, chosen: set<Vertex>, seats: seq<Seat>,
                            layer: seq<Vertex>)
  {
    && WithoutRepeats(layer) && |seats| == |layer| && InTurn(seats)
    && (forall y :: y in layer <==>
          y !in chosen && exists i | 0 <= i < |frontier| :: y in Neighbours(edges, frontier[i]))
    && forall i | 0 <= i < |layer| :: FirstFound(edges, frontier, chosen, layer[i], seats[i])
  }

  lemma HopElements(edges: seq<Edge>, frontier: seq<Vertex>, chosen: set<Vertex>, y: Vertex)
    ensures y in Hop(HeaviestFirst(edges), frontier, chosen) <==>
              y !in chosen && exists i | 0 <= i < |frontier| :: y in Neighbours(edges, frontier[i])
  {
    var g := HeaviestFirst(edges);
    HopMeaning(g, frontier, chosen);
    assert y in Hop(g, frontier, chosen) <==> y in Elements(Hop(g, frontier, chosen));
    forall i | 0 <= i < |frontier| ensures Elements(g(frontier[i])) == Neighbours(edges, frontier[i]) {
      RankedRanks(edges, frontier[i], Neighbours(edges, frontier[i]));
    }
    if i :| 0 <= i < |frontier| && y in Neighbours(edges, frontier[i]) {
      assert frontier[i] in Elements(frontier) && y in NeighboursOf(g, Elements(frontier));
    }
    if y in NeighboursOf(g, Elements(frontier)) {
      var e :| e in Elements(frontier) && y in Elements(g(e));
      var i :| 0 <= i < |frontier| && frontier[i] == e;
    }
  }

  /** One hop, heaviest neighbours first and the parents taking turns. */
  lemma HopIsNextLayer(edges: seq<Edge>, frontier: seq<Vertex>, chosen: set<Vertex>) returns (seats: seq<Seat>)
    ensures NextLayer(edges, frontier, chosen, seats, Hop(HeaviestFirst(edges), frontier, chosen))
  {
    var g := HeaviestFirst(edges);
    var lists := Lists(g, frontier, chosen);
    var layer := Hop(g, frontier, chosen);
    seats := FreshInTurn(lists, Longest(lists), chosen);
    HopMeaning(g, frontier, chosen);
    forall y ensures y in layer <==>
                     y !in chosen && exists i | 0 <= i < |frontier| :: y in Neighbours(edges, frontier[i]) {
      HopElements(edges, frontier, chosen, y);
    }
    forall i | 0 <= i < |layer| ensures FirstFound(edges, frontier, chosen, layer[i], seats[i]) {
      assert layer[i] in Elements(layer) && FirstSeat(lists, layer[i], seats[i]);
      forall seat { FoundIffSeated(edges, frontier, chosen, layer[i], seat); }
    }
  }

  lemma FirstFoundOnce(edges: seq<Edge>, frontier: seq<Vertex>, chosen: set<Vertex>, y: Vertex, a: Seat, b: Seat)
    requires FirstFound(edges, frontier, chosen, y, a) && FirstFound(edges, frontier, chosen, y, b)
    ensures a == b
  {
    assert !Before(a, b) && !Before(b, a);
  }

  lemma EarlierSeat(seats: seq<Seat>, p: nat, q: nat)
    requires InTurn(seats) && p < |seats| && q < |seats|
    ensures p < q <==> Before(seats[p], seats[q])
  {
  }

  /** Of two entities that a hop adds, the one that is found first comes first. */
  lemma LayerOrder(edges: seq<Edge>, frontier: seq<Vertex>, chosen: set<Vertex>, seats: seq<Seat>, layer: seq<Vertex>,
                   p: nat, q: nat, a: Seat, b: Seat)
    requires NextLayer(edges, frontier, chosen, seats, layer) && p < |layer| && q < |layer|
    requires FirstFound(edges, frontier, chosen, layer[p], a) && FirstFound(edges, frontier, chosen, layer[q], b)
    ensures p < q <==> Before(a, b)
  {
    FirstFoundOnce(edges, frontier, chosen, layer[p], a, seats[p]);
    FirstFoundOnce(edges, frontier, chosen, layer[q], b, seats[q]);
    EarlierSeat(seats, p, q);
  }

  // ---------------------------------------------------------------- the whole expansion

  /** Everything in the layers. */
  function Reached(layers: seq<seq<Vertex>>): set<Vertex>
  {
    set i, k | 0 <= i < |layers| && 0 <= k < |layers[i]| :: layers[i][k]
  }

  ghost predicate HopFrom(edges: seq<Edge>, frontier: seq<Vertex>, chosen: set<Vertex>, layer: seq<Vertex>)
  {
    exists seats :: NextLayer(edges, frontier, chosen, seats, layer)
  }

  /** Layer h is what one hop from the layer before it adds to all layers before it. */
  ghost predicate Follows(edges: seq<Edge>, layers: seq<seq<Vertex>>, h: nat)
  {
    0 < h < |layers| && HopFrom(edges, layers[h - 1], Reached(layers[..h]), layers[h])
  }

  /** The seeds, each once, and after them what each hop adds to the layers before it. */
  ghost predicate Layers(edges: seq<Edge>, seeds: seq<Vertex>, layers: seq<seq<Vertex>>)
  {
    && layers != []
    && WithoutRepeats(layers[0]) && (forall y :: y in layers[0] <==> y in seeds)
    && (exists places :: FirstsAt(seeds, places, layers[0]))
    && forall h | 0 < h < |layers| :: Follows(edges, layers, h)
  }

  lemma ReachedSnoc(layers: seq<seq<Vertex>>, last: seq<Vertex>)
    ensures Reached(layers + [last]) == Reached(layers) + Elements(last)
  {
    var all, n := layers + [last], |layers|;
    forall y ensures y in Reached(all) <==> y in Reached(layers) || y in Elements(last) {
      if y in Reached(layers) {
        var i, k :| 0 <= i < n && 0 <= k < |layers[i]| && layers[i][k] == y;
        assert all[i][k] == y;
      }
      if y in Elements(last) {
        var k :| 0 <= k < |last| && last[k] == y;
        assert all[n][k] == y;
      }
    }
  }

  lemma LayersSnoc(edges: seq<Edge>, seeds: seq<Vertex>, layers: seq<seq<Vertex>>, last: seq<Vertex>)
    requires Layers(edges, seeds, layers) && HopFrom(edges, layers[|layers| - 1], Reached(layers), last)
    ensures Layers(edges, seeds, layers + [last])
  {
    var all, n := layers + [last], |layers|;
    forall h | 0 < h < |all| ensures Follows(edges, all, h) {
      if h < n {
        FollowsKept(edges, layers, last, h);
      } else {
        assert all[..n] == layers && all[n - 1] == layers[n - 1] && all[n] == last;
      }
    }
  }

  lemma FollowsKept(edges: seq<Edge>, layers: seq<seq<Vertex>>, last: seq<Vertex>, h: nat)
    requires Follows(edges, layers, h)
    ensures Follows(edges, layers + [last], h)
  {
    assert (layers + [last])[..h] == layers[..h];
  }

  lemma SeedLayer(edges: seq<Edge>, seeds: seq<Vertex>)
    ensures Layers(edges, seeds, [Fresh(seeds, {})])
  {
    FreshMeaning(seeds, {});
    var places := FreshFirsts(seeds, {});
    var layer := Fresh(seeds, {});
    forall y ensures y in layer <==> y in seeds {
      assert y in layer <==> y in Elements(layer);
      assert y in seeds <==> y in Elements(seeds);
    }
  }

  /** The unlimited search goes layer by layer. */
  lemma {:induction false} UnlimitedLayers(edges: seq<Edge>, seeds: seq<Vertex>, hops: nat)
    returns (layers: seq<seq<Vertex>>)
    ensures Layers(edges, seeds, layers) && |layers| == hops + 1
    ensures var s := Unlimited(HeaviestFirst(edges), seeds, hops);
            Flat(layers) == s.selected && layers[hops] == s.frontier && Reached(layers) == Elements(s.selected)
  {
    var g := HeaviestFirst(edges);
    if hops == 0 {
      layers := [Fresh(seeds, {})];
      SeedLayer(edges, seeds);
      FlatSnoc([], layers[0]);
      ReachedSnoc([], layers[0]);
      assert [] + [layers[0]] == layers;
    } else {
      var before := UnlimitedLayers(edges, seeds, hops - 1);
      var s := Unlimited(g, seeds, hops - 1);
      var next := Hop(g, s.frontier, Elements(s.selected));
      var seats := HopIsNextLayer(edges, s.frontier, Elements(s.selected));
      LayersSnoc(edges, seeds, before, next);
      layers := before + [next];
      FlatSnoc(before, next);
      ReachedSnoc(before, next);
      ElementsConcat(s.selected, next);
    }
  }

  lemma OnlySeed(a: Vertex, layer: seq<Vertex>)
    requires WithoutRepeats(layer) && forall y :: y in layer <==> y in [a]
    ensures layer == [a]
  {
    DistinctCount(layer);
    assert a in [a];
    forall y ensures y in Elements(layer) <==> y in {a} {
      assert y in Elements(layer) <==> y in layer;
    }
    assert Elements(layer) == {a};
  }

  lemma OneLayer(layer: seq<Vertex>)
    ensures Reached([layer]) == Elements(layer) && Flat([layer]) == layer
  {
    ReachedSnoc([], layer);
    FlatSnoc([], layer);
    assert [] + [layer] == [layer] && Reached([]) == {};
  }

  lemma PairIs(layer: seq<Vertex>, b: Vertex, c: Vertex, p: nat, q: nat)
    requires WithoutRepeats(layer) && b != c && forall y :: y in layer <==> y == b || y == c
    requires p < q < |layer| && layer[p] == b && layer[q] == c
    ensures layer == [b, c]
  {
    DistinctCount(layer);
    forall y ensures y in Elements(layer) <==> y in {b, c} {
      assert y in Elements(layer) <==> y in layer;
    }
    assert Elements(layer) == {b, c};
  }

  lemma TwoEdges(edges: seq<Edge>, a: Vertex, b: Vertex, c: Vertex, v: real, u: real)
    requires a != b && b != c && a != c && edges == [Edge(b, a, v), Edge(a, c, u)]
    ensures Neighbours(edges, a) == {b, c} && Tie(edges, a, b) == v && Tie(edges, a, c) == u
  {
    assert edges == [edges[0]] + [edges[1]] && [edges[0]] == [] + [edges[0]];
    forall y | y != a ensures y in Neighbours(edges, a) <==> y == b || y == c {
      OneMoreEdge([], edges[0], a, y);
      OneMoreEdge([edges[0]], edges[1], a, y);
    }
    OneMoreEdge([], edges[0], a, b);
    OneMoreEdge([edges[0]], edges[1], a, b);
    OneMoreEdge([], edges[0], a, c);
    OneMoreEdge([edges[0]], edges[1], a, c);
  }

  lemma SeatOf(edges: seq<Edge>, a: Vertex, b: Vertex, c: Vertex, v: real, u: real, y: Vertex, seat: Seat)
    requires a != b && b != c && a != c && v > u && (y == b || y == c)
    requires Neighbours(edges, a) == {b, c} && Tie(edges, a, b) == v && Tie(edges, a, c) == u
    requires FoundAt(edges, [a], {a}, y, seat)
    ensures seat == Seat(if y == b then 0 else 1, 0)
  {
    assert {b, c} - {a} == {b, c};
    if y == b {
      assert Ahead(edges, a, {b, c}, b) == {};
    } else {
      assert Ahead(edges, a, {b, c}, c) == {b};
    }
  }

  lemma LayerFacts(edges: seq<Edge>, frontier: seq<Vertex>, chosen: set<Vertex>, layer: seq<Vertex>)
    returns (seats: seq<Seat>)
    requires HopFrom(edges, frontier, chosen, layer)
    ensures WithoutRepeats(layer) && |seats| == |layer| && InTurn(seats)
    ensures forall y :: y in layer <==>
              y !in chosen && exists i | 0 <= i < |frontier| :: y in Neighbours(edges, frontier[i])
    ensures forall i | 0 <= i < |layer| :: FoundAt(edges, frontier, chosen, layer[i], seats[i])
  {
    seats :| NextLayer(edges, frontier, chosen, seats, layer);
  }

  lemma FoundPair(edges: seq<Edge>, frontier: seq<Vertex>, chosen: set<Vertex>, a: Vertex, b: Vertex, c: Vertex,
                  layer: seq<Vertex>)
    requires frontier == [a] && chosen == {a} && a != b && b != c && a != c && Neighbours(edges, a) == {b, c}
    requires forall y :: y in layer <==>
               y !in chosen && exists i | 0 <= i < |frontier| :: y in Neighbours(edges, frontier[i])
    ensures forall y :: y in layer <==> y == b || y == c
  {
    assert frontier[0] == a;
  }

  lemma TwoFound(edges: seq<Edge>, a: Vertex, b: Vertex, c: Vertex, v: real, u: real, layer: seq<Vertex>)
    requires a != b && b != c && a != c && v > u && HopFrom(edges, [a], {a}, layer)
    requires Neighbours(edges, a) == {b, c} && Tie(edges, a, b) == v && Tie(edges, a, c) == u
    ensures layer == [b, c]
  {
    var seats := LayerFacts(edges, [a], {a}, layer);
    FoundPair(edges, [a], {a}, a, b, c, layer);
    var p :| 0 <= p < |layer| && layer[p] == b;
    var q :| 0 <= q < |layer| && layer[q] == c;
    SeatOf(edges, a, b, c, v, u, b, seats[p]);
    SeatOf(edges, a, b, c, v, u, c, seats[q]);
    EarlierSeat(seats, p, q);
    PairIs(layer, b, c, p, q);
  }

  /** Of two neighbours of the seed, the heavier comes first, whichever way the relationships point. */
  lemma HeavierComesFirst(a: Vertex, b: Vertex, c: Vertex, v: real, u: real, layers: seq<seq<Vertex>>)
    requires a != b && b != c && a != c && v > u && |layers| == 2
    requires Layers([Edge(b, a, v), Edge(a, c, u)], [a], layers)
    ensures Flat(layers) == [a, b, c]
  {
    var edges := [Edge(b, a, v), Edge(a, c, u)];
    TwoEdges(edges, a, b, c, v, u);
    OnlySeed(a, layers[0]);
    OneLayer(layers[0]);
    assert layers[..1] == [layers[0]] && layers == [layers[0]] + [layers[1]];
    assert Elements([a]) == {a} by { assert [a][0] == a; }
    assert Follows(edges, layers, 1);
    TwoFound(edges, a, b, c, v, u, layers[1]);
    FlatSnoc([layers[0]], layers[1]);
  }

  /**
   * The expansion over the relationships: the seeds and after them hop by hop the neighbours, each
   * at the first round and parent that find it, up to the budget.
   */
  method Expand(edges: seq<Edge>, seeds: seq<Vertex>, hops: nat, maxEntities: nat)
    returns (selected: seq<Vertex>, ghost layers: seq<seq<Vertex>>)
    ensures Layers(edges, seeds, layers) && |layers| == hops + 1
    ensures |selected| <= maxEntities && selected <= Flat(layers)
    ensures |selected| < maxEntities ==> selected == Flat(layers)
  {
    selected := ExpandNeighborhood(HeaviestFirst(edges), seeds, hops, maxEntities);
    layers := UnlimitedLayers(edges, seeds, hops);
  }
}
