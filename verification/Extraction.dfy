/** Entity extraction: batches, the reply cache, normalising. */
module Extraction {
  import opened Options
  import opened Records
  import opened Text

  /** Fields of a reply, stripped; a missing field or one of the wrong type is empty. */
  datatype RawEntity = RawEntity(name: string, etype: string, description: string)
  datatype RawRelationship = RawRelationship(source: string, target: string, relation: string)
  datatype Raw = Raw(entities: seq<RawEntity>, relationships: seq<RawRelationship>)
  datatype Result = Result(entities: seq<EntityRow>, relationships: seq<RawRelationship>, hadFailure: bool)

  const NOTHING := Raw([], [])
  const BATCH_SEPARATOR := "\n\n---\n\n"

  /** The deterministic model, the requests built for it, their hash, and the parser of replies. */
  datatype Model = Model(
    batchTokens: nat,
    slug: string -> EntityId,
    request: string -> string,
    sha: string -> string,
    llm: string -> string,
    parse: string -> Raw)

  function Append(a: Raw, b: Raw): Raw
  {
    Raw(a.entities + b.entities, a.relationships + b.relationships)
  }

  // ---------------------------------------------------------------- normalisation

  /** A dictionary that remembers insertion order. */
  datatype BySlug = BySlug(order: seq<EntityId>, rows: map<EntityId, EntityRow>)

  predicate WellFormed(d: BySlug)
  {
    && (forall i, j | 0 <= i < j < |d.order| :: d.order[i] != d.order[j])
    && (forall id | id in d.order :: id in d.rows)
    && (forall id | id in d.rows :: id in d.order)
    && (forall id | id in d.rows :: d.rows[id].id == id && d.rows[id].description.Some?)
  }

  function Typed(etype: string): Option<string>
  {
    if etype == "" then None else Some(etype)
  }

  function AddEntity(slug: string -> EntityId, d: BySlug, e: RawEntity): (r: BySlug)
    requires WellFormed(d)
    ensures WellFormed(r)
  {
    var id := slug(e.name);
    if id == "" then d
    else if id !in d.rows then
      BySlug(d.order + [id], d.rows[id := EntityRow(id, e.name, Typed(e.etype), Some(e.description))])
    else
      var row := d.rows[id];
      d.(rows := d.rows[id := row.(
        description := if |e.description| > |row.description.value| then Some(e.description) else row.description,
        etype := if row.etype.None? then Typed(e.etype) else row.etype)])
  }

  function Normalized(slug: string -> EntityId, raw: seq<RawEntity>): (r: BySlug)
    ensures WellFormed(r)
  {
    if raw == [] then BySlug([], map[])
    else AddEntity(slug, Normalized(slug, raw[..|raw| - 1]), raw[|raw| - 1])
  }

  function Values(d: BySlug): (rows: seq<EntityRow>)
    requires WellFormed(d)
    ensures |rows| == |d.order| && forall i | 0 <= i < |rows| :: rows[i].id == d.order[i]
  {
    seq(|d.order|, i requires 0 <= i < |d.order| => d.rows[d.order[i]])
  }

  lemma ValuesIds(d: BySlug)
    requires WellFormed(d)
    ensures Ids(Values(d)) == d.rows.Keys
  {
    var rows := Values(d);
    forall id | id in d.rows ensures id in Ids(rows) {
      var i :| 0 <= i < |d.order| && d.order[i] == id;
      assert rows[i].id == id;
    }
  }

  predicate Usable(slug: string -> EntityId, valid: set<EntityId>, r: RawRelationship)
  {
    && r.source != "" && r.target != "" && r.relation != ""
    && slug(r.source) in valid && slug(r.target) in valid
  }

  function UsableOnly(slug: string -> EntityId, valid: set<EntityId>,
                      raw: seq<RawRelationship>): (r: seq<RawRelationship>)
    ensures forall x :: x in r <==> x in raw && Usable(slug, valid, x)
  {
    if raw == [] then []
    else
      var init, last := UsableOnly(slug, valid, raw[..|raw| - 1]), raw[|raw| - 1];
      if Usable(slug, valid, last) then init + [last] else init
  }

  /** Places of a list of n entries, in order. */
  predicate Increasing(places: seq<nat>, n: nat)
  {
    && (forall i | 0 <= i < |places| :: places[i] < n)
    && forall i, j | 0 <= i < j < |places| :: places[i] < places[j]
  }

  /** The relationships kept are those at exactly the places where all three fields are there and both ends known. */
  ghost predicate KeptAt(slug: string -> EntityId, valid: set<EntityId>, raw: seq<RawRelationship>,
                         places: seq<nat>, kept: seq<RawRelationship>)
  {
    && Increasing(places, |raw|) && |places| == |kept|
    && (forall i | 0 <= i < |kept| :: kept[i] == raw[places[i]])
    && forall i: nat | i < |raw| ::
         i in places <==> raw[i].source != "" && raw[i].target != "" && raw[i].relation != ""
                          && slug(raw[i].source) in valid && slug(raw[i].target) in valid
  }

  lemma KeptSnoc(slug: string -> EntityId, valid: set<EntityId>, init: seq<RawRelationship>, last: RawRelationship,
                 places: seq<nat>, kept: seq<RawRelationship>)
    requires KeptAt(slug, valid, init, places, kept)
    ensures if Usable(slug, valid, last) then KeptAt(slug, valid, init + [last], places + [|init|], kept + [last])
            else KeptAt(slug, valid, init + [last], places, kept)
  {
    var raw, n := init + [last], |init|;
    assert raw[n] == last && forall i | 0 <= i < n :: raw[i] == init[i];
    if Usable(slug, valid, last) {
      forall i ensures i in places + [n] <==> i in places || i == n {
        assert i == n ==> (places + [n])[|places|] == i;
      }
    }
  }

  /** A usable relationship is kept as often as it is given, in the order given. */
  lemma {:induction false} UsableInOrder(slug: string -> EntityId, valid: set<EntityId>, raw: seq<RawRelationship>)
    returns (places: seq<nat>)
    ensures KeptAt(slug, valid, raw, places, UsableOnly(slug, valid, raw))
  {
    if raw == [] {
      places := [];
    } else {
      var init, last := raw[..|raw| - 1], raw[|raw| - 1];
      assert raw == init + [last];
      places := UsableInOrder(slug, valid, init);
      KeptSnoc(slug, valid, init, last, places, UsableOnly(slug, valid, init));
      if Usable(slug, valid, last) {
        places := places + [|init|];
      }
    }
  }

  function Normalize(slug: string -> EntityId, raw: Raw, hadFailure: bool): (r: Result)
    ensures forall x | x in r.relationships :: slug(x.source) in Ids(r.entities) && slug(x.target) in Ids(r.entities)
    ensures r.hadFailure == hadFailure
  {
    var d := Normalized(slug, raw.entities);
    ValuesIds(d);
    Result(Values(d), UsableOnly(slug, d.rows.Keys, raw.relationships), hadFailure)
  }

  /** Entry i is the first of this slug or, when a type is asked for, the first that gives one. */
  predicate First(slug: string -> EntityId, raw: seq<RawEntity>, id: EntityId, i: nat, typed: bool)
  {
    && i < |raw| && slug(raw[i].name) == id && (typed ==> raw[i].etype != "")
    && forall j | 0 <= j < i && slug(raw[j].name) == id :: typed && raw[j].etype == ""
  }

  /** No entry of this slug has a longer description than entry i, and no earlier one is as long. */
  predicate FirstLongest(slug: string -> EntityId, raw: seq<RawEntity>, id: EntityId, i: nat)
  {
    && i < |raw| && slug(raw[i].name) == id
    && forall j | 0 <= j < |raw| && slug(raw[j].name) == id ::
         |raw[j].description| <= |raw[i].description| && (j < i ==> |raw[j].description| < |raw[i].description|)
  }

  predicate Occurs(slug: string -> EntityId, raw: seq<RawEntity>, id: EntityId)
  {
    exists i | 0 <= i < |raw| :: slug(raw[i].name) == id
  }

  ghost predicate NameMeant(slug: string -> EntityId, raw: seq<RawEntity>, id: EntityId, row: EntityRow)
  {
    exists i: nat :: First(slug, raw, id, i, false) && row.name == raw[i].name
  }

  ghost predicate DescriptionMeant(slug: string -> EntityId, raw: seq<RawEntity>, id: EntityId, row: EntityRow)
  {
    exists i: nat :: FirstLongest(slug, raw, id, i) && row.description == Some(raw[i].description)
  }

  ghost predicate TypeMeant(slug: string -> EntityId, raw: seq<RawEntity>, id: EntityId, row: EntityRow)
  {
    if row.etype.None? then forall i | 0 <= i < |raw| && slug(raw[i].name) == id :: raw[i].etype == ""
    else exists i: nat :: First(slug, raw, id, i, true) && row.etype == Some(raw[i].etype)
  }

  /** One row per slug: the first spelling, the first type given, the first longest description. */
  lemma {:induction false} NormalizedMeaning(slug: string -> EntityId, raw: seq<RawEntity>, id: EntityId)
    ensures var rows := Normalized(slug, raw).rows;
      && (id in rows <==> id != "" && Occurs(slug, raw, id))
      && (id in rows ==> NameMeant(slug, raw, id, rows[id]) && DescriptionMeant(slug, raw, id, rows[id])
                         && TypeMeant(slug, raw, id, rows[id]))
  {
    if raw != [] {
      var init, last := raw[..|raw| - 1], raw[|raw| - 1];
      NormalizedMeaning(slug, init, id);
      assert raw == init + [last];
      var prior := Normalized(slug, init);
      if slug(last.name) != id {
        MeaningKept(slug, init, last, id, prior);
      } else if id != "" {
        assert slug(raw[|raw| - 1].name) == id;
        MeaningUpdated(slug, init, last, prior);
      }
    }
  }

  lemma MeaningKept(slug: string -> EntityId, init: seq<RawEntity>, last: RawEntity, id: EntityId, d: BySlug)
    requires WellFormed(d) && slug(last.name) != id
    ensures Occurs(slug, init + [last], id) <==> Occurs(slug, init, id)
    ensures id in AddEntity(slug, d, last).rows <==> id in d.rows
    ensures id in d.rows ==> AddEntity(slug, d, last).rows[id] == d.rows[id]
    ensures forall row :: NameMeant(slug, init, id, row) ==> NameMeant(slug, init + [last], id, row)
    ensures forall row :: DescriptionMeant(slug, init, id, row) ==> DescriptionMeant(slug, init + [last], id, row)
    ensures forall row :: TypeMeant(slug, init, id, row) ==> TypeMeant(slug, init + [last], id, row)
  {
    forall i: nat, typed: bool | First(slug, init, id, i, typed) ensures First(slug, init + [last], id, i, typed) {}
    forall i: nat | FirstLongest(slug, init, id, i) ensures FirstLongest(slug, init + [last], id, i) {}
    if Occurs(slug, init, id) {
      var i :| 0 <= i < |init| && slug(init[i].name) == id;
      assert (init + [last])[i] == init[i];
    }
  }

  lemma MeaningUpdated(slug: string -> EntityId, init: seq<RawEntity>, last: RawEntity, d: BySlug)
    requires WellFormed(d) && slug(last.name) != ""
    requires var id := slug(last.name);
      && (id in d.rows <==> Occurs(slug, init, id))
      && (id in d.rows ==> NameMeant(slug, init, id, d.rows[id]) && DescriptionMeant(slug, init, id, d.rows[id])
                           && TypeMeant(slug, init, id, d.rows[id]))
    ensures var id, raw := slug(last.name), init + [last];
      var rows := AddEntity(slug, d, last).rows;
      && id in rows
      && NameMeant(slug, raw, id, rows[id]) && DescriptionMeant(slug, raw, id, rows[id])
      && TypeMeant(slug, raw, id, rows[id])
  {
    var id, raw, n := slug(last.name), init + [last], |init|;
    var row := AddEntity(slug, d, last).rows[id];
    assert raw[n] == last;
    if id in d.rows {
      var i: nat :| First(slug, init, id, i, false) && row.name == init[i].name;
      assert First(slug, raw, id, i, false);
      var l: nat :| FirstLongest(slug, init, id, l) && d.rows[id].description == Some(init[l].description);
      assert FirstLongest(slug, raw, id, if |last.description| > |init[l].description| then n else l);
      if d.rows[id].etype.Some? {
        var j: nat :| First(slug, init, id, j, true) && row.etype == Some(init[j].etype);
        assert First(slug, raw, id, j, true);
      } else if row.etype.Some? {
        assert First(slug, raw, id, n, true);
      }
    } else {
      assert First(slug, raw, id, n, false) && FirstLongest(slug, raw, id, n);
      if row.etype.Some? {
        assert First(slug, raw, id, n, true);
      }
    }
  }

  /** One row per slug that is not empty, in the order in which the slugs first occur. */
  ghost predicate RowsInOrder(slug: string -> EntityId, raw: seq<RawEntity>, places: seq<nat>, ids: seq<EntityId>)
  {
    && Increasing(places, |raw|) && |places| == |ids|
    && (forall i | 0 <= i < |ids| :: ids[i] != "" && First(slug, raw, ids[i], places[i], false))
    && forall i | 0 <= i < |raw| && slug(raw[i].name) != "" :: slug(raw[i].name) in ids
  }

  lemma RowsInOrderSnoc(slug: string -> EntityId, init: seq<RawEntity>, last: RawEntity, places: seq<nat>,
                        ids: seq<EntityId>)
    requires RowsInOrder(slug, init, places, ids)
    ensures var id := slug(last.name);
            if id != "" && id !in ids then RowsInOrder(slug, init + [last], places + [|init|], ids + [id])
            else RowsInOrder(slug, init + [last], places, ids)
  {
    var id, raw, n := slug(last.name), init + [last], |init|;
    assert raw[n] == last && forall i | 0 <= i < n :: raw[i] == init[i];
    forall i | 0 <= i < |ids| ensures First(slug, raw, ids[i], places[i], false) {
      assert First(slug, init, ids[i], places[i], false);
    }
    if id != "" && id !in ids {
      assert First(slug, raw, id, n, false);
      assert forall x :: x in ids + [id] <==> x in ids || x == id;
    }
  }

  lemma {:induction false} NormalizedInOrder(slug: string -> EntityId, raw: seq<RawEntity>) returns (places: seq<nat>)
    ensures RowsInOrder(slug, raw, places, Normalized(slug, raw).order)
  {
    if raw == [] {
      places := [];
    } else {
      var init, last := raw[..|raw| - 1], raw[|raw| - 1];
      assert raw == init + [last];
      var prior := Normalized(slug, init);
      places := NormalizedInOrder(slug, init);
      RowsInOrderSnoc(slug, init, last, places, prior.order);
      if slug(last.name) != "" && slug(last.name) !in prior.order {
        places := places + [|init|];
      }
    }
  }

  /** Each row has the first spelling of its slug, the first type given and the first longest description. */
  ghost predicate RowsMeant(slug: string -> EntityId, raw: seq<RawEntity>, rows: seq<EntityRow>)
  {
    forall i | 0 <= i < |rows| ::
      && NameMeant(slug, raw, rows[i].id, rows[i]) && DescriptionMeant(slug, raw, rows[i].id, rows[i])
      && TypeMeant(slug, raw, rows[i].id, rows[i])
  }

  function IdsInOrder(rows: seq<EntityRow>): seq<EntityId>
  {
    seq(|rows|, i requires 0 <= i < |rows| => rows[i].id)
  }

  /** What normalising makes of the raw entities and relationships. */
  ghost predicate Distilled(slug: string -> EntityId, raw: Raw, r: Result)
  {
    && (exists places :: RowsInOrder(slug, raw.entities, places, IdsInOrder(r.entities)))
    && RowsMeant(slug, raw.entities, r.entities)
    && exists places :: KeptAt(slug, Ids(r.entities), raw.relationships, places, r.relationships)
  }

  lemma NormalizedRows(slug: string -> EntityId, raw: seq<RawEntity>)
    ensures var d := Normalized(slug, raw);
      && RowsMeant(slug, raw, Values(d)) && Ids(Values(d)) == d.rows.Keys
      && exists places :: RowsInOrder(slug, raw, places, IdsInOrder(Values(d)))
  {
    var d := Normalized(slug, raw);
    var rows := Values(d);
    var places := NormalizedInOrder(slug, raw);
    assert IdsInOrder(rows) == d.order;
    forall i | 0 <= i < |rows|
      ensures NameMeant(slug, raw, rows[i].id, rows[i]) && DescriptionMeant(slug, raw, rows[i].id, rows[i])
      ensures TypeMeant(slug, raw, rows[i].id, rows[i])
    {
      NormalizedMeaning(slug, raw, d.order[i]);
    }
    ValuesIds(d);
  }

  lemma NormalizeDistills(slug: string -> EntityId, raw: Raw, hadFailure: bool)
    ensures Distilled(slug, raw, Normalize(slug, raw, hadFailure))
  {
    NormalizedRows(slug, raw.entities);
    var kept := UsableInOrder(slug, Normalized(slug, raw.entities).rows.Keys, raw.relationships);
  }

  lemma NormalizedIds(slug: string -> EntityId, raw: Raw, hadFailure: bool)
    ensures var rows := Normalize(slug, raw, hadFailure).entities; forall i | 0 <= i < |rows| :: rows[i].id != ""
  {
    var d := Normalized(slug, raw.entities);
    forall id | id in d.order ensures id != "" { NormalizedMeaning(slug, raw.entities, id); }
  }

  // ---------------------------------------------------------------- batches

  function Tokens(chunk: string): nat
  {
    |chunk| / 4
  }

  function TotalTokens(chunks: seq<string>): nat
  {
    if chunks == [] then 0 else TotalTokens(chunks[..|chunks| - 1]) + Tokens(chunks[|chunks| - 1])
  }

  /** The chunks put together greedily: a chunk opens a new group when it would overrun the limit. */
  function Groups(limit: nat, chunks: seq<string>): seq<seq<string>>
  {
    if chunks == [] then []
    else
      var prior, chunk := Groups(limit, chunks[..|chunks| - 1]), chunks[|chunks| - 1];
      if prior == [] || TotalTokens(prior[|prior| - 1]) + Tokens(chunk) > limit then prior + [[chunk]]
      else prior[|prior| - 1 := prior[|prior| - 1] + [chunk]]
  }

  /** What adding one chunk does to the groups. */
  lemma GroupsSnoc(limit: nat, chunks: seq<string>, closed: seq<seq<string>>, open: seq<string>, chunk: string)
    requires Groups(limit, chunks) == closed + [open]
    ensures Groups(limit, chunks + [chunk])
            == if TotalTokens(open) + Tokens(chunk) > limit then closed + [open] + [[chunk]]
            else closed + [open + [chunk]]
  {
    assert (chunks + [chunk])[..|chunks|] == chunks;
    var prior := closed + [open];
    assert prior[|prior| - 1 := open + [chunk]] == closed + [open + [chunk]];
  }

  /** A chunk is estimated at a token for every four characters. */
  lemma TotalTokensSnoc(chunks: seq<string>, chunk: string)
    ensures TotalTokens([]) == 0 && TotalTokens(chunks + [chunk]) == TotalTokens(chunks) + |chunk| / 4
  {
    assert (chunks + [chunk])[..|chunks|] == chunks;
  }

  predicate WithinLimit(limit: nat, group: seq<string>)
  {
    |group| >= 1 && (|group| > 1 ==> TotalTokens(group) <= limit)
  }

  /** The next group's first chunk did not fit into this group. */
  predicate Full(limit: nat, group: seq<string>, next: seq<string>)
  {
    next != [] && TotalTokens(group) + |next[0]| / 4 > limit
  }

  ghost predicate AllWithin(limit: nat, groups: seq<seq<string>>)
  {
    forall g | g in groups :: WithinLimit(limit, g)
  }

  /** What one more chunk leaves of the groups' contents and sizes. */
  lemma PartitionSnoc(limit: nat, closed: seq<seq<string>>, open: seq<string>, chunk: string)
    requires AllWithin(limit, closed + [open])
    ensures Flat(closed + [open] + [[chunk]]) == Flat(closed + [open]) + [chunk]
    ensures Flat(closed + [open + [chunk]]) == Flat(closed + [open]) + [chunk]
    ensures AllWithin(limit, closed + [open] + [[chunk]])
    ensures TotalTokens(open) + Tokens(chunk) <= limit ==> AllWithin(limit, closed + [open + [chunk]])
  {
    FlatSnoc(closed, open);
    FlatSnoc(closed + [open], [chunk]);
    FlatSnoc(closed, open + [chunk]);
    TotalTokensSnoc(open, chunk);
    assert forall g | g in closed :: g in closed + [open];
  }

  /** Every chunk is in exactly one group, in order, and only a lone chunk may exceed the limit. */
  lemma {:induction false} GroupsPartition(limit: nat, chunks: seq<string>)
    ensures Flat(Groups(limit, chunks)) == chunks
    ensures AllWithin(limit, Groups(limit, chunks))
    ensures chunks != [] ==> Groups(limit, chunks) != []
  {
    if chunks != [] {
      var init, chunk := chunks[..|chunks| - 1], chunks[|chunks| - 1];
      GroupsPartition(limit, init);
      assert chunks == init + [chunk];
      if init == [] {
        FlatSnoc([], [chunk]);
      } else {
        var prior := Groups(limit, init);
        var closed, open := prior[..|prior| - 1], prior[|prior| - 1];
        assert prior == closed + [open];
        GroupsSnoc(limit, init, closed, open, chunk);
        PartitionSnoc(limit, closed, open, chunk);
      }
    }
  }

  /** Every group but the last was closed by the first chunk of the next. */
  ghost predicate AllFull(limit: nat, groups: seq<seq<string>>)
  {
    forall i | 0 < i < |groups| :: Full(limit, groups[i - 1], groups[i])
  }

  lemma AllFullSnoc(limit: nat, closed: seq<seq<string>>, open: seq<string>, chunk: string)
    requires AllFull(limit, closed + [open]) && open != []
    ensures TotalTokens(open) + Tokens(chunk) > limit ==> AllFull(limit, closed + [open] + [[chunk]])
    ensures AllFull(limit, closed + [open + [chunk]])
  {
    var n := |closed|;
    var was, more, longer := closed + [open], closed + [open] + [[chunk]], closed + [open + [chunk]];
    assert forall i | 0 <= i <= n :: more[i] == was[i];
    assert forall i | 0 <= i < n :: longer[i] == was[i];
    if n > 0 {
      assert Full(limit, was[n - 1], was[n]) && longer[n - 1] == was[n - 1] && longer[n][0] == was[n][0];
    }
  }

  /** No group ends before the limit makes it. */
  lemma {:induction false} GroupsAreGreedy(limit: nat, chunks: seq<string>)
    ensures AllFull(limit, Groups(limit, chunks))
  {
    if chunks != [] {
      var init, chunk := chunks[..|chunks| - 1], chunks[|chunks| - 1];
      GroupsAreGreedy(limit, init);
      GroupsPartition(limit, init);
      if init != [] {
        var prior := Groups(limit, init);
        var closed, open := prior[..|prior| - 1], prior[|prior| - 1];
        assert prior == closed + [open] && chunks == init + [chunk] && WithinLimit(limit, open);
        GroupsSnoc(limit, init, closed, open, chunk);
        AllFullSnoc(limit, closed, open, chunk);
      }
    }
  }

  function Joined(groups: seq<seq<string>>): seq<string>
  {
    seq(|groups|, i requires 0 <= i < |groups| => Join(BATCH_SEPARATOR, groups[i]))
  }

  function Batches(limit: nat, chunks: seq<string>): seq<string>
  {
    Joined(Groups(limit, chunks))
  }

  /** These groups of the chunks, filled in order as far as the limit allows, make these batches. */
  ghost predicate Batched(limit: nat, chunks: seq<string>, groups: seq<seq<string>>, batches: seq<string>)
  {
    && Flat(groups) == chunks
    && AllWithin(limit, groups)
    && AllFull(limit, groups)
    && |batches| == |groups| && forall i | 0 <= i < |groups| :: batches[i] == Join("\n\n---\n\n", groups[i])
  }

  lemma BatchesMeaning(limit: nat, chunks: seq<string>)
    ensures Batched(limit, chunks, Groups(limit, chunks), Batches(limit, chunks))
  {
    GroupsPartition(limit, chunks);
    GroupsAreGreedy(limit, chunks);
  }

  // ---------------------------------------------------------------- extraction and its cache

  /** What the first n batches yield when every one of them is answered. */
  function Collected(m: Model, batches: seq<string>, n: nat): Raw
    requires n <= |batches|
  {
    if n == 0 then NOTHING
    else Append(Collected(m, batches, n - 1), m.parse(m.llm(m.request(batches[n - 1]))))
  }

  /** For each batch the entities of the model's reply to it, or none if it was not answered. */
  function EntitiesGiven(m: Model, batches: seq<string>, answered: seq<bool>): seq<seq<RawEntity>>
    requires |answered| <= |batches|
  {
    seq(|answered|, i requires 0 <= i < |answered| =>
      if answered[i] then m.parse(m.llm(m.request(batches[i]))).entities else [])
  }

  function RelationshipsGiven(m: Model, batches: seq<string>, answered: seq<bool>): seq<seq<RawRelationship>>
    requires |answered| <= |batches|
  {
    seq(|answered|, i requires 0 <= i < |answered| =>
      if answered[i] then m.parse(m.llm(m.request(batches[i]))).relationships else [])
  }

  /** All that the replies to the answered batches hold, one after the other. */
  ghost predicate Gathered(m: Model, batches: seq<string>, answered: seq<bool>, raw: Raw)
    requires |answered| <= |batches|
  {
    && raw.entities == Flat(EntitiesGiven(m, batches, answered))
    && raw.relationships == Flat(RelationshipsGiven(m, batches, answered))
  }

  /** One more batch, answered or not. */
  lemma GatheredSnoc(m: Model, batches: seq<string>, before: seq<bool>, raw: Raw, answer: bool, raw': Raw)
    requires |before| < |batches| && Gathered(m, batches, before, raw)
    requires raw' == if answer then Append(raw, m.parse(m.llm(m.request(batches[|before|])))) else raw
    ensures Gathered(m, batches, before + [answer], raw')
  {
    var n, answered := |before|, before + [answer];
    var es, rs := EntitiesGiven(m, batches, answered), RelationshipsGiven(m, batches, answered);
    assert es == EntitiesGiven(m, batches, before) + [es[n]] && rs == RelationshipsGiven(m, batches, before) + [rs[n]];
    FlatSnoc(EntitiesGiven(m, batches, before), es[n]);
    FlatSnoc(RelationshipsGiven(m, batches, before), rs[n]);
  }

  /** Extraction with an empty cache and a model that answers. */
  function Extract(m: Model, chunks: seq<string>): Result
  {
    var batches := Batches(m.batchTokens, chunks);
    Normalize(m.slug, Collected(m, batches, |batches|), false)
  }

  /**
   * What extraction promises, said of the chunks alone: the answered batches, each a run of chunks
   * as long as the limit allows, yield what the model replies to them, one after the other.
   */
  ghost predicate Yields(m: Model, chunks: seq<string>, answered: seq<bool>, r: Result)
  {
    exists groups, batches, raw ::
      && Batched(m.batchTokens, chunks, groups, batches) && |answered| == |batches|
      && Gathered(m, batches, answered, raw) && Distilled(m.slug, raw, r)
  }

  lemma GatheredYields(m: Model, chunks: seq<string>, answered: seq<bool>, raw: Raw, hadFailure: bool)
    requires |answered| == |Batches(m.batchTokens, chunks)|
    requires Gathered(m, Batches(m.batchTokens, chunks), answered, raw)
    ensures Yields(m, chunks, answered, Normalize(m.slug, raw, hadFailure))
  {
    BatchesMeaning(m.batchTokens, chunks);
    NormalizeDistills(m.slug, raw, hadFailure);
    assert Batched(m.batchTokens, chunks, Groups(m.batchTokens, chunks), Batches(m.batchTokens, chunks));
  }

  function AllTrue(n: nat): (r: seq<bool>)
  {
    seq(n, i => true)
  }

  lemma {:induction false} CollectedIsGathered(m: Model, batches: seq<string>, n: nat)
    requires n <= |batches|
    ensures Gathered(m, batches, AllTrue(n), Collected(m, batches, n))
  {
    if n == 0 {
      assert EntitiesGiven(m, batches, AllTrue(0)) == [] && RelationshipsGiven(m, batches, AllTrue(0)) == [];
    } else {
      CollectedIsGathered(m, batches, n - 1);
      GatheredSnoc(m, batches, AllTrue(n - 1), Collected(m, batches, n - 1), true, Collected(m, batches, n));
      assert AllTrue(n - 1) + [true] == AllTrue(n);
    }
  }

  /** With an empty cache and a model that answers, every batch counts. */
  lemma ExtractMeaning(m: Model, chunks: seq<string>)
    ensures Yields(m, chunks, AllTrue(|Batches(m.batchTokens, chunks)|), Extract(m, chunks))
    ensures !Extract(m, chunks).hadFailure
  {
    var batches := Batches(m.batchTokens, chunks);
    CollectedIsGathered(m, batches, |batches|);
    GatheredYields(m, chunks, AllTrue(|batches|), Collected(m, batches, |batches|), false);
  }

  /** Every cached reply is what the model answers to some request with the row's hash. */
  ghost predicate CacheSound(sha: string -> string, llm: string -> string, cache: map<CacheKey, Cached>)
  {
    forall k | k in cache :: exists request :: sha(request) == cache[k].requestSha && cache[k].reply == llm(request)
  }

  ghost predicate Injective(f: string -> string)
  {
    forall x, y :: f(x) == f(y) ==> x == y
  }

  /** The reply replayed for this batch, if one was cached for exactly this request. */
  function Lookup(cache: map<CacheKey, Cached>, key: CacheKey, requestSha: string): Option<string>
  {
    if key in cache && cache[key].requestSha == requestSha then Some(cache[key].reply) else None
  }

  /** A cached reply is never one to another text, model, prompt or option. */
  lemma LookupIsModelReply(m: Model, cache: map<CacheKey, Cached>, key: CacheKey, request: string)
    requires Injective(m.sha) && CacheSound(m.sha, m.llm, cache)
    ensures Lookup(cache, key, m.sha(request)).Some? ==> Lookup(cache, key, m.sha(request)).value == m.llm(request)
  {
    if Lookup(cache, key, m.sha(request)).Some? {
      var made :| m.sha(made) == cache[key].requestSha && cache[key].reply == m.llm(made);
    }
  }

  datatype Progress = Progress(cache: map<CacheKey, Cached>, raw: Raw, failed: bool)

  /** The reply used for a batch: the cached one, or else the model's. */
  function ReplyTo(m: Model, f: Path, cache: map<CacheKey, Cached>, i: nat, text: string): string
  {
    match Lookup(cache, CacheKey(f, i), m.sha(m.request(text)))
    case Some(reply) => reply
    case None => m.llm(m.request(text))
  }

  /**
   * One batch: a cached reply is replayed, otherwise the model's answer is cached and used.  A
   * batch that fails in any way counts as empty and marks the extraction as failed.
   */
  function BatchStep(m: Model, f: Path, p: Progress, i: nat, text: string, answered: bool): Progress
  {
    var key, sha := CacheKey(f, i), m.sha(m.request(text));
    var reply := ReplyTo(m, f, p.cache, i, text);
    if !answered then p.(failed := true)
    else
      p.(cache := if Lookup(p.cache, key, sha).Some? then p.cache else p.cache[key := Cached(sha, reply)],
         raw := Append(p.raw, m.parse(reply)))
  }

  /** The first |answered| batches of a file, batch i answered or not as answered[i] says. */
  function AfterBatches(m: Model, f: Path, cache: map<CacheKey, Cached>, batches: seq<string>,
                        answered: seq<bool>): Progress
    requires |answered| <= |batches|
  {
    if answered == [] then Progress(cache, NOTHING, false)
    else
      var n := |answered| - 1;
      BatchStep(m, f, AfterBatches(m, f, cache, batches, answered[..n]), n, batches[n], answered[n])
  }

  lemma CacheGrows(m: Model, cache: map<CacheKey, Cached>, key: CacheKey, request: string)
    requires CacheSound(m.sha, m.llm, cache)
    ensures CacheSound(m.sha, m.llm, cache[key := Cached(m.sha(request), m.llm(request))])
  {
    var cache' := cache[key := Cached(m.sha(request), m.llm(request))];
    forall k | k in cache' ensures exists r :: m.sha(r) == cache'[k].requestSha && cache'[k].reply == m.llm(r) {
      if k == key {
        assert m.sha(request) == cache'[k].requestSha;
      }
    }
  }

  lemma BatchStepSound(m: Model, f: Path, p: Progress, i: nat, text: string, answered: bool)
    requires Injective(m.sha) && CacheSound(m.sha, m.llm, p.cache)
    ensures var p' := BatchStep(m, f, p, i, text, answered);
      && CacheSound(m.sha, m.llm, p'.cache)
      && p'.failed == (p.failed || !answered)
      && p'.raw == if answered then Append(p.raw, m.parse(m.llm(m.request(text)))) else p.raw
  {
    LookupIsModelReply(m, p.cache, CacheKey(f, i), m.request(text));
    CacheGrows(m, p.cache, CacheKey(f, i), m.request(text));
  }

  lemma {:induction false} AfterBatchesSound(m: Model, f: Path, cache: map<CacheKey, Cached>, batches: seq<string>,
                                             answered: seq<bool>)
    requires Injective(m.sha) && CacheSound(m.sha, m.llm, cache) && |answered| <= |batches|
    ensures var p := AfterBatches(m, f, cache, batches, answered);
      && CacheSound(m.sha, m.llm, p.cache)
      && (p.failed <==> false in answered)
      && (!p.failed ==> p.raw == Collected(m, batches, |answered|))
      && Gathered(m, batches, answered, p.raw)
  {
    if answered != [] {
      var n := |answered| - 1;
      AfterBatchesSound(m, f, cache, batches, answered[..n]);
      assert answered == answered[..n] + [answered[n]];
      var before := AfterBatches(m, f, cache, batches, answered[..n]);
      var after := AfterBatches(m, f, cache, batches, answered);
      BatchStepSound(m, f, before, n, batches[n], answered[n]);
      GatheredSnoc(m, batches, answered[..n], before.raw, answered[n], after.raw);
    }
  }

  /** The cache replays the model's reply to batch i of the file. */
  predicate Replays(m: Model, f: Path, cache: map<CacheKey, Cached>, i: nat, text: string)
  {
    Lookup(cache, CacheKey(f, i), m.sha(m.request(text))) == Some(m.llm(m.request(text)))
  }

  ghost predicate SameAt(cache: map<CacheKey, Cached>, cache': map<CacheKey, Cached>, k: CacheKey)
  {
    (k in cache <==> k in cache') && (k in cache ==> cache[k] == cache'[k])
  }

  lemma BatchStepCaches(m: Model, f: Path, p: Progress, i: nat, text: string, answered: bool)
    requires Injective(m.sha) && CacheSound(m.sha, m.llm, p.cache)
    ensures answered ==> Replays(m, f, BatchStep(m, f, p, i, text, answered).cache, i, text)
    ensures forall k | k != CacheKey(f, i) :: SameAt(p.cache, BatchStep(m, f, p, i, text, answered).cache, k)
  {
    LookupIsModelReply(m, p.cache, CacheKey(f, i), m.request(text));
  }

  /** An answered batch is replayed from then on: the cache holds the model's reply under the file and number. */
  lemma {:induction false} AnsweredAreCached(m: Model, f: Path, cache: map<CacheKey, Cached>, batches: seq<string>,
                                             answered: seq<bool>, i: nat)
    requires Injective(m.sha) && CacheSound(m.sha, m.llm, cache) && i < |answered| <= |batches| && answered[i]
    ensures Replays(m, f, AfterBatches(m, f, cache, batches, answered).cache, i, batches[i])
    decreases |answered|
  {
    var n := |answered| - 1;
    var before := AfterBatches(m, f, cache, batches, answered[..n]);
    AfterBatchesSound(m, f, cache, batches, answered[..n]);
    BatchStepCaches(m, f, before, n, batches[n], answered[n]);
    if i < n {
      AnsweredAreCached(m, f, cache, batches, answered[..n], i);
      assert SameAt(before.cache, AfterBatches(m, f, cache, batches, answered).cache, CacheKey(f, i));
    }
  }

  /** No cached reply but those to the file's own batches changes. */
  lemma {:induction false} OtherRepliesStay(m: Model, f: Path, cache: map<CacheKey, Cached>, batches: seq<string>,
                                            answered: seq<bool>, k: CacheKey)
    requires Injective(m.sha) && CacheSound(m.sha, m.llm, cache) && |answered| <= |batches|
    requires !(k.doc == f && k.batch < |answered|)
    ensures SameAt(cache, AfterBatches(m, f, cache, batches, answered).cache, k)
    decreases |answered|
  {
    if answered != [] {
      var n := |answered| - 1;
      var before := AfterBatches(m, f, cache, batches, answered[..n]);
      AfterBatchesSound(m, f, cache, batches, answered[..n]);
      BatchStepCaches(m, f, before, n, batches[n], answered[n]);
      OtherRepliesStay(m, f, cache, batches, answered[..n], k);
      assert SameAt(before.cache, AfterBatches(m, f, cache, batches, answered).cache, k);
    }
  }

  // ---------------------------------------------------------------- every cache a history can leave

  /** One past extraction (its model settings may differ), cut short or not, or a purge. */
  datatype Session =
    | Extracted(f: Path, batchTokens: nat, slug: string -> EntityId, request: string -> string, parse: string -> Raw,
                chunks: seq<string>, answered: seq<bool>)
    | Purged(f: Path)

  predicate Possible(e: Session)
  {
    e.Extracted? ==> |e.answered| <= |Batches(e.batchTokens, e.chunks)|
  }

  /** The cache such sessions leave, every one of them using the same hash and the same model. */
  function CacheAfter(sha: string -> string, llm: string -> string, history: seq<Session>): map<CacheKey, Cached>
    requires forall e | e in history :: Possible(e)
  {
    if history == [] then map[]
    else
      var e, prior := history[|history| - 1], CacheAfter(sha, llm, history[..|history| - 1]);
      assert Possible(e);
      match e
      case Extracted(f, limit, slug, request, parse, chunks, answered) =>
        AfterBatches(Model(limit, slug, request, sha, llm, parse), f, prior, Batches(limit, chunks), answered).cache
      case Purged(f) => CacheExcept(prior, f)
  }

  lemma {:induction false} CacheAfterSound(sha: string -> string, llm: string -> string, history: seq<Session>)
    requires Injective(sha) && forall e | e in history :: Possible(e)
    ensures CacheSound(sha, llm, CacheAfter(sha, llm, history))
  {
    if history != [] {
      var e, init := history[|history| - 1], history[..|history| - 1];
      CacheAfterSound(sha, llm, init);
      assert Possible(e);
      match e
      case Extracted(f, limit, slug, request, parse, chunks, answered) =>
        AfterBatchesSound(Model(limit, slug, request, sha, llm, parse), f, CacheAfter(sha, llm, init),
                          Batches(limit, chunks), answered);
      case Purged(f) =>
    }
  }

  /**
   * From any cache such a history leaves, an extraction that reports no failure returns exactly
   * what it would with an empty cache.
   */
  lemma CacheTransparency(m: Model, history: seq<Session>, f: Path, chunks: seq<string>, answered: seq<bool>)
    requires Injective(m.sha) && forall e | e in history :: Possible(e)
    requires |answered| == |Batches(m.batchTokens, chunks)|
    ensures var p := AfterBatches(m, f, CacheAfter(m.sha, m.llm, history), Batches(m.batchTokens, chunks), answered);
            (p.failed <==> false in answered)
            && (!p.failed ==> Normalize(m.slug, p.raw, p.failed) == Extract(m, chunks))
  {
    CacheAfterSound(m.sha, m.llm, history);
    AfterBatchesSound(m, f, CacheAfter(m.sha, m.llm, history), Batches(m.batchTokens, chunks), answered);
  }
}
