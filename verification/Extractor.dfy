/** The extractor's loops, proved to compute what `Extraction` specifies. */
module Extractor {
  import opened Options
  import opened Records
  import opened Text
  import opened Extraction
  import opened Stores

  /** The batches closed so far and the parts of the open one are the groups of the chunks read. */
  ghost predicate Grouped(limit: nat, chunks: seq<string>, closed: seq<seq<string>>, current: seq<string>)
  {
    if current == [] then chunks == [] && closed == [] else Groups(limit, chunks) == closed + [current]
  }

  lemma GroupedStep(limit: nat, chunks: seq<string>, closed: seq<seq<string>>, current: seq<string>, chunk: string)
    requires Grouped(limit, chunks, closed, current)
    ensures if current != [] && TotalTokens(current) + Tokens(chunk) > limit
            then Grouped(limit, chunks + [chunk], closed + [current], [chunk])
            else Grouped(limit, chunks + [chunk], closed, current + [chunk])
  {
    if current == [] {
      assert Groups(limit, [] + [chunk]) == [[chunk]];
    } else {
      GroupsSnoc(limit, chunks, closed, current, chunk);
    }
  }

  lemma JoinedSnoc(groups: seq<seq<string>>, group: seq<string>)
    ensures Joined(groups + [group]) == Joined(groups) + [Join(BATCH_SEPARATOR, group)]
  {
  }

  method BuildBatches(limit: nat, chunks: seq<string>) returns (batches: seq<string>)
    ensures batches == Batches(limit, chunks)
    ensures Batched(limit, chunks, Groups(limit, chunks), batches)
  {
    BatchesMeaning(limit, chunks);
    batches := [];
    var currentParts: seq<string> := [];
    var currentTokens := 0;
    ghost var closed: seq<seq<string>> := [];
    for i := 0 to |chunks|
      invariant batches == Joined(closed) && currentTokens == TotalTokens(currentParts)
      invariant Grouped(limit, chunks[..i], closed, currentParts)
    {
      var chunk := chunks[i];
      assert chunks[..i + 1] == chunks[..i] + [chunk];
      GroupedStep(limit, chunks[..i], closed, currentParts, chunk);
      if currentParts != [] && currentTokens + Tokens(chunk) > limit {
        JoinedSnoc(closed, currentParts);
        batches := batches + [Join(BATCH_SEPARATOR, currentParts)];
        closed := closed + [currentParts];
        currentParts, currentTokens := [], 0;
      }
      TotalTokensSnoc(currentParts, chunk);
      assert currentParts == [] ==> currentParts + [chunk] == [chunk];
      currentParts := currentParts + [chunk];
      currentTokens := currentTokens + Tokens(chunk);
    }
    assert chunks[..|chunks|] == chunks;
    if currentParts != [] {
      JoinedSnoc(closed, currentParts);
      batches := batches + [Join(BATCH_SEPARATOR, currentParts)];
    }
  }

  method NormalizeEntities(slug: string -> EntityId, entities: seq<RawEntity>)
    returns (rows: seq<EntityRow>, slugs: set<EntityId>)
    ensures rows == Values(Normalized(slug, entities)) && slugs == Normalized(slug, entities).rows.Keys
    ensures slugs == Ids(rows) && RowsMeant(slug, entities, rows)
    ensures exists places :: RowsInOrder(slug, entities, places, IdsInOrder(rows))
  {
    var order: seq<EntityId>, bySlug: map<EntityId, EntityRow> := [], map[];
    for i := 0 to |entities|
      invariant BySlug(order, bySlug) == Normalized(slug, entities[..i])
    {
      assert entities[..i + 1][..i] == entities[..i];
      var e := entities[i];
      var id := slug(e.name);
      if id != "" {
        if id !in bySlug {
          order := order + [id];
          bySlug := bySlug[id := EntityRow(id, e.name, Typed(e.etype), Some(e.description))];
        } else {
          var row := bySlug[id];
          if |e.description| > |row.description.value| {
            row := row.(description := Some(e.description));
          }
          if row.etype == None {
            row := row.(etype := Typed(e.etype));
          }
          bySlug := bySlug[id := row];
        }
      }
    }
    assert entities[..|entities|] == entities;
    rows := seq(|order|, i requires 0 <= i < |order| => bySlug[order[i]]);
    slugs := bySlug.Keys;
    NormalizedRows(slug, entities);
  }

  method NormalizeRelationships(slug: string -> EntityId, relationships: seq<RawRelationship>, valid: set<EntityId>)
    returns (kept: seq<RawRelationship>)
    ensures kept == UsableOnly(slug, valid, relationships)
    ensures exists places :: KeptAt(slug, valid, relationships, places, kept)
  {
    ghost var places := UsableInOrder(slug, valid, relationships);
    kept := [];
    for i := 0 to |relationships|
      invariant kept == UsableOnly(slug, valid, relationships[..i])
    {
      assert relationships[..i + 1][..i] == relationships[..i];
      if Usable(slug, valid, relationships[i]) {
        kept := kept + [relationships[i]];
      }
    }
    assert relationships[..|relationships|] == relationships;
  }

  /** Fails, leaving the store alone, when the model, the lookup or the cache write does. */
  method LoadOrExtractBatch(m: Model, answering: bool, text: string, i: nat, f: Path, store: GraphStore)
    returns (answered: bool, raw: Raw)
    modifies store
    ensures answered ==> raw == m.parse(ReplyTo(m, f, old(store.cache), i, text))
    ensures var next := BatchStep(m, f, Progress(old(store.cache), NOTHING, false), i, text, answered);
            store.Db() == old(store.Db()).(cache := next.cache)
    ensures answering && store.reliable ==> answered
  {
    var request := m.request(text);
    var requestSha := m.sha(request);
    var refused: bool, raised: bool := *, *;
    if (refused && !answering) || (raised && !store.reliable) {
      return false, NOTHING;
    }
    match Lookup(store.cache, CacheKey(f, i), requestSha) {
      case Some(reply) =>
        return true, m.parse(reply);
      case None =>
        var reply := m.llm(request);
        answered := store.CacheExtraction(CacheKey(f, i), requestSha, reply);
        raw := m.parse(reply);
    }
  }

  /** `answering` tells that the model can be relied on to answer every request. */
  method ExtractEntitiesForFile(m: Model, answering: bool, chunks: seq<string>, f: Path, store: GraphStore)
    returns (result: Result, ghost answered: seq<bool>)
    modifies store
    ensures |answered| == |Batches(m.batchTokens, chunks)|
    ensures var p := AfterBatches(m, f, old(store.cache), Batches(m.batchTokens, chunks), answered);
      && store.Db() == old(store.Db()).(cache := p.cache)
      && result == Normalize(m.slug, p.raw, p.failed)
    ensures result.hadFailure <==> exists i | 0 <= i < |answered| :: !answered[i]
    ensures Injective(m.sha) && CacheSound(m.sha, m.llm, old(store.cache)) ==> Yields(m, chunks, answered, result)
    ensures answering && store.reliable ==> !result.hadFailure
  {
    var batches := BuildBatches(m.batchTokens, chunks);
    var raw, anyFailure := NOTHING, false;
    answered := [];
    for i := 0 to |batches|
      invariant |answered| == i && (anyFailure <==> exists j | 0 <= j < i :: !answered[j])
      invariant answering && store.reliable ==> !anyFailure
      invariant AfterBatches(m, f, old(store.cache), batches, answered) == Progress(store.cache, raw, anyFailure)
      invariant store.Db() == old(store.Db()).(cache := store.cache)
    {
      var ok, one := LoadOrExtractBatch(m, answering, batches[i], i, f, store);
      if ok {
        raw := Append(raw, one);
      } else {
        anyFailure := true;
      }
      answered := answered + [ok];
      assert answered[..i] == answered[..|answered| - 1];
    }
    var rows, slugs := NormalizeEntities(m.slug, raw.entities);
    var kept := NormalizeRelationships(m.slug, raw.relationships, slugs);
    result := Result(rows, kept, anyFailure);
    if Injective(m.sha) && CacheSound(m.sha, m.llm, old(store.cache)) {
      AfterBatchesSound(m, f, old(store.cache), batches, answered);
      GatheredYields(m, chunks, answered, raw, anyFailure);
    }
  }
}
