/** What the tables always satisfy, and how each transaction keeps it. */
module Integrity {
  // References lead somewhere, an entity lives exactly while a document mentions it, and its type and
  // description are those its current mentions determine.

  import opened Options
  import opened Records

  function Mentioned(m: map<MentionKey, Mention>): set<EntityId>
  {
    set k | k in m :: k.entity
  }

  function Docs(chunks: map<ChunkId, Chunk>): set<Path>
  {
    set c | c in chunks :: chunks[c].doc
  }

  /** The REFERENCES clauses of the schema, which SQLite checks after every statement. */
  predicate ForeignKeys(t: Tables)
  {
    && (forall k | k in t.mentions :: k.entity in t.entities)
    && (forall k | k in t.relationships :: k.source in t.entities && k.target in t.entities)
    && (forall l | l in t.links :: l.chunk in t.chunks && l.entity in t.entities)
  }

  predicate EndpointsMentioned(r: map<RelKey, real>, m: map<MentionKey, Mention>)
  {
    forall k | k in r :: MentionKey(k.source, k.doc) in m && MentionKey(k.target, k.doc) in m
  }

  predicate LinksMentioned(links: set<Link>, chunks: map<ChunkId, Chunk>, m: map<MentionKey, Mention>)
  {
    forall l | l in links :: l.chunk in chunks && MentionKey(l.entity, chunks[l.chunk].doc) in m
  }

  predicate MentionsChunked(m: map<MentionKey, Mention>, chunks: map<ChunkId, Chunk>)
  {
    forall k | k in m :: k.doc in Docs(chunks)
  }

  /** What a document's relationships and chunk links name, the document also mentions. */
  predicate Disciplined(t: Tables)
  {
    && t.entities.Keys == Mentioned(t.mentions)
    && EndpointsMentioned(t.relationships, t.mentions)
    && LinksMentioned(t.links, t.chunks, t.mentions)
    && MentionsChunked(t.mentions, t.chunks)
  }

  /** The materialised columns equal the view over the current mentions, for every entity. */
  predicate Derived(t: Tables)
  {
    AllRefreshed(t.entities, t.mentions)
  }

  predicate AllRefreshed(entities: map<EntityId, Entity>, m: map<MentionKey, Mention>)
  {
    forall e | e in entities :: entities[e] == Refreshed(m, e, entities[e])
  }

  predicate Sound(t: Tables)
  {
    Disciplined(t) && Derived(t)
  }

  // ---------------------------------------------------------------- one document's rows, and all others

  function LinksBy(t: Tables, f: Path): set<Link>
  {
    LinksTo(t.links, ChunkIdsOf(t, f))
  }

  /** Every row of a document other than f, leaving the shared entity table aside. */
  function Others(t: Tables, f: Path): Tables
  {
    Tables(
      map[],
      MentionsExcept(t.mentions, f),
      RelationshipsExcept(t.relationships, f),
      ChunksExcept(t.chunks, f),
      LinksExcept(t.links, ChunkIdsOf(t, f)),
      FingerprintsExcept(t.fingerprints, f),
      CacheExcept(t.cache, f))
  }

  predicate HoldsNothingOf(t: Tables, f: Path)
  {
    && (forall k | k in t.mentions :: k.doc != f)
    && (forall k | k in t.relationships :: k.doc != f)
    && (forall c | c in t.chunks :: t.chunks[c].doc != f)
    && (forall k | k in t.cache :: k.doc != f)
    && f !in t.fingerprints
  }

  /** No mention, relationship, chunk, link or fingerprint of f; cached replies may remain. */
  predicate Cleared(t: Tables, f: Path)
  {
    && MentionsBy(t.mentions, f) == map[]
    && RelationshipsBy(t.relationships, f) == map[]
    && ChunksBy(t.chunks, f) == map[]
    && f !in t.fingerprints
  }

  /** Every entity of t is still there under the name and community it had. */
  predicate NamesKept(t: Tables, t': Tables)
  {
    forall e | e in t.entities :: e in t'.entities
      && t'.entities[e].name == t.entities[e].name && t'.entities[e].community == t.entities[e].community
  }

  /** Tables that agree on all rows but f's agree on every row of any other document g. */
  lemma OthersDetermine(t: Tables, t': Tables, f: Path, g: Path)
    requires Others(t, f) == Others(t', f) && g != f
    ensures MentionsBy(t.mentions, g) == MentionsBy(t'.mentions, g)
    ensures RelationshipsBy(t.relationships, g) == RelationshipsBy(t'.relationships, g)
    ensures ChunksBy(t.chunks, g) == ChunksBy(t'.chunks, g)
    ensures LinksBy(t, g) == LinksBy(t', g)
    ensures g in t.fingerprints <==> g in t'.fingerprints
    ensures g in t.fingerprints ==> t.fingerprints[g] == t'.fingerprints[g]
  {
    MentionsByOther(t.mentions, f, g);
    MentionsByOther(t'.mentions, f, g);
    RelationshipsByOther(t.relationships, f, g);
    RelationshipsByOther(t'.relationships, f, g);
    LinksByOther(t, f, g);
    LinksByOther(t', f, g);
    assert g in t.fingerprints <==> g in FingerprintsExcept(t.fingerprints, f);
    assert g in t'.fingerprints <==> g in FingerprintsExcept(t'.fingerprints, f);
  }

  lemma MentionsByOther(m: map<MentionKey, Mention>, f: Path, g: Path)
    requires g != f
    ensures MentionsBy(m, g) == MentionsBy(MentionsExcept(m, f), g)
  {
  }

  lemma RelationshipsByOther(r: map<RelKey, real>, f: Path, g: Path)
    requires g != f
    ensures RelationshipsBy(r, g) == RelationshipsBy(RelationshipsExcept(r, f), g)
  {
  }

  lemma LinksByOther(t: Tables, f: Path, g: Path)
    requires g != f
    ensures ChunksBy(t.chunks, g) == ChunksBy(ChunksExcept(t.chunks, f), g)
    ensures LinksBy(t, g) == LinksTo(LinksExcept(t.links, ChunkIdsOf(t, f)), ChunksBy(t.chunks, g).Keys)
  {
  }

  // ---------------------------------------------------------------- mentions

  lemma {:induction false} InsertEntitiesEffect(entities: map<EntityId, Entity>, rows: seq<EntityRow>)
    ensures InsertEntities(entities, rows).Keys == entities.Keys + Ids(rows)
    ensures forall e | e in entities :: InsertEntities(entities, rows)[e] == entities[e]
  {
    if rows != [] {
      var init := rows[..|rows| - 1];
      InsertEntitiesEffect(entities, init);
      IdsSnoc(init, rows[|rows| - 1]);
      assert rows == init + [rows[|rows| - 1]];
    }
  }

  lemma IdsSnoc(rows: seq<EntityRow>, row: EntityRow)
    ensures Ids(rows + [row]) == Ids(rows) + {row.id}
  {
    var all := rows + [row];
    assert all[|rows|] == row;
    forall i | 0 <= i < |rows| ensures rows[i].id in Ids(all) { assert all[i] == rows[i]; }
  }

  lemma {:induction false} UpsertMentionsEffect(m: map<MentionKey, Mention>, rows: seq<EntityRow>, doc: Path)
    ensures forall k :: k in UpsertMentions(m, rows, doc) <==> k in m || (k.doc == doc && k.entity in Ids(rows))
    ensures forall k | k in m && !(k.doc == doc && k.entity in Ids(rows)) :: UpsertMentions(m, rows, doc)[k] == m[k]
  {
    if rows != [] {
      var init, row := rows[..|rows| - 1], rows[|rows| - 1];
      UpsertMentionsEffect(m, init, doc);
      IdsSnoc(init, row);
      assert rows == init + [row];
    }
  }

  /** What the upsert leaves for the document depends on nothing but what it held before. */
  lemma {:induction false} UpsertMentionsLocal(m: map<MentionKey, Mention>, rows: seq<EntityRow>, doc: Path)
    ensures MentionsBy(UpsertMentions(m, rows, doc), doc) == UpsertMentions(MentionsBy(m, doc), rows, doc)
    ensures MentionsExcept(UpsertMentions(m, rows, doc), doc) == MentionsExcept(m, doc)
  {
    if rows != [] {
      UpsertMentionsLocal(m, rows[..|rows| - 1], doc);
    }
  }

  /** Row i is the last of its id. */
  predicate LastOfId(rows: seq<EntityRow>, i: nat)
  {
    i < |rows| && forall j | i < j < |rows| :: rows[j].id != rows[i].id
  }

  /** Row i is the first of its id. */
  predicate FirstOfId(rows: seq<EntityRow>, i: nat)
  {
    i < |rows| && forall j | 0 <= j < i :: rows[j].id != rows[i].id
  }

  /** The last row of an id is what the document says of it. */
  lemma {:induction false} LastRowWins(m: map<MentionKey, Mention>, rows: seq<EntityRow>, doc: Path, i: nat)
    requires LastOfId(rows, i)
    ensures var k, m' := MentionKey(rows[i].id, doc), UpsertMentions(m, rows, doc);
            k in m' && m'[k] == Mention(rows[i].etype, rows[i].description)
  {
    var n := |rows| - 1;
    if i < n {
      assert LastOfId(rows[..n], i) && rows[..n][i] == rows[i] != rows[n];
      LastRowWins(m, rows[..n], doc, i);
    }
  }

  /** The first row of a new id names it. */
  lemma {:induction false} FirstRowNames(entities: map<EntityId, Entity>, rows: seq<EntityRow>, i: nat)
    requires FirstOfId(rows, i) && rows[i].id !in entities
    ensures var all := InsertEntities(entities, rows);
            rows[i].id in all && all[rows[i].id] == Entity(rows[i].name, None, None, None)
  {
    var n := |rows| - 1;
    InsertEntitiesEffect(entities, rows[..n]);
    if i < n {
      assert FirstOfId(rows[..n], i) && rows[..n][i] == rows[i];
      FirstRowNames(entities, rows[..n], i);
    } else {
      assert rows[n].id !in Ids(rows[..n]);
    }
  }

  /** The last row of every id is what the document says of it; all else that was said stays. */
  ghost predicate SaidBy(m: map<MentionKey, Mention>, m': map<MentionKey, Mention>, rows: seq<EntityRow>, doc: Path)
  {
    && (forall i: nat | LastOfId(rows, i) ::
          var k := MentionKey(rows[i].id, doc); k in m' && m'[k] == Mention(rows[i].etype, rows[i].description))
    && (forall k | k in m && !(k.doc == doc && exists i | 0 <= i < |rows| :: rows[i].id == k.entity) ::
          k in m' && m'[k] == m[k])
    && forall k | k in m' && k !in m :: k.doc == doc && exists i | 0 <= i < |rows| :: rows[i].id == k.entity
  }

  /** The first row of a new id names it; an entity that was there keeps its name and community. */
  ghost predicate NamedBy(entities: map<EntityId, Entity>, entities': map<EntityId, Entity>, rows: seq<EntityRow>)
  {
    && (forall i: nat | FirstOfId(rows, i) && rows[i].id !in entities ::
          rows[i].id in entities' && entities'[rows[i].id].name == rows[i].name)
    && (forall e | e in entities ::
          e in entities' && entities'[e].name == entities[e].name && entities'[e].community == entities[e].community)
    && forall e | e in entities' && e !in entities :: exists i | 0 <= i < |rows| :: rows[i].id == e
  }

  /** The entity shows the row's own type and, unless it is empty, its description. */
  predicate Shows(entities: map<EntityId, Entity>, row: EntityRow)
  {
    && row.id in entities && entities[row.id].etype == row.etype
    && entities[row.id].description == if row.description == Some("") then None else row.description
  }

  predicate OnlyMentionedBy(m: map<MentionKey, Mention>, e: EntityId, doc: Path)
  {
    forall k | k in m && k.entity == e :: k.doc == doc
  }

  /** What recording the rows for the document does; an entity it alone mentions shows the last row of its id. */
  ghost predicate Recorded(t: Tables, t': Tables, rows: seq<EntityRow>, doc: Path)
  {
    && t' == t.(entities := t'.entities, mentions := t'.mentions)
    && SaidBy(t.mentions, t'.mentions, rows, doc) && NamedBy(t.entities, t'.entities, rows)
    && forall i: nat | LastOfId(rows, i) && OnlyMentionedBy(t.mentions, rows[i].id, doc) :: Shows(t'.entities, rows[i])
  }

  lemma MentionsAre(m: map<MentionKey, Mention>, e: EntityId, doc: Path)
    requires OnlyMentionedBy(m, e, doc) && MentionKey(e, doc) in m
    ensures MentionsOf(m, e) == map[doc := m[MentionKey(e, doc)]]
  {
    forall k: MentionKey | k.entity == e ensures k == MentionKey(e, k.doc) {}
  }

  lemma RefreshShows(t: Tables, touched: set<EntityId>, e: EntityId, doc: Path, mention: Mention)
    requires e in t.entities && e in touched && MentionsOf(t.mentions, e) == map[doc := mention]
    ensures var all := Refresh(t, touched).entities;
      && e in all && all[e].etype == mention.etype
      && all[e].description == if mention.description == Some("") then None else mention.description
  {
    OneMentionShown(map[doc := mention], doc, mention);
    assert doc in MentionsOf(t.mentions, e);
  }

  lemma RowShown(t: Tables, rows: seq<EntityRow>, doc: Path, i: nat)
    requires LastOfId(rows, i) && OnlyMentionedBy(t.mentions, rows[i].id, doc)
    ensures Shows(UpsertEntities(t, rows, doc).entities, rows[i])
  {
    var e, m' := rows[i].id, UpsertMentions(t.mentions, rows, doc);
    assert e in Ids(rows);
    LastRowWins(t.mentions, rows, doc, i);
    OthersSilent(t.mentions, rows, doc, e);
    MentionsAre(m', e, doc);
    InsertEntitiesEffect(t.entities, rows);
    RefreshShows(t.(entities := InsertEntities(t.entities, rows), mentions := m'), Ids(rows), e, doc,
                 Mention(rows[i].etype, rows[i].description));
  }

  lemma OthersSilent(m: map<MentionKey, Mention>, rows: seq<EntityRow>, doc: Path, e: EntityId)
    requires OnlyMentionedBy(m, e, doc)
    ensures OnlyMentionedBy(UpsertMentions(m, rows, doc), e, doc)
  {
    UpsertMentionsEffect(m, rows, doc);
  }

  lemma UpsertMentionsSays(m: map<MentionKey, Mention>, rows: seq<EntityRow>, doc: Path)
    ensures SaidBy(m, UpsertMentions(m, rows, doc), rows, doc)
  {
    UpsertMentionsEffect(m, rows, doc);
    forall i: nat | LastOfId(rows, i)
      ensures var k, m' := MentionKey(rows[i].id, doc), UpsertMentions(m, rows, doc);
              k in m' && m'[k] == Mention(rows[i].etype, rows[i].description)
    {
      LastRowWins(m, rows, doc, i);
    }
  }

  lemma UpsertEntitiesNames(t: Tables, rows: seq<EntityRow>, doc: Path)
    ensures NamedBy(t.entities, UpsertEntities(t, rows, doc).entities, rows)
  {
    InsertEntitiesEffect(t.entities, rows);
    var all := UpsertEntities(t, rows, doc).entities;
    forall i: nat | FirstOfId(rows, i) && rows[i].id !in t.entities
      ensures rows[i].id in all && all[rows[i].id].name == rows[i].name
    {
      FirstRowNames(t.entities, rows, i);
    }
  }

  lemma UpsertEntitiesRecords(t: Tables, rows: seq<EntityRow>, doc: Path)
    ensures Recorded(t, UpsertEntities(t, rows, doc), rows, doc)
  {
    UpsertMentionsSays(t.mentions, rows, doc);
    UpsertEntitiesNames(t, rows, doc);
    var t' := UpsertEntities(t, rows, doc);
    forall i: nat | LastOfId(rows, i) && OnlyMentionedBy(t.mentions, rows[i].id, doc)
      ensures Shows(t'.entities, rows[i])
    {
      RowShown(t, rows, doc, i);
    }
  }

  lemma MentionsOfUnchanged(m: map<MentionKey, Mention>, m': map<MentionKey, Mention>, e: EntityId)
    requires forall d :: MentionKey(e, d) in m <==> MentionKey(e, d) in m'
    requires forall d | MentionKey(e, d) in m :: m[MentionKey(e, d)] == m'[MentionKey(e, d)]
    ensures MentionsOf(m, e) == MentionsOf(m', e)
  {
    forall k: MentionKey | k.entity == e ensures k == MentionKey(e, k.doc) {}
    assert forall d :: d in MentionsOf(m, e) <==> MentionKey(e, d) in m;
    assert forall d :: d in MentionsOf(m', e) <==> MentionKey(e, d) in m';
  }

  lemma UpsertEntitiesSound(t: Tables, rows: seq<EntityRow>, doc: Path)
    requires Sound(t) && doc in Docs(t.chunks)
    ensures var t' := UpsertEntities(t, rows, doc);
            && Sound(t') && NamesKept(t, t') && Others(t', doc) == Others(t, doc)
            && MentionsBy(t'.mentions, doc) == UpsertMentions(MentionsBy(t.mentions, doc), rows, doc)
            && (forall e | e in Ids(rows) :: MentionKey(e, doc) in t'.mentions)
  {
    var t' := UpsertEntities(t, rows, doc);
    UpsertMentionsEffect(t.mentions, rows, doc);
    UpsertMentionsLocal(t.mentions, rows, doc);
    MentionedAfterUpsert(t.mentions, rows, doc);
    RefreshedAfterUpsert(t, rows, doc);
  }

  /** Refreshing only the ids just written leaves every entity equal to its view. */
  lemma RefreshedAfterUpsert(t: Tables, rows: seq<EntityRow>, doc: Path)
    requires Derived(t)
    ensures var t' := UpsertEntities(t, rows, doc);
            Derived(t') && NamesKept(t, t') && t'.entities.Keys == t.entities.Keys + Ids(rows)
  {
    InsertEntitiesEffect(t.entities, rows);
    var m' := UpsertMentions(t.mentions, rows, doc);
    var inserted := t.(entities := InsertEntities(t.entities, rows), mentions := m');
    forall e | e in inserted.entities
      ensures if e in Ids(rows) then MentionsOf(m', e) != map[] else MentionsOf(m', e) == MentionsOf(t.mentions, e)
    {
      MentionsAfterUpsert(t.mentions, rows, doc, e);
    }
    RefreshedWhereTouched(inserted, Ids(rows));
  }

  lemma MentionsAfterUpsert(m: map<MentionKey, Mention>, rows: seq<EntityRow>, doc: Path, e: EntityId)
    ensures var m' := UpsertMentions(m, rows, doc);
            if e in Ids(rows) then MentionsOf(m', e) != map[] else MentionsOf(m', e) == MentionsOf(m, e)
  {
    var m' := UpsertMentions(m, rows, doc);
    UpsertMentionsEffect(m, rows, doc);
    if e in Ids(rows) {
      assert MentionKey(e, doc) in m';
      assert doc in MentionsOf(m', e);
    } else {
      MentionsOfUnchanged(m, m', e);
    }
  }

  /** A refresh leaves every entity up to date if those it passes over were. */
  lemma RefreshedWhereTouched(t: Tables, touched: set<EntityId>)
    requires forall e | e in touched && e in t.entities :: MentionsOf(t.mentions, e) != map[]
    requires forall e | e in t.entities && e !in touched :: t.entities[e] == Refreshed(t.mentions, e, t.entities[e])
    ensures Derived(Refresh(t, touched)) && NamesKept(t, Refresh(t, touched))
    ensures Refresh(t, touched).entities.Keys == t.entities.Keys
  {
  }

  lemma MentionedAfterUpsert(m: map<MentionKey, Mention>, rows: seq<EntityRow>, doc: Path)
    ensures Mentioned(UpsertMentions(m, rows, doc)) == Mentioned(m) + Ids(rows)
  {
    var m' := UpsertMentions(m, rows, doc);
    UpsertMentionsEffect(m, rows, doc);
    forall e | e in Ids(rows) ensures e in Mentioned(m') { assert MentionKey(e, doc) in m'; }
    forall k | k in m ensures k.entity in Mentioned(m') { assert k in m'; }
  }

  // ---------------------------------------------------------------- relationships

  lemma {:induction false} UpsertRelationshipsEffect(m: map<RelKey, real>, rows: seq<RelKey>)
    ensures UpsertRelationships(m, rows).Keys == m.Keys + (set i | 0 <= i < |rows| :: rows[i])
    ensures forall k | k in m && k !in rows :: UpsertRelationships(m, rows)[k] == m[k]
  {
    if rows != [] {
      UpsertRelationshipsEffect(m, rows[..|rows| - 1]);
    }
  }

  /** The weight grows by one for every time the row is given; a new row starts from nothing. */
  lemma {:induction false} WeightIsCount(m: map<RelKey, real>, rows: seq<RelKey>, k: RelKey)
    ensures k in m || k in rows <==> k in UpsertRelationships(m, rows)
    ensures k in m || k in rows ==>
              UpsertRelationships(m, rows)[k] == (if k in m then m[k] else 0.0) + multiset(rows)[k] as real
  {
    if rows == [] {
      assert multiset(rows)[k] == 0;
    } else {
      var init, row := rows[..|rows| - 1], rows[|rows| - 1];
      assert rows == init + [row];
      assert multiset(rows)[k] == multiset(init)[k] + if k == row then 1 else 0;
      WeightIsCount(m, init, k);
    }
  }

  lemma OneRelationshipLocal(r: map<RelKey, real>, row: RelKey, weight: real, doc: Path)
    requires row.doc == doc
    ensures RelationshipsBy(r[row := weight], doc) == RelationshipsBy(r, doc)[row := weight]
    ensures RelationshipsExcept(r[row := weight], doc) == RelationshipsExcept(r, doc)
  {
  }

  lemma {:induction false} UpsertRelationshipsLocal(r: map<RelKey, real>, rows: seq<RelKey>, doc: Path)
    requires forall k | k in rows :: k.doc == doc
    ensures RelationshipsBy(UpsertRelationships(r, rows), doc) == UpsertRelationships(RelationshipsBy(r, doc), rows)
    ensures RelationshipsExcept(UpsertRelationships(r, rows), doc) == RelationshipsExcept(r, doc)
  {
    if rows != [] {
      var init, row := rows[..|rows| - 1], rows[|rows| - 1];
      assert row in rows && forall k | k in init :: k in rows;
      UpsertRelationshipsLocal(r, init, doc);
      var prior := UpsertRelationships(r, init);
      assert row in prior ==> row in RelationshipsBy(prior, doc) && RelationshipsBy(prior, doc)[row] == prior[row];
      OneRelationshipLocal(prior, row, UpsertRelationships(r, rows)[row], doc);
    }
  }

  lemma UpsertRelationshipsSound(t: Tables, rows: seq<RelKey>, doc: Path)
    requires Sound(t)
    requires forall k | k in rows ::
               k.doc == doc && MentionKey(k.source, doc) in t.mentions && MentionKey(k.target, doc) in t.mentions
    ensures var t' := t.(relationships := UpsertRelationships(t.relationships, rows));
            && Sound(t') && Others(t', doc) == Others(t, doc)
            && RelationshipsBy(t'.relationships, doc)
            == UpsertRelationships(RelationshipsBy(t.relationships, doc), rows)
  {
    UpsertRelationshipsEffect(t.relationships, rows);
    UpsertRelationshipsLocal(t.relationships, rows, doc);
  }

  // ---------------------------------------------------------------- chunks and links

  predicate Distinct(ids: seq<ChunkId>)
  {
    forall i, j | 0 <= i < j < |ids| :: ids[i] != ids[j]
  }

  lemma {:induction false} RegisterChunksEffect(chunks: map<ChunkId, Chunk>, ids: seq<ChunkId>, doc: Path)
    requires Distinct(ids)
    ensures RegisterChunks(chunks, ids, doc).Keys == chunks.Keys + (set i | 0 <= i < |ids| :: ids[i])
    ensures forall i | 0 <= i < |ids| :: RegisterChunks(chunks, ids, doc)[ids[i]] == Chunk(doc, i)
    ensures forall c | c in chunks && c !in ids :: RegisterChunks(chunks, ids, doc)[c] == chunks[c]
  {
    if ids != [] {
      var init, all := ids[..|ids| - 1], RegisterChunks(chunks, ids, doc);
      RegisterChunksEffect(chunks, init, doc);
      forall i | 0 <= i < |ids| ensures ids[i] in all && all[ids[i]] == Chunk(doc, i) {
        assert i < |init| ==> init[i] == ids[i] != ids[|ids| - 1];
      }
      forall c | c in chunks && c !in ids ensures all[c] == chunks[c] {
        assert c !in init && c != ids[|ids| - 1];
      }
    }
  }

  /** Rows added under new ids leave the chunks, and what refers to them, of every other document alone. */
  lemma RegisterChunksLocal(t: Tables, ids: seq<ChunkId>, doc: Path)
    requires Disciplined(t) && Distinct(ids) && forall i | 0 <= i < |ids| :: ids[i] !in t.chunks
    ensures var chunks' := RegisterChunks(t.chunks, ids, doc);
            && ChunksExcept(chunks', doc) == ChunksExcept(t.chunks, doc)
            && ChunksBy(chunks', doc).Keys == ChunksBy(t.chunks, doc).Keys + (set i | 0 <= i < |ids| :: ids[i])
            && Docs(t.chunks) <= Docs(chunks')
            && LinksMentioned(t.links, chunks', t.mentions)
            && LinksExcept(t.links, ChunksBy(chunks', doc).Keys) == LinksExcept(t.links, ChunksBy(t.chunks, doc).Keys)
  {
    var chunks' := RegisterChunks(t.chunks, ids, doc);
    RegisterChunksEffect(t.chunks, ids, doc);
    forall c | c in t.chunks ensures c in chunks' && chunks'[c] == t.chunks[c] {}
  }

  lemma RegisterChunksSound(t: Tables, ids: seq<ChunkId>, doc: Path)
    requires Sound(t) && Distinct(ids) && forall i | 0 <= i < |ids| :: ids[i] !in t.chunks
    ensures var t' := t.(chunks := RegisterChunks(t.chunks, ids, doc));
            && Sound(t') && Others(t', doc) == Others(t, doc)
            && ChunkIdsOf(t', doc) == ChunkIdsOf(t, doc) + (set i | 0 <= i < |ids| :: ids[i])
            && (forall i | 0 <= i < |ids| :: ids[i] in t'.chunks && t'.chunks[ids[i]] == Chunk(doc, i))
  {
    RegisterChunksEffect(t.chunks, ids, doc);
    RegisterChunksLocal(t, ids, doc);
  }

  lemma LinkChunksSound(t: Tables, pairs: set<Link>, doc: Path)
    requires Sound(t)
    requires forall l | l in pairs :: l.chunk in ChunkIdsOf(t, doc) && MentionKey(l.entity, doc) in t.mentions
    ensures var t' := t.(links := t.links + pairs);
            Sound(t') && Others(t', doc) == Others(t, doc) && LinksBy(t', doc) == LinksBy(t, doc) + pairs
  {
    var t' := t.(links := t.links + pairs);
    assert Others(t', doc).links == Others(t, doc).links;
  }

  // ---------------------------------------------------------------- deletion

  /** Under the discipline, the entities f touches are those it mentions. */
  lemma TouchedAreMentioned(t: Tables, f: Path)
    requires Disciplined(t)
    ensures Touched(t, f) == Mentioned(MentionsBy(t.mentions, f))
  {
    var own := MentionsBy(t.mentions, f);
    forall l | l in t.links && l.chunk in ChunkIdsOf(t, f) ensures l.entity in Mentioned(own) {
      assert MentionKey(l.entity, f) in own;
    }
    forall k | k in t.relationships && k.doc == f ensures k.source in Mentioned(own) && k.target in Mentioned(own) {
      assert MentionKey(k.source, f) in own && MentionKey(k.target, f) in own;
    }
    forall k | k in t.mentions && k.doc == f ensures k.entity in Mentioned(own) {
      assert k in own;
    }
  }

  /** Once f's own references are gone, an entity is unreferenced exactly when no document mentions it. */
  lemma UnreferencedIffUnmentioned(t: Tables, f: Path, e: EntityId)
    requires Disciplined(t)
    ensures var d := DropReferences(t, f); Unreferenced(d, e) <==> e !in Mentioned(d.mentions)
  {
    var d := DropReferences(t, f);
    if k :| k in d.relationships && (k.source == e || k.target == e) {
      assert MentionKey(k.source, k.doc) in d.mentions && MentionKey(k.target, k.doc) in d.mentions;
    }
    if l :| l in d.links && l.entity == e {
      assert l.chunk in t.chunks && t.chunks[l.chunk].doc != f;
      assert MentionKey(e, t.chunks[l.chunk].doc) in d.mentions;
    }
  }

  lemma DeleteFileDataParts(t: Tables, f: Path)
    ensures var t' := DeleteFileData(t, f);
            && t'.mentions == MentionsExcept(t.mentions, f)
            && t'.relationships == RelationshipsExcept(t.relationships, f)
            && t'.chunks == ChunksExcept(t.chunks, f)
            && t'.links == LinksExcept(t.links, ChunkIdsOf(t, f))
            && t'.fingerprints == FingerprintsExcept(t.fingerprints, f)
            && t'.cache == t.cache
    ensures NamesKept(DeleteFileData(t, f), t)
    ensures DeleteFileData(t, f).entities.Keys == DropUnreferenced(DropReferences(t, f), Touched(t, f)).entities.Keys
  {
  }

  /** Exactly the rows of f are gone: its mentions, relationships, chunks with their links, and fingerprint. */
  ghost predicate Erased(t: Tables, t': Tables, f: Path)
  {
    && (forall k :: k in t'.mentions <==> k in t.mentions && k.doc != f)
    && (forall k | k in t'.mentions :: t'.mentions[k] == t.mentions[k])
    && (forall k :: k in t'.relationships <==> k in t.relationships && k.doc != f)
    && (forall k | k in t'.relationships :: t'.relationships[k] == t.relationships[k])
    && (forall c :: c in t'.chunks <==> c in t.chunks && t.chunks[c].doc != f)
    && (forall c | c in t'.chunks :: t'.chunks[c] == t.chunks[c])
    && (forall l :: l in t'.links <==> l in t.links && !(l.chunk in t.chunks && t.chunks[l.chunk].doc == f))
    && (forall g :: g in t'.fingerprints <==> g in t.fingerprints && g != f)
    && (forall g | g in t'.fingerprints :: t'.fingerprints[g] == t.fingerprints[g])
    && (forall e | e in t'.entities ::
          e in t.entities && t'.entities[e].name == t.entities[e].name
          && t'.entities[e].community == t.entities[e].community)
  }

  lemma PartsErased(t: Tables, t': Tables, f: Path)
    requires t'.mentions == MentionsExcept(t.mentions, f) && t'.relationships == RelationshipsExcept(t.relationships, f)
    requires t'.chunks == ChunksExcept(t.chunks, f) && t'.links == LinksExcept(t.links, ChunkIdsOf(t, f))
    requires t'.fingerprints == FingerprintsExcept(t.fingerprints, f) && NamesKept(t', t)
    ensures Erased(t, t', f)
  {
  }

  /** Deleting keeps the cached replies. */
  lemma DeletionErases(t: Tables, f: Path)
    ensures Erased(t, DeleteFileData(t, f), f) && DeleteFileData(t, f).cache == t.cache
  {
    DeleteFileDataParts(t, f);
    PartsErased(t, DeleteFileData(t, f), f);
  }

  lemma RowAfterDelete(t: Tables, f: Path, e: EntityId)
    requires e in DeleteFileData(t, f).entities
    ensures var m' := MentionsExcept(t.mentions, f);
            && e in t.entities
            && DeleteFileData(t, f).entities[e]
               == if e in Touched(t, f) && MentionsOf(m', e) != map[] then Refreshed(m', e, t.entities[e])
               else t.entities[e]
  {
  }

  lemma EntityAfterDelete(t: Tables, f: Path, e: EntityId)
    requires Disciplined(t)
    ensures var d := DropReferences(t, f);
            e in t.entities && !(e in Touched(t, f) && Unreferenced(d, e)) <==>
              e in Mentioned(MentionsExcept(t.mentions, f))
  {
    TouchedAreMentioned(t, f);
    UnreferencedIffUnmentioned(t, f, e);
    if e in t.entities && e !in Touched(t, f) {
      var k :| k in t.mentions && k.entity == e;
      assert k in MentionsBy(t.mentions, f) || k in MentionsExcept(t.mentions, f);
    }
  }

  lemma EntitiesAfterDelete(t: Tables, f: Path)
    requires Disciplined(t)
    ensures DropUnreferenced(DropReferences(t, f), Touched(t, f)).entities.Keys
            == Mentioned(MentionsExcept(t.mentions, f))
  {
    forall e
      ensures e in DropUnreferenced(DropReferences(t, f), Touched(t, f)).entities
              <==> e in Mentioned(MentionsExcept(t.mentions, f))
    {
      EntityAfterDelete(t, f, e);
    }
  }

  lemma DisciplinedAfterDelete(t: Tables, f: Path)
    requires Disciplined(t)
    ensures Disciplined(DeleteFileData(t, f))
  {
    DeleteFileDataParts(t, f);
    EntitiesAfterDelete(t, f);
    var chunks' := ChunksExcept(t.chunks, f);
    forall k | k in MentionsExcept(t.mentions, f) ensures k.doc in Docs(chunks') {
      var c :| c in t.chunks && t.chunks[c].doc == k.doc;
      assert c in chunks';
    }
  }

  lemma MentionsExceptTwice(m: map<MentionKey, Mention>, f: Path)
    ensures MentionsBy(MentionsExcept(m, f), f) == map[]
            && MentionsExcept(MentionsExcept(m, f), f) == MentionsExcept(m, f)
  {
  }

  lemma RelationshipsExceptTwice(r: map<RelKey, real>, f: Path)
    ensures RelationshipsBy(RelationshipsExcept(r, f), f) == map[]
    ensures RelationshipsExcept(RelationshipsExcept(r, f), f) == RelationshipsExcept(r, f)
  {
  }

  lemma ChunksExceptTwice(c: map<ChunkId, Chunk>, f: Path)
    ensures ChunksBy(ChunksExcept(c, f), f) == map[] && ChunksExcept(ChunksExcept(c, f), f) == ChunksExcept(c, f)
  {
  }

  lemma ClearedAfterDelete(t: Tables, f: Path)
    ensures Cleared(DeleteFileData(t, f), f) && Others(DeleteFileData(t, f), f) == Others(t, f)
  {
    DeleteFileDataParts(t, f);
    MentionsExceptTwice(t.mentions, f);
    RelationshipsExceptTwice(t.relationships, f);
    ChunksExceptTwice(t.chunks, f);
    var p, links := FingerprintsExcept(t.fingerprints, f), LinksExcept(t.links, ChunkIdsOf(t, f));
    assert FingerprintsExcept(p, f) == p;
    assert LinksExcept(links, ChunksBy(ChunksExcept(t.chunks, f), f).Keys) == links;
  }

  /** Deleting f's rows removes exactly f's rows, and every remaining entity shows what its mentions say. */
  lemma DeleteFileDataSound(t: Tables, f: Path)
    requires Sound(t)
    ensures var t' := DeleteFileData(t, f);
            && Sound(t') && Cleared(t', f) && t'.cache == t.cache
            && Others(t', f) == Others(t, f) && NamesKept(t', t)
            && t'.chunks.Keys == t.chunks.Keys - ChunkIdsOf(t, f)
  {
    DeleteFileDataParts(t, f);
    DisciplinedAfterDelete(t, f);
    ClearedAfterDelete(t, f);
    DerivedAfterDelete(t, f);
  }

  /** Refreshing only the entities f touched leaves every surviving entity equal to its view. */
  lemma DerivedAfterDelete(t: Tables, f: Path)
    requires Sound(t)
    ensures Derived(DeleteFileData(t, f))
  {
    var t' := DeleteFileData(t, f);
    DeleteFileDataParts(t, f);
    EntitiesAfterDelete(t, f);
    TouchedAreMentioned(t, f);
    forall e | e in t'.entities
      ensures t'.entities[e] == Refreshed(t'.mentions, e, t'.entities[e])
    {
      RowAfterDelete(t, f, e);
      if e in Touched(t, f) {
        MentionedHasMention(t'.mentions, e);
      } else {
        UntouchedUnchanged(t.mentions, f, e);
      }
    }
  }

  lemma MentionedHasMention(m: map<MentionKey, Mention>, e: EntityId)
    requires e in Mentioned(m)
    ensures MentionsOf(m, e) != map[]
  {
    var k :| k in m && k.entity == e;
    assert k.doc in MentionsOf(m, e);
  }

  lemma UntouchedUnchanged(m: map<MentionKey, Mention>, f: Path, e: EntityId)
    requires e !in Mentioned(MentionsBy(m, f))
    ensures MentionsOf(MentionsExcept(m, f), e) == MentionsOf(m, e)
  {
    assert MentionKey(e, f) in m ==> MentionKey(e, f) in MentionsBy(m, f);
    MentionsOfUnchanged(m, MentionsExcept(m, f), e);
  }

  /** No statement of the deletion breaks a foreign key, so none can make the transaction fail. */
  lemma DeletionKeepsForeignKeys(t: Tables, f: Path)
    requires Disciplined(t)
    ensures ForeignKeys(t)
    ensures ForeignKeys(DropLinks(t, f))
    ensures ForeignKeys(DropChunks(DropLinks(t, f), f))
    ensures ForeignKeys(DropRelationships(DropChunks(DropLinks(t, f), f), f))
    ensures ForeignKeys(DropReferences(t, f))
    ensures ForeignKeys(DropUnreferenced(DropReferences(t, f), Touched(t, f)))
    ensures ForeignKeys(Refresh(DropUnreferenced(DropReferences(t, f), Touched(t, f)), Touched(t, f)))
    ensures ForeignKeys(DeleteFileData(t, f)) && ForeignKeys(PurgeFile(t, f))
  {
    DroppingKeepsForeignKeys(t, f);
    DropUnreferencedKeepsForeignKeys(DropReferences(t, f), Touched(t, f));
    RefreshKeepsForeignKeys(DropUnreferenced(DropReferences(t, f), Touched(t, f)), Touched(t, f));
    LastStatementsKeepForeignKeys(Refresh(DropUnreferenced(DropReferences(t, f), Touched(t, f)), Touched(t, f)), f);
  }

  lemma LastStatementsKeepForeignKeys(t: Tables, f: Path)
    requires ForeignKeys(t)
    ensures var u := DropFingerprint(t, f); ForeignKeys(u) && ForeignKeys(u.(cache := CacheExcept(u.cache, f)))
  {
  }

  /** Rows that refer to others may go at any time, and a chunk may go once no link leads to it. */
  lemma ShrinkingKeepsForeignKeys(t: Tables, u: Tables)
    requires ForeignKeys(t) && u.entities == t.entities
    requires u.mentions.Keys <= t.mentions.Keys && u.relationships.Keys <= t.relationships.Keys
    requires forall l | l in u.links :: l in t.links && l.chunk in u.chunks
    ensures ForeignKeys(u)
  {
    forall k | k in u.mentions ensures k.entity in u.entities { assert k in t.mentions.Keys; }
    forall k | k in u.relationships ensures k.source in u.entities && k.target in u.entities {
      assert k in t.relationships.Keys;
    }
  }

  lemma DisciplinedKeepsForeignKeys(t: Tables)
    requires Disciplined(t)
    ensures ForeignKeys(t)
  {
    assert forall k | k in t.mentions :: k.entity in Mentioned(t.mentions);
  }

  lemma DroppingKeepsForeignKeys(t: Tables, f: Path)
    requires Disciplined(t)
    ensures ForeignKeys(t) && ForeignKeys(DropLinks(t, f)) && ForeignKeys(DropChunks(DropLinks(t, f), f))
    ensures ForeignKeys(DropRelationships(DropChunks(DropLinks(t, f), f), f)) && ForeignKeys(DropReferences(t, f))
  {
    DisciplinedKeepsForeignKeys(t);
    var t1 := DropLinks(t, f);
    ShrinkingKeepsForeignKeys(t, t1);
    var t2 := DropChunks(t1, f);
    ShrinkingKeepsForeignKeys(t1, t2);
    var t3 := DropRelationships(t2, f);
    ShrinkingKeepsForeignKeys(t2, t3);
    ShrinkingKeepsForeignKeys(t3, DropMentions(t3, f));
  }

  /** An entity goes only where nothing refers to it. */
  lemma DropUnreferencedKeepsForeignKeys(t: Tables, touched: set<EntityId>)
    requires ForeignKeys(t)
    ensures ForeignKeys(DropUnreferenced(t, touched))
  {
  }

  lemma RefreshKeepsForeignKeys(t: Tables, touched: set<EntityId>)
    requires ForeignKeys(t)
    ensures ForeignKeys(Refresh(t, touched))
  {
    var u := Refresh(t, touched);
    assert u.entities.Keys == t.entities.Keys;
    GrowthKeepsForeignKeys(t, u);
  }

  /** Entities and chunks that are only ever added leave references that hold as they are. */
  lemma GrowthKeepsForeignKeys(t: Tables, u: Tables)
    requires ForeignKeys(t) && t.entities.Keys <= u.entities.Keys && t.chunks.Keys <= u.chunks.Keys
    requires u.relationships == t.relationships && u.links == t.links
    requires forall k | k in u.mentions && k !in t.mentions :: k.entity in u.entities
    ensures ForeignKeys(u)
  {
    forall k | k in u.mentions ensures k.entity in u.entities {
      assert k in t.mentions ==> k.entity in t.entities.Keys;
    }
    forall k | k in u.relationships ensures k.source in u.entities && k.target in u.entities {
      assert k.source in t.entities.Keys && k.target in t.entities.Keys;
    }
    forall l | l in u.links ensures l.chunk in u.chunks && l.entity in u.entities {
      assert l.chunk in t.chunks.Keys && l.entity in t.entities.Keys;
    }
  }

  // ---------------------------------------------------------------- between the statements of the other transactions

  // The tables as each statement of a transaction leaves them, the statements before it included.

  /** All entities are inserted before the first mention is, and refreshed after the last. */
  ghost predicate DuringUpsertEntities(t: Tables, rows: seq<EntityRow>, doc: Path, u: Tables)
  {
    || (exists i | 0 <= i <= |rows| :: u == t.(entities := InsertEntities(t.entities, rows[..i])))
    || (exists i | 0 <= i <= |rows| ::
          u == t.(entities := InsertEntities(t.entities, rows), mentions := UpsertMentions(t.mentions, rows[..i], doc)))
    || u == UpsertEntities(t, rows, doc)
  }

  ghost predicate DuringUpsertRelationships(t: Tables, rows: seq<RelKey>, u: Tables)
  {
    exists i | 0 <= i <= |rows| :: u == t.(relationships := UpsertRelationships(t.relationships, rows[..i]))
  }

  ghost predicate DuringRegisterChunks(t: Tables, ids: seq<ChunkId>, doc: Path, u: Tables)
  {
    exists i | 0 <= i <= |ids| :: u == t.(chunks := RegisterChunks(t.chunks, ids[..i], doc))
  }

  ghost predicate DuringLinkChunks(t: Tables, pairs: set<Link>, u: Tables)
  {
    exists done | done <= pairs :: u == t.(links := t.links + done)
  }

  predicate DuringDeletion(t: Tables, f: Path, u: Tables)
  {
    || u == DropLinks(t, f)
    || u == DropChunks(DropLinks(t, f), f)
    || u == DropRelationships(DropChunks(DropLinks(t, f), f), f)
    || u == DropReferences(t, f)
    || u == DropUnreferenced(DropReferences(t, f), Touched(t, f))
    || u == Refresh(DropUnreferenced(DropReferences(t, f), Touched(t, f)), Touched(t, f))
    || u == DeleteFileData(t, f)
    || u == PurgeFile(t, f)
  }

  lemma DeletionStatementsKeepForeignKeys(t: Tables, f: Path, u: Tables)
    requires Disciplined(t) && DuringDeletion(t, f, u)
    ensures ForeignKeys(u)
  {
    DeletionKeepsForeignKeys(t, f);
  }

  /** A mention comes after its entity, whose row may have been there before or be one just inserted. */
  lemma MentionsAfterEntities(t: Tables, rows: seq<EntityRow>, doc: Path, i: nat)
    requires ForeignKeys(t) && i <= |rows|
    ensures ForeignKeys(t.(entities := InsertEntities(t.entities, rows),
                           mentions := UpsertMentions(t.mentions, rows[..i], doc)))
  {
    InsertEntitiesEffect(t.entities, rows);
    UpsertMentionsEffect(t.mentions, rows[..i], doc);
    assert Ids(rows[..i]) <= Ids(rows) by {
      forall j | 0 <= j < i ensures rows[..i][j].id in Ids(rows) { assert rows[..i][j] == rows[j]; }
    }
    GrowthKeepsForeignKeys(t, t.(entities := InsertEntities(t.entities, rows),
                                 mentions := UpsertMentions(t.mentions, rows[..i], doc)));
  }

  lemma EntitiesBeforeMentions(t: Tables, rows: seq<EntityRow>)
    requires ForeignKeys(t)
    ensures ForeignKeys(t.(entities := InsertEntities(t.entities, rows)))
  {
    InsertEntitiesEffect(t.entities, rows);
    GrowthKeepsForeignKeys(t, t.(entities := InsertEntities(t.entities, rows)));
  }

  lemma UpsertKeepsForeignKeys(t: Tables, rows: seq<EntityRow>, doc: Path)
    requires ForeignKeys(t)
    ensures ForeignKeys(UpsertEntities(t, rows, doc))
  {
    MentionsAfterEntities(t, rows, doc, |rows|);
    assert rows[..|rows|] == rows;
    RefreshKeepsForeignKeys(t.(entities := InsertEntities(t.entities, rows),
                               mentions := UpsertMentions(t.mentions, rows, doc)), Ids(rows));
  }

  lemma EntityStatementsKeepForeignKeys(t: Tables, rows: seq<EntityRow>, doc: Path, u: Tables)
    requires ForeignKeys(t) && DuringUpsertEntities(t, rows, doc, u)
    ensures ForeignKeys(u)
  {
    if i :| 0 <= i <= |rows| && u == t.(entities := InsertEntities(t.entities, rows[..i])) {
      EntitiesBeforeMentions(t, rows[..i]);
    } else if i :| 0 <= i <= |rows| && u == t.(entities := InsertEntities(t.entities, rows),
                                               mentions := UpsertMentions(t.mentions, rows[..i], doc)) {
      MentionsAfterEntities(t, rows, doc, i);
    } else {
      UpsertKeepsForeignKeys(t, rows, doc);
    }
  }

  lemma RelationshipStatementsKeepForeignKeys(t: Tables, rows: seq<RelKey>, u: Tables)
    requires ForeignKeys(t) && DuringUpsertRelationships(t, rows, u)
    requires forall k | k in rows :: k.source in t.entities && k.target in t.entities
    ensures ForeignKeys(u)
  {
    var i :| 0 <= i <= |rows| && u == t.(relationships := UpsertRelationships(t.relationships, rows[..i]));
    UpsertRelationshipsEffect(t.relationships, rows[..i]);
    forall k | k in u.relationships ensures k in t.relationships || k in rows {}
  }

  lemma {:induction false} RegisterChunksGrows(chunks: map<ChunkId, Chunk>, ids: seq<ChunkId>, doc: Path)
    ensures chunks.Keys <= RegisterChunks(chunks, ids, doc).Keys
  {
    if ids != [] {
      RegisterChunksGrows(chunks, ids[..|ids| - 1], doc);
    }
  }

  lemma ChunkStatementsKeepForeignKeys(t: Tables, ids: seq<ChunkId>, doc: Path, u: Tables)
    requires ForeignKeys(t) && DuringRegisterChunks(t, ids, doc, u)
    ensures ForeignKeys(u)
  {
    var i :| 0 <= i <= |ids| && u == t.(chunks := RegisterChunks(t.chunks, ids[..i], doc));
    RegisterChunksGrows(t.chunks, ids[..i], doc);
    GrowthKeepsForeignKeys(t, u);
  }

  lemma LinkStatementsKeepForeignKeys(t: Tables, pairs: set<Link>, u: Tables)
    requires ForeignKeys(t) && DuringLinkChunks(t, pairs, u)
    requires forall l | l in pairs :: l.chunk in t.chunks && l.entity in t.entities
    ensures ForeignKeys(u)
  {
    var done :| done <= pairs && u == t.(links := t.links + done);
  }

  // ---------------------------------------------------------------- purge after ingest

  /**
   * Purging f undoes whatever f's transactions did: every table returns to what it was, with the
   * names, types and descriptions of the entities f shared with other documents.
   */
  lemma PurgeRestores(t: Tables, t': Tables, f: Path)
    requires Sound(t) && HoldsNothingOf(t, f)
    requires Sound(t') && Others(t', f) == Others(t, f) && NamesKept(t, t')
    ensures PurgeFile(t', f) == t
  {
    var p := PurgeFile(t', f);
    DeleteFileDataSound(t', f);
    DeleteFileDataParts(t', f);
    OthersOfAbsent(t, f);
    EntitiesDetermined(t, p);
  }

  /** Entities are determined by the mentions, the names and the communities. */
  lemma EntitiesDetermined(t: Tables, p: Tables)
    requires Sound(t) && Sound(p) && p.mentions == t.mentions
    requires forall e | e in p.entities && e in t.entities ::
               p.entities[e].name == t.entities[e].name && p.entities[e].community == t.entities[e].community
    ensures p.entities == t.entities
  {
    forall e | e in t.entities ensures p.entities[e] == t.entities[e] {
      assert p.entities[e] == Refreshed(t.mentions, e, p.entities[e]);
    }
  }

  /** Where f has no rows, leaving out f's rows leaves out nothing. */
  lemma OthersOfAbsent(t: Tables, f: Path)
    requires HoldsNothingOf(t, f)
    ensures Others(t, f) == t.(entities := map[])
  {
    assert MentionsExcept(t.mentions, f) == t.mentions;
    assert RelationshipsExcept(t.relationships, f) == t.relationships;
    assert ChunksExcept(t.chunks, f) == t.chunks;
    assert LinksExcept(t.links, ChunkIdsOf(t, f)) == t.links;
    assert FingerprintsExcept(t.fingerprints, f) == t.fingerprints;
    assert CacheExcept(t.cache, f) == t.cache;
  }

  /** Two sound sets of tables with the same mentions show the same entities, whatever their histories. */
  lemma SameMentionsSameEntities(t: Tables, t': Tables)
    requires Sound(t) && Sound(t') && t.mentions == t'.mentions
    ensures t.entities.Keys == t'.entities.Keys
    ensures forall e | e in t.entities ::
              t.entities[e].etype == t'.entities[e].etype && t.entities[e].description == t'.entities[e].description
  {
    forall e | e in t.entities
      ensures t.entities[e].etype == t'.entities[e].etype && t.entities[e].description == t'.entities[e].description
    {
      assert t.entities[e] == Refreshed(t.mentions, e, t.entities[e]);
      assert t'.entities[e] == Refreshed(t.mentions, e, t'.entities[e]);
    }
  }
}
