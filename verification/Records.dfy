/** The tables and their write transactions, as functions. */
module Records {
  // `GraphStore` performs the same transactions step by step on its own fields.

  import opened Options
  import opened TextOrder

  type EntityId = string
  type Path = string
  type ChunkId = string

  datatype Entity = Entity(name: string, etype: Option<string>, description: Option<string>, community: Option<int>)
  datatype MentionKey = MentionKey(entity: EntityId, doc: Path)
  datatype Mention = Mention(etype: Option<string>, description: Option<string>)
  datatype RelKey = RelKey(source: EntityId, target: EntityId, name: string, doc: Path)
  datatype Chunk = Chunk(doc: Path, index: nat)
  datatype Link = Link(chunk: ChunkId, entity: EntityId)
  datatype CacheKey = CacheKey(doc: Path, batch: nat)
  datatype Cached = Cached(requestSha: string, reply: string)

  datatype Tables = Tables(
    entities: map<EntityId, Entity>,
    mentions: map<MentionKey, Mention>,
    relationships: map<RelKey, real>,
    chunks: map<ChunkId, Chunk>,
    links: set<Link>,
    fingerprints: map<Path, string>,
    cache: map<CacheKey, Cached>)

  const EMPTY := Tables(map[], map[], map[], map[], {}, map[], map[])

  /** An entity to record: the arguments of one row of `upsert_entities`. */
  datatype EntityRow = EntityRow(id: EntityId, name: string, etype: Option<string>, description: Option<string>)

  // ---------------------------------------------------------------- what an entity shows

  /** Every document's mention of e. */
  function MentionsOf(m: map<MentionKey, Mention>, e: EntityId): map<Path, Mention>
  {
    map k | k in m && k.entity == e :: k.doc := m[k]
  }

  function Types(ms: map<Path, Mention>): set<string>
  {
    set d | d in ms && ms[d].etype.Some? :: ms[d].etype.value
  }

  function TypeCount(ms: map<Path, Mention>, t: string): nat
  {
    |set d | d in ms && ms[d].etype == Some(t)|
  }

  /** ORDER BY COUNT(*) DESC, type. */
  predicate TypeBefore(ms: map<Path, Mention>, t: string, u: string)
  {
    TypeCount(ms, t) > TypeCount(ms, u) || (TypeCount(ms, t) == TypeCount(ms, u) && Leq(t, u))
  }

  /** The most common type among the mentions; of equally common ones the smallest. */
  function TopType(ms: map<Path, Mention>): (r: Option<string>)
    ensures r.None? <==> forall d | d in ms :: ms[d].etype.None?
    ensures r.Some? ==> exists d :: d in ms && ms[d].etype == r
    ensures r.Some? ==> forall e | e in ms && ms[e].etype.Some? ::
              var n, m := |set d | d in ms && ms[d].etype == r|, |set d | d in ms && ms[d].etype == ms[e].etype|;
              n > m || (n == m && Leq(r.value, ms[e].etype.value))
  {
    TypesAre(ms);
    if Types(ms) == {} then None
    else
      TopTypeUnique(ms);
      var t :| t in Types(ms) && forall u | u in Types(ms) :: TypeBefore(ms, t, u);
      TypeBeforeMeans(ms, t);
      Some(t)
  }

  lemma TypesAre(ms: map<Path, Mention>)
    ensures Types(ms) == {} <==> forall d | d in ms :: ms[d].etype.None?
  {
    if d :| d in ms && ms[d].etype.Some? {
      assert ms[d].etype.value in Types(ms);
    }
  }

  lemma TypeBeforeMeans(ms: map<Path, Mention>, t: string)
    ensures forall e | e in ms && ms[e].etype.Some? && TypeBefore(ms, t, ms[e].etype.value) ::
              var n, m := |set d | d in ms && ms[d].etype == Some(t)|, |set d | d in ms && ms[d].etype == ms[e].etype|;
              n > m || (n == m && Leq(t, ms[e].etype.value))
  {
    forall e | e in ms && ms[e].etype.Some?
      ensures TypeCount(ms, ms[e].etype.value) == |set d | d in ms && ms[d].etype == ms[e].etype|
    {
      var t := ms[e].etype.value;
      assert (set d | d in ms && ms[d].etype == Some(t)) == set d | d in ms && ms[d].etype == ms[e].etype;
    }
    assert TypeCount(ms, t) == |set d | d in ms && ms[d].etype == Some(t)|;
  }

  lemma TopTypeUnique(ms: map<Path, Mention>)
    requires Types(ms) != {}
    ensures exists t :: t in Types(ms) && forall u | u in Types(ms) :: TypeBefore(ms, t, u)
    ensures forall t, u :: TypeBefore(ms, t, u) && TypeBefore(ms, u, t) ==> t == u
  {
    forall t, u | TypeBefore(ms, t, u) && TypeBefore(ms, u, t) ensures t == u { LeqAntisymmetric(t, u); }
    forall t, u ensures TypeBefore(ms, t, u) || TypeBefore(ms, u, t) { LeqTotal(t, u); }
    forall t, u, v | TypeBefore(ms, t, u) && TypeBefore(ms, u, v) ensures TypeBefore(ms, t, v) {
      if Leq(t, u) && Leq(u, v) { LeqTransitive(t, u, v); }
    }
    var t := FirstExists(Types(ms), (t, u) => TypeBefore(ms, t, u));
    assert forall u | u in Types(ms) :: TypeBefore(ms, t, u);
  }

  /** The documents whose description of the entity is not empty. */
  function Described(ms: map<Path, Mention>): set<Path>
  {
    set d | d in ms && ms[d].description.Some? && ms[d].description.value != ""
  }

  /** ORDER BY length(description) DESC, source_doc. */
  predicate DescriptionBefore(ms: map<Path, Mention>, d: Path, e: Path)
    requires d in Described(ms) && e in Described(ms)
  {
    var x, y := |ms[d].description.value|, |ms[e].description.value|;
    x > y || (x == y && Leq(d, e))
  }

  /** The longest description among the mentions; of equally long ones that of the smallest document. */
  function TopDescription(ms: map<Path, Mention>): (r: Option<string>)
    ensures r.None? <==> forall d | d in ms :: ms[d].description.None? || ms[d].description.value == ""
    ensures r.Some? ==> r.value != "" && exists d :: (
              && d in ms && ms[d].description == r
              && forall e | e in ms && ms[e].description.Some? ::
                   var n, m := |r.value|, |ms[e].description.value|; n > m || (n == m && Leq(d, e)))
  {
    DescribedAre(ms);
    if Described(ms) == {} then None
    else
      TopDescriptionUnique(ms);
      var d :| d in Described(ms) && forall e | e in Described(ms) :: DescriptionBefore(ms, d, e);
      DescriptionBeforeMeans(ms, d);
      ms[d].description
  }

  lemma DescribedAre(ms: map<Path, Mention>)
    ensures Described(ms) == {} <==> forall d | d in ms :: ms[d].description.None? || ms[d].description.value == ""
  {
    if d :| d in ms && ms[d].description.Some? && ms[d].description.value != "" {
      assert d in Described(ms);
    }
  }

  /** A document whose description is empty has a shorter one. */
  lemma DescriptionBeforeMeans(ms: map<Path, Mention>, d: Path)
    requires d in Described(ms) && forall e | e in Described(ms) :: DescriptionBefore(ms, d, e)
    ensures forall e | e in ms && ms[e].description.Some? ::
              var n, m := |ms[d].description.value|, |ms[e].description.value|; n > m || (n == m && Leq(d, e))
  {
    forall e | e in ms && ms[e].description.Some?
      ensures var n, m := |ms[d].description.value|, |ms[e].description.value|; n > m || (n == m && Leq(d, e))
    {
      if e in Described(ms) {
        assert DescriptionBefore(ms, d, e);
      }
    }
  }

  lemma TopDescriptionUnique(ms: map<Path, Mention>)
    requires Described(ms) != {}
    ensures exists d :: d in Described(ms) && forall e | e in Described(ms) :: DescriptionBefore(ms, d, e)
    ensures forall d, e | d in Described(ms) && e in Described(ms) ::
              DescriptionBefore(ms, d, e) && DescriptionBefore(ms, e, d) ==> d == e
  {
    var length := (d: Path) => if d in Described(ms) then |ms[d].description.value| else 0;
    var before := (d: Path, e: Path) => length(d) > length(e) || (length(d) == length(e) && Leq(d, e));
    forall d, e | before(d, e) && before(e, d) ensures d == e { LeqAntisymmetric(d, e); }
    forall d, e ensures before(d, e) || before(e, d) { LeqTotal(d, e); }
    forall d, e, f | before(d, e) && before(e, f) ensures before(d, f) {
      if Leq(d, e) && Leq(e, f) { LeqTransitive(d, e, f); }
    }
    var d := FirstExists(Described(ms), before);
    assert forall e | e in Described(ms) :: before(d, e) && DescriptionBefore(ms, d, e);
    forall d, e | d in Described(ms) && e in Described(ms)
      ensures DescriptionBefore(ms, d, e) == before(d, e)
    {
    }
  }

  /** An entity that one document alone mentions shows what that document says of it. */
  lemma OneMentionShown(ms: map<Path, Mention>, d: Path, mention: Mention)
    requires ms == map[d := mention]
    ensures TopType(ms) == mention.etype
    ensures TopDescription(ms) == if mention.description == Some("") then None else mention.description
  {
    assert d in ms && forall e | e in ms :: e == d;
  }

  // ---------------------------------------------------------------- statements and transactions

  /** The row an entity shows once its type and description are derived from the mentions m. */
  function Refreshed(m: map<MentionKey, Mention>, e: EntityId, row: Entity): Entity
  {
    row.(etype := TopType(MentionsOf(m, e)), description := TopDescription(MentionsOf(m, e)))
  }

  /** UPDATE of the derived columns of the touched entities that some document mentions. */
  function Refresh(t: Tables, touched: set<EntityId>): Tables
  {
    t.(entities := map e | e in t.entities ::
      if e in touched && MentionsOf(t.mentions, e) != map[]
      then Refreshed(t.mentions, e, t.entities[e]) else t.entities[e])
  }

  /** INSERT OR IGNORE of the entity rows, in order: the first writer of an id names it. */
  function InsertEntities(entities: map<EntityId, Entity>, rows: seq<EntityRow>): map<EntityId, Entity>
  {
    if rows == [] then entities
    else
      var prior := InsertEntities(entities, rows[..|rows| - 1]);
      var row := rows[|rows| - 1];
      if row.id in prior then prior else prior[row.id := Entity(row.name, None, None, None)]
  }

  /** INSERT .. ON CONFLICT DO UPDATE of one document's mentions, in order: the last row wins. */
  function UpsertMentions(mentions: map<MentionKey, Mention>, rows: seq<EntityRow>, doc: Path): map<MentionKey, Mention>
  {
    if rows == [] then mentions
    else
      var row := rows[|rows| - 1];
      UpsertMentions(mentions, rows[..|rows| - 1], doc)[MentionKey(row.id, doc) := Mention(row.etype, row.description)]
  }

  function Ids(rows: seq<EntityRow>): set<EntityId>
  {
    set i | 0 <= i < |rows| :: rows[i].id
  }

  function UpsertEntities(t: Tables, rows: seq<EntityRow>, doc: Path): Tables
  {
    Refresh(t.(entities := InsertEntities(t.entities, rows),
               mentions := UpsertMentions(t.mentions, rows, doc)),
            Ids(rows))
  }

  /** INSERT with weight 1, or add 1 to the weight of the row already there. */
  function UpsertRelationships(relationships: map<RelKey, real>, rows: seq<RelKey>): map<RelKey, real>
  {
    if rows == [] then relationships
    else
      var prior := UpsertRelationships(relationships, rows[..|rows| - 1]);
      var row := rows[|rows| - 1];
      prior[row := if row in prior then prior[row] + 1.0 else 1.0]
  }

  /** Chunk number i of the document gets id ids[i]. */
  function RegisterChunks(chunks: map<ChunkId, Chunk>, ids: seq<ChunkId>, doc: Path): map<ChunkId, Chunk>
  {
    if ids == [] then chunks
    else RegisterChunks(chunks, ids[..|ids| - 1], doc)[ids[|ids| - 1] := Chunk(doc, |ids| - 1)]
  }

  // One document's rows in a table, and the rows of every other document.
  function MentionsBy(m: map<MentionKey, Mention>, f: Path): map<MentionKey, Mention>
  {
    map k | k in m && k.doc == f :: m[k]
  }

  function MentionsExcept(m: map<MentionKey, Mention>, f: Path): map<MentionKey, Mention>
  {
    map k | k in m && k.doc != f :: m[k]
  }

  function RelationshipsBy(r: map<RelKey, real>, f: Path): map<RelKey, real>
  {
    map k | k in r && k.doc == f :: r[k]
  }

  function RelationshipsExcept(r: map<RelKey, real>, f: Path): map<RelKey, real>
  {
    map k | k in r && k.doc != f :: r[k]
  }

  function ChunksBy(cs: map<ChunkId, Chunk>, f: Path): map<ChunkId, Chunk>
  {
    map c | c in cs && cs[c].doc == f :: cs[c]
  }

  function ChunksExcept(cs: map<ChunkId, Chunk>, f: Path): map<ChunkId, Chunk>
  {
    map c | c in cs && cs[c].doc != f :: cs[c]
  }

  function LinksTo(links: set<Link>, chunks: set<ChunkId>): set<Link>
  {
    set l | l in links && l.chunk in chunks
  }

  function LinksExcept(links: set<Link>, chunks: set<ChunkId>): set<Link>
  {
    set l | l in links && l.chunk !in chunks
  }

  function FingerprintsExcept(p: map<Path, string>, f: Path): map<Path, string>
  {
    map g | g in p && g != f :: p[g]
  }

  function CacheExcept(c: map<CacheKey, Cached>, f: Path): map<CacheKey, Cached>
  {
    map k | k in c && k.doc != f :: c[k]
  }

  function ChunkIdsOf(t: Tables, f: Path): set<ChunkId>
  {
    ChunksBy(t.chunks, f).Keys
  }

  /** The entities that a mention, a chunk link or a relationship of f refers to. */
  function Touched(t: Tables, f: Path): set<EntityId>
  {
    (set k | k in t.mentions && k.doc == f :: k.entity)
    + (set l | l in t.links && l.chunk in ChunkIdsOf(t, f) :: l.entity)
    + (set k | k in t.relationships && k.doc == f :: k.source)
    + (set k | k in t.relationships && k.doc == f :: k.target)
  }

  /** Nothing refers to the entity any more: no mention, no relationship at either end, no chunk link. */
  predicate Unreferenced(t: Tables, e: EntityId)
  {
    && (forall k | k in t.mentions :: k.entity != e)
    && (forall k | k in t.relationships :: k.source != e && k.target != e)
    && (forall l | l in t.links :: l.entity != e)
  }

  // The statements of `_delete_file_rows`, in order.
  function DropLinks(t: Tables, f: Path): Tables
  {
    t.(links := LinksExcept(t.links, ChunkIdsOf(t, f)))
  }

  function DropChunks(t: Tables, f: Path): Tables
  {
    t.(chunks := ChunksExcept(t.chunks, f))
  }

  function DropRelationships(t: Tables, f: Path): Tables
  {
    t.(relationships := RelationshipsExcept(t.relationships, f))
  }

  function DropMentions(t: Tables, f: Path): Tables
  {
    t.(mentions := MentionsExcept(t.mentions, f))
  }

  function DropUnreferenced(t: Tables, touched: set<EntityId>): Tables
  {
    t.(entities := map e | e in t.entities && !(e in touched && Unreferenced(t, e)) :: t.entities[e])
  }

  function DropFingerprint(t: Tables, f: Path): Tables
  {
    t.(fingerprints := FingerprintsExcept(t.fingerprints, f))
  }

  function DropReferences(t: Tables, f: Path): Tables
  {
    DropMentions(DropRelationships(DropChunks(DropLinks(t, f), f), f), f)
  }

  function DeleteFileData(t: Tables, f: Path): Tables
  {
    DropFingerprint(Refresh(DropUnreferenced(DropReferences(t, f), Touched(t, f)), Touched(t, f)), f)
  }

  function PurgeFile(t: Tables, f: Path): Tables
  {
    DeleteFileData(t, f).(cache := CacheExcept(t.cache, f))
  }

  /** SELECT filepath FROM fingerprints UNION chunks UNION extraction_cache. */
  function AllPaths(t: Tables): set<Path>
  {
    t.fingerprints.Keys + (set c | c in t.chunks :: t.chunks[c].doc) + (set k | k in t.cache :: k.doc)
  }
}
