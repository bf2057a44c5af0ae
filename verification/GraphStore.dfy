/**
 * The graph store: one field a table, one method a write transaction.  A transaction may fail at
 * any statement or at COMMIT; it is then rolled back and the caller sees an exception, here
 * `ok == false`.
 */
module Stores {
  import opened Options
  import opened Records
  import opened Integrity

  class GraphStore {
    var entities: map<EntityId, Entity>
    var mentions: map<MentionKey, Mention>
    var relationships: map<RelKey, real>
    var chunks: map<ChunkId, Chunk>
    var links: set<Link>
    var fingerprints: map<Path, string>
    var cache: map<CacheKey, Cached>
    const reliable: bool

    function Db(): Tables
      reads this
    {
      Tables(entities, mentions, relationships, chunks, links, fingerprints, cache)
    }

    /** Nothing makes a statement or a COMMIT of a reliable store fail. */
    constructor (reliable: bool)
      ensures Db() == EMPTY && this.reliable == reliable
    {
      this.reliable := reliable;
      entities, mentions, relationships, chunks := map[], map[], map[], map[];
      links, fingerprints, cache := {}, map[], map[];
    }

    /** Whether a statement raises. */
    method Fault() returns (raised: bool)
      ensures reliable ==> !raised
    {
      raised := *;
      raised := raised && !reliable;
    }

    /** The end of `_write`: COMMIT, or ROLLBACK to the tables at BEGIN when anything raised. */
    method Finish(begin: Tables, raised: bool) returns (ok: bool)
      modifies this
      ensures ok ==> !raised && Db() == old(Db())
      ensures !ok ==> Db() == begin
      ensures reliable && !raised ==> ok
    {
      var failed := Fault();
      ok := !failed && !raised;
      if !ok {
        entities, mentions, relationships, chunks := begin.entities, begin.mentions, begin.relationships, begin.chunks;
        links, fingerprints, cache := begin.links, begin.fingerprints, begin.cache;
      }
    }

    method UpsertEntities(rows: seq<EntityRow>, doc: Path) returns (ok: bool, ids: seq<EntityId>)
      modifies this
      ensures ok ==> Db() == Records.UpsertEntities(old(Db()), rows, doc)
      ensures ok ==> Recorded(old(Db()), Db(), rows, doc)
      ensures ok ==> |ids| == |rows| && forall i | 0 <= i < |rows| :: ids[i] == rows[i].id != ""
      ensures !ok ==> Db() == old(Db())
      ensures reliable ==> (ok <==> forall i | 0 <= i < |rows| :: rows[i].id != "")
    {
      ids := [];
      for i := 0 to |rows|
        invariant Db() == old(Db())
        invariant |ids| == i && forall j | 0 <= j < i :: ids[j] == rows[j].id != ""
      {
        if rows[i].id == "" {
          return false, [];
        }
        ids := ids + [rows[i].id];
      }
      var begin := Db();
      for i := 0 to |rows|
        invariant Db() == begin.(entities := InsertEntities(begin.entities, rows[..i]))
      {
        assert rows[..i + 1][..i] == rows[..i];
        if rows[i].id !in entities {
          entities := entities[rows[i].id := Entity(rows[i].name, None, None, None)];
        }
      }
      assert rows[..|rows|] == rows;
      for i := 0 to |rows|
        invariant Db() == begin.(entities := InsertEntities(begin.entities, rows),
                                 mentions := UpsertMentions(begin.mentions, rows[..i], doc))
      {
        assert rows[..i + 1][..i] == rows[..i];
        mentions := mentions[MentionKey(rows[i].id, doc) := Mention(rows[i].etype, rows[i].description)];
      }
      entities := Refresh(Db(), Ids(rows)).entities;
      UpsertEntitiesRecords(begin, rows, doc);
      var raised := Fault();
      ok := Finish(begin, raised);
    }

    method UpsertRelationships(rows: seq<RelKey>) returns (ok: bool)
      modifies this
      ensures ok ==> Db() == old(Db()).(relationships := Records.UpsertRelationships(old(relationships), rows))
      ensures ok ==> forall k :: k in relationships <==> k in old(relationships) || k in rows
      ensures ok ==> forall k | k in relationships ::
                relationships[k] == (if k in old(relationships) then old(relationships)[k] else 0.0)
                                    + multiset(rows)[k] as real
      ensures !ok ==> Db() == old(Db())
      ensures reliable ==> ok
    {
      forall k { WeightIsCount(relationships, rows, k); }
      if rows == [] {
        return true;
      }
      var begin := Db();
      for i := 0 to |rows|
        invariant Db() == begin.(relationships := Records.UpsertRelationships(begin.relationships, rows[..i]))
      {
        assert rows[..i + 1][..i] == rows[..i];
        var weight := if rows[i] in relationships then relationships[rows[i]] + 1.0 else 1.0;
        relationships := relationships[rows[i] := weight];
      }
      assert rows[..|rows|] == rows;
      var raised := Fault();
      ok := Finish(begin, raised);
    }

    method RegisterChunks(ids: seq<ChunkId>, doc: Path) returns (ok: bool)
      modifies this
      ensures ok ==> Db() == old(Db()).(chunks := Records.RegisterChunks(old(chunks), ids, doc))
      ensures ok && Distinct(ids) ==> forall i | 0 <= i < |ids| :: ids[i] in chunks && chunks[ids[i]] == Chunk(doc, i)
      ensures ok && Distinct(ids) ==> forall c | c in old(chunks) && c !in ids ::
                c in chunks && chunks[c] == old(chunks)[c]
      ensures !ok ==> Db() == old(Db())
      ensures reliable ==> ok
    {
      var begin := Db();
      for i := 0 to |ids|
        invariant Db() == begin.(chunks := Records.RegisterChunks(begin.chunks, ids[..i], doc))
      {
        assert ids[..i + 1][..i] == ids[..i];
        chunks := chunks[ids[i] := Chunk(doc, i)];
      }
      assert ids[..|ids|] == ids;
      if Distinct(ids) {
        RegisterChunksEffect(begin.chunks, ids, doc);
      }
      var raised := Fault();
      ok := Finish(begin, raised);
    }

    /** Every link once, however often a pair is given or already there. */
    method LinkChunks(pairs: seq<Link>) returns (ok: bool)
      modifies this
      ensures ok ==> Db() == old(Db()).(links := old(links) + (set l | l in pairs))
      ensures !ok ==> Db() == old(Db())
      ensures reliable ==> ok
    {
      if pairs == [] {
        assert links == old(links) + (set l | l in pairs);
        return true;
      }
      var begin := Db();
      for i := 0 to |pairs|
        invariant Db() == begin.(links := begin.links + (set l | l in pairs[..i]))
      {
        assert forall l :: l in pairs[..i + 1] <==> l in pairs[..i] || l == pairs[i];
        links := links + {pairs[i]};
      }
      assert pairs[..|pairs|] == pairs;
      var raised := Fault();
      ok := Finish(begin, raised);
    }

    /** The statements of `_delete_file_rows`, in the order they run. */
    method DeleteFileRows(f: Path)
      modifies this
      ensures Db() == Records.DeleteFileData(old(Db()), f)
      ensures Erased(old(Db()), Db(), f) && cache == old(cache)
    {
      DeletionErases(Db(), f);
      var touched := Touched(Db(), f);
      links := LinksExcept(links, ChunkIdsOf(Db(), f));
      chunks := ChunksExcept(chunks, f);
      relationships := RelationshipsExcept(relationships, f);
      mentions := MentionsExcept(mentions, f);
      assert Db() == DropReferences(old(Db()), f);
      entities := DropUnreferenced(Db(), touched).entities;
      entities := Refresh(Db(), touched).entities;
      fingerprints := FingerprintsExcept(fingerprints, f);
    }

    method DeleteFileData(f: Path) returns (ok: bool)
      modifies this
      ensures ok ==> Db() == Records.DeleteFileData(old(Db()), f)
      ensures !ok ==> Db() == old(Db())
      ensures reliable ==> ok
    {
      var begin := Db();
      DeleteFileRows(f);
      var raised := Fault();
      ok := Finish(begin, raised);
    }

    method PurgeFile(f: Path) returns (ok: bool)
      modifies this
      ensures ok ==> Db() == Records.PurgeFile(old(Db()), f) && Erased(old(Db()), Db(), f)
      ensures ok ==> forall k :: k in cache <==> k in old(cache) && k.doc != f
      ensures !ok ==> Db() == old(Db())
      ensures reliable ==> ok
    {
      var begin := Db();
      DeleteFileRows(f);
      cache := CacheExcept(cache, f);
      var raised := Fault();
      ok := Finish(begin, raised);
    }

    method CacheExtraction(key: CacheKey, requestSha: string, reply: string) returns (ok: bool)
      modifies this
      ensures ok ==> Db() == old(Db()).(cache := old(cache)[key := Cached(requestSha, reply)])
      ensures !ok ==> Db() == old(Db())
      ensures reliable ==> ok
    {
      var begin := Db();
      cache := cache[key := Cached(requestSha, reply)];
      var raised := Fault();
      ok := Finish(begin, raised);
    }

    method UpsertHash(f: Path, sha256: string) returns (ok: bool)
      modifies this
      ensures ok ==> Db() == old(Db()).(fingerprints := old(fingerprints)[f := sha256])
      ensures !ok ==> Db() == old(Db())
      ensures reliable ==> ok
    {
      var begin := Db();
      fingerprints := fingerprints[f := sha256];
      var raised := Fault();
      ok := Finish(begin, raised);
    }

    function GetHash(f: Path): Option<string>
      reads this
    {
      if f in fingerprints then Some(fingerprints[f]) else None
    }

    function GetChunksForFile(f: Path): set<ChunkId>
      reads this
    {
      ChunkIdsOf(Db(), f)
    }

    function ListAllPaths(): set<Path>
      reads this
    {
      AllPaths(Db())
    }
  }
}
