/**
 * Every action keeps the invariant, so it holds after every run, however its jobs end.  Each
 * lemma is about one kind of action: it says what the action leaves of the file its job is for,
 * and that it touches no other file, from which the invariant of all other files follows without
 * looking at them again.
 */
module IngestionSafety {
  import opened Options
  import opened Records
  import opened Integrity
  import opened Extraction
  import opened Ingestion

  // ---------------------------------------------------------------- actions on one file leave the others alone

  function PointsExcept(vectors: map<ChunkId, Point>, f: Path): map<ChunkId, Point>
  {
    map c | c in vectors && vectors[c].doc != f :: vectors[c]
  }

  predicate OnlyTouches(s: State, s': State, f: Path)
  {
    && Others(s'.db, f) == Others(s.db, f)
    && PointsExcept(s'.vectors, f) == PointsExcept(s.vectors, f)
    && s'.torn - {f} == s.torn - {f}
  }

  lemma PointsByOther(vectors: map<ChunkId, Point>, f: Path, g: Path)
    requires f != g
    ensures PointsBy(vectors, g) == PointsBy(PointsExcept(vectors, f), g)
  {
  }

  lemma OtherViewsKept(s: State, s': State, f: Path, g: Path)
    requires OnlyTouches(s, s', f) && g != f
    ensures ViewOf(s', g) == ViewOf(s, g)
  {
    OthersDetermine(s'.db, s.db, f, g);
    PointsByOther(s.vectors, f, g);
    PointsByOther(s'.vectors, f, g);
    assert g in s'.torn <==> g in s'.torn - {f};
    assert g in s.torn <==> g in s.torn - {f};
  }

  lemma OtherStampsKept(w: World, s: State, s': State, f: Path)
    requires StampsHold(w, s) && OnlyTouches(s, s', f) && StampHolds(w, f, ViewOf(s', f))
    ensures StampsHold(w, s')
  {
    forall g ensures StampHolds(w, g, ViewOf(s', g)) {
      if g != f {
        OtherViewsKept(s, s', f, g);
        assert StampHolds(w, g, ViewOf(s, g));
      }
    }
  }

  // ---------------------------------------------------------------- Qdrant deletes

  /** By the no-orphan rule, deleting f's registered ids can only remove f's vectors. */
  lemma PointsAfterDelete(s: State, gone: set<ChunkId>, f: Path)
    requires Registered(s.db.chunks, s.vectors) && gone <= ChunkIdsOf(s.db, f)
    ensures PointsExcept(s.vectors - gone, f) == PointsExcept(s.vectors, f)
    ensures PointsBy(s.vectors - gone, f) == PointsBy(s.vectors, f) - gone
    ensures gone !! s.vectors.Keys <==> gone !! PointsBy(s.vectors, f).Keys
    ensures PointsBy(s.vectors, f).Keys <= ChunkIdsOf(s.db, f)
  {
    forall c | c in gone && c in s.vectors ensures c in PointsBy(s.vectors, f) {
      assert s.db.chunks[c].doc == f;
    }
  }

  /** What is left of a file when the vectors of these chunks are gone. */
  function Without(v: FileView, gone: set<ChunkId>): FileView
  {
    v.(points := v.points - gone, torn := v.torn || !(gone !! v.points.Keys))
  }

  lemma StampedSurvivesLoss(w: World, f: Path, v: FileView, gone: set<ChunkId>, content: string)
    requires StampedBy(w, f, v, content) && v.points.Keys <= v.chunks.Keys
    ensures StampedBy(w, f, Without(v, gone), content)
  {
    assert (v.points - gone).Keys == v.points.Keys - gone;
  }

  /** Losing vectors tears a stamped file, and only that does. */
  lemma StampSurvivesLoss(w: World, f: Path, v: FileView, gone: set<ChunkId>)
    requires StampHolds(w, f, v) && v.points.Keys <= v.chunks.Keys
    ensures StampHolds(w, f, Without(v, gone))
  {
    if v.stamp.Some? {
      var content :| StampedBy(w, f, v, content);
      StampedSurvivesLoss(w, f, v, gone, content);
    }
  }

  lemma QdrantDeleteView(s: State, gone: set<ChunkId>, acknowledged: bool, w: World)
    requires Registered(s.db.chunks, s.vectors) && Enabled(w, s, QdrantDelete(gone, acknowledged))
    ensures var f, s' := s.job.f, Apply(w, s, QdrantDelete(gone, acknowledged));
            var v := ViewOf(s, f);
      && OnlyTouches(s, s', f) && Registered(s'.db.chunks, s'.vectors)
      && v.points.Keys <= v.chunks.Keys && ViewOf(s', f) == Without(v, gone)
      && (acknowledged ==> ViewOf(s', f).points == map[])
  {
    PointsAfterDelete(s, gone, s.job.f);
  }

  lemma QdrantDeleteKeeps(w: World, s: State, gone: set<ChunkId>, acknowledged: bool)
    requires Invariant(w, s) && Enabled(w, s, QdrantDelete(gone, acknowledged))
    ensures Invariant(w, Apply(w, s, QdrantDelete(gone, acknowledged)))
    ensures OnlyTouches(s, Apply(w, s, QdrantDelete(gone, acknowledged)), s.job.f)
  {
    var f, s' := s.job.f, Apply(w, s, QdrantDelete(gone, acknowledged));
    QdrantDeleteView(s, gone, acknowledged, w);
    assert StampHolds(w, f, ViewOf(s, f));
    StampSurvivesLoss(w, f, ViewOf(s, f), gone);
    OtherStampsKept(w, s, s', f);
  }

  // ---------------------------------------------------------------- deleting rows

  lemma EmptyContentExpectsNothing(w: World, f: Path, content: string)
    requires Pieces(w, f, content) == []
    ensures Expected(w, f, content) == FileRows(map[], map[], {}, {})
  {
    assert Texts([]) == [];
    assert Groups(w.model.batchTokens, []) == [];
    assert BatchesOf(w, f, content) == [];
    assert Normalized(w.model.slug, []).order == [];
    assert ExtractionOf(w, f, content).entities == [];
    assert ExtractionOf(w, f, content).relationships == [];
  }

  lemma NoPoints(vectors: map<ChunkId, Point>, f: Path)
    requires PointsBy(vectors, f) == map[]
    ensures forall c | c in vectors :: vectors[c].doc != f
  {
    assert forall c | c in vectors && vectors[c].doc == f :: c in PointsBy(vectors, f);
  }

  lemma ClearedRows(t: Tables, f: Path)
    requires Cleared(t, f)
    ensures RowsOf(t, f) == FileRows(map[], map[], {}, {})
  {
  }

  /** What deleting or purging f's rows leaves, whichever of the two transactions runs. */
  predicate Dropped(t: Tables, t': Tables, f: Path)
  {
    Sound(t') && Cleared(t', f) && Others(t', f) == Others(t, f) && t'.chunks == ChunksExcept(t.chunks, f)
  }

  lemma BothDrop(t: Tables, f: Path)
    requires Sound(t)
    ensures Dropped(t, DeleteFileData(t, f), f) && Dropped(t, PurgeFile(t, f), f)
    ensures DeleteFileData(t, f).cache == t.cache && PurgeFile(t, f).cache == CacheExcept(t.cache, f)
  {
    DeleteFileDataSound(t, f);
    DeleteFileDataParts(t, f);
    assert CacheExcept(CacheExcept(t.cache, f), f) == CacheExcept(t.cache, f);
    var t', p := DeleteFileData(t, f), PurgeFile(t, f);
    assert p == t'.(cache := CacheExcept(t.cache, f));
    assert Others(p, f) == Others(t', f).(cache := CacheExcept(p.cache, f));
  }

  lemma DropRowsCommitted(w: World, s: State)
    requires Enabled(w, s, Commit) && s.job.phase.DropRows?
    ensures var f, s' := s.job.f, Apply(w, s, Commit);
      && s'.vectors == s.vectors && s'.torn == s.torn - {f}
      && (s'.db == DeleteFileData(s.db, f) || s'.db == PurgeFile(s.db, f))
  {
  }

  lemma DropRowsEffect(w: World, s: State)
    requires Sound(s.db) && Enabled(w, s, Commit) && s.job.phase.DropRows?
    ensures var f, s' := s.job.f, Apply(w, s, Commit);
      && Dropped(s.db, s'.db, f) && s'.vectors == s.vectors && s'.torn == s.torn - {f}
      && (s'.db.cache == s.db.cache || s'.db.cache == CacheExcept(s.db.cache, f))
  {
    DropRowsCommitted(w, s);
    BothDrop(s.db, s.job.f);
  }

  lemma DroppedTouches(s: State, s': State, f: Path)
    requires Dropped(s.db, s'.db, f) && s'.vectors == s.vectors && s'.torn == s.torn - {f}
    ensures OnlyTouches(s, s', f)
  {
  }

  lemma DropRowsView(w: World, s: State)
    requires Sound(s.db) && Enabled(w, s, Commit) && s.job.phase.DropRows?
    ensures var f, s' := s.job.f, Apply(w, s, Commit);
      && OnlyTouches(s, s', f) && Sound(s'.db) && s'.db.chunks == ChunksExcept(s.db.chunks, f)
      && (s'.db.cache == s.db.cache || s'.db.cache == CacheExcept(s.db.cache, f))
      && ViewOf(s', f) == FileView(FileRows(map[], map[], {}, {}), map[], PointsBy(s.vectors, f), false, None)
  {
    DropRowsEffect(w, s);
    DroppedTouches(s, Apply(w, s, Commit), s.job.f);
    ClearedView(Apply(w, s, Commit), s.job.f);
  }

  lemma ClearedView(s: State, f: Path)
    requires Cleared(s.db, f) && f !in s.torn
    ensures ViewOf(s, f) == FileView(FileRows(map[], map[], {}, {}), map[], PointsBy(s.vectors, f), false, None)
  {
    ClearedRows(s.db, f);
  }

  lemma DropRowsKeeps(w: World, s: State)
    requires Invariant(w, s) && Enabled(w, s, Commit) && s.job.phase.DropRows?
    ensures Invariant(w, Apply(w, s, Commit)) && OnlyTouches(s, Apply(w, s, Commit), s.job.f)
  {
    var f, s' := s.job.f, Apply(w, s, Commit);
    DropRowsView(w, s);
    assert PointsBy(s.vectors, f) == map[];
    NoPoints(s.vectors, f);
    OtherStampsKept(w, s, s', f);
    if s.job.task.Index? && Pieces(w, f, s.job.task.content) == [] {
      EmptyContentExpectsNothing(w, f, s.job.task.content);
    }
  }

  // ---------------------------------------------------------------- registering chunks and storing vectors

  lemma {:induction false} RegisterChunksOwn(chunks: map<ChunkId, Chunk>, ids: seq<ChunkId>, f: Path)
    ensures ChunksBy(RegisterChunks(chunks, ids, f), f) == RegisterChunks(ChunksBy(chunks, f), ids, f)
  {
    if ids != [] {
      RegisterChunksOwn(chunks, ids[..|ids| - 1], f);
    }
  }

  lemma RegisterPointsKeeps(w: World, s: State, ids: seq<ChunkId>)
    requires Invariant(w, s) && Enabled(w, s, RegisterPoints(ids))
    ensures Invariant(w, Apply(w, s, RegisterPoints(ids))) && OnlyTouches(s, Apply(w, s, RegisterPoints(ids)), s.job.f)
  {
    var f, s' := s.job.f, Apply(w, s, RegisterPoints(ids));
    RegisterChunksSound(s.db, ids, f);
    RegisterChunksEffect(s.db.chunks, ids, f);
    RegisterChunksOwn(s.db.chunks, ids, f);
    var v, v' := ViewOf(s, f), ViewOf(s', f);
    assert LinksBy(s'.db, f) <= LinksBy(s.db, f) by {
      assert forall l | l in s.db.links :: l.chunk in s.db.chunks && l.chunk !in ids;
    }
    OtherStampsKept(w, s, s', f);
  }

  lemma {:induction false} PointsForEffect(ids: seq<ChunkId>, pieces: seq<Piece>, f: Path)
    requires |ids| == |pieces| && Distinct(ids)
    ensures forall c :: c in PointsFor(ids, pieces, f) <==> c in ids
    ensures forall i | 0 <= i < |ids| :: PointsFor(ids, pieces, f)[ids[i]] == Point(f, i, pieces[i])
  {
    if ids != [] {
      var n := |ids| - 1;
      PointsForEffect(ids[..n], pieces[..n], f);
      assert forall c :: c in ids <==> c in ids[..n] || c == ids[n];
    }
  }

  lemma NumberedPoints(ids: seq<ChunkId>, pieces: seq<Piece>, f: Path)
    requires |ids| == |pieces| && Distinct(ids)
    ensures var points := PointsFor(ids, pieces, f);
      && points.Keys == Numbered(ids, f).Keys && PiecesMatch(points, pieces)
      && (forall c | c in points :: points[c].doc == f && c in ids && Numbered(ids, f)[c] == Chunk(f, points[c].index))
  {
    var points := PointsFor(ids, pieces, f);
    PointsForEffect(ids, pieces, f);
    RegisterChunksEffect(map[], ids, f);
    forall c | c in points
      ensures points[c].doc == f && points[c].index < |pieces| && points[c].piece == pieces[points[c].index]
      ensures c in Numbered(ids, f) && Numbered(ids, f)[c] == Chunk(f, points[c].index)
    {
      var i :| 0 <= i < |ids| && ids[i] == c;
    }
    assert forall c | c in Numbered(ids, f) :: c in ids;
  }

  /** Vectors for registered chunks of f are no orphans and touch no other file's vectors. */
  lemma VectorsAdded(chunks: map<ChunkId, Chunk>, vectors: map<ChunkId, Point>, added: map<ChunkId, Point>, f: Path)
    requires Registered(chunks, vectors) && PointsBy(vectors, f) == map[]
    requires forall c | c in added ::
               added[c].doc == f && c in ChunksBy(chunks, f) && ChunksBy(chunks, f)[c] == Chunk(f, added[c].index)
    ensures Registered(chunks, vectors + added)
    ensures PointsExcept(vectors + added, f) == PointsExcept(vectors, f)
    ensures PointsBy(vectors + added, f) == added
  {
    NoPoints(vectors, f);
    assert forall c | c in added :: c !in vectors;
  }

  /** Storing new vectors of f changes nothing but f's vectors. */
  lemma VectorsAddedView(s: State, vectors: map<ChunkId, Point>, job: Job, f: Path)
    requires PointsExcept(vectors, f) == PointsExcept(s.vectors, f)
    ensures var s' := s.(vectors := vectors, job := job);
            OnlyTouches(s, s', f) && ViewOf(s', f) == ViewOf(s, f).(points := PointsBy(vectors, f))
  {
  }

  /** The points of f that a call storing these ids adds. */
  lemma PartAdded(chunks: map<ChunkId, Chunk>, vectors: map<ChunkId, Point>, ids: seq<ChunkId>, pieces: seq<Piece>,
                  stored: set<ChunkId>, f: Path)
    requires |ids| == |pieces| && Distinct(ids) && Registered(chunks, vectors)
    requires PointsBy(vectors, f) == map[] && ChunksBy(chunks, f) == Numbered(ids, f)
    ensures var points := PointsFor(ids, pieces, f);
            var vectors' := vectors + (map c | c in points && c in stored :: points[c]);
      && Registered(chunks, vectors') && PointsExcept(vectors', f) == PointsExcept(vectors, f)
      && ((forall c | c in ids :: c in stored) ==> PointsBy(vectors', f) == points)
  {
    var points := PointsFor(ids, pieces, f);
    var added := map c | c in points && c in stored :: points[c];
    NumberedPoints(ids, pieces, f);
    VectorsAdded(chunks, vectors, added, f);
    if forall c | c in ids :: c in stored {
      assert added == points;
    }
  }

  lemma QdrantUpsertView(w: World, s: State, stored: set<ChunkId>, acknowledged: bool)
    requires Registered(s.db.chunks, s.vectors) && Enabled(w, s, QdrantUpsert(stored, acknowledged))
    requires Placed(w, s.job.f, s.job.task.content, s.job.phase.ids, false, ViewOf(s, s.job.f))
    ensures var f, s' := s.job.f, Apply(w, s, QdrantUpsert(stored, acknowledged));
      && OnlyTouches(s, s', f) && Registered(s'.db.chunks, s'.vectors)
      && ViewOf(s', f) == ViewOf(s, f).(points := ViewOf(s', f).points)
      && (acknowledged ==> ViewOf(s', f).points == PointsFor(s.job.phase.ids, Pieces(w, f, s.job.task.content), f))
  {
    var s' := Apply(w, s, QdrantUpsert(stored, acknowledged));
    PartAdded(s.db.chunks, s.vectors, s.job.phase.ids, Pieces(w, s.job.f, s.job.task.content), stored, s.job.f);
    VectorsAddedView(s, s'.vectors, s'.job, s.job.f);
  }

  lemma QdrantUpsertKeeps(w: World, s: State, stored: set<ChunkId>, acknowledged: bool)
    requires Invariant(w, s) && Enabled(w, s, QdrantUpsert(stored, acknowledged))
    ensures Invariant(w, Apply(w, s, QdrantUpsert(stored, acknowledged)))
    ensures OnlyTouches(s, Apply(w, s, QdrantUpsert(stored, acknowledged)), s.job.f)
  {
    QdrantUpsertView(w, s, stored, acknowledged);
    OtherStampsKept(w, s, Apply(w, s, QdrantUpsert(stored, acknowledged)), s.job.f);
  }

  // ---------------------------------------------------------------- extraction and graph rows

  lemma BatchView(w: World, s: State, answered: bool)
    requires Sound(s.db) && Enabled(w, s, Batch(answered))
    ensures var f, s' := s.job.f, Apply(w, s, Batch(answered));
      && OnlyTouches(s, s', f) && ViewOf(s', f) == ViewOf(s, f)
      && s'.db == s.db.(cache := s'.db.cache) && s'.vectors == s.vectors && Sound(s'.db)
  {
    var f, s' := s.job.f, Apply(w, s, Batch(answered));
    assert CacheExcept(s'.db.cache, f) == CacheExcept(s.db.cache, f);
  }

  lemma BatchKeeps(w: World, s: State, answered: bool)
    requires Lawful(w) && Invariant(w, s) && Enabled(w, s, Batch(answered))
    ensures Invariant(w, Apply(w, s, Batch(answered))) && OnlyTouches(s, Apply(w, s, Batch(answered)), s.job.f)
  {
    var f, p := s.job.f, s.job.phase;
    var text := BatchesOf(w, f, s.job.task.content)[p.done];
    BatchStepSound(w.model, f, Progress(s.db.cache, p.raw, p.failed), p.done, text, answered);
    BatchView(w, s, answered);
    assert StampHolds(w, f, ViewOf(s, f));
    OtherStampsKept(w, s, Apply(w, s, Batch(answered)), f);
  }

  lemma PlacedHasChunks(w: World, f: Path, content: string, ids: seq<ChunkId>, s: State)
    requires Placed(w, f, content, ids, true, ViewOf(s, f))
    ensures f in Docs(s.db.chunks)
  {
    RegisterChunksEffect(map[], ids, f);
    assert ids[0] in ChunksBy(s.db.chunks, f);
  }

  lemma EntitiesCommitKeeps(w: World, s: State)
    requires Invariant(w, s) && Enabled(w, s, Commit) && s.job.phase.Extracting?
    ensures Invariant(w, Apply(w, s, Commit)) && OnlyTouches(s, Apply(w, s, Commit), s.job.f)
  {
    var f, s' := s.job.f, Apply(w, s, Commit);
    var p := s.job.phase;
    PlacedHasChunks(w, f, s.job.task.content, p.ids, s);
    UpsertEntitiesSound(s.db, Normalize(w.model.slug, p.raw, p.failed).entities, f);
    var v, v' := ViewOf(s, f), ViewOf(s', f);
    assert v' == v.(rows := v.rows.(mentions := v'.rows.mentions));
    OtherStampsKept(w, s, s', f);
  }

  lemma EndpointsAreMentioned(w: World, t: Tables, result: Result, f: Path, k: RelKey)
    requires MentionsBy(t.mentions, f) == UpsertMentions(map[], result.entities, f)
             && k in RelRows(w, result.relationships, f)
    requires forall r | r in result.relationships ::
               w.model.slug(r.source) in Ids(result.entities) && w.model.slug(r.target) in Ids(result.entities)
    ensures k.doc == f && MentionKey(k.source, f) in t.mentions && MentionKey(k.target, f) in t.mentions
  {
    var rows := RelRows(w, result.relationships, f);
    UpsertMentionsEffect(map[], result.entities, f);
    var i :| 0 <= i < |rows| && rows[i] == k;
    assert result.relationships[i] in result.relationships;
    assert MentionKey(k.source, f) in MentionsBy(t.mentions, f) && MentionKey(k.target, f) in MentionsBy(t.mentions, f);
  }

  lemma RelationshipsCommitKeeps(w: World, s: State)
    requires Invariant(w, s) && Enabled(w, s, Commit) && s.job.phase.Relating?
    ensures Invariant(w, Apply(w, s, Commit)) && OnlyTouches(s, Apply(w, s, Commit), s.job.f)
  {
    var f, s', result := s.job.f, Apply(w, s, Commit), s.job.phase.result;
    var rows := RelRows(w, result.relationships, f);
    forall k | k in rows
      ensures k.doc == f && MentionKey(k.source, f) in s.db.mentions && MentionKey(k.target, f) in s.db.mentions
    {
      EndpointsAreMentioned(w, s.db, result, f, k);
    }
    UpsertRelationshipsSound(s.db, rows, f);
    var v, v' := ViewOf(s, f), ViewOf(s', f);
    assert v' == v.(rows := v.rows.(relationships := v'.rows.relationships));
    OtherStampsKept(w, s, s', f);
  }

  lemma NumbersAreUpto(ids: seq<ChunkId>, f: Path)
    requires Distinct(ids)
    ensures NumbersIn(Numbered(ids, f)) == Upto(|ids|) && OnePerNumber(Numbered(ids, f))
  {
    RegisterChunksEffect(map[], ids, f);
    var chunks := Numbered(ids, f);
    forall i | i in Upto(|ids|) ensures i in NumbersIn(chunks) {
      assert ids[i] in chunks && chunks[ids[i]].index == i;
    }
    forall c | c in chunks ensures chunks[c].index in Upto(|ids|) {
      var i :| 0 <= i < |ids| && ids[i] == c;
    }
  }

  lemma MatchIsLinked(w: World, ids: seq<ChunkId>, pieces: seq<Piece>, entities: seq<EntityRow>, f: Path,
                      m: (nat, EntityId))
    requires |ids| == |pieces| && Distinct(ids) && m in Matches(w, pieces, entities)
    ensures m in NumberedLinks(LinksFor(w, ids, pieces, entities), Numbered(ids, f))
  {
    RegisterChunksEffect(map[], ids, f);
    var link := Link(ids[m.0], m.1);
    assert link in LinksFor(w, ids, pieces, entities) && Numbered(ids, f)[link.chunk].index == m.0;
  }

  lemma LinkIsMatch(w: World, ids: seq<ChunkId>, pieces: seq<Piece>, entities: seq<EntityRow>, f: Path, l: Link)
    requires |ids| == |pieces| && Distinct(ids) && l in LinksFor(w, ids, pieces, entities)
    ensures l.chunk in Numbered(ids, f) && l.entity in Ids(entities)
    ensures (Numbered(ids, f)[l.chunk].index, l.entity) in Matches(w, pieces, entities)
  {
    RegisterChunksEffect(map[], ids, f);
    var m :| m in Matches(w, pieces, entities) && m.0 < |ids| && l == Link(ids[m.0], m.1);
    assert Numbered(ids, f)[ids[m.0]] == Chunk(f, m.0);
  }

  lemma LinksAreMatches(w: World, ids: seq<ChunkId>, pieces: seq<Piece>, entities: seq<EntityRow>, f: Path)
    requires |ids| == |pieces| && Distinct(ids)
    ensures NumberedLinks(LinksFor(w, ids, pieces, entities), Numbered(ids, f)) == Matches(w, pieces, entities)
    ensures forall l | l in LinksFor(w, ids, pieces, entities) ::
              l.chunk in Numbered(ids, f) && l.entity in Ids(entities)
  {
    var links, chunks, matches := LinksFor(w, ids, pieces, entities), Numbered(ids, f), Matches(w, pieces, entities);
    forall m | m in matches ensures m in NumberedLinks(links, chunks) {
      MatchIsLinked(w, ids, pieces, entities, f, m);
    }
    forall l | l in links
      ensures l.chunk in chunks && l.entity in Ids(entities) && (chunks[l.chunk].index, l.entity) in matches
    {
      LinkIsMatch(w, ids, pieces, entities, f, l);
    }
  }

  lemma EntityMentioned(t: Tables, entities: seq<EntityRow>, f: Path, e: EntityId)
    requires MentionsBy(t.mentions, f) == UpsertMentions(map[], entities, f) && e in Ids(entities)
    ensures MentionKey(e, f) in t.mentions
  {
    UpsertMentionsEffect(map[], entities, f);
    assert MentionKey(e, f) in MentionsBy(t.mentions, f);
  }

  /** The links about to be written name registered chunks and mentioned entities. */
  lemma LinksAreSound(w: World, s: State)
    requires Invariant(w, s) && Enabled(w, s, Commit) && s.job.phase.Linking?
    ensures var f, p := s.job.f, s.job.phase;
            var pairs := LinksFor(w, p.ids, Pieces(w, f, s.job.task.content), p.result.entities);
      forall l | l in pairs :: l.chunk in ChunkIdsOf(s.db, f) && MentionKey(l.entity, f) in s.db.mentions
  {
    var f, p := s.job.f, s.job.phase;
    assert ChunksBy(s.db.chunks, f) == Numbered(p.ids, f);
    LinksAreMatches(w, p.ids, Pieces(w, f, s.job.task.content), p.result.entities, f);
    assert MentionsBy(s.db.mentions, f) == UpsertMentions(map[], p.result.entities, f);
    forall e | e in Ids(p.result.entities) ensures MentionKey(e, f) in s.db.mentions {
      EntityMentioned(s.db, p.result.entities, f, e);
    }
  }

  /** Linking adds to the document's rows exactly the matches of its content. */
  lemma LinksCommitView(w: World, s: State)
    requires Invariant(w, s) && Enabled(w, s, Commit) && s.job.phase.Linking?
    ensures var f, s', p := s.job.f, Apply(w, s, Commit), s.job.phase;
            var v := ViewOf(s, f);
      && Sound(s'.db) && OnlyTouches(s, s', f)
      && ViewOf(s', f) == v.(rows := v.rows.(links := Matches(w, Pieces(w, f, s.job.task.content), p.result.entities)))
  {
    var f, p := s.job.f, s.job.phase;
    var pieces := Pieces(w, f, s.job.task.content);
    LinksAreMatches(w, p.ids, pieces, p.result.entities, f);
    LinksEmpty(s, f);
    LinksAreSound(w, s);
    LinkChunksSound(s.db, LinksFor(w, p.ids, pieces, p.result.entities), f);
  }

  /** Once linked, a file whose extraction did not fail has every row that its content determines. */
  lemma LinkedIsExpected(w: World, f: Path, content: string, ids: seq<ChunkId>, result: Result, v: FileView)
    requires JobHolds(w, Busy(f, Index(content), Linking(ids, result)), v) && !result.hadFailure
    requires v.rows.numbers == NumbersIn(v.chunks)
    ensures var v' := v.(rows := v.rows.(links := Matches(w, Pieces(w, f, content), result.entities)));
            JobHolds(w, Busy(f, Index(content), Stamp), v')
  {
    NumbersAreUpto(ids, f);
    NumberedPoints(ids, Pieces(w, f, content), f);
  }

  lemma LinksCommitKeeps(w: World, s: State)
    requires Invariant(w, s) && Enabled(w, s, Commit) && s.job.phase.Linking?
    ensures Invariant(w, Apply(w, s, Commit)) && OnlyTouches(s, Apply(w, s, Commit), s.job.f)
  {
    var f, s', p := s.job.f, Apply(w, s, Commit), s.job.phase;
    LinksCommitView(w, s);
    if !p.result.hadFailure {
      LinkedIsExpected(w, f, s.job.task.content, p.ids, p.result, ViewOf(s, f));
    }
    OtherStampsKept(w, s, s', f);
  }

  lemma LinksEmpty(s: State, f: Path)
    requires ViewOf(s, f).rows.links == {}
    ensures LinksBy(s.db, f) == {}
  {
    var chunks := ChunksBy(s.db.chunks, f);
    assert forall l | l in LinksBy(s.db, f) ::
             (chunks[l.chunk].index, l.entity) in NumberedLinks(LinksBy(s.db, f), chunks);
  }

  lemma StampCommitView(w: World, s: State)
    requires Enabled(w, s, Commit) && s.job.phase.Stamp?
    ensures var f, s' := s.job.f, Apply(w, s, Commit);
      OnlyTouches(s, s', f) && ViewOf(s', f) == ViewOf(s, f).(stamp := Some(w.hash(s.job.task.content)))
  {
    var f, s' := s.job.f, Apply(w, s, Commit);
    assert FingerprintsExcept(s'.db.fingerprints, f) == FingerprintsExcept(s.db.fingerprints, f);
  }

  lemma StampCommitKeeps(w: World, s: State)
    requires Invariant(w, s) && Enabled(w, s, Commit) && s.job.phase.Stamp?
    ensures Invariant(w, Apply(w, s, Commit)) && OnlyTouches(s, Apply(w, s, Commit), s.job.f)
  {
    var f, s' := s.job.f, Apply(w, s, Commit);
    StampCommitView(w, s);
    assert StampedBy(w, f, ViewOf(s', f), s.job.task.content);
    OtherStampsKept(w, s, s', f);
  }

  // ---------------------------------------------------------------- all actions, all runs

  lemma ReclusterKeeps(w: World, s: State, communities: map<EntityId, int>)
    requires Invariant(w, s) && s.job.Idle?
    ensures Invariant(w, Apply(w, s, Recluster(communities)))
  {
    var s' := Apply(w, s, Recluster(communities));
    assert s'.db.entities.Keys == s.db.entities.Keys;
    forall e | e in s'.db.entities
      ensures s'.db.entities[e] == Refreshed(s'.db.mentions, e, s'.db.entities[e])
    {
      assert s.db.entities[e] == Refreshed(s.db.mentions, e, s.db.entities[e]);
    }
    SameViews(w, s, s');
  }

  lemma SameViews(w: World, s: State, s': State)
    requires StampsHold(w, s) && s'.db == s.db.(entities := s'.db.entities) && s'.vectors == s.vectors
             && s'.torn == s.torn
    ensures StampsHold(w, s') && forall f :: ViewOf(s', f) == ViewOf(s, f)
  {
    forall f ensures ViewOf(s', f) == ViewOf(s, f) && StampHolds(w, f, ViewOf(s', f)) {
      assert StampHolds(w, f, ViewOf(s, f));
    }
  }

  lemma CommitKeeps(w: World, s: State)
    requires Invariant(w, s) && Enabled(w, s, Commit)
    ensures Invariant(w, Apply(w, s, Commit)) && OnlyTouches(s, Apply(w, s, Commit), s.job.f)
  {
    match s.job.phase
    case DropRows => DropRowsKeeps(w, s);
    case Extracting(_, _, _, _) => EntitiesCommitKeeps(w, s);
    case Relating(_, _) => RelationshipsCommitKeeps(w, s);
    case Linking(_, _) => LinksCommitKeeps(w, s);
    case Stamp => StampCommitKeeps(w, s);
  }

  lemma ActionKeeps(w: World, s: State, a: Action)
    requires Lawful(w) && Invariant(w, s) && Enabled(w, s, a)
    ensures Invariant(w, Apply(w, s, a))
  {
    match a
    case Recluster(communities) => ReclusterKeeps(w, s, communities);
    case QdrantDelete(gone, acknowledged) => QdrantDeleteKeeps(w, s, gone, acknowledged);
    case Commit => CommitKeeps(w, s);
    case RegisterPoints(ids) => RegisterPointsKeeps(w, s, ids);
    case QdrantUpsert(stored, acknowledged) => QdrantUpsertKeeps(w, s, stored, acknowledged);
    case Batch(answered) => BatchKeeps(w, s, answered);
    case Edit(_, _) => SameViews(w, s, Apply(w, s, a));
    case BeginIndex(_) => SameViews(w, s, Apply(w, s, a));
    case BeginPurge(_) => SameViews(w, s, Apply(w, s, a));
    case Abandon => SameViews(w, s, Apply(w, s, a));
  }

  lemma {:induction false} RunKeeps(w: World, s: State, actions: seq<Action>)
    requires Lawful(w) && Invariant(w, s) && Run(w, s, actions).Some?
    ensures Invariant(w, Run(w, s, actions).value)
  {
    if actions != [] {
      RunKeeps(w, s, actions[..|actions| - 1]);
      ActionKeeps(w, Run(w, s, actions[..|actions| - 1]).value, actions[|actions| - 1]);
    }
  }

  lemma StartHolds(w: World, disk: map<Path, string>)
    ensures Invariant(w, Start(disk))
  {
  }
}
