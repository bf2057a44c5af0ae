/** What ingestion promises over whole runs, however many jobs crash. */
module IngestionTheorems {
  import opened Options
  import opened Records
  import opened Integrity
  import opened Extraction
  import opened Ingestion
  import opened IngestionSafety

  ghost predicate Reachable(w: World, s: State)
  {
    exists disk :: Reaches(w, Start(disk), s)
  }

  lemma ReachableHolds(w: World, s: State)
    requires Lawful(w) && Reachable(w, s)
    ensures Invariant(w, s)
  {
    var disk :| Reaches(w, Start(disk), s);
    var actions :| Run(w, Start(disk), actions) == Some(s);
    StartHolds(w, disk);
    RunKeeps(w, Start(disk), actions);
  }

  // ---------------------------------------------------------------- the two stores agree

  /**
   * At every moment each vector is registered under its own file and number, and a fingerprinted
   * file has a vector for each of its chunks exactly when no delete has torn it.
   */
  lemma NoOrphanVectors(w: World, s: State)
    requires Lawful(w) && Reachable(w, s)
    ensures forall c | c in s.vectors ::
              c in s.db.chunks && s.db.chunks[c] == Chunk(s.vectors[c].doc, s.vectors[c].index)
    ensures forall f | f in s.db.fingerprints ::
              (forall c | c in ChunkIdsOf(s.db, f) :: c in s.vectors) <==> f !in s.torn
  {
    ReachableHolds(w, s);
    forall f | f in s.db.fingerprints
      ensures (forall c | c in ChunkIdsOf(s.db, f) :: c in s.vectors) <==> f !in s.torn
    {
      var v := ViewOf(s, f);
      assert StampHolds(w, f, v);
      var content :| StampedBy(w, f, v, content);
      PointsAreChunks(s, f);
    }
  }

  lemma PointsAreChunks(s: State, f: Path)
    requires Registered(s.db.chunks, s.vectors)
    ensures PointsBy(s.vectors, f).Keys == set c | c in ChunkIdsOf(s.db, f) && c in s.vectors
  {
  }

  /**
   * Every row and vector of a file makes the file known to the clean-up of deleted files, and
   * nothing else does.
   */
  lemma EveryTraceIsTracked(w: World, s: State)
    requires Lawful(w) && Reachable(w, s)
    ensures forall f | f in s.db.fingerprints :: f in Tracked(s)
    ensures forall k | k in s.db.cache :: k.doc in Tracked(s)
    ensures forall k | k in s.db.mentions :: k.doc in Tracked(s)
    ensures forall k | k in s.db.relationships :: k.doc in Tracked(s)
    ensures forall c | c in s.vectors :: s.vectors[c].doc in Tracked(s)
    ensures forall l | l in s.db.links :: l.chunk in s.db.chunks && s.db.chunks[l.chunk].doc in Tracked(s)
    ensures forall f | f in Tracked(s) && f !in s.db.fingerprints ::
              (exists c :: c in s.db.chunks && s.db.chunks[c].doc == f) || exists k :: k in s.db.cache && k.doc == f
  {
    ReachableHolds(w, s);
    assert Docs(s.db.chunks) <= Tracked(s);
    forall k | k in s.db.relationships ensures k.doc in Tracked(s) {
      assert MentionKey(k.source, k.doc) in s.db.mentions;
    }
  }

  /** References hold in every state, and each document's own rows agree with each other. */
  lemma ReferencesHold(w: World, s: State)
    requires Lawful(w) && Reachable(w, s)
    ensures ForeignKeys(s.db)
    ensures forall e :: e in s.db.entities <==> exists k :: k in s.db.mentions && k.entity == e
    ensures forall k | k in s.db.relationships ::
              MentionKey(k.source, k.doc) in s.db.mentions && MentionKey(k.target, k.doc) in s.db.mentions
    ensures forall l | l in s.db.links ::
              l.chunk in s.db.chunks && MentionKey(l.entity, s.db.chunks[l.chunk].doc) in s.db.mentions
  {
    ReachableHolds(w, s);
    DeletionKeepsForeignKeys(s.db, "");
  }

  /** The tables after some statement of the transaction that the job runs next. */
  ghost predicate Within(w: World, s: State, u: Tables)
  {
    s.job.Busy? &&
    var f := s.job.f;
    match s.job.phase
    case DropRows => DuringDeletion(s.db, f, u)
    case Register =>
      exists ids :: Enabled(w, s, RegisterPoints(ids)) && DuringRegisterChunks(s.db, ids, f, u)
    case Extracting(_, _, raw, failed) =>
      Enabled(w, s, Commit) && DuringUpsertEntities(s.db, Normalize(w.model.slug, raw, failed).entities, f, u)
    case Relating(_, result) =>
      Enabled(w, s, Commit) && DuringUpsertRelationships(s.db, RelRows(w, result.relationships, f), u)
    case Linking(ids, result) =>
      && Enabled(w, s, Commit)
      && DuringLinkChunks(s.db, LinksFor(w, ids, Pieces(w, f, s.job.task.content), result.entities), u)
    case _ => false
  }

  /**
   * In every reachable state, whatever the job does next, no statement of its transaction breaks a
   * foreign key: none can make an upsert, a registration, a linking or a deletion fail.
   */
  lemma NoStatementBreaksForeignKeys(w: World, s: State, u: Tables)
    requires Lawful(w) && Reachable(w, s) && Within(w, s, u)
    ensures ForeignKeys(u)
  {
    ReachableHolds(w, s);
    ReferencesHold(w, s);
    var f := s.job.f;
    match s.job.phase
    case DropRows => DeletionStatementsKeepForeignKeys(s.db, f, u);
    case Register =>
      var ids :| Enabled(w, s, RegisterPoints(ids)) && DuringRegisterChunks(s.db, ids, f, u);
      ChunkStatementsKeepForeignKeys(s.db, ids, f, u);
    case Extracting(_, _, raw, failed) =>
      EntityStatementsKeepForeignKeys(s.db, Normalize(w.model.slug, raw, failed).entities, f, u);
    case Relating(_, result) =>
      RelatedAreEntities(w, s, result);
      RelationshipStatementsKeepForeignKeys(s.db, RelRows(w, result.relationships, f), u);
    case Linking(ids, result) =>
      LinksAreSound(w, s);
      LinkStatementsKeepForeignKeys(s.db, LinksFor(w, ids, Pieces(w, f, s.job.task.content), result.entities), u);
  }

  lemma RelatedAreEntities(w: World, s: State, result: Result)
    requires Invariant(w, s) && ForeignKeys(s.db) && Indexing(s.job)
    requires s.job.phase.Relating? && s.job.phase.result == result
    ensures forall k | k in RelRows(w, result.relationships, s.job.f) ::
              k.source in s.db.entities && k.target in s.db.entities
  {
    forall k | k in RelRows(w, result.relationships, s.job.f)
      ensures k.source in s.db.entities && k.target in s.db.entities
    {
      EndpointsAreMentioned(w, s.db, result, s.job.f, k);
    }
  }

  /** What the documents say of the entity, document by document. */
  ghost predicate SaidOf(m: map<MentionKey, Mention>, e: EntityId, said: map<Path, Mention>)
  {
    && (forall d :: d in said <==> MentionKey(e, d) in m)
    && forall d | d in said :: said[d] == m[MentionKey(e, d)]
  }

  /**
   * The columns refreshed only for touched ids are right for every id, after every transaction:
   * type and description are those that all current mentions of the entity determine.
   */
  lemma MaterialisedView(w: World, s: State, e: EntityId, said: map<Path, Mention>)
    requires Lawful(w) && Reachable(w, s) && e in s.db.entities && SaidOf(s.db.mentions, e, said)
    ensures s.db.entities[e].etype == TopType(said) && s.db.entities[e].description == TopDescription(said)
  {
    ReachableHolds(w, s);
    assert s.db.entities[e] == Refreshed(s.db.mentions, e, s.db.entities[e]);
    SaidIsMentions(s.db.mentions, e, said);
  }

  lemma SaidIsMentions(m: map<MentionKey, Mention>, e: EntityId, said: map<Path, Mention>)
    requires SaidOf(m, e, said)
    ensures MentionsOf(m, e) == said
  {
    forall k: MentionKey | k.entity == e ensures k == MentionKey(e, k.doc) {}
    assert forall d :: d in MentionsOf(m, e) <==> MentionKey(e, d) in m;
  }

  // ---------------------------------------------------------------- incremental equals from scratch

  predicate Current(w: World, s: State, f: Path)
  {
    f in s.disk && f in s.db.fingerprints && s.db.fingerprints[f] == w.hash(s.disk[f])
  }

  /** Every file on disk is indexed as it is now, and nothing is kept of any other. */
  predicate CaughtUp(w: World, s: State)
  {
    Tracked(s) <= s.disk.Keys && forall f | f in s.disk :: Current(w, s, f)
  }

  lemma CurrentRows(w: World, s: State, f: Path)
    requires Lawful(w) && Invariant(w, s) && Current(w, s, f)
    ensures StampedBy(w, f, ViewOf(s, f), s.disk[f])
  {
    assert StampHolds(w, f, ViewOf(s, f));
    var content :| StampedBy(w, f, ViewOf(s, f), content);
    assert w.hash(content) == w.hash(s.disk[f]);
  }

  lemma UntrackedRows(w: World, s: State, f: Path)
    requires Invariant(w, s) && f !in Tracked(s)
    ensures RowsOf(s.db, f) == FileRows(map[], map[], {}, {})
    ensures PointsBy(s.vectors, f) == map[]
  {
    UntrackedTables(s.db, f);
    assert forall c | c in s.vectors :: c in s.db.chunks && s.db.chunks[c].doc == s.vectors[c].doc;
  }

  lemma UntrackedTables(t: Tables, f: Path)
    requires Disciplined(t) && f !in Docs(t.chunks)
    ensures RowsOf(t, f) == FileRows(map[], map[], {}, {}) && ChunksBy(t.chunks, f) == map[]
  {
    assert forall k | k in t.mentions :: k.doc in Docs(t.chunks);
    assert forall k | k in t.relationships :: MentionKey(k.source, k.doc) in t.mentions;
    assert ChunksBy(t.chunks, f) == map[];
  }

  /** The rows of a caught-up store are those the disk determines, file by file. */
  function Wanted(w: World, disk: map<Path, string>, f: Path): FileRows
  {
    if f in disk then Expected(w, f, disk[f]) else FileRows(map[], map[], {}, {})
  }

  lemma CaughtUpRows(w: World, s: State, f: Path)
    requires Lawful(w) && Invariant(w, s) && CaughtUp(w, s)
    ensures RowsOf(s.db, f) == Wanted(w, s.disk, f)
  {
    if f in s.disk {
      CurrentRows(w, s, f);
    } else {
      UntrackedRows(w, s, f);
    }
  }

  /** Chunk links with each chunk known by its file and number. */
  function LinksByNumber(t: Tables): set<(Chunk, EntityId)>
  {
    set l | l in t.links && l.chunk in t.chunks :: (t.chunks[l.chunk], l.entity)
  }

  lemma RowsDetermine(t: Tables, t': Tables)
    requires forall f :: RowsOf(t, f) == RowsOf(t', f)
    ensures t.mentions == t'.mentions && t.relationships == t'.relationships
    ensures LinksByNumber(t) == LinksByNumber(t')
  {
    forall k ensures k in t.mentions <==> k in t'.mentions
             ensures k in t.mentions ==> t.mentions[k] == t'.mentions[k] {
      assert RowsOf(t, k.doc).mentions == RowsOf(t', k.doc).mentions;
      assert k in t.mentions <==> k in MentionsBy(t.mentions, k.doc);
      assert k in t'.mentions <==> k in MentionsBy(t'.mentions, k.doc);
    }
    forall k ensures k in t.relationships <==> k in t'.relationships
             ensures k in t.relationships ==> t.relationships[k] == t'.relationships[k] {
      assert RowsOf(t, k.doc).relationships == RowsOf(t', k.doc).relationships;
      assert k in t.relationships <==> k in RelationshipsBy(t.relationships, k.doc);
      assert k in t'.relationships <==> k in RelationshipsBy(t'.relationships, k.doc);
    }
    forall c: Chunk, e: EntityId ensures (c, e) in LinksByNumber(t) <==> (c, e) in LinksByNumber(t') {
      LinkInRows(t, c, e);
      LinkInRows(t', c, e);
      assert RowsOf(t, c.doc).links == RowsOf(t', c.doc).links;
    }
  }

  lemma LinkInRows(t: Tables, c: Chunk, e: EntityId)
    ensures (c, e) in LinksByNumber(t) <==> (c.index, e) in RowsOf(t, c.doc).links
  {
    var own := ChunksBy(t.chunks, c.doc);
    if (c, e) in LinksByNumber(t) {
      var l :| l in t.links && l.chunk in t.chunks && (t.chunks[l.chunk], l.entity) == (c, e);
      assert l in LinksBy(t, c.doc) && (own[l.chunk].index, l.entity) == (c.index, e);
    }
    if (c.index, e) in RowsOf(t, c.doc).links {
      var l :| l in LinksBy(t, c.doc) && l.chunk in own && (own[l.chunk].index, l.entity) == (c.index, e);
      assert t.chunks[l.chunk] == c;
    }
  }

  /** The same for every purpose but the names shown and the ids of chunks. */
  ghost predicate SameIndex(s: State, s': State)
  {
    && s.db.mentions == s'.db.mentions && s.db.relationships == s'.db.relationships
    && LinksByNumber(s.db) == LinksByNumber(s'.db)
    && s.db.entities.Keys == s'.db.entities.Keys
    && (forall e | e in s.db.entities ::
          && s.db.entities[e].etype == s'.db.entities[e].etype
          && s.db.entities[e].description == s'.db.entities[e].description)
    && (forall f | f in s.disk && f !in s.torn && f !in s'.torn :: Searchable(s, f) == Searchable(s', f))
  }

  /**
   * Two stores that have caught up with the same disk agree, whatever edits, crashes and failures
   * led to each: the same mentions, relationship weights and chunk links, the same entities with
   * the same types and descriptions, and, unless torn, the same searchable points.  One of the
   * two may be a store into which the files were indexed once from empty.
   */
  lemma IncrementalEqualsFromScratch(w: World, s: State, s': State)
    requires Lawful(w) && Reachable(w, s) && Reachable(w, s')
    requires CaughtUp(w, s) && CaughtUp(w, s') && s.disk == s'.disk
    ensures s.db.mentions == s'.db.mentions && s.db.relationships == s'.db.relationships
    ensures LinksByNumber(s.db) == LinksByNumber(s'.db)
    ensures s.db.entities.Keys == s'.db.entities.Keys
    ensures forall e | e in s.db.entities ::
              && s.db.entities[e].etype == s'.db.entities[e].etype
              && s.db.entities[e].description == s'.db.entities[e].description
    ensures forall f | f in s.disk && f !in s.torn && f !in s'.torn :: Searchable(s, f) == Searchable(s', f)
  {
    ReachableHolds(w, s);
    ReachableHolds(w, s');
    forall f ensures RowsOf(s.db, f) == RowsOf(s'.db, f) {
      CaughtUpRows(w, s, f);
      CaughtUpRows(w, s', f);
    }
    RowsDetermine(s.db, s'.db);
    SameMentionsSameEntities(s.db, s'.db);
    forall f | f in s.disk && f !in s.torn && f !in s'.torn ensures Searchable(s, f) == Searchable(s', f) {
      SearchableIsWanted(w, s, f);
      SearchableIsWanted(w, s', f);
    }
  }

  /** The points a search can return for f. */
  function Searchable(s: State, f: Path): set<Point>
  {
    set c | c in PointsBy(s.vectors, f) :: PointsBy(s.vectors, f)[c]
  }

  lemma SearchableIsWanted(w: World, s: State, f: Path)
    requires Lawful(w) && Invariant(w, s) && Current(w, s, f) && f !in s.torn
    ensures var pieces := Pieces(w, f, s.disk[f]);
            forall p :: p in Searchable(s, f) <==> p.doc == f && p.index < |pieces| && p.piece == pieces[p.index]
  {
    var pieces, v := Pieces(w, f, s.disk[f]), ViewOf(s, f);
    CurrentRows(w, s, f);
    forall p: Point | p.doc == f && p.index < |pieces| && p.piece == pieces[p.index] ensures p in Searchable(s, f) {
      assert p.index in NumbersIn(v.chunks);
      var c :| c in v.chunks && v.chunks[c].index == p.index;
      assert c in v.points && v.points[c] == p;
    }
  }
}
