/**
 * What the tables hold of a file, said of its text and of the model's replies alone: nothing but
 * chunks of a git history document, and of any other current file what extraction yields from
 * all of its pieces.
 */
module IngestionContents {
  import opened Options
  import opened Records
  import opened Integrity
  import opened Extraction
  import opened Ingestion
  import opened IngestionSafety
  import opened IngestionTheorems

  // ---------------------------------------------------------------- git history documents

  predicate NoGraphRows(v: FileView)
  {
    v.rows.mentions == map[] && v.rows.relationships == map[] && v.rows.links == {}
  }

  /** A job for a history document has nothing that could fail. */
  predicate NothingFailed(job: Job)
  {
    Indexing(job) ==>
      match job.phase
      case Extracting(_, _, _, failed) => !failed
      case Relating(_, result) => !result.hadFailure
      case Linking(_, result) => !result.hadFailure
      case _ => true
  }

  ghost predicate HistoryHolds(w: World, s: State)
  {
    && (forall f | w.isHistory(f) :: NoGraphRows(ViewOf(s, f)))
    && (forall k | k in s.db.cache :: !w.isHistory(k.doc))
    && (s.job.Busy? && w.isHistory(s.job.f) ==> NothingFailed(s.job))
  }

  lemma HistoryYieldsNothing(w: World, f: Path, content: string)
    requires w.isHistory(f)
    ensures BatchesOf(w, f, content) == []
    ensures ExtractionOf(w, f, content).entities == [] && ExtractionOf(w, f, content).relationships == []
  {
    assert Normalized(w.model.slug, []).order == [];
  }

  lemma NothingToWrite(w: World, job: Job, v: FileView)
    requires Indexing(job) && w.isHistory(job.f) && NothingFailed(job) && JobHolds(w, job, v)
    requires job.phase.Relating? || job.phase.Linking?
    ensures job.phase.result.entities == [] && v.rows.mentions == map[] && v.rows.relationships == map[]
  {
    HistoryYieldsNothing(w, job.f, job.task.content);
    assert RelRows(w, [], job.f) == [];
  }

  lemma HistoryAsksNothing(w: World, s: State, answered: bool)
    requires s.job.Busy? && w.isHistory(s.job.f)
    ensures !Enabled(w, s, Batch(answered))
  {
    if Indexing(s.job) {
      HistoryYieldsNothing(w, s.job.f, s.job.task.content);
    }
  }

  lemma HistoryRegister(w: World, s: State, ids: seq<ChunkId>)
    requires Lawful(w) && Invariant(w, s) && HistoryHolds(w, s) && Enabled(w, s, RegisterPoints(ids))
    requires w.isHistory(s.job.f)
    ensures var s' := Apply(w, s, RegisterPoints(ids));
            NoGraphRows(ViewOf(s', s.job.f)) && NothingFailed(s'.job)
  {
    RegisterPointsKeeps(w, s, ids);
  }

  /** The file's own rows, after a step of its job. */
  lemma HistoryRowsStep(w: World, s: State, a: Action)
    requires Lawful(w) && Invariant(w, s) && HistoryHolds(w, s) && Enabled(w, s, a)
    requires s.job.Busy? && w.isHistory(s.job.f) && !a.Edit?
    ensures var s' := Apply(w, s, a);
            NoGraphRows(ViewOf(s', s.job.f)) && (s'.job.Busy? ==> NothingFailed(s'.job))
  {
    match a
    case QdrantDelete(gone, acknowledged) => QdrantDeleteView(s, gone, acknowledged, w);
    case Commit => HistoryCommit(w, s);
    case RegisterPoints(ids) => HistoryRegister(w, s, ids);
    case QdrantUpsert(stored, acknowledged) => QdrantUpsertView(w, s, stored, acknowledged);
    case Batch(answered) => HistoryAsksNothing(w, s, answered);
    case Abandon =>
  }

  lemma HistoryLinked(w: World, s: State)
    requires Invariant(w, s) && HistoryHolds(w, s) && Enabled(w, s, Commit)
    requires w.isHistory(s.job.f) && s.job.phase.Linking?
    ensures NoGraphRows(ViewOf(Apply(w, s, Commit), s.job.f))
  {
    NothingToWrite(w, s.job, ViewOf(s, s.job.f));
    LinksCommitView(w, s);
  }

  lemma HistoryCommit(w: World, s: State)
    requires Lawful(w) && Invariant(w, s) && HistoryHolds(w, s) && Enabled(w, s, Commit)
    requires w.isHistory(s.job.f)
    ensures var s' := Apply(w, s, Commit);
            NoGraphRows(ViewOf(s', s.job.f)) && (s'.job.Busy? ==> NothingFailed(s'.job))
  {
    var f, s' := s.job.f, Apply(w, s, Commit);
    CommitKeeps(w, s);
    match s.job.phase
    case DropRows => DropRowsView(w, s);
    case Extracting(_, _, _, _) => NothingToWrite(w, s'.job, ViewOf(s', f));
    case Relating(_, _) => NothingToWrite(w, s'.job, ViewOf(s', f));
    case Linking(_, _) => HistoryLinked(w, s);
    case Stamp => StampCommitView(w, s);
  }

  /** Replies are cached only for the file whose batches are asked about. */
  lemma CacheStep(w: World, s: State, a: Action)
    requires Sound(s.db) && Enabled(w, s, a)
    requires forall k | k in s.db.cache :: !w.isHistory(k.doc)
    ensures forall k | k in Apply(w, s, a).db.cache :: !w.isHistory(k.doc)
  {
    if a.Commit? && s.job.phase.DropRows? {
      DropRowsEffect(w, s);
    }
  }

  lemma HistoryStep(w: World, s: State, a: Action)
    requires Lawful(w) && Invariant(w, s) && HistoryHolds(w, s) && Enabled(w, s, a)
    ensures HistoryHolds(w, Apply(w, s, a))
  {
    var s' := Apply(w, s, a);
    CacheStep(w, s, a);
    if s.job.Idle? || a.Edit? {
      SameViewsAfter(w, s, a);
    } else {
      var f := s.job.f;
      StepTouches(w, s, a);
      forall g | w.isHistory(g) ensures NoGraphRows(ViewOf(s', g)) {
        if g == f {
          HistoryRowsStep(w, s, a);
        } else {
          OtherViewsKept(s, s', f, g);
        }
      }
      if w.isHistory(f) {
        HistoryRowsStep(w, s, a);
      }
    }
  }

  /** What happens between jobs, and edits at any time, change no file's rows. */
  lemma SameViewsAfter(w: World, s: State, a: Action)
    requires Invariant(w, s) && Enabled(w, s, a) && (s.job.Idle? || a.Edit?)
    ensures forall f :: ViewOf(Apply(w, s, a), f) == ViewOf(s, f)
    ensures var s' := Apply(w, s, a);
            s'.job == s.job || (s'.job.Busy? && s'.job.phase.DropVectors?)
  {
    SameViews(w, s, Apply(w, s, a));
  }

  lemma StepTouches(w: World, s: State, a: Action)
    requires Lawful(w) && Invariant(w, s) && Enabled(w, s, a) && s.job.Busy? && !a.Edit?
    ensures OnlyTouches(s, Apply(w, s, a), s.job.f)
    ensures Apply(w, s, a).job.Busy? ==> Apply(w, s, a).job.f == s.job.f
  {
    match a
    case QdrantDelete(gone, acknowledged) => QdrantDeleteKeeps(w, s, gone, acknowledged);
    case Commit => CommitKeeps(w, s);
    case RegisterPoints(ids) => RegisterPointsKeeps(w, s, ids);
    case QdrantUpsert(stored, acknowledged) => QdrantUpsertKeeps(w, s, stored, acknowledged);
    case Batch(answered) => BatchKeeps(w, s, answered);
    case Abandon =>
  }

  lemma {:induction false} HistoryRun(w: World, disk: map<Path, string>, actions: seq<Action>)
    requires Lawful(w) && Run(w, Start(disk), actions).Some?
    ensures HistoryHolds(w, Run(w, Start(disk), actions).value)
  {
    if actions != [] {
      var init := actions[..|actions| - 1];
      HistoryRun(w, disk, init);
      StartHolds(w, disk);
      RunKeeps(w, Start(disk), init);
      HistoryStep(w, Run(w, Start(disk), init).value, actions[|actions| - 1]);
    }
  }

  /**
   * Git history documents are embedded but never extracted: whatever ran before, no mention,
   * relationship, link or cached reply belongs to one.
   */
  lemma HistoryIsNeverExtracted(w: World, s: State)
    requires Lawful(w) && Reachable(w, s)
    ensures forall k | k in s.db.mentions :: !w.isHistory(k.doc)
    ensures forall k | k in s.db.relationships :: !w.isHistory(k.doc)
    ensures forall l | l in s.db.links :: l.chunk in s.db.chunks && !w.isHistory(s.db.chunks[l.chunk].doc)
    ensures forall k | k in s.db.cache :: !w.isHistory(k.doc)
  {
    var disk :| Reaches(w, Start(disk), s);
    var actions :| Run(w, Start(disk), actions) == Some(s);
    HistoryRun(w, disk, actions);
    ReachableHolds(w, s);
    forall k | k in s.db.mentions ensures !w.isHistory(k.doc) {
      assert k in MentionsBy(s.db.mentions, k.doc);
      assert ViewOf(s, k.doc).rows.mentions == MentionsBy(s.db.mentions, k.doc);
    }
    forall k | k in s.db.relationships ensures !w.isHistory(k.doc) {
      assert k in RelationshipsBy(s.db.relationships, k.doc);
      assert ViewOf(s, k.doc).rows.relationships == RelationshipsBy(s.db.relationships, k.doc);
    }
    forall f | w.isHistory(f) ensures forall l | l in s.db.links :: s.db.chunks[l.chunk].doc != f {
      NoLinksOf(s, f);
    }
  }

  lemma NoLinksOf(s: State, f: Path)
    requires NoGraphRows(ViewOf(s, f)) && Sound(s.db)
    ensures forall l | l in s.db.links :: l.chunk in s.db.chunks && s.db.chunks[l.chunk].doc != f
  {
    LinksEmpty(s, f);
    assert forall l | l in s.db.links && s.db.chunks[l.chunk].doc == f :: l in LinksBy(s.db, f);
  }

  // ---------------------------------------------------------------- all other current files

  /** One mention for each entity found, with its type and description, and none besides. */
  ghost predicate MentionsHeld(m: map<MentionKey, Mention>, f: Path, r: Result)
  {
    && (forall k | k in m && k.doc == f :: exists i | 0 <= i < |r.entities| :: r.entities[i].id == k.entity)
    && forall i: nat | i < |r.entities| ::
         var k := MentionKey(r.entities[i].id, f);
         k in m && m[k] == Mention(r.entities[i].etype, r.entities[i].description)
  }

  predicate IsRow(slug: string -> EntityId, found: RawRelationship, k: RelKey)
  {
    slug(found.source) == k.source && slug(found.target) == k.target && found.relation == k.name
  }

  /** Where the relationship occurs among those found. */
  function Occurrences(slug: string -> EntityId, found: seq<RawRelationship>, k: RelKey): set<nat>
  {
    set i: nat | i < |found| && IsRow(slug, found[i], k)
  }

  /** Each relationship found weighs as much as it occurs, and there is none besides. */
  ghost predicate RelationshipsHeld(slug: string -> EntityId, rs: map<RelKey, real>, f: Path, r: Result)
  {
    forall k: RelKey | k.doc == f ::
      && (k in rs <==> Occurrences(slug, r.relationships, k) != {})
      && (k in rs ==> rs[k] == |Occurrences(slug, r.relationships, k)| as real)
  }

  /** The pieces have one chunk each. */
  ghost predicate ChunksHeld(chunks: map<ChunkId, Chunk>, f: Path, n: nat)
  {
    && (forall c | c in chunks && chunks[c].doc == f :: chunks[c].index < n)
    && (forall i: nat | i < n :: exists c :: c in chunks && chunks[c] == Chunk(f, i))
    && forall c, d | c in chunks && d in chunks && chunks[c].doc == f && chunks[c] == chunks[d] :: c == d
  }

  /** A chunk is linked to the entities found whose name, of three characters or more, occurs in its piece. */
  ghost predicate LinksHeld(w: World, t: Tables, f: Path, pieces: seq<Piece>, r: Result)
  {
    forall c, e | c in t.chunks && t.chunks[c].doc == f ::
      && t.chunks[c].index < |pieces|
      && (Link(c, e) in t.links <==>
            exists j | 0 <= j < |r.entities| ::
              r.entities[j].id == e && |r.entities[j].name| >= 3
              && w.occursIn(r.entities[j].name, pieces[t.chunks[c].index].text))
  }

  lemma OccurrencesSnoc(slug: string -> EntityId, init: seq<RawRelationship>, last: RawRelationship, k: RelKey)
    ensures |Occurrences(slug, init + [last], k)|
            == |Occurrences(slug, init, k)| + if IsRow(slug, last, k) then 1 else 0
  {
    var all, n := init + [last], |init|;
    var before, after := Occurrences(slug, init, k), Occurrences(slug, all, k);
    forall i: nat ensures i in after <==> i in before || (i == n && IsRow(slug, last, k)) {
      assert i < n ==> all[i] == init[i];
    }
    if IsRow(slug, last, k) {
      assert after == before + {n};
    } else {
      assert after == before;
    }
  }

  lemma {:induction false} CountIsOccurrences(w: World, found: seq<RawRelationship>, f: Path, k: RelKey)
    requires k.doc == f
    ensures multiset(RelRows(w, found, f))[k] == |Occurrences(w.model.slug, found, k)|
  {
    if found == [] {
      assert Occurrences(w.model.slug, found, k) == {} && RelRows(w, found, f) == [];
    } else {
      var n := |found| - 1;
      var init, row := found[..n], RelRows(w, found, f)[n];
      assert found == init + [found[n]];
      assert RelRows(w, found, f) == RelRows(w, init, f) + [row];
      CountIsOccurrences(w, init, f, k);
      OccurrencesSnoc(w.model.slug, init, found[n], k);
    }
  }

  lemma RelationshipsFromRows(w: World, rs: map<RelKey, real>, f: Path, r: Result)
    requires RelationshipsBy(rs, f) == UpsertRelationships(map[], RelRows(w, r.relationships, f))
    ensures RelationshipsHeld(w.model.slug, rs, f, r)
  {
    var rows := RelRows(w, r.relationships, f);
    forall k: RelKey | k.doc == f
      ensures k in rs <==> Occurrences(w.model.slug, r.relationships, k) != {}
      ensures k in rs ==> rs[k] == |Occurrences(w.model.slug, r.relationships, k)| as real
    {
      WeightIsCount(map[], rows, k);
      CountIsOccurrences(w, r.relationships, f, k);
      assert k in rs <==> k in RelationshipsBy(rs, f);
      assert k in rows <==> multiset(rows)[k] > 0;
    }
  }

  lemma MentionsFromRows(m: map<MentionKey, Mention>, f: Path, r: Result)
    requires MentionsBy(m, f) == UpsertMentions(map[], r.entities, f)
    requires forall i, j | 0 <= i < j < |r.entities| :: r.entities[i].id != r.entities[j].id
    ensures MentionsHeld(m, f, r)
  {
    UpsertMentionsEffect(map[], r.entities, f);
    assert forall k | k in m && k.doc == f :: k in MentionsBy(m, f);
    forall i: nat | i < |r.entities|
      ensures var k := MentionKey(r.entities[i].id, f);
              k in m && m[k] == Mention(r.entities[i].etype, r.entities[i].description)
    {
      LastRowWins(map[], r.entities, f, i);
      assert MentionKey(r.entities[i].id, f) in MentionsBy(m, f);
    }
  }

  lemma LinkByNumber(t: Tables, f: Path, c: ChunkId, e: EntityId)
    requires c in t.chunks && t.chunks[c].doc == f && OnePerNumber(ChunksBy(t.chunks, f))
    ensures Link(c, e) in t.links <==> (t.chunks[c].index, e) in RowsOf(t, f).links
  {
    var own := ChunksBy(t.chunks, f);
    if Link(c, e) in t.links {
      assert Link(c, e) in LinksBy(t, f);
    }
    if (t.chunks[c].index, e) in RowsOf(t, f).links {
      var l :| l in LinksBy(t, f) && l.chunk in own && (own[l.chunk].index, l.entity) == (t.chunks[c].index, e);
      assert c in own && own[c].index == own[l.chunk].index;
    }
  }

  lemma LinksFromRows(w: World, t: Tables, f: Path, pieces: seq<Piece>, r: Result)
    requires OnePerNumber(ChunksBy(t.chunks, f)) && ChunksHeld(t.chunks, f, |pieces|)
    requires RowsOf(t, f).links == Matches(w, pieces, r.entities)
    ensures LinksHeld(w, t, f, pieces, r)
  {
    forall c, e | c in t.chunks && t.chunks[c].doc == f
      ensures Link(c, e) in t.links <==>
                exists j | 0 <= j < |r.entities| ::
                  r.entities[j].id == e && |r.entities[j].name| >= 3
                  && w.occursIn(r.entities[j].name, pieces[t.chunks[c].index].text)
    {
      LinkByNumber(t, f, c, e);
    }
  }

  lemma ChunksFromRows(t: Tables, f: Path, n: nat)
    requires RowsOf(t, f).numbers == Upto(n) && OnePerNumber(ChunksBy(t.chunks, f))
    ensures ChunksHeld(t.chunks, f, n)
  {
    var own := ChunksBy(t.chunks, f);
    forall c | c in t.chunks && t.chunks[c].doc == f ensures t.chunks[c].index < n {
      assert c in own && own[c].index in NumbersIn(own);
    }
    forall i: nat | i < n ensures exists c :: c in t.chunks && t.chunks[c] == Chunk(f, i) {
      assert i in NumbersIn(own);
      var c :| c in own && own[c].index == i;
      assert t.chunks[c] == Chunk(f, i);
    }
    forall c, d | c in t.chunks && d in t.chunks && t.chunks[c].doc == f && t.chunks[c] == t.chunks[d] ensures c == d {
      assert c in own && d in own;
    }
  }

  /** A current file, history or not, has one chunk for each of its pieces. */
  lemma CurrentChunks(w: World, s: State, f: Path)
    requires Lawful(w) && Reachable(w, s) && Current(w, s, f)
    ensures ChunksHeld(s.db.chunks, f, |w.chunk(f, s.disk[f])|)
  {
    ReachableHolds(w, s);
    CurrentRows(w, s, f);
    ChunksFromRows(s.db, f, |w.chunk(f, s.disk[f])|);
  }

  lemma CurrentGraphRows(w: World, s: State, f: Path)
    requires Lawful(w) && Reachable(w, s) && Current(w, s, f) && !w.isHistory(f)
    ensures var pieces := w.chunk(f, s.disk[f]);
            var r := Extract(w.model, Texts(pieces));
      && MentionsBy(s.db.mentions, f) == UpsertMentions(map[], r.entities, f)
      && RelationshipsBy(s.db.relationships, f) == UpsertRelationships(map[], RelRows(w, r.relationships, f))
      && RowsOf(s.db, f).links == Matches(w, pieces, r.entities) && OnePerNumber(ChunksBy(s.db.chunks, f))
  {
    ReachableHolds(w, s);
    CurrentRows(w, s, f);
  }

  /**
   * Of any other current file the tables hold what extraction yields from all of its pieces,
   * every batch answered: its mentions, its relationships weighed by how often the replies give
   * them, and the links of its chunks.
   */
  lemma CurrentIsExtracted(w: World, s: State, f: Path) returns (texts: seq<string>, answered: seq<bool>, r: Result)
    requires Lawful(w) && Reachable(w, s) && Current(w, s, f) && !w.isHistory(f)
    ensures var pieces := w.chunk(f, s.disk[f]);
            |texts| == |pieces| && forall i | 0 <= i < |pieces| :: texts[i] == pieces[i].text
    ensures Yields(w.model, texts, answered, r) && false !in answered
    ensures MentionsHeld(s.db.mentions, f, r) && RelationshipsHeld(w.model.slug, s.db.relationships, f, r)
    ensures LinksHeld(w, s.db, f, w.chunk(f, s.disk[f]), r)
  {
    var pieces := w.chunk(f, s.disk[f]);
    texts := Texts(pieces);
    answered, r := AllTrue(|Batches(w.model.batchTokens, texts)|), Extract(w.model, texts);
    ExtractMeaning(w.model, texts);
    CurrentChunks(w, s, f);
    CurrentGraphRows(w, s, f);
    MentionsFromRows(s.db.mentions, f, r);
    RelationshipsFromRows(w, s.db.relationships, f, r);
    LinksFromRows(w, s.db, f, pieces, r);
  }
}
