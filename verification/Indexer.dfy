/**
 * The indexer as it runs: methods that drive the two stores call by call.  A ghost log names the
 * protocol action behind every call, and `Valid` says that the stores are where that run of the
 * protocol leads; so everything proved of reachable states holds after each of these calls.
 */
module Indexers {
  import opened Options
  import opened Records
  import opened Integrity
  import opened Extraction
  import opened Extractor
  import opened Stores
  import opened Ingestion
  import opened IngestionSafety
  import opened IngestionTheorems
  import opened IngestionRecovery

  /** The vector store: a call may apply to some of its points and still fail. */
  class Qdrant {
    var points: map<ChunkId, Point>
    const reliable: bool

    constructor (reliable: bool)
      ensures points == map[] && this.reliable == reliable
    {
      this.reliable := reliable;
      points := map[];
    }

    method Delete(ids: set<ChunkId>) returns (ok: bool, ghost gone: set<ChunkId>)
      modifies this
      ensures gone <= ids && (ok ==> gone == ids) && points == old(points) - gone
      ensures reliable ==> ok
    {
      ok := *;
      ok := ok || reliable;
      assert {} <= ids;
      var part: set<ChunkId> :| part <= ids;
      gone := if ok then ids else part;
      points := points - (if ok then ids else part);
    }

    method Upsert(added: map<ChunkId, Point>) returns (ok: bool, ghost stored: set<ChunkId>)
      modifies this
      ensures stored <= added.Keys && (ok ==> stored == added.Keys)
      ensures points == old(points) + (map c | c in added && c in stored :: added[c])
      ensures reliable ==> ok
    {
      ok := *;
      ok := ok || reliable;
      assert {} <= added.Keys;
      var part: set<ChunkId> :| part <= added.Keys;
      stored := if ok then added.Keys else part;
      points := points + (if ok then added else map c | c in added && c in part :: added[c]);
      assert ok ==> added == map c | c in added && c in stored :: added[c];
    }
  }

  /** The longer log adds nothing but steps of jobs for f. */
  predicate WorkedOn(log: seq<Action>, longer: seq<Action>, f: Path)
  {
    log <= longer && forall i | |log| <= i < |longer| :: IsFor(longer[i], f)
  }

  /** About to extract from the file's first batch. */
  predicate AtFirstBatch(w: World, s: State)
  {
    Indexing(s.job) && s.job.phase.Extracting? && s.job.phase.done == 0 && s.job.phase.raw == NOTHING
    && !s.job.phase.failed
  }

  /** The state after answering or failing the first batches of the file. */
  function AfterAnswers(w: World, before: State, answered: seq<bool>): State
    requires AtFirstBatch(w, before) && |answered| <= |BatchesOf(w, before.job.f, before.job.task.content)|
  {
    var j := before.job;
    var p := AfterBatches(w.model, j.f, before.db.cache, BatchesOf(w, j.f, j.task.content), answered);
    before.(db := before.db.(cache := p.cache),
            job := j.(phase := Extracting(j.phase.ids, |answered|, p.raw, p.failed)))
  }

  lemma BatchAdvances(w: World, before: State, answered: seq<bool>, n: nat)
    requires AtFirstBatch(w, before) && 0 < n <= |answered| <= |BatchesOf(w, before.job.f, before.job.task.content)|
    ensures Enabled(w, AfterAnswers(w, before, answered[..n - 1]), Batch(answered[n - 1]))
    ensures Apply(w, AfterAnswers(w, before, answered[..n - 1]), Batch(answered[n - 1]))
            == AfterAnswers(w, before, answered[..n])
  {
    assert answered[..n][..n - 1] == answered[..n - 1];
  }

  /** Between the two states nothing about g has changed, in either store. */
  predicate Spared(w: World, s: State, s': State, g: Path)
  {
    && ViewOf(s', g) == ViewOf(s, g)
    && (g in Tracked(s) <==> g in Tracked(s')) && (Current(w, s, g) <==> Current(w, s', g))
  }

  /** The file is current, and still lacks vectors only if it did before and was taken for current then. */
  predicate HealedIn(w: World, s: State, s': State, f: Path)
  {
    Current(w, s', f) && (f in s'.torn <==> f in s.torn && Current(w, s, f))
  }

  /** One more file healed by a job that spares every other file heals one file more. */
  lemma HealedStep(w: World, s: State, before: State, s': State, earlier: seq<Path>, f: Path)
    requires forall g | g in earlier :: HealedIn(w, s, before, g)
    requires f !in earlier ==> Spared(w, s, before, f)
    requires HealedIn(w, before, s', f) && forall g | g != f :: Spared(w, before, s', g)
    ensures forall g | g in earlier + [f] :: HealedIn(w, s, s', g)
  {
    forall g | g in earlier + [f] ensures HealedIn(w, s, s', g) {
      if g != f {
        assert Spared(w, before, s', g) && ViewOf(s', g).torn == ViewOf(before, g).torn;
      } else if f !in earlier {
        assert ViewOf(before, f).torn == ViewOf(s, f).torn;
      }
    }
  }

  lemma SparedThenHealed(w: World, s: State, before: State, s': State, files: seq<Path>)
    requires forall f | f in files :: Spared(w, s, before, f)
    requires forall i | 0 <= i < |files| :: HealedIn(w, before, s', files[i])
    ensures forall f | f in files :: HealedIn(w, s, s', f)
  {
    forall f | f in files ensures HealedIn(w, s, s', f) {
      assert Spared(w, s, before, f) && ViewOf(before, f).torn == ViewOf(s, f).torn;
    }
  }

  /** Purging spares what is listed or out of sight, indexing what is unlisted or current. */
  lemma SparedTwice(w: World, s: State, before: State, s': State, files: seq<Path>, unscanned: Path -> bool)
    requires forall g | g in files || unscanned(g) :: Spared(w, s, before, g)
    requires forall g | g !in files || Current(w, before, g) :: Spared(w, before, s', g)
    ensures forall g | if g in files then Current(w, s, g) else unscanned(g) :: Spared(w, s, s', g)
    ensures (forall p | p in Tracked(before) :: p in files || unscanned(p)) ==>
              forall p | p in Tracked(s') :: p in files || unscanned(p)
  {
    forall g | if g in files then Current(w, s, g) else unscanned(g) ensures Spared(w, s, s', g) {
      assert Spared(w, s, before, g) && Spared(w, before, s', g);
    }
    if forall p | p in Tracked(before) :: p in files || unscanned(p) {
      forall p | p in Tracked(s') && p !in files ensures unscanned(p) {
        assert Spared(w, before, s', p);
      }
    }
  }

  lemma RunLonger(w: World, s: State, log: seq<Action>, before: State, a: Action)
    requires Run(w, s, log) == Some(before) && Enabled(w, before, a)
    ensures Run(w, s, log + [a]) == Some(Apply(w, before, a))
  {
    assert (log + [a])[..|log + [a]| - 1] == log;
  }

  lemma PurgedIsUntracked(t: Tables, f: Path)
    ensures f !in AllPaths(PurgeFile(t, f))
  {
    DeleteFileDataParts(t, f);
  }

  datatype Outcome = Indexed | Skipped | Failed

  class Indexer {
    const w: World
    const store: GraphStore
    const client: Qdrant
    const calm: bool
    var disk: map<Path, string>
    ghost const origin: State
    ghost var log: seq<Action>
    ghost var job: Job
    ghost var torn: set<Path>

    ghost function Now(): State
      reads this, store, client
    {
      State(store.Db(), client.points, disk, job, torn)
    }

    ghost predicate Valid()
      reads this, store, client
    {
      Lawful(w) && Reachable(w, origin) && Run(w, origin, log) == Some(Now())
    }

    /** Nothing fails: neither store, no reading or embedding of a file, no request to the model. */
    predicate Faultless()
    {
      calm && store.reliable && client.reliable
    }

    /** A process started over the stores an earlier one left, in any reachable state without a job. */
    constructor (w: World, store: GraphStore, client: Qdrant, calm: bool, disk: map<Path, string>,
                 ghost torn: set<Path>)
      requires Lawful(w) && Reachable(w, State(store.Db(), client.points, disk, Idle, torn))
      ensures Valid() && job == Idle && log == []
      ensures this.w == w && this.store == store && this.client == client && this.calm == calm
      ensures this.disk == disk && this.torn == torn
    {
      this.w, this.store, this.client, this.calm, this.disk := w, store, client, calm, disk;
      this.log, this.job, this.torn := [], Idle, torn;
      this.origin := State(store.Db(), client.points, disk, Idle, torn);
    }

    /** The stores have just made the move a, so the log now ends with it. */
    ghost method Log(before: State, a: Action)
      requires Lawful(w) && Reachable(w, origin) && Run(w, origin, log) == Some(before) && Enabled(w, before, a)
      requires var after := Apply(w, before, a);
               after.db == store.Db() && after.vectors == client.points && after.disk == disk
      modifies this`log, this`job, this`torn
      ensures Valid() && Now() == Apply(w, before, a) && log == old(log) + [a]
    {
      RunLonger(w, origin, log, before, a);
      job, torn := Apply(w, before, a).job, Apply(w, before, a).torn;
      log := log + [a];
    }

    lemma NowHolds()
      requires Valid()
      ensures Invariant(w, Now())
    {
      ReachableHolds(w, origin);
      RunKeeps(w, origin, log);
    }

    /** A file about to be stamped has every vector of its chunks. */
    lemma WholeAtStamp()
      requires Valid() && Indexing(job) && job.phase.Stamp?
      ensures job.f !in torn
    {
      NowHolds();
    }

    /** Delete the vectors of the file's registered chunks, if it has any. */
    method DeleteVectors(f: Path) returns (ok: bool)
      requires Valid() && job.Busy? && job.f == f && job.phase.DropVectors?
      modifies this`log, this`job, this`torn, client
      ensures Valid() && store.Db() == old(store.Db())
      ensures job == if ok then old(job).(phase := DropRows) else Idle
      ensures WorkedOn(old(log), log, f)
      ensures client.reliable ==> ok
    {
      ghost var before := Now();
      var priorIds := store.GetChunksForFile(f);
      ghost var gone := {};
      ok := true;
      if priorIds != {} {
        ok, gone := client.Delete(priorIds);
      } else {
        assert client.points == before.vectors - gone;
      }
      Log(before, QdrantDelete(gone, ok));
    }

    /** Vectors first, rows and fingerprint second, each in a call of its own. */
    method CleanupChangedFile(f: Path) returns (ok: bool)
      requires Valid() && Indexing(job) && job.f == f && job.phase.DropVectors?
      modifies this`log, this`job, this`torn, client, store
      ensures Valid()
      ensures ok ==> job == old(job).(phase := if Pieces(w, f, old(job).task.content) == [] then Stamp else Register)
      ensures !ok ==> job == Idle
      ensures WorkedOn(old(log), log, f)
      ensures Faultless() ==> ok
    {
      ok := DeleteVectors(f);
      if ok {
        ghost var before := Now();
        ok := store.DeleteFileData(f);
        Log(before, if ok then Commit else Abandon);
      }
    }

    /** Delete every row of a file, its cached extractions included. */
    method PurgeRows(f: Path) returns (ok: bool)
      requires Valid() && job == Busy(f, Purge, DropRows)
      modifies this`log, this`job, this`torn, store
      ensures Valid() && job.Idle?
      ensures WorkedOn(old(log), log, f)
      ensures store.reliable ==> ok
      ensures ok ==> f !in Tracked(Now())
    {
      ghost var before := Now();
      ok := store.PurgeFile(f);
      Log(before, if ok then Commit else Abandon);
      PurgedIsUntracked(before.db, f);
    }

    /** A file that is gone from the disk. */
    method PurgeStale(f: Path) returns (ok: bool)
      requires Valid() && job.Idle? && f in store.ListAllPaths()
      modifies this`log, this`job, this`torn, client, store
      ensures Valid() && job.Idle?
      ensures WorkedOn(old(log), log, f)
      ensures Faultless() ==> ok
      ensures ok ==> f !in Tracked(Now())
    {
      Log(Now(), BeginPurge(f));
      ok := DeleteVectors(f);
      if ok {
        ok := PurgeRows(f);
      }
    }

    /** Extraction leaves the log where answering or failing each batch leads. */
    ghost method LogBatches(before: State, answered: seq<bool>, n: nat)
      requires Lawful(w) && Reachable(w, origin) && Run(w, origin, log) == Some(before)
      requires AtFirstBatch(w, before) && n <= |answered| == |BatchesOf(w, before.job.f, before.job.task.content)|
      requires job == before.job && torn == before.torn
      modifies this`log
      ensures Run(w, origin, log) == Some(AfterAnswers(w, before, answered[..n]))
      ensures WorkedOn(old(log), log, before.job.f)
    {
      if n > 0 {
        LogBatches(before, answered, n - 1);
        BatchAdvances(w, before, answered, n);
        RunLonger(w, origin, log, AfterAnswers(w, before, answered[..n - 1]), Batch(answered[n - 1]));
        log := log + [Batch(answered[n - 1])];
      }
    }

    method MatchEntityChunks(pieces: seq<Piece>, ids: seq<ChunkId>, entities: seq<EntityRow>) returns (pairs: seq<Link>)
      requires |ids| == |pieces|
      ensures (set l | l in pairs) == LinksFor(w, ids, pieces, entities)
      ensures forall l :: l in pairs <==>
                exists i, k | 0 <= i < |pieces| && 0 <= k < |entities| ::
                  |entities[k].name| >= 3 && w.occursIn(entities[k].name, pieces[i].text)
                  && l == Link(ids[i], entities[k].id)
    {
      pairs := [];
      for j := 0 to |entities|
        invariant forall l :: l in pairs <==>
                    exists i, k | 0 <= i < |pieces| && 0 <= k < j ::
                      Names(w, entities[k], pieces[i]) && l == Link(ids[i], entities[k].id)
      {
        if |entities[j].name| >= MIN_ENTITY_NAME_CHARS {
          for i := 0 to |pieces|
            invariant forall l :: l in pairs <==>
                        exists n, k | 0 <= n < |pieces| && 0 <= k <= j ::
                          (k < j || n < i) && Names(w, entities[k], pieces[n]) && l == Link(ids[n], entities[k].id)
          {
            if w.occursIn(entities[j].name, pieces[i].text) {
              pairs := pairs + [Link(ids[i], entities[j].id)];
            }
          }
        }
      }
      PairsAreLinks(pairs, pieces, ids, entities);
      PairsMean(pairs, pieces, ids, entities);
    }

    lemma PairsMean(pairs: seq<Link>, pieces: seq<Piece>, ids: seq<ChunkId>, entities: seq<EntityRow>)
      requires |ids| == |pieces|
      requires forall l :: l in pairs <==>
                 exists i, k | 0 <= i < |pieces| && 0 <= k < |entities| ::
                   Names(w, entities[k], pieces[i]) && l == Link(ids[i], entities[k].id)
      ensures forall l :: l in pairs <==>
                exists i, k | 0 <= i < |pieces| && 0 <= k < |entities| ::
                  |entities[k].name| >= 3 && w.occursIn(entities[k].name, pieces[i].text)
                  && l == Link(ids[i], entities[k].id)
    {
      forall i, k | 0 <= i < |pieces| && 0 <= k < |entities|
        ensures Names(w, entities[k], pieces[i]) <==>
                  |entities[k].name| >= 3 && w.occursIn(entities[k].name, pieces[i].text)
      {
      }
    }

    lemma PairsAreLinks(pairs: seq<Link>, pieces: seq<Piece>, ids: seq<ChunkId>, entities: seq<EntityRow>)
      requires |ids| == |pieces|
      requires forall l :: l in pairs <==>
                 exists i, k | 0 <= i < |pieces| && 0 <= k < |entities| ::
                   Names(w, entities[k], pieces[i]) && l == Link(ids[i], entities[k].id)
      ensures (set l | l in pairs) == LinksFor(w, ids, pieces, entities)
    {
      var matches := Matches(w, pieces, entities);
      forall l ensures l in pairs <==> l in LinksFor(w, ids, pieces, entities) {
        if l in pairs {
          var i, k :| 0 <= i < |pieces| && 0 <= k < |entities| && Names(w, entities[k], pieces[i])
                      && l == Link(ids[i], entities[k].id);
          assert (i, entities[k].id) in matches;
        }
        if l in LinksFor(w, ids, pieces, entities) {
          var m :| m in matches && m.0 < |ids| && l == Link(ids[m.0], m.1);
        }
      }
    }

    method RegisterIds(f: Path, ids: seq<ChunkId>) returns (ok: bool)
      requires Valid() && Indexing(job) && job.f == f && job.phase.Register?
      requires |ids| == |Pieces(w, f, job.task.content)| && Distinct(ids)
               && forall i | 0 <= i < |ids| :: ids[i] !in store.chunks
      modifies this`log, this`job, this`torn, store
      ensures Valid()
      ensures job == if ok then old(job).(phase := Phase.Upsert(ids)) else Idle
      ensures WorkedOn(old(log), log, f)
      ensures store.reliable ==> ok
    {
      ghost var before := Now();
      ok := store.RegisterChunks(ids, f);
      Log(before, if ok then RegisterPoints(ids) else Abandon);
    }

    method StoreVectors(f: Path, pieces: seq<Piece>, ids: seq<ChunkId>) returns (ok: bool)
      requires Valid() && Indexing(job) && job.f == f && job.phase == Phase.Upsert(ids)
      requires pieces == Pieces(w, f, job.task.content) && |ids| == |pieces| && Distinct(ids)
      modifies this`log, this`job, this`torn, client
      ensures Valid()
      ensures job == if ok then old(job).(phase := Extracting(ids, 0, NOTHING, false)) else Idle
      ensures WorkedOn(old(log), log, f)
      ensures client.reliable ==> ok
    {
      ghost var before := Now();
      PointsForEffect(ids, pieces, f);
      ghost var stored;
      ok, stored := client.Upsert(PointsFor(ids, pieces, f));
      Log(before, QdrantUpsert(stored, ok));
    }

    /** Chunk ids are registered before their vectors are stored. */
    method StorePieces(f: Path, pieces: seq<Piece>, ids: seq<ChunkId>) returns (ok: bool)
      requires Valid() && Indexing(job) && job.f == f && job.phase.Register?
      requires pieces == Pieces(w, f, job.task.content)
      requires |ids| == |pieces| && Distinct(ids) && forall i | 0 <= i < |ids| :: ids[i] !in store.chunks
      modifies this`log, this`job, this`torn, client, store
      ensures Valid()
      ensures job == if ok then old(job).(phase := Extracting(ids, 0, NOTHING, false)) else Idle
      ensures WorkedOn(old(log), log, f)
      ensures Faultless() ==> ok
    {
      ok := RegisterIds(f, ids);
      if ok {
        ok := StoreVectors(f, pieces, ids);
      }
    }

    method WriteEntities(f: Path, ids: seq<ChunkId>, result: Result) returns (ok: bool)
      requires Valid() && Indexing(job) && job.f == f
      requires job.phase.Extracting? && job.phase.ids == ids && job.phase.done == |BatchesOf(w, f, job.task.content)|
      requires result == Normalize(w.model.slug, job.phase.raw, job.phase.failed)
      modifies this`log, this`job, this`torn, store
      ensures Valid()
      ensures job == if ok then old(job).(phase := Relating(ids, result)) else Idle
      ensures WorkedOn(old(log), log, f)
      ensures store.reliable ==> ok
    {
      ghost var before := Now();
      NormalizedIds(w.model.slug, job.phase.raw, job.phase.failed);
      var slugs;
      ok, slugs := store.UpsertEntities(result.entities, f);
      Log(before, if ok then Commit else Abandon);
    }

    method WriteRelationships(f: Path, ids: seq<ChunkId>, result: Result) returns (ok: bool)
      requires Valid() && Indexing(job) && job.f == f && job.phase == Relating(ids, result)
      modifies this`log, this`job, this`torn, store
      ensures Valid()
      ensures job == if ok then old(job).(phase := Linking(ids, result)) else Idle
      ensures WorkedOn(old(log), log, f)
      ensures store.reliable ==> ok
    {
      ghost var before := Now();
      ok := store.UpsertRelationships(RelRows(w, result.relationships, f));
      Log(before, if ok then Commit else Abandon);
    }

    method WriteLinks(f: Path, pieces: seq<Piece>, ids: seq<ChunkId>, result: Result) returns (ok: bool)
      requires Valid() && Indexing(job) && job.f == f && job.phase == Linking(ids, result)
      requires pieces == Pieces(w, f, job.task.content) && |ids| == |pieces|
      modifies this`log, this`job, this`torn, store
      ensures Valid()
      ensures job == if ok && !result.hadFailure then old(job).(phase := Stamp) else Idle
      ensures WorkedOn(old(log), log, f)
      ensures store.reliable ==> ok
    {
      ghost var before := Now();
      var pairs := MatchEntityChunks(pieces, ids, result.entities);
      ok := store.LinkChunks(pairs);
      Log(before, if ok then Commit else Abandon);
    }

    /** Entities, then relationships, then links: three transactions. */
    method WriteGraph(f: Path, pieces: seq<Piece>, ids: seq<ChunkId>, result: Result) returns (ok: bool)
      requires Valid() && Indexing(job) && job.f == f && pieces == Pieces(w, f, job.task.content) && |ids| == |pieces|
      requires job.phase.Extracting? && job.phase.ids == ids && job.phase.done == |BatchesOf(w, f, job.task.content)|
      requires result == Normalize(w.model.slug, job.phase.raw, job.phase.failed)
      modifies this`log, this`job, this`torn, store
      ensures Valid()
      ensures job == if ok && !result.hadFailure then old(job).(phase := Stamp) else Idle
      ensures WorkedOn(old(log), log, f)
      ensures store.reliable ==> ok
    {
      ok := WriteEntities(f, ids, result);
      if ok {
        ok := WriteRelationships(f, ids, result);
      }
      if ok {
        ok := WriteLinks(f, pieces, ids, result);
      }
    }

    /** Chunk ids, vectors, extraction, graph rows, fingerprint: each written by a call of its own, in this order. */
    method WriteIndexData(f: Path, pieces: seq<Piece>, ids: seq<ChunkId>, currentHash: string)
      returns (ok: bool, hadFailure: bool)
      requires Valid() && Indexing(job) && job.f == f && job.phase.Register?
      requires pieces == Pieces(w, f, job.task.content) && currentHash == w.hash(job.task.content)
      requires |ids| == |pieces| && Distinct(ids) && forall i | 0 <= i < |ids| :: ids[i] !in store.chunks
      modifies this`log, this`job, this`torn, client, store
      ensures Valid() && job == Idle
      ensures ok && !hadFailure ==> f in store.fingerprints && store.fingerprints[f] == currentHash && f !in torn
      ensures WorkedOn(old(log), log, f)
      ensures Faultless() ==> ok && !hadFailure
    {
      hadFailure := false;
      ok := StorePieces(f, pieces, ids);
      if ok {
        var result := ExtractFor(f, pieces);
        hadFailure := result.hadFailure;
        ok := WriteGraph(f, pieces, ids, result);
      }
      if ok && !hadFailure {
        ok := WriteFingerprint(f, currentHash);
      }
    }

    /** The last write: it makes the file current, and the file has all its vectors. */
    method WriteFingerprint(f: Path, currentHash: string) returns (ok: bool)
      requires Valid() && Indexing(job) && job.f == f && job.phase.Stamp? && currentHash == w.hash(job.task.content)
      modifies this`log, this`job, this`torn, store
      ensures Valid() && job == Idle
      ensures ok ==> f in store.fingerprints && store.fingerprints[f] == currentHash && f !in torn
      ensures WorkedOn(old(log), log, f)
      ensures store.reliable ==> ok
    {
      ghost var before := Now();
      WholeAtStamp();
      ok := store.UpsertHash(f, currentHash);
      Log(before, if ok then Commit else Abandon);
    }

    /** Extract from the file's chunks, unless it is a git history document. */
    method ExtractFor(f: Path, pieces: seq<Piece>) returns (result: Result)
      requires Valid() && Indexing(job) && job.f == f && pieces == Pieces(w, f, job.task.content)
      requires job.phase.Extracting? && job.phase.done == 0 && job.phase.raw == NOTHING && !job.phase.failed
      modifies this`log, this`job, store
      ensures Valid()
      ensures Indexing(job) && job.f == f && job.task == old(job).task && job.phase.Extracting?
              && job.phase.ids == old(job).phase.ids
      ensures job.phase.done == |BatchesOf(w, f, job.task.content)|
      ensures result == Normalize(w.model.slug, job.phase.raw, job.phase.failed)
      ensures WorkedOn(old(log), log, f)
      ensures Faultless() ==> !result.hadFailure
    {
      ghost var before := Now();
      ghost var answered := [];
      if w.isHistory(f) {
        result := Result([], [], false);
        assert result.entities == Values(Normalized(w.model.slug, []));
      } else {
        result, answered := ExtractEntitiesForFile(w.model, calm, Texts(pieces), f, store);
      }
      ghost var n := |answered|;
      LogBatches(before, answered, n);
      assert answered[..n] == answered;
      ghost var p := AfterBatches(w.model, f, before.db.cache, BatchesOf(w, f, before.job.task.content), answered);
      job := job.(phase := Extracting(job.phase.ids, n, p.raw, p.failed));
    }

    /**
     * One file through the pipeline; `hadFailure` tells an indexed file whose extraction failed in
     * part.  Success makes the file whole again, unless it was already taken for current.  A file
     * that cannot be read, or whose pieces cannot be embedded, keeps what the stores hold of it.
     */
    method IndexFile(f: Path) returns (outcome: Outcome, hadFailure: bool, ghost read: bool, ghost embedded: bool)
      requires Valid() && job.Idle?
      modifies this`log, this`job, this`torn, client, store
      ensures Valid() && job.Idle?
      ensures outcome == Skipped || (outcome == Indexed && !hadFailure) ==>
                HealedIn(w, old(Now()), Now(), f)
      ensures Current(w, old(Now()), f) ==> outcome != Indexed && Now() == old(Now())
      ensures !read ==> outcome == Failed && Now() == old(Now())
      ensures read ==> f in disk
      ensures read && !embedded && w.chunk(f, disk[f]) != [] && !Current(w, old(Now()), f) ==>
                outcome == Failed && Now() == old(Now())
      ensures WorkedOn(old(log), log, f)
      ensures Faultless() && f in disk ==> !hadFailure
      ensures Faultless() && f in disk ==>
                outcome == if Current(w, old(Now()), f) || w.chunk(f, disk[f]) == [] then Skipped else Indexed
    {
      outcome, hadFailure, read, embedded := Failed, false, false, false;
      var readable: bool := *;
      if f !in disk || !(readable || calm) {
        return;
      }
      read := true;
      var currentHash := w.hash(disk[f]);
      if store.GetHash(f) == Some(currentHash) {
        outcome := Skipped;
        return;
      }
      var pieces := Pieces(w, f, disk[f]);
      var vectors: bool := *;
      if pieces != [] && !(vectors || calm) {
        return;
      }
      embedded := true;
      Log(Now(), BeginIndex(f));
      outcome, hadFailure := ReplaceFile(f, pieces, currentHash);
    }

    /** Clear what the stores hold of the file, then write it anew; an empty file is only stamped. */
    method ReplaceFile(f: Path, pieces: seq<Piece>, currentHash: string) returns (outcome: Outcome, hadFailure: bool)
      requires Valid() && Indexing(job) && job.f == f && job.phase.DropVectors?
      requires pieces == Pieces(w, f, job.task.content) && currentHash == w.hash(job.task.content)
      modifies this`log, this`job, this`torn, client, store
      ensures Valid() && job.Idle?
      ensures outcome == Skipped || (outcome == Indexed && !hadFailure) ==>
                f in store.fingerprints && store.fingerprints[f] == currentHash && f !in torn
      ensures WorkedOn(old(log), log, f)
      ensures Faultless() ==> !hadFailure && outcome == if pieces == [] then Skipped else Indexed
    {
      var cleaned := CleanupChangedFile(f);
      if !cleaned {
        return Failed, false;
      }
      if pieces == [] {
        var stamped := WriteFingerprint(f, currentHash);
        return if stamped then Skipped else Failed, false;
      }
      var ids := NewIds(|pieces|);
      var ok;
      ok, hadFailure := WriteIndexData(f, pieces, ids, currentHash);
      outcome := if ok then Indexed else Failed;
    }

    /** Random ids: any that no chunk has. */
    method NewIds(n: nat) returns (ids: seq<ChunkId>)
      ensures |ids| == n && Distinct(ids) && forall i | 0 <= i < n :: ids[i] !in store.chunks
    {
      ghost var freshIds := FreshIds(store.chunks.Keys, n);
      ids :| |ids| == n && Distinct(ids) && forall i | 0 <= i < n :: ids[i] !in store.chunks;
    }

    /** The stale loop; an exception in it ends the run. */
    method PurgeDeleted(deleted: set<Path>) returns (completed: bool)
      requires Valid() && job.Idle? && deleted <= store.ListAllPaths()
      modifies this`log, this`job, this`torn, client, store
      ensures Valid() && job.Idle?
      ensures completed ==> Tracked(Now()) == Tracked(old(Now())) - deleted
      ensures forall g | g !in deleted :: Spared(w, old(Now()), Now(), g)
      ensures Faultless() ==> completed
    {
      completed := true;
      var stale := deleted;
      while stale != {}
        invariant Valid() && job.Idle? && stale <= deleted
        invariant Tracked(Now()) == Tracked(old(Now())) - (deleted - stale)
        invariant Faultless() ==> completed
        invariant forall g | g !in deleted :: Spared(w, old(Now()), Now(), g)
        decreases stale
      {
        var p :| p in stale;
        stale := stale - {p};
        ghost var before := Now();
        completed := PurgeOneLogged(p);
        forall g | g !in deleted ensures Spared(w, old(Now()), Now(), g) {
          assert Spared(w, before, Now(), g) && Spared(w, old(Now()), before, g);
        }
        if !completed {
          return;
        }
      }
    }

    method PurgeOneLogged(p: Path) returns (ok: bool)
      requires Valid() && job.Idle? && p in store.ListAllPaths()
      modifies this`log, this`job, this`torn, client, store
      ensures Valid() && job.Idle?
      ensures ok ==> Tracked(Now()) == Tracked(old(Now())) - {p}
      ensures forall g | g != p :: Spared(w, old(Now()), Now(), g)
      ensures Faultless() ==> ok
    {
      ghost var before, shorter := Now(), log;
      ok := PurgeStale(p);
      WorkTouchesOne(before, shorter, p);
      if ok {
        forall g ensures g in Tracked(Now()) <==> g in Tracked(before) - {p} {
          assert g != p ==> Spared(w, before, Now(), g);
        }
      }
    }

    method IndexOneLogged(f: Path) returns (outcome: Outcome, hadFailure: bool)
      requires Valid() && job.Idle?
      modifies this`log, this`job, this`torn, client, store
      ensures Valid() && job.Idle?
      ensures outcome == Skipped || (outcome == Indexed && !hadFailure) ==>
                HealedIn(w, old(Now()), Now(), f)
      ensures forall g | g != f || Current(w, old(Now()), g) :: Spared(w, old(Now()), Now(), g)
      ensures Faultless() && f in disk ==> outcome != Failed && !hadFailure
    {
      ghost var before, shorter := Now(), log;
      ghost var read, embedded;
      outcome, hadFailure, read, embedded := IndexFile(f);
      WorkTouchesOne(before, shorter, f);
    }

    /** The indexing loop; a file that fails is counted and the loop goes on, and one that is current stays as it is. */
    method IndexFiles(files: seq<Path>) returns (failed: nat, partial: nat)
      requires Valid() && job.Idle?
      modifies this`log, this`job, this`torn, client, store
      ensures Valid() && job.Idle?
      ensures failed == 0 && partial == 0 ==> forall j | 0 <= j < |files| :: HealedIn(w, old(Now()), Now(), files[j])
      ensures forall g | g !in files || Current(w, old(Now()), g) :: Spared(w, old(Now()), Now(), g)
      ensures Faultless() && (forall f | f in files :: f in disk) ==> failed == 0 && partial == 0
    {
      failed, partial := 0, 0;
      for i := 0 to |files|
        invariant Valid() && job.Idle?
        invariant Faultless() && (forall f | f in files :: f in disk) ==> failed == 0 && partial == 0
        invariant failed == 0 && partial == 0 ==> forall j | 0 <= j < i :: HealedIn(w, old(Now()), Now(), files[j])
        invariant forall g | g !in files[..i] || Current(w, old(Now()), g) :: Spared(w, old(Now()), Now(), g)
      {
        ghost var before := Now();
        var f := files[i];
        var outcome, hadFailure := IndexOneLogged(f);
        failed := failed + if outcome.Failed? then 1 else 0;
        partial := partial + if outcome.Indexed? && hadFailure then 1 else 0;
        assert files[..i + 1] == files[..i] + [f];
        if failed == 0 && partial == 0 {
          HealedStep(w, old(Now()), before, Now(), files[..i], f);
        }
        forall g | g !in files[..i + 1] || Current(w, old(Now()), g) ensures Spared(w, old(Now()), Now(), g) {
          assert Spared(w, old(Now()), before, g) && Spared(w, before, Now(), g);
        }
      }
      assert files[..|files|] == files;
    }

    /** Purge the tracked files that the scan did not find, unless they lie where it could not look. */
    method PurgeMissing(files: seq<Path>, unscanned: Path -> bool) returns (completed: bool)
      requires Valid() && job.Idle?
      modifies this`log, this`job, this`torn, client, store
      ensures Valid() && job.Idle?
      ensures completed ==> forall p | p in Tracked(Now()) :: p in files || unscanned(p)
      ensures forall g | g in files || unscanned(g) :: Spared(w, old(Now()), Now(), g)
      ensures Faultless() ==> completed
    {
      var missing := store.ListAllPaths() - (set f | f in files);
      completed := PurgeDeleted(set p | p in missing && !unscanned(p));
    }

    /**
     * A whole run: purge the tracked files that the scan did not find, unless they lie where it
     * could not look, then index every file found.  However it goes, it changes nothing about a
     * found file that was current, nor about one that was neither found nor searched for.
     */
    method RunOnce(files: seq<Path>, unscanned: Path -> bool) returns (completed: bool, failed: nat, partial: nat)
      requires Valid() && job.Idle?
      modifies this`log, this`job, this`torn, client, store
      ensures Valid() && job.Idle?
      ensures completed && failed == 0 && partial == 0 ==> forall f | f in files :: HealedIn(w, old(Now()), Now(), f)
      ensures completed ==> forall p | p in Tracked(Now()) :: p in files || unscanned(p)
      ensures forall g | if g in files then Current(w, old(Now()), g) else unscanned(g) ::
                Spared(w, old(Now()), Now(), g)
      ensures Faultless() && (forall f | f in files :: f in disk) ==> completed && failed == 0 && partial == 0
    {
      failed, partial := 0, 0;
      completed := PurgeMissing(files, unscanned);
      if completed {
        ghost var before := Now();
        failed, partial := IndexFiles(files);
        if failed == 0 && partial == 0 {
          SparedThenHealed(w, old(Now()), before, Now(), files);
        }
        SparedTwice(w, old(Now()), before, Now(), files, unscanned);
      }
    }

    lemma NowIsReachable()
      requires Valid()
      ensures Reachable(w, Now())
    {
      var disk0 :| Reaches(w, Start(disk0), origin);
      assert Reaches(w, origin, Now());
      ReachesTransitive(w, Start(disk0), origin, Now());
    }

    /**
     * A run for which the scan found exactly the files on disk and left nothing unscanned: if it
     * completes without failures the stores are as any caught-up store over this disk, one
     * indexed from empty among them, whatever crashes, edits and failed runs came before.
     */
    method CatchUp(files: seq<Path>) returns (completed: bool, failed: nat, partial: nat)
      requires Valid() && job.Idle? && (set f | f in files) == disk.Keys
      modifies this`log, this`job, this`torn, client, store
      ensures Valid() && job.Idle?
      ensures completed && failed == 0 && partial == 0 ==> CaughtUp(w, Now())
      ensures completed && failed == 0 && partial == 0 ==>
                forall s | Reachable(w, s) && CaughtUp(w, s) && s.disk == disk :: SameIndex(Now(), s)
      ensures Faultless() ==> completed && failed == 0 && partial == 0
    {
      completed, failed, partial := RunOnce(files, p => false);
      assert forall f :: f in disk <==> f in files;
      NowIsReachable();
      if completed && failed == 0 && partial == 0 {
        forall s | Reachable(w, s) && CaughtUp(w, s) && s.disk == disk ensures SameIndex(Now(), s) {
          IncrementalEqualsFromScratch(w, Now(), s);
        }
      }
    }

    /** What a logged job for f did, it did to f alone. */
    lemma WorkTouchesOne(before: State, shorter: seq<Action>, f: Path)
      requires Valid() && job.Idle? && before.job.Idle?
      requires Run(w, origin, shorter) == Some(before) && WorkedOn(shorter, log, f) && before.disk == disk
      ensures forall g | g != f :: Spared(w, before, Now(), g)
    {
      ReachableHolds(w, origin);
      RunKeeps(w, origin, shorter);
      assert log == shorter + log[|shorter|..];
      RunSplits(w, origin, shorter, log[|shorter|..]);
      WorkTouchesOnly(w, before, log[|shorter|..], f);
      OtherFilesKept(w, before, Now(), f);
      forall g | g != f ensures ViewOf(Now(), g) == ViewOf(before, g) {
        OtherViewsKept(before, Now(), f, g);
      }
    }
  }
}
