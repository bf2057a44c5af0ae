/**
 * Ingestion as a protocol over two stores.  A run is a sequence of actions: each SQLite
 * transaction and each Qdrant call is one, files change at any moment, a Qdrant call may apply
 * to any part of its points before failing, and a job may be abandoned (a crash, or an exception
 * that the indexer survives) before or after any action.
 */
module Ingestion {
  import opened Options
  import opened Records
  import opened Integrity
  import opened Extraction

  datatype Piece = Piece(text: string, defName: Option<string>)

  /** What the pipeline computes from a file, and the hash that decides whether it changed. */
  datatype World = World(
    model: Model,
    hash: string -> string,
    chunk: (Path, string) -> seq<Piece>,
    isHistory: Path -> bool,
    occursIn: (string, string) -> bool)

  ghost predicate Lawful(w: World)
  {
    Injective(w.hash) && Injective(w.model.sha)
  }

  /** A vector's payload; the vector itself is the embedding of the text. */
  datatype Point = Point(doc: Path, index: nat, piece: Piece)

  datatype Phase =
    | DropVectors
    | DropRows
    | Register
    | Upsert(ids: seq<ChunkId>)
    | Extracting(ids: seq<ChunkId>, done: nat, raw: Raw, failed: bool)
    | Relating(ids: seq<ChunkId>, result: Result)
    | Linking(ids: seq<ChunkId>, result: Result)
    | Stamp

  datatype Task = Purge | Index(content: string)
  datatype Job = Idle | Busy(f: Path, task: Task, phase: Phase)

  predicate Indexing(job: Job)
  {
    job.Busy? && job.task.Index?
  }

  /** `torn` holds the files that lost a vector to a delete whose rows have not been deleted since. */
  datatype State = State(db: Tables, vectors: map<ChunkId, Point>, disk: map<Path, string>, job: Job, torn: set<Path>)

  datatype Action =
    | Edit(f: Path, content: Option<string>)
    | Recluster(communities: map<EntityId, int>)
    | BeginIndex(f: Path)
    | BeginPurge(f: Path)
    | QdrantDelete(gone: set<ChunkId>, acknowledged: bool)
    | Commit
    | RegisterPoints(ids: seq<ChunkId>)
    | QdrantUpsert(stored: set<ChunkId>, acknowledged: bool)
    | Batch(answered: bool)
    | Abandon

  // ---------------------------------------------------------------- what a file's content yields

  function Pieces(w: World, f: Path, content: string): seq<Piece>
  {
    w.chunk(f, content)
  }

  function Texts(pieces: seq<Piece>): seq<string>
  {
    seq(|pieces|, i requires 0 <= i < |pieces| => pieces[i].text)
  }

  /** Git history documents are embedded but never extracted. */
  function BatchesOf(w: World, f: Path, content: string): seq<string>
  {
    if w.isHistory(f) then [] else Batches(w.model.batchTokens, Texts(Pieces(w, f, content)))
  }

  function ExtractionOf(w: World, f: Path, content: string): Result
  {
    var batches := BatchesOf(w, f, content);
    Normalize(w.model.slug, Collected(w.model, batches, |batches|), false)
  }

  function RelRows(w: World, rels: seq<RawRelationship>, f: Path): (rows: seq<RelKey>)
    ensures |rows| == |rels|
    ensures forall i | 0 <= i < |rows| ::
              rows[i] == RelKey(w.model.slug(rels[i].source), w.model.slug(rels[i].target), rels[i].relation, f)
  {
    seq(|rels|, i requires 0 <= i < |rels| =>
      RelKey(w.model.slug(rels[i].source), w.model.slug(rels[i].target), rels[i].relation, f))
  }

  /** Names too short to match anything but noise are never linked. */
  const MIN_ENTITY_NAME_CHARS := 3

  predicate Names(w: World, e: EntityRow, p: Piece)
  {
    |e.name| >= MIN_ENTITY_NAME_CHARS && w.occursIn(e.name, p.text)
  }

  /** The chunk numbers and entities that `_match_entity_chunks` pairs. */
  function Matches(w: World, pieces: seq<Piece>, entities: seq<EntityRow>): set<(nat, EntityId)>
  {
    set i: nat, j: nat | i < |pieces| && j < |entities| && Names(w, entities[j], pieces[i]) :: (i, entities[j].id)
  }

  function LinksFor(w: World, ids: seq<ChunkId>, pieces: seq<Piece>, entities: seq<EntityRow>): set<Link>
    requires |ids| == |pieces|
  {
    set m | m in Matches(w, pieces, entities) && m.0 < |ids| :: Link(ids[m.0], m.1)
  }

  /** The rows of one document, with its chunks known by number instead of by id. */
  datatype FileRows = FileRows(
    mentions: map<MentionKey, Mention>,
    relationships: map<RelKey, real>,
    numbers: set<nat>,
    links: set<(nat, EntityId)>)

  function RowsOf(t: Tables, f: Path): FileRows
  {
    FileRows(
      MentionsBy(t.mentions, f),
      RelationshipsBy(t.relationships, f),
      NumbersIn(ChunksBy(t.chunks, f)),
      NumberedLinks(LinksBy(t, f), ChunksBy(t.chunks, f)))
  }

  function NumbersIn(chunks: map<ChunkId, Chunk>): set<nat>
  {
    set c | c in chunks :: chunks[c].index
  }

  function NumberedLinks(links: set<Link>, chunks: map<ChunkId, Chunk>): set<(nat, EntityId)>
  {
    set l | l in links && l.chunk in chunks :: (chunks[l.chunk].index, l.entity)
  }

  function Upto(n: nat): (numbers: set<nat>)
    ensures forall i: nat :: i in numbers <==> i < n
  {
    if n == 0 then {} else Upto(n - 1) + {n - 1}
  }

  /** The rows that content alone determines. */
  function Expected(w: World, f: Path, content: string): FileRows
  {
    var pieces, result := Pieces(w, f, content), ExtractionOf(w, f, content);
    FileRows(
      UpsertMentions(map[], result.entities, f),
      UpsertRelationships(map[], RelRows(w, result.relationships, f)),
      Upto(|pieces|),
      Matches(w, pieces, result.entities))
  }

  // ---------------------------------------------------------------- actions

  function Tracked(s: State): set<Path>
  {
    AllPaths(s.db)
  }

  function PointsFor(ids: seq<ChunkId>, pieces: seq<Piece>, f: Path): map<ChunkId, Point>
    requires |ids| == |pieces|
  {
    if ids == [] then map[]
    else
      var n := |ids| - 1;
      PointsFor(ids[..n], pieces[..n], f)[ids[n] := Point(f, n, pieces[n])]
  }

  predicate Enabled(w: World, s: State, a: Action)
  {
    match a
    case Edit(_, _) => true
    case Recluster(_) => s.job.Idle?
    case BeginIndex(f) => s.job.Idle? && f in s.disk
        && !(f in s.db.fingerprints && s.db.fingerprints[f] == w.hash(s.disk[f]))
    case BeginPurge(f) => s.job.Idle? && f in Tracked(s)
    case QdrantDelete(gone, acknowledged) =>
      && s.job.Busy? && s.job.phase.DropVectors?
      && gone <= ChunkIdsOf(s.db, s.job.f) && (acknowledged ==> gone == ChunkIdsOf(s.db, s.job.f))
    case Commit =>
      && s.job.Busy?
      && match s.job.phase {
         case DropRows => true
         case Extracting(_, done, _, _) => Indexing(s.job) && done == |BatchesOf(w, s.job.f, s.job.task.content)|
         case Relating(_, _) => Indexing(s.job)
         case Linking(ids, _) => Indexing(s.job) && |ids| == |Pieces(w, s.job.f, s.job.task.content)|
         case Stamp => Indexing(s.job)
         case _ => false
         }
    case RegisterPoints(ids) =>
      && Indexing(s.job) && s.job.phase.Register?
      && |ids| == |Pieces(w, s.job.f, s.job.task.content)|
      && Distinct(ids) && forall i | 0 <= i < |ids| :: ids[i] !in s.db.chunks
    case QdrantUpsert(stored, acknowledged) =>
      && Indexing(s.job) && s.job.phase.Upsert?
      && |s.job.phase.ids| == |Pieces(w, s.job.f, s.job.task.content)|
      && (forall c | c in stored :: c in s.job.phase.ids)
      && (acknowledged ==> forall c | c in s.job.phase.ids :: c in stored)
    case Batch(_) =>
      && Indexing(s.job) && s.job.phase.Extracting?
      && s.job.phase.done < |BatchesOf(w, s.job.f, s.job.task.content)|
    case Abandon => s.job.Busy?
  }

  function Apply(w: World, s: State, a: Action): State
    requires Enabled(w, s, a)
  {
    match a
    case Edit(f, content) =>
      s.(disk := if content.Some? then s.disk[f := content.value] else map g | g in s.disk && g != f :: s.disk[g])
    case Recluster(communities) => s.(db := Reclustered(s.db, communities))
    case BeginIndex(f) => s.(job := Busy(f, Index(s.disk[f]), DropVectors))
    case BeginPurge(f) => s.(job := Busy(f, Purge, DropVectors))
    case QdrantDelete(gone, acknowledged) =>
      s.(vectors := s.vectors - gone,
         torn := if gone !! s.vectors.Keys then s.torn else s.torn + {s.job.f},
         job := if acknowledged then s.job.(phase := DropRows) else Idle)
    case Commit => Committed(w, s)
    case RegisterPoints(ids) =>
      s.(db := s.db.(chunks := RegisterChunks(s.db.chunks, ids, s.job.f)), job := s.job.(phase := Upsert(ids)))
    case QdrantUpsert(stored, acknowledged) =>
      var points := PointsFor(s.job.phase.ids, Pieces(w, s.job.f, s.job.task.content), s.job.f);
      s.(vectors := s.vectors + (map c | c in points && c in stored :: points[c]),
         job := if acknowledged then s.job.(phase := Extracting(s.job.phase.ids, 0, NOTHING, false)) else Idle)
    case Batch(answered) => BatchDone(w, s, answered)
    case Abandon => s.(job := Idle)
  }

  /** The pending SQLite transaction commits. */
  function Committed(w: World, s: State): State
    requires Enabled(w, s, Commit)
  {
    var f := s.job.f;
    match s.job.phase
    case DropRows =>
      if s.job.task.Purge? then
        s.(db := PurgeFile(s.db, f), torn := s.torn - {f}, job := Idle)
      else
        s.(db := DeleteFileData(s.db, f), torn := s.torn - {f},
           job := s.job.(phase := if Pieces(w, f, s.job.task.content) == [] then Stamp else Register))
    case Extracting(ids, _, raw, failed) =>
      var result := Normalize(w.model.slug, raw, failed);
      s.(db := UpsertEntities(s.db, result.entities, f), job := s.job.(phase := Relating(ids, result)))
    case Relating(ids, result) =>
      s.(db := s.db.(relationships := UpsertRelationships(s.db.relationships, RelRows(w, result.relationships, f))),
         job := s.job.(phase := Linking(ids, result)))
    case Linking(ids, result) =>
      s.(db := s.db.(links := s.db.links + LinksFor(w, ids, Pieces(w, f, s.job.task.content), result.entities)),
         job := if result.hadFailure then Idle else s.job.(phase := Stamp))
    case Stamp =>
      s.(db := s.db.(fingerprints := s.db.fingerprints[f := w.hash(s.job.task.content)]), job := Idle)
  }

  /** One extraction batch, answered (from the cache or by the model) or failed. */
  function BatchDone(w: World, s: State, answered: bool): State
    requires Enabled(w, s, Batch(answered))
  {
    var f, p := s.job.f, s.job.phase;
    var text := BatchesOf(w, f, s.job.task.content)[p.done];
    var next := BatchStep(w.model, f, Progress(s.db.cache, p.raw, p.failed), p.done, text, answered);
    s.(db := s.db.(cache := next.cache),
       job := s.job.(phase := Extracting(p.ids, p.done + 1, next.raw, next.failed)))
  }

  /** The summarizer rewrites the community column between runs. */
  function Reclustered(t: Tables, communities: map<EntityId, int>): Tables
  {
    t.(entities := map e | e in t.entities ::
      t.entities[e].(community := if e in communities then Some(communities[e]) else None))
  }

  // ---------------------------------------------------------------- runs

  /** The state after the actions, if each is possible where it comes. */
  function Run(w: World, s: State, actions: seq<Action>): Option<State>
  {
    if actions == [] then Some(s)
    else
      var last := actions[|actions| - 1];
      match Run(w, s, actions[..|actions| - 1])
      case None => None
      case Some(s') => if Enabled(w, s', last) then Some(Apply(w, s', last)) else None
  }

  ghost predicate Reaches(w: World, s: State, s': State)
  {
    exists actions :: Run(w, s, actions) == Some(s')
  }

  function Start(disk: map<Path, string>): State
  {
    State(EMPTY, map[], disk, Idle, {})
  }

  // ---------------------------------------------------------------- the invariant

  /** Everything a state holds about one file. */
  datatype FileView = FileView(
    rows: FileRows,
    chunks: map<ChunkId, Chunk>,
    points: map<ChunkId, Point>,
    torn: bool,
    stamp: Option<string>)

  function PointsBy(vectors: map<ChunkId, Point>, f: Path): map<ChunkId, Point>
  {
    map c | c in vectors && vectors[c].doc == f :: vectors[c]
  }

  function ViewOf(s: State, f: Path): FileView
  {
    FileView(
      RowsOf(s.db, f), ChunksBy(s.db.chunks, f), PointsBy(s.vectors, f), f in s.torn,
      if f in s.db.fingerprints then Some(s.db.fingerprints[f]) else None)
  }

  /** No orphan: a vector is registered, under the file and number its payload names. */
  predicate Registered(chunks: map<ChunkId, Chunk>, vectors: map<ChunkId, Point>)
  {
    forall c | c in vectors :: c in chunks && chunks[c] == Chunk(vectors[c].doc, vectors[c].index)
  }

  predicate PiecesMatch(points: map<ChunkId, Point>, pieces: seq<Piece>)
  {
    forall c | c in points :: points[c].index < |pieces| && points[c].piece == pieces[points[c].index]
  }

  /** No two chunks have the same number. */
  predicate OnePerNumber(chunks: map<ChunkId, Chunk>)
  {
    forall c, d | c in chunks && d in chunks && chunks[c].index == chunks[d].index :: c == d
  }

  /** A stamped file holds exactly what its content determines, and every vector unless torn. */
  predicate StampedBy(w: World, f: Path, v: FileView, content: string)
  {
    && v.stamp == Some(w.hash(content))
    && v.rows == Expected(w, f, content)
    && PiecesMatch(v.points, Pieces(w, f, content))
    && (v.torn <==> v.points.Keys != v.chunks.Keys)
    && OnePerNumber(v.chunks)
  }

  ghost predicate StampHolds(w: World, f: Path, v: FileView)
  {
    v.stamp.Some? ==> exists content :: StampedBy(w, f, v, content)
  }

  ghost predicate StampsHold(w: World, s: State)
  {
    forall f :: StampHolds(w, f, ViewOf(s, f))
  }

  function Numbered(ids: seq<ChunkId>, f: Path): map<ChunkId, Chunk>
  {
    RegisterChunks(map[], ids, f)
  }

  predicate Fresh(v: FileView)
  {
    v.stamp == None && !v.torn && v.rows.links == {}
  }

  /** The job has registered these chunks and, where `stored`, their vectors. */
  predicate Placed(w: World, f: Path, content: string, ids: seq<ChunkId>, stored: bool, v: FileView)
  {
    var pieces := Pieces(w, f, content);
    && |ids| == |pieces| > 0 && Distinct(ids) && Fresh(v)
    && v.chunks == Numbered(ids, f)
    && v.points == (if stored then PointsFor(ids, pieces, f) else map[])
  }

  /** A result whose relationships join its own entities and which is the file's own unless a batch failed. */
  predicate Faithful(w: World, f: Path, content: string, result: Result)
  {
    && (forall x | x in result.relationships ::
          w.model.slug(x.source) in Ids(result.entities) && w.model.slug(x.target) in Ids(result.entities))
    && (!result.hadFailure ==> result == ExtractionOf(w, f, content))
  }

  /** What the steps of the job so far have made of its own file. */
  predicate JobHolds(w: World, job: Job, v: FileView)
  {
    match job
    case Idle => true
    case Busy(_, Purge, phase) => phase.DropVectors? || (phase.DropRows? && v.points == map[])
    case Busy(f, Index(content), phase) =>
      match phase
      case DropVectors => true
      case DropRows => v.points == map[]
      case Register =>
        && Fresh(v) && v.points == map[] && v.chunks == map[] && Pieces(w, f, content) != []
        && v.rows.mentions == map[] && v.rows.relationships == map[]
      case Upsert(ids) =>
        Placed(w, f, content, ids, false, v) && v.rows.mentions == map[] && v.rows.relationships == map[]
      case Extracting(ids, done, raw, failed) =>
        && Placed(w, f, content, ids, true, v) && v.rows.mentions == map[] && v.rows.relationships == map[]
        && done <= |BatchesOf(w, f, content)|
        && (!failed ==> raw == Collected(w.model, BatchesOf(w, f, content), done))
      case Relating(ids, result) =>
        && Placed(w, f, content, ids, true, v) && v.rows.relationships == map[]
        && v.rows.mentions == UpsertMentions(map[], result.entities, f)
        && Faithful(w, f, content, result)
      case Linking(ids, result) =>
        && Placed(w, f, content, ids, true, v)
        && v.rows.mentions == UpsertMentions(map[], result.entities, f)
        && v.rows.relationships == UpsertRelationships(map[], RelRows(w, result.relationships, f))
        && Faithful(w, f, content, result)
      case Stamp =>
        && v.stamp == None && !v.torn && v.points.Keys == v.chunks.Keys
        && v.rows == Expected(w, f, content) && PiecesMatch(v.points, Pieces(w, f, content))
        && OnePerNumber(v.chunks)
  }

  ghost predicate Invariant(w: World, s: State)
  {
    && Sound(s.db)
    && Registered(s.db.chunks, s.vectors)
    && StampsHold(w, s)
    && CacheSound(w.model.sha, w.model.llm, s.db.cache)
    && (s.job.Busy? ==> JobHolds(w, s.job, ViewOf(s, s.job.f)))
  }
}
