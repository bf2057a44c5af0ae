/** Runs that succeed: catching up from any state, purging what was ingested, and what a torn file costs. */
module IngestionRecovery {
  import opened Options
  import opened Records
  import opened Integrity
  import opened Extraction
  import opened Ingestion
  import opened IngestionSafety
  import opened IngestionTheorems

  // ---------------------------------------------------------------- composing runs

  lemma ReachesSelf(w: World, s: State)
    ensures Reaches(w, s, s)
  {
    assert Run(w, s, []) == Some(s);
  }

  lemma ReachesStep(w: World, s: State, s': State, a: Action)
    requires Reaches(w, s, s') && Enabled(w, s', a)
    ensures Reaches(w, s, Apply(w, s', a))
  {
    var actions :| Run(w, s, actions) == Some(s');
    var longer := actions + [a];
    assert longer[..|longer| - 1] == actions;
    assert Run(w, s, longer) == Some(Apply(w, s', a));
  }

  lemma {:induction false} RunAfter(w: World, s: State, s': State, prefix: seq<Action>, actions: seq<Action>)
    requires Run(w, s, prefix) == Some(s') && Run(w, s', actions).Some?
    ensures Run(w, s, prefix + actions) == Run(w, s', actions)
  {
    if actions == [] {
      assert prefix + actions == prefix;
    } else {
      var init := actions[..|actions| - 1];
      RunAfter(w, s, s', prefix, init);
      assert (prefix + actions)[..|prefix + actions| - 1] == prefix + init;
    }
  }

  lemma {:induction false} RunSplits(w: World, s: State, prefix: seq<Action>, actions: seq<Action>)
    requires Run(w, s, prefix + actions).Some?
    ensures Run(w, s, prefix).Some? && Run(w, Run(w, s, prefix).value, actions) == Run(w, s, prefix + actions)
  {
    if actions == [] {
      assert prefix + actions == prefix;
    } else {
      var init := actions[..|actions| - 1];
      assert (prefix + actions)[..|prefix + actions| - 1] == prefix + init;
      RunSplits(w, s, prefix, init);
    }
  }

  lemma ReachesTransitive(w: World, s: State, s': State, s'': State)
    requires Reaches(w, s, s') && Reaches(w, s', s'')
    ensures Reaches(w, s, s'')
  {
    var a :| Run(w, s, a) == Some(s');
    var b :| Run(w, s', b) == Some(s'');
    RunAfter(w, s, s', a, b);
  }

  // ---------------------------------------------------------------- one file, no faults

  /** A state on the way of a job for f: reachable from s, sound, and touching nothing but f. */
  ghost predicate OnTheWay(w: World, s: State, s': State, f: Path)
  {
    Reaches(w, s, s') && Invariant(w, s') && OnlyTouches(s, s', f) && s'.disk == s.disk
  }

  predicate IsFor(a: Action, f: Path)
  {
    match a
    case Edit(_, _) => false
    case Recluster(_) => false
    case BeginIndex(g) => g == f
    case BeginPurge(g) => g == f
    case _ => true
  }

  predicate BusyOnlyWith(job: Job, f: Path)
  {
    job.Busy? ==> job.f == f
  }

  lemma ActionTouches(w: World, s: State, a: Action, f: Path)
    requires Lawful(w) && Invariant(w, s) && Enabled(w, s, a)
    requires (IsFor(a, f) || a.Edit?) && BusyOnlyWith(s.job, f)
    ensures Invariant(w, Apply(w, s, a)) && OnlyTouches(s, Apply(w, s, a), f) && BusyOnlyWith(Apply(w, s, a).job, f)
  {
    ActionKeeps(w, s, a);
    match a
    case QdrantDelete(gone, acknowledged) => QdrantDeleteKeeps(w, s, gone, acknowledged);
    case Commit => CommitKeeps(w, s);
    case RegisterPoints(ids) => RegisterPointsKeeps(w, s, ids);
    case QdrantUpsert(stored, acknowledged) => QdrantUpsertKeeps(w, s, stored, acknowledged);
    case Batch(answered) => BatchKeeps(w, s, answered);
    case _ =>
  }

  lemma {:induction false} WorkTouchesOnly(w: World, s: State, actions: seq<Action>, f: Path)
    requires Lawful(w) && Invariant(w, s) && BusyOnlyWith(s.job, f)
    requires (forall i | 0 <= i < |actions| :: IsFor(actions[i], f)) && Run(w, s, actions).Some?
    ensures var s' := Run(w, s, actions).value;
      Invariant(w, s') && OnlyTouches(s, s', f) && BusyOnlyWith(s'.job, f) && s'.disk == s.disk
  {
    if actions != [] {
      var init := actions[..|actions| - 1];
      WorkTouchesOnly(w, s, init, f);
      ActionTouches(w, Run(w, s, init).value, actions[|actions| - 1], f);
    }
  }

  lemma JobStep(w: World, s: State, s': State, f: Path, a: Action)
    requires Lawful(w) && OnTheWay(w, s, s', f) && Enabled(w, s', a) && IsFor(a, f) && BusyOnlyWith(s'.job, f)
    ensures OnTheWay(w, s, Apply(w, s', a), f)
  {
    ReachesStep(w, s, s', a);
    ActionTouches(w, s', a, f);
  }

  /** Vectors, then rows: both jobs start by clearing the old version. */
  lemma ClearOld(w: World, s: State, s': State, f: Path) returns (s'': State)
    requires Lawful(w) && OnTheWay(w, s, s', f)
    requires s'.job.Busy? && s'.job.f == f && s'.job.phase.DropVectors?
    ensures OnTheWay(w, s, s'', f) && f !in s''.torn
    ensures s'.job.task.Index? ==>
              s''.job == s'.job.(phase := if Pieces(w, f, s'.job.task.content) == [] then Stamp else Register)
    ensures s'.job.task.Purge? ==> s''.job == Idle && s''.db == PurgeFile(s'.db, f)
  {
    var a := QdrantDelete(ChunkIdsOf(s'.db, f), true);
    JobStep(w, s, s', f, a);
    var s1 := Apply(w, s', a);
    JobStep(w, s, s1, f, Commit);
    s'' := Apply(w, s1, Commit);
  }

  /** Enough ids that no store has seen. */
  lemma {:induction false} FreshIds(used: set<ChunkId>, n: nat) returns (ids: seq<ChunkId>)
    ensures |ids| == n && Distinct(ids) && forall i | 0 <= i < n :: ids[i] !in used
    decreases n
  {
    if n == 0 {
      ids := [];
    } else {
      var longer := LongerThanAll(used);
      var rest := FreshIds(used + {longer}, n - 1);
      ids := [longer] + rest;
    }
  }

  lemma {:induction false} LongerThanAll(used: set<ChunkId>) returns (id: ChunkId)
    ensures forall u | u in used :: |u| < |id|
  {
    if used == {} {
      id := "";
    } else {
      var u :| u in used;
      var rest := LongerThanAll(used - {u});
      id := seq(|u| + |rest| + 1, i => 'a');
      assert forall v | v in used :: v == u || v in used - {u};
    }
  }

  /** Answering every batch leaves the extraction complete. */
  lemma {:induction false} AnswerBatches(w: World, s: State, s': State, f: Path) returns (s'': State)
    requires Lawful(w) && OnTheWay(w, s, s', f)
    requires Indexing(s'.job) && s'.job.f == f && s'.job.phase.Extracting? && !s'.job.phase.failed
    ensures OnTheWay(w, s, s'', f) && s''.torn == s'.torn
    ensures Indexing(s''.job) && s''.job.f == f && s''.job.task == s'.job.task
    ensures s''.job.phase.Extracting? && !s''.job.phase.failed && s''.job.phase.ids == s'.job.phase.ids
    ensures s''.job.phase.done == |BatchesOf(w, f, s'.job.task.content)|
    decreases |BatchesOf(w, f, s'.job.task.content)| - s'.job.phase.done
  {
    if s'.job.phase.done == |BatchesOf(w, f, s'.job.task.content)| {
      s'' := s';
    } else {
      JobStep(w, s, s', f, Batch(true));
      s'' := AnswerBatches(w, s, Apply(w, s', Batch(true)), f);
    }
  }

  /** From a registered state to the pending stamp: vectors, extraction, entities, relationships, links. */
  lemma WriteNew(w: World, s: State, s': State, f: Path) returns (s'': State)
    requires Lawful(w) && OnTheWay(w, s, s', f)
    requires Indexing(s'.job) && s'.job.f == f && s'.job.phase.Register?
    ensures OnTheWay(w, s, s'', f) && s''.torn == s'.torn && s''.job == s'.job.(phase := Stamp)
  {
    var n := |Pieces(w, f, s'.job.task.content)|;
    var ids := FreshIds(s'.db.chunks.Keys, n);
    JobStep(w, s, s', f, RegisterPoints(ids));
    var s1 := Apply(w, s', RegisterPoints(ids));
    var a := QdrantUpsert(set i | 0 <= i < |ids| :: ids[i], true);
    JobStep(w, s, s1, f, a);
    var s2 := Apply(w, s1, a);
    var s3 := AnswerBatches(w, s, s2, f);
    JobStep(w, s, s3, f, Commit);
    var s4 := Apply(w, s3, Commit);
    JobStep(w, s, s4, f, Commit);
    var s5 := Apply(w, s4, Commit);
    JobStep(w, s, s5, f, Commit);
    s'' := Apply(w, s5, Commit);
  }

  /** A job for f without faults leaves f current and untorn, and every other file as it was. */
  lemma IndexOne(w: World, s: State, f: Path) returns (s': State)
    requires Lawful(w) && Invariant(w, s) && s.job.Idle? && f in s.disk && !Current(w, s, f)
    ensures OnTheWay(w, s, s', f) && s'.job.Idle? && Current(w, s', f) && f !in s'.torn
  {
    ReachesSelf(w, s);
    JobStep(w, s, s, f, BeginIndex(f));
    var s1 := ClearOld(w, s, Apply(w, s, BeginIndex(f)), f);
    var s2 := s1;
    if !s1.job.phase.Stamp? {
      s2 := WriteNew(w, s, s1, f);
    }
    JobStep(w, s, s2, f, Commit);
    s' := Apply(w, s2, Commit);
  }

  lemma PurgeOne(w: World, s: State, f: Path) returns (s': State)
    requires Lawful(w) && Invariant(w, s) && s.job.Idle? && f in Tracked(s)
    ensures OnTheWay(w, s, s', f) && s'.job.Idle? && f !in Tracked(s') && f !in s'.torn
  {
    ReachesSelf(w, s);
    JobStep(w, s, s, f, BeginPurge(f));
    s' := ClearOld(w, s, Apply(w, s, BeginPurge(f)), f);
    DeleteFileDataParts(s.db, f);
  }

  // ---------------------------------------------------------------- catching up

  lemma OthersTracked(s: State, s': State, f: Path, g: Path)
    requires OnlyTouches(s, s', f) && g != f
    ensures g in Tracked(s) <==> g in Tracked(s')
  {
    OtherTraces(s, f, g);
    OtherTraces(s', f, g);
  }

  lemma OtherTraces(s: State, f: Path, g: Path)
    requires g != f
    ensures var o := Others(s.db, f); g in Tracked(s) <==> g in AllPaths(o)
  {
    var o := Others(s.db, f);
    if c :| c in s.db.chunks && s.db.chunks[c].doc == g { assert c in o.chunks; }
    if k :| k in s.db.cache && k.doc == g { assert k in o.cache; }
  }

  lemma OthersCurrent(w: World, s: State, s': State, f: Path, g: Path)
    requires OnlyTouches(s, s', f) && s'.disk == s.disk && g != f
    ensures Current(w, s, g) <==> Current(w, s', g)
  {
    OthersDetermine(s.db, s'.db, f, g);
  }

  function Deleted(s: State): set<Path>
  {
    Tracked(s) - s.disk.Keys
  }

  function Outdated(w: World, s: State): set<Path>
  {
    set f | f in s.disk && !Current(w, s, f)
  }

  /** What a run has left torn was torn before, in a file that looked current. */
  predicate NothingNewlyTorn(w: World, s: State, s': State)
  {
    forall f | f in s'.torn :: f in s.torn && (f in s.disk ==> Current(w, s, f))
  }

  lemma OtherFilesKept(w: World, s: State, s': State, f: Path)
    requires OnlyTouches(s, s', f) && s'.disk == s.disk
    ensures forall g | g != f :: g in Tracked(s) <==> g in Tracked(s')
    ensures forall g | g != f :: Current(w, s, g) <==> Current(w, s', g)
    ensures s'.torn <= s.torn + {f}
  {
    forall g | g != f
      ensures (g in Tracked(s) <==> g in Tracked(s')) && (Current(w, s, g) <==> Current(w, s', g))
    {
      OthersTracked(s, s', f, g);
      OthersCurrent(w, s, s', f, g);
    }
    forall g | g in s'.torn && g != f ensures g in s.torn { assert g in s'.torn - {f}; }
  }

  lemma DeletedShrinks(w: World, s: State, s': State, f: Path)
    requires OnlyTouches(s, s', f) && s'.disk == s.disk && f in Deleted(s) && f !in Tracked(s')
    ensures Deleted(s') == Deleted(s) - {f}
    ensures forall g | g in s.disk :: Current(w, s', g) <==> Current(w, s, g)
  {
    OtherFilesKept(w, s, s', f);
  }

  lemma OutdatedShrinks(w: World, s: State, s': State, f: Path)
    requires OnlyTouches(s, s', f) && s'.disk == s.disk && f in Outdated(w, s) && Current(w, s', f)
    ensures Outdated(w, s') == Outdated(w, s) - {f}
    ensures Deleted(s) == {} ==> Deleted(s') == {}
  {
    OtherFilesKept(w, s, s', f);
    forall g | g in Deleted(s') ensures g in Deleted(s) {}
  }

  lemma {:induction false} PurgeAll(w: World, s: State) returns (s': State)
    requires Lawful(w) && Invariant(w, s) && s.job.Idle?
    ensures Reaches(w, s, s') && Invariant(w, s') && s'.job.Idle? && s'.disk == s.disk && Deleted(s') == {}
    ensures s'.torn <= s.torn && forall g | g in s.disk :: Current(w, s', g) <==> Current(w, s, g)
    decreases Deleted(s)
  {
    if Deleted(s) == {} {
      ReachesSelf(w, s);
      s' := s;
    } else {
      var f :| f in Deleted(s);
      var s1 := PurgeOne(w, s, f);
      DeletedShrinks(w, s, s1, f);
      OtherFilesKept(w, s, s1, f);
      s' := PurgeAll(w, s1);
      ReachesTransitive(w, s, s1, s');
    }
  }

  lemma NothingToDo(w: World, s: State)
    requires Outdated(w, s) == {} && Deleted(s) == {}
    ensures CaughtUp(w, s)
  {
    assert forall f | f in s.disk && !Current(w, s, f) :: f in Outdated(w, s);
    assert forall f | f in Tracked(s) && f !in s.disk :: f in Deleted(s);
  }

  lemma {:induction false} IndexAll(w: World, s: State) returns (s': State)
    requires Lawful(w) && Invariant(w, s) && s.job.Idle? && Deleted(s) == {}
    ensures Reaches(w, s, s') && Invariant(w, s') && s'.job.Idle? && s'.disk == s.disk
    ensures CaughtUp(w, s') && s'.torn <= s.torn - Outdated(w, s)
    decreases Outdated(w, s)
  {
    if Outdated(w, s) == {} {
      ReachesSelf(w, s);
      s' := s;
      NothingToDo(w, s);
    } else {
      var f :| f in Outdated(w, s);
      var s1 := IndexOne(w, s, f);
      OutdatedShrinks(w, s, s1, f);
      OtherFilesKept(w, s, s1, f);
      s' := IndexAll(w, s1);
      ReachesTransitive(w, s, s1, s');
      TornShrinks(s.torn, s1.torn, s'.torn, Outdated(w, s), f);
    }
  }

  lemma TornShrinks(torn: set<Path>, between: set<Path>, torn': set<Path>, outdated: set<Path>, f: Path)
    requires between <= torn + {f} && f !in between && torn' <= between - (outdated - {f})
    ensures torn' <= torn - outdated
  {
  }

  /**
   * Whatever a crash left behind, one run without faults catches up, and the only files it leaves
   * torn are those whose content is again the one their fingerprint was taken from.
   */
  lemma CleanRunCatchesUp(w: World, s: State) returns (s': State)
    requires Lawful(w) && Reachable(w, s) && s.job.Idle?
    ensures Reaches(w, s, s') && s'.job.Idle? && s'.disk == s.disk && CaughtUp(w, s') && NothingNewlyTorn(w, s, s')
  {
    ReachableHolds(w, s);
    var s1 := PurgeAll(w, s);
    s' := IndexAll(w, s1);
    ReachesTransitive(w, s, s1, s');
  }

  /** Indexing a disk once into an empty store is such a run, and leaves nothing torn. */
  lemma FromScratchExists(w: World, disk: map<Path, string>) returns (s: State)
    requires Lawful(w)
    ensures Reachable(w, s) && s.disk == disk && CaughtUp(w, s) && s.torn == {}
  {
    ReachesSelf(w, Start(disk));
    s := CleanRunCatchesUp(w, Start(disk));
  }

  // ---------------------------------------------------------------- purge undoes ingest

  /** Only jobs for f run (any number of them, with any faults); files may still change. */
  predicate OnlyWorksOn(actions: seq<Action>, f: Path)
  {
    forall i | 0 <= i < |actions| :: IsFor(actions[i], f) || actions[i].Edit?
  }

  predicate NamesAgree(t: Tables, t': Tables)
  {
    forall e | e in t.entities && e in t'.entities ::
      t'.entities[e].name == t.entities[e].name && t'.entities[e].community == t.entities[e].community
  }

  lemma CommitNames(w: World, s: State)
    requires Enabled(w, s, Commit)
    ensures NamesAgree(s.db, Committed(w, s).db)
  {
    match s.job.phase
    case DropRows => DeleteFileDataParts(s.db, s.job.f);
    case Extracting(_, _, raw, failed) =>
      InsertEntitiesEffect(s.db.entities, Normalize(w.model.slug, raw, failed).entities);
    case _ =>
  }

  lemma ActionNames(w: World, s: State, a: Action)
    requires Enabled(w, s, a) && !a.Recluster?
    ensures NamesAgree(s.db, Apply(w, s, a).db)
  {
    if a.Commit? {
      CommitNames(w, s);
    }
  }

  /** The entities the other documents mention stay throughout, under the same names. */
  lemma OthersEntitiesStay(t: Tables, t': Tables, f: Path)
    requires Disciplined(t) && Disciplined(t') && HoldsNothingOf(t, f) && Others(t', f) == Others(t, f)
    ensures t.entities.Keys <= t'.entities.Keys
  {
    OthersOfAbsent(t, f);
    forall k | k in t.mentions ensures k in t'.mentions {
      assert k in MentionsExcept(t'.mentions, f);
    }
  }

  lemma {:induction false} WorkOnOneFile(w: World, s: State, actions: seq<Action>, f: Path)
    requires Lawful(w) && Invariant(w, s) && s.job.Idle? && HoldsNothingOf(s.db, f)
    requires OnlyWorksOn(actions, f) && Run(w, s, actions).Some?
    ensures var s' := Run(w, s, actions).value;
      Invariant(w, s') && OnlyTouches(s, s', f) && NamesKept(s.db, s'.db) && BusyOnlyWith(s'.job, f)
  {
    if actions != [] {
      var init, a := actions[..|actions| - 1], actions[|actions| - 1];
      WorkOnOneFile(w, s, init, f);
      var s1 := Run(w, s, init).value;
      var s' := Run(w, s, actions).value;
      ActionTouches(w, s1, a, f);
      ActionNames(w, s1, a);
      OthersEntitiesStay(s.db, s1.db, f);
      OthersEntitiesStay(s.db, s'.db, f);
    }
  }

  /**
   * Stop the ingest of f anywhere, in however many attempts, and purge it: every table is exactly
   * what it was, the names, types, descriptions and communities of shared entities included, and
   * deleting the vectors registered for f leaves exactly the old vectors.
   */
  lemma PurgeUndoesIngest(w: World, s: State, actions: seq<Action>, f: Path)
    requires Lawful(w) && Reachable(w, s) && s.job.Idle? && HoldsNothingOf(s.db, f)
    requires OnlyWorksOn(actions, f) && Run(w, s, actions).Some?
    ensures var s' := Run(w, s, actions).value;
            PurgeFile(s'.db, f) == s.db && s'.vectors - ChunkIdsOf(s'.db, f) == s.vectors
  {
    ReachableHolds(w, s);
    WorkOnOneFile(w, s, actions, f);
    var s' := Run(w, s, actions).value;
    PurgeRestores(s.db, s'.db, f);
    VectorsRestored(s, s', f);
  }

  lemma VectorsRestored(s: State, s': State, f: Path)
    requires Registered(s.db.chunks, s.vectors) && Registered(s'.db.chunks, s'.vectors)
    requires HoldsNothingOf(s.db, f) && PointsExcept(s'.vectors, f) == PointsExcept(s.vectors, f)
    ensures s'.vectors - ChunkIdsOf(s'.db, f) == s.vectors
  {
    assert PointsExcept(s.vectors, f) == s.vectors;
    assert PointsExcept(s'.vectors, f) == s'.vectors - ChunkIdsOf(s'.db, f);
  }

  // ---------------------------------------------------------------- the price of a torn file

  /** An edit, and a crash after the old version's vectors are deleted but before its rows are. */
  lemma CrashBetweenDeletes(w: World, s: State, f: Path, edit: string) returns (s': State)
    requires Invariant(w, s) && s.job.Idle? && Current(w, s, f) && w.hash(edit) != w.hash(s.disk[f])
    ensures Reaches(w, s, s') && s'.job.Idle? && s'.disk == s.disk[f := edit] && s'.db == s.db
    ensures PointsBy(s'.vectors, f) == map[]
  {
    ReachesSelf(w, s);
    ReachesStep(w, s, s, Edit(f, Some(edit)));
    var s1 := Apply(w, s, Edit(f, Some(edit)));
    ReachesStep(w, s, s1, BeginIndex(f));
    var s2 := Apply(w, s1, BeginIndex(f));
    var a := QdrantDelete(ChunkIdsOf(s.db, f), true);
    ReachesStep(w, s, s2, a);
    var s3 := Apply(w, s2, a);
    PointsAfterDelete(s, ChunkIdsOf(s.db, f), f);
    ReachesStep(w, s, s3, Abandon);
    s' := Apply(w, s3, Abandon);
  }

  lemma CurrentHasChunks(w: World, s: State, f: Path)
    requires Lawful(w) && Invariant(w, s) && Current(w, s, f) && Pieces(w, f, s.disk[f]) != []
    ensures ChunkIdsOf(s.db, f) != {}
  {
    CurrentRows(w, s, f);
    assert 0 in Upto(|Pieces(w, f, s.disk[f])|);
    assert 0 in NumbersIn(ChunksBy(s.db.chunks, f));
  }

  /**
   * Undo the edit after such a crash: the fingerprint matches the disk again, so no later run
   * indexes the file, yet none of its vectors is left.
   */
  lemma TornFileStaysSkipped(w: World, s: State, f: Path, edit: string) returns (s': State)
    requires Lawful(w) && Reachable(w, s) && s.job.Idle? && Current(w, s, f)
    requires edit != s.disk[f] && Pieces(w, f, s.disk[f]) != []
    ensures Reaches(w, s, s') && s'.job.Idle? && s'.disk == s.disk
    ensures Current(w, s', f) && !Enabled(w, s', BeginIndex(f))
    ensures ChunkIdsOf(s'.db, f) != {} && PointsBy(s'.vectors, f) == map[]
  {
    ReachableHolds(w, s);
    CurrentHasChunks(w, s, f);
    var s1 := CrashBetweenDeletes(w, s, f, edit);
    ReachesStep(w, s, s1, Edit(f, Some(s.disk[f])));
    s' := Apply(w, s1, Edit(f, Some(s.disk[f])));
    assert s'.disk == s.disk;
  }

  /** The file is left alone: no edit of it, no purge, and no job for it under way. */
  predicate Undisturbed(a: Action, f: Path)
  {
    (a.Edit? ==> a.f != f) && (a.BeginPurge? ==> a.f != f)
  }

  lemma CurrentStep(w: World, s: State, a: Action, f: Path)
    requires Lawful(w) && Invariant(w, s) && Current(w, s, f) && (s.job.Busy? ==> s.job.f != f)
    requires Enabled(w, s, a) && Undisturbed(a, f)
    ensures var s' := Apply(w, s, a);
            Current(w, s', f) && (s'.job.Busy? ==> s'.job.f != f) && ViewOf(s', f) == ViewOf(s, f)
  {
    if s.job.Busy? {
      if !a.Edit? {
        ActionTouches(w, s, a, s.job.f);
        OtherViewsKept(s, Apply(w, s, a), s.job.f, f);
      }
    } else {
      SameViews(w, s, Apply(w, s, a));
    }
  }

  /**
   * A file taken for current stays exactly as it is, torn or not, through any run, however many
   * jobs for other files it has, in which the file itself is neither edited nor deleted: no job
   * for it can begin.
   */
  lemma {:induction false} CurrentIsNeverTouched(w: World, s: State, actions: seq<Action>, f: Path)
    requires Lawful(w) && Invariant(w, s) && Current(w, s, f) && (s.job.Busy? ==> s.job.f != f)
    requires (forall i | 0 <= i < |actions| :: Undisturbed(actions[i], f)) && Run(w, s, actions).Some?
    ensures var s' := Run(w, s, actions).value;
      && Invariant(w, s') && Current(w, s', f) && (s'.job.Busy? ==> s'.job.f != f)
      && ViewOf(s', f) == ViewOf(s, f) && !Enabled(w, s', BeginIndex(f))
  {
    if actions != [] {
      var init, a := actions[..|actions| - 1], actions[|actions| - 1];
      CurrentIsNeverTouched(w, s, init, f);
      var s1 := Run(w, s, init).value;
      CurrentStep(w, s1, a, f);
      ActionKeeps(w, s1, a);
    }
  }
}
