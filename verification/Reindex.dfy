/** A run from the index paths to the stores: the scan feeds the indexer. */
module Reindexing {
  import opened Options
  import opened Records
  import opened Ingestion
  import opened IngestionTheorems
  import opened Scan
  import opened Indexers

  /** Some index path shows the file. */
  ghost predicate Found(indexPaths: seq<IndexPath>, p: Location)
  {
    exists ip :: ip in indexPaths && FoundIn(ip, p)
  }

  /** Some index path leads to the file, whether or not the walk gets there. */
  ghost predicate Held(indexPaths: seq<IndexPath>, p: Location)
  {
    exists ip :: ip in indexPaths && Holds(ip, p)
  }

  function PathsOf(files: seq<Location>, pathOf: Location -> Path): (paths: seq<Path>)
    ensures |paths| == |files| && forall i | 0 <= i < |files| :: paths[i] == pathOf(files[i])
  {
    seq(|files|, i requires 0 <= i < |files| => pathOf(files[i]))
  }

  lemma ListedIffFound(files: seq<Location>, pathOf: Location -> Path, locationOf: Path -> Location, p: Location)
    requires forall q :: locationOf(pathOf(q)) == q
    ensures pathOf(p) in PathsOf(files, pathOf) <==> p in files
  {
    if pathOf(p) in PathsOf(files, pathOf) {
      var i :| 0 <= i < |files| && PathsOf(files, pathOf)[i] == pathOf(p);
      assert locationOf(pathOf(files[i])) == locationOf(pathOf(p));
    }
    if p in files {
      var i :| 0 <= i < |files| && files[i] == p;
      assert PathsOf(files, pathOf)[i] == pathOf(p);
    }
  }

  /**
   * Scan, purge what is gone, index what was found.  However the scan and the run fail, a file
   * that an index path leads to keeps all that the stores hold of it if it is current or if the
   * walk did not get to it, and so does every file below a place that could not be scanned.
   */
  method Reindex(indexer: Indexer, indexPaths: seq<IndexPath>, pathOf: Location -> Path, locationOf: Path -> Location)
    returns (completed: bool, failed: nat, partial: nat)
    requires indexer.Valid() && indexer.job.Idle?
    requires forall p :: locationOf(pathOf(p)) == p
    modifies indexer`log, indexer`job, indexer`torn, indexer.client, indexer.store
    ensures indexer.Valid() && indexer.job.Idle?
    ensures forall p |
              Held(indexPaths, p) && (Current(indexer.w, old(indexer.Now()), pathOf(p)) || !Found(indexPaths, p)) ::
              Spared(indexer.w, old(indexer.Now()), indexer.Now(), pathOf(p))
    ensures forall p | OutOfSight(indexPaths, p) && !Found(indexPaths, p) ::
              Spared(indexer.w, old(indexer.Now()), indexer.Now(), pathOf(p))
    ensures completed && failed == 0 && partial == 0 ==> forall p | Found(indexPaths, p) ::
              HealedIn(indexer.w, old(indexer.Now()), indexer.Now(), pathOf(p))
    ensures completed ==>
              forall p | pathOf(p) in Tracked(indexer.Now()) :: Found(indexPaths, p) || OutOfSight(indexPaths, p)
  {
    var files, unscanned := CollectFiles(indexPaths);
    var blind := (g: Path) => exists i | 0 <= i < |unscanned| :: unscanned[i] <= locationOf(g);
    completed, failed, partial := indexer.RunOnce(PathsOf(files, pathOf), blind);
    forall p
      ensures pathOf(p) in PathsOf(files, pathOf) <==> Found(indexPaths, p)
      ensures blind(pathOf(p)) <==> OutOfSight(indexPaths, p)
    {
      ListedIffFound(files, pathOf, locationOf, p);
      BlindIffOutOfSight(indexPaths, unscanned, p);
    }
    forall p | Held(indexPaths, p) && !Found(indexPaths, p) ensures OutOfSight(indexPaths, p) {
      var ip :| ip in indexPaths && Holds(ip, p);
      HeldIsNeverStale(indexPaths, ip, p);
    }
  }
}
