/** The scan that decides which tracked files are gone. */
module Scan {
  // A walk over directories that may be missing, unreadable or not enterable, and the rule that
  // nothing under such a directory counts as deleted.

  import opened Options

  type Name = string
  type Location = seq<Name>

  /**
   * A directory tree as the walk meets it.  `accepted` says that a file passes the safety checks;
   * a directory that is not enterable lists its names, but inspecting a file in it raises.
   */
  datatype Node =
    | File(name: Name, accepted: bool)
    | Dir(name: Name, link: bool, listable: bool, enterable: bool, children: seq<Node>)

  /** An index path and the ignore patterns; `root` is None when the path is no directory. */
  datatype IndexPath = IndexPath(at: Location, root: Option<Node>, recursive: bool,
                                 excluded: Name -> bool, ignored: Name -> bool)

  predicate Descends(ip: IndexPath, child: Node)
  {
    child.Dir? && !child.link && ip.recursive && !ip.excluded(child.name) && !ip.ignored(child.name)
  }

  predicate Accepts(ip: IndexPath, child: Node)
  {
    child.File? && child.accepted && !ip.ignored(child.name)
  }

  /** p is an accepted file that non-excluded directories lead to from this one. */
  ghost predicate Leads(ip: IndexPath, dir: Node, at: Location, p: Location)
    requires dir.Dir?
    decreases dir
  {
    exists i | 0 <= i < |dir.children| :: LeadsBy(ip, dir, at, p, i)
  }

  ghost predicate LeadsBy(ip: IndexPath, dir: Node, at: Location, p: Location, i: nat)
    requires dir.Dir? && i < |dir.children|
    decreases dir, 0
  {
    var child := dir.children[i];
    || (Accepts(ip, child) && p == at + [child.name])
    || (Descends(ip, child) && Leads(ip, child, at + [child.name], p))
  }

  /**
   * A way from the directory to a file: through directories that are no links and neither excluded
   * nor ignored, on a path that is searched recursively if there are any, to a file that is safe
   * and not ignored.
   */
  ghost predicate Route(ip: IndexPath, dir: Node, route: seq<Node>)
    requires dir.Dir?
  {
    && route != [] && route[0] in dir.children
    && (forall i | 0 <= i < |route| - 1 :: StepsTo(ip, route, i))
    && var last := route[|route| - 1]; last.File? && last.accepted && !ip.ignored(last.name)
  }

  predicate StepsTo(ip: IndexPath, route: seq<Node>, i: nat)
    requires i < |route| - 1
  {
    Passes(ip, route[i]) && route[i + 1] in route[i].children
  }

  predicate Passes(ip: IndexPath, dir: Node)
  {
    dir.Dir? && ip.recursive && !dir.link && !ip.excluded(dir.name) && !ip.ignored(dir.name)
  }

  function NamesOf(route: seq<Node>): Location
  {
    seq(|route|, i requires 0 <= i < |route| => route[i].name)
  }

  lemma RouteCons(ip: IndexPath, dir: Node, child: Node, rest: seq<Node>, at: Location)
    requires dir.Dir? && child in dir.children && Passes(ip, child) && Route(ip, child, rest)
    ensures Route(ip, dir, [child] + rest) && at + NamesOf([child] + rest) == at + [child.name] + NamesOf(rest)
  {
    var route := [child] + rest;
    assert route[|route| - 1] == rest[|rest| - 1];
    forall i | 0 <= i < |route| - 1 ensures StepsTo(ip, route, i) {
      if i > 0 {
        assert StepsTo(ip, rest, i - 1);
      }
    }
  }

  lemma RouteTail(ip: IndexPath, dir: Node, route: seq<Node>, at: Location)
    requires dir.Dir? && Route(ip, dir, route) && |route| > 1
    ensures Passes(ip, route[0]) && Route(ip, route[0], route[1..])
    ensures at + NamesOf(route) == at + [route[0].name] + NamesOf(route[1..])
  {
    var rest := route[1..];
    assert rest[|rest| - 1] == route[|route| - 1] && rest[0] == route[1];
    assert StepsTo(ip, route, 0);
    forall i | 0 <= i < |rest| - 1 ensures StepsTo(ip, rest, i) {
      assert StepsTo(ip, route, i + 1);
    }
  }

  lemma {:induction false} RouteOf(ip: IndexPath, dir: Node, at: Location, p: Location) returns (route: seq<Node>)
    requires dir.Dir? && Leads(ip, dir, at, p)
    ensures Route(ip, dir, route) && p == at + NamesOf(route)
    decreases dir
  {
    var i :| 0 <= i < |dir.children| && LeadsBy(ip, dir, at, p, i);
    var child := dir.children[i];
    if Accepts(ip, child) && p == at + [child.name] {
      route := [child];
      assert NamesOf(route) == [child.name];
    } else {
      var rest := RouteOf(ip, child, at + [child.name], p);
      RouteCons(ip, dir, child, rest, at);
      route := [child] + rest;
    }
  }

  lemma {:induction false} RouteLeads(ip: IndexPath, dir: Node, at: Location, route: seq<Node>)
    requires dir.Dir? && Route(ip, dir, route)
    ensures Leads(ip, dir, at, at + NamesOf(route))
    decreases |route|
  {
    var i :| 0 <= i < |dir.children| && dir.children[i] == route[0];
    if |route| == 1 {
      assert NamesOf(route) == [route[0].name];
      assert LeadsBy(ip, dir, at, at + NamesOf(route), i);
    } else {
      RouteTail(ip, dir, route, at);
      RouteLeads(ip, route[0], at + [route[0].name], route[1..]);
      assert LeadsBy(ip, dir, at, at + NamesOf(route), i);
    }
  }

  /** The walk leads exactly to the files at the end of such a way. */
  lemma LeadsIff(ip: IndexPath, dir: Node, at: Location, p: Location)
    requires dir.Dir?
    ensures Leads(ip, dir, at, p) <==> exists route :: Route(ip, dir, route) && p == at + NamesOf(route)
  {
    if Leads(ip, dir, at, p) {
      var route := RouteOf(ip, dir, at, p);
    }
    if route :| Route(ip, dir, route) && p == at + NamesOf(route) {
      RouteLeads(ip, dir, at, route);
    }
  }

  /** Every directory on the way can be listed and entered. */
  predicate Readable(dir: Node)
    requires dir.Dir?
  {
    dir.listable && dir.enterable && forall c | c in dir.children && c.Dir? :: Readable(c)
  }

  // ---------------------------------------------------------------- what the walk finds, and where it fails

  /** Some file of the directory has to be inspected, and that raises. */
  predicate Raises(ip: IndexPath, dir: Node)
    requires dir.Dir?
  {
    !dir.enterable && exists i | 0 <= i < |dir.children| :: dir.children[i].File? && !ip.ignored(dir.children[i].name)
  }

  ghost predicate Finds(ip: IndexPath, dir: Node, at: Location, p: Location)
    requires dir.Dir?
    decreases dir, 1
  {
    && dir.listable
    && ((!Raises(ip, dir) && Lists(ip, dir, at, p))
        || exists i | 0 <= i < |dir.children| :: FindsBelow(ip, dir, at, p, i))
  }

  /** p is an accepted file of the directory itself. */
  ghost predicate Lists(ip: IndexPath, dir: Node, at: Location, p: Location)
    requires dir.Dir?
  {
    exists i | 0 <= i < |dir.children| :: Accepts(ip, dir.children[i]) && p == at + [dir.children[i].name]
  }

  ghost predicate FindsBelow(ip: IndexPath, dir: Node, at: Location, p: Location, i: nat)
    requires dir.Dir? && i < |dir.children|
    decreases dir, 0
  {
    var child := dir.children[i];
    Descends(ip, child) && Finds(ip, child, at + [child.name], p)
  }

  /** A directory on the walk, at location u, cannot be listed, or its files cannot be inspected. */
  ghost predicate Fails(ip: IndexPath, dir: Node, at: Location, u: Location)
    requires dir.Dir?
    decreases dir, 1
  {
    if !dir.listable then u == at
    else (u == at && Raises(ip, dir)) || exists i | 0 <= i < |dir.children| :: FailsBelow(ip, dir, at, u, i)
  }

  ghost predicate FailsBelow(ip: IndexPath, dir: Node, at: Location, u: Location, i: nat)
    requires dir.Dir? && i < |dir.children|
    decreases dir, 0
  {
    var child := dir.children[i];
    Descends(ip, child) && Fails(ip, child, at + [child.name], u)
  }

  lemma {:induction false} LeadsBelow(ip: IndexPath, dir: Node, at: Location, p: Location)
    requires dir.Dir? && Leads(ip, dir, at, p)
    ensures at <= p
    decreases dir
  {
    var i :| 0 <= i < |dir.children| && LeadsBy(ip, dir, at, p, i);
    var child := dir.children[i];
    if Descends(ip, child) && Leads(ip, child, at + [child.name], p) {
      LeadsBelow(ip, child, at + [child.name], p);
    }
  }

  /** A file is missed only below a directory where the walk fails. */
  lemma {:induction false} LeadsIsFoundOrFails(ip: IndexPath, dir: Node, at: Location, p: Location)
    requires dir.Dir? && Leads(ip, dir, at, p)
    ensures Finds(ip, dir, at, p) || exists u :: Fails(ip, dir, at, u) && u <= p
    decreases dir
  {
    LeadsBelow(ip, dir, at, p);
    var i :| 0 <= i < |dir.children| && LeadsBy(ip, dir, at, p, i);
    var child := dir.children[i];
    if dir.listable && Descends(ip, child) && Leads(ip, child, at + [child.name], p) {
      LeadsIsFoundOrFails(ip, child, at + [child.name], p);
      if Finds(ip, child, at + [child.name], p) {
        assert FindsBelow(ip, dir, at, p, i);
      } else {
        var u :| Fails(ip, child, at + [child.name], u) && u <= p;
        assert FailsBelow(ip, dir, at, u, i) && Fails(ip, dir, at, u);
      }
    } else if dir.listable && !Raises(ip, dir) {
      assert Lists(ip, dir, at, p);
    } else {
      assert Fails(ip, dir, at, at);
    }
  }

  /** What is found is there. */
  lemma {:induction false} FoundLeads(ip: IndexPath, dir: Node, at: Location, p: Location)
    requires dir.Dir? && Finds(ip, dir, at, p)
    ensures Leads(ip, dir, at, p)
    decreases dir
  {
    if i :| 0 <= i < |dir.children| && FindsBelow(ip, dir, at, p, i) {
      FoundLeads(ip, dir.children[i], at + [dir.children[i].name], p);
      assert LeadsBy(ip, dir, at, p, i);
    } else {
      var i :| 0 <= i < |dir.children| && Accepts(ip, dir.children[i]) && p == at + [dir.children[i].name];
      assert LeadsBy(ip, dir, at, p, i);
    }
  }

  lemma {:induction false} ReadableNeverFails(ip: IndexPath, dir: Node, at: Location, u: Location)
    requires dir.Dir? && Readable(dir)
    ensures !Fails(ip, dir, at, u)
    decreases dir
  {
    if i :| 0 <= i < |dir.children| && FailsBelow(ip, dir, at, u, i) {
      assert dir.children[i] in dir.children;
      ReadableNeverFails(ip, dir.children[i], at + [dir.children[i].name], u);
    }
  }

  // ---------------------------------------------------------------- the walk

  /** The files of one directory, or none when inspecting one raises. */
  method AcceptFiles(ip: IndexPath, dir: Node, at: Location) returns (files: seq<Location>, raised: bool)
    requires dir.Dir?
    ensures raised <==> Raises(ip, dir)
    ensures forall p :: p in files <==> !raised && Lists(ip, dir, at, p)
  {
    files, raised := [], false;
    for i := 0 to |dir.children|
      invariant forall p :: p in files <==>
                  exists j | 0 <= j < i :: Accepts(ip, dir.children[j]) && p == at + [dir.children[j].name]
      invariant !dir.enterable ==> forall j | 0 <= j < i :: !dir.children[j].File? || ip.ignored(dir.children[j].name)
    {
      var child := dir.children[i];
      if child.File? && !ip.ignored(child.name) {
        if !dir.enterable {
          return [], true;
        }
        if child.accepted {
          files := files + [at + [child.name]];
        }
      }
    }
  }

  /** The first n children account for p, or for the failure at u. */
  ghost predicate FoundSoFar(ip: IndexPath, dir: Node, at: Location, p: Location, n: nat)
    requires dir.Dir? && n <= |dir.children|
  {
    exists j | 0 <= j < n :: FindsBelow(ip, dir, at, p, j)
  }

  ghost predicate FailedSoFar(ip: IndexPath, dir: Node, at: Location, u: Location, n: nat)
    requires dir.Dir? && n <= |dir.children|
  {
    exists j | 0 <= j < n :: FailsBelow(ip, dir, at, u, j)
  }

  lemma NextChild(ip: IndexPath, dir: Node, at: Location, n: nat)
    requires dir.Dir? && n < |dir.children|
    ensures forall p :: FoundSoFar(ip, dir, at, p, n + 1) <==>
              FoundSoFar(ip, dir, at, p, n) || FindsBelow(ip, dir, at, p, n)
    ensures forall u :: FailedSoFar(ip, dir, at, u, n + 1) <==>
              FailedSoFar(ip, dir, at, u, n) || FailsBelow(ip, dir, at, u, n)
  {
  }

  /** The walk from one directory down: exactly what is found, and exactly where it fails. */
  method WalkTree(ip: IndexPath, dir: Node, at: Location) returns (files: seq<Location>, unscanned: seq<Location>)
    requires dir.Dir?
    ensures forall p :: p in files <==> Finds(ip, dir, at, p)
    ensures forall u :: u in unscanned <==> Fails(ip, dir, at, u)
    decreases dir
  {
    if !dir.listable {
      return [], [at];
    }
    var raised;
    files, raised := AcceptFiles(ip, dir, at);
    unscanned := if raised then [at] else [];
    for i := 0 to |dir.children|
      invariant forall p :: p in files <==> (!raised && Lists(ip, dir, at, p)) || FoundSoFar(ip, dir, at, p, i)
      invariant forall u :: u in unscanned <==> (u == at && raised) || FailedSoFar(ip, dir, at, u, i)
    {
      var child := dir.children[i];
      NextChild(ip, dir, at, i);
      if Descends(ip, child) {
        assert child in dir.children;
        var below, blocked := WalkTree(ip, child, at + [child.name]);
        files := files + below;
        unscanned := unscanned + blocked;
      }
      forall p
        ensures p in files <==>
                  (!raised && Lists(ip, dir, at, p)) || FoundSoFar(ip, dir, at, p, i) || FindsBelow(ip, dir, at, p, i)
      {
      }
      forall u
        ensures u in unscanned <==>
                  (u == at && raised) || FailedSoFar(ip, dir, at, u, i) || FailsBelow(ip, dir, at, u, i)
      {
      }
    }
  }

  // ---------------------------------------------------------------- index paths

  /** The files an index path holds, if it is a directory. */
  ghost predicate Holds(ip: IndexPath, p: Location)
  {
    ip.root.Some? && ip.root.value.Dir? && Leads(ip, ip.root.value, ip.at, p)
  }

  ghost predicate FoundIn(ip: IndexPath, p: Location)
  {
    ip.root.Some? && ip.root.value.Dir? && Finds(ip, ip.root.value, ip.at, p)
  }

  /** Where a file's absence proves nothing: below a failure, or anywhere in an index path that shows no file. */
  ghost predicate BlockedIn(ip: IndexPath, u: Location)
  {
    || (ip.root.Some? && ip.root.value.Dir? && Fails(ip, ip.root.value, ip.at, u))
    || (u == ip.at && forall p :: !FoundIn(ip, p))
  }

  lemma HeldIsFoundOrBlocked(ip: IndexPath, p: Location)
    requires Holds(ip, p)
    ensures FoundIn(ip, p) || exists u :: BlockedIn(ip, u) && u <= p
  {
    LeadsIsFoundOrFails(ip, ip.root.value, ip.at, p);
    if !FoundIn(ip, p) {
      var u :| Fails(ip, ip.root.value, ip.at, u) && u <= p;
      assert BlockedIn(ip, u);
    }
  }

  method WalkIndexPath(ip: IndexPath) returns (files: seq<Location>, unscanned: seq<Location>)
    ensures forall p :: p in files <==> FoundIn(ip, p)
    ensures forall u :: u in unscanned <==> ip.root.Some? && ip.root.value.Dir? && Fails(ip, ip.root.value, ip.at, u)
  {
    files, unscanned := [], [];
    if ip.root.Some? && ip.root.value.Dir? {
      files, unscanned := WalkTree(ip, ip.root.value, ip.at);
    }
  }

  /** One index path's share of the scan: an empty result makes the whole path unscanned. */
  method CollectFrom(ip: IndexPath) returns (files: seq<Location>, unscanned: seq<Location>)
    ensures forall p :: p in files <==> FoundIn(ip, p)
    ensures forall u :: u in unscanned <==> BlockedIn(ip, u)
  {
    files, unscanned := WalkIndexPath(ip);
    if files == [] {
      unscanned := unscanned + [ip.at];
    } else {
      assert files[0] in files;
    }
  }

  method CollectFiles(indexPaths: seq<IndexPath>) returns (files: seq<Location>, unscanned: seq<Location>)
    ensures forall p :: p in files <==> exists ip :: ip in indexPaths && FoundIn(ip, p)
    ensures forall u :: u in unscanned <==> exists ip :: ip in indexPaths && BlockedIn(ip, u)
  {
    files, unscanned := [], [];
    for i := 0 to |indexPaths|
      invariant forall p :: p in files <==> exists j | 0 <= j < i :: FoundIn(indexPaths[j], p)
      invariant forall u :: u in unscanned <==> exists j | 0 <= j < i :: BlockedIn(indexPaths[j], u)
    {
      var found, blocked := CollectFrom(indexPaths[i]);
      files := files + found;
      unscanned := unscanned + blocked;
    }
    forall p ensures p in files <==> exists ip :: ip in indexPaths && FoundIn(ip, p) {
      if ip :| ip in indexPaths && FoundIn(ip, p) {
        var j :| 0 <= j < |indexPaths| && indexPaths[j] == ip;
      }
    }
    forall u ensures u in unscanned <==> exists ip :: ip in indexPaths && BlockedIn(ip, u) {
      if ip :| ip in indexPaths && BlockedIn(ip, u) {
        var j :| 0 <= j < |indexPaths| && indexPaths[j] == ip;
      }
    }
  }

  /** Some index path was blocked at or above p. */
  ghost predicate OutOfSight(indexPaths: seq<IndexPath>, p: Location)
  {
    exists ip, u :: ip in indexPaths && BlockedIn(ip, u) && u <= p
  }

  lemma BlindIffOutOfSight(indexPaths: seq<IndexPath>, unscanned: seq<Location>, p: Location)
    requires forall u :: u in unscanned <==> exists ip :: ip in indexPaths && BlockedIn(ip, u)
    ensures (exists i | 0 <= i < |unscanned| :: unscanned[i] <= p) <==> OutOfSight(indexPaths, p)
  {
    if i :| 0 <= i < |unscanned| && unscanned[i] <= p {
      assert unscanned[i] in unscanned;
      var ip :| ip in indexPaths && BlockedIn(ip, unscanned[i]);
    }
    if ip, u :| ip in indexPaths && BlockedIn(ip, u) && u <= p {
      assert u in unscanned;
    }
  }

  /** The stale set of `main`: exactly the tracked paths neither found nor out of sight. */
  method FindStale(indexPaths: seq<IndexPath>, tracked: set<Location>) returns (stale: set<Location>)
    ensures forall p :: p in stale <==>
              p in tracked && (forall ip | ip in indexPaths :: !FoundIn(ip, p)) && !OutOfSight(indexPaths, p)
  {
    var files, unscanned := CollectFiles(indexPaths);
    stale := set p | p in tracked && p !in files && !exists i | 0 <= i < |unscanned| :: unscanned[i] <= p;
    forall p | p in tracked
      ensures (exists i | 0 <= i < |unscanned| :: unscanned[i] <= p) <==> OutOfSight(indexPaths, p)
    {
      BlindIffOutOfSight(indexPaths, unscanned, p);
    }
  }

  // ---------------------------------------------------------------- what may be purged

  /** A file that an index path leads to is never stale, whatever fails to list or enter. */
  lemma HeldIsNeverStale(indexPaths: seq<IndexPath>, ip: IndexPath, p: Location)
    requires ip in indexPaths && Holds(ip, p)
    ensures FoundIn(ip, p) || OutOfSight(indexPaths, p)
  {
    HeldIsFoundOrBlocked(ip, p);
    if !FoundIn(ip, p) {
      var u :| BlockedIn(ip, u) && u <= p;
    }
  }

  /** Nothing below an index path that shows no file is stale: it may be offline. */
  lemma NothingShownNothingStale(indexPaths: seq<IndexPath>, ip: IndexPath, p: Location)
    requires ip in indexPaths && (forall q :: !Holds(ip, q)) && ip.at <= p
    ensures OutOfSight(indexPaths, p)
  {
    forall q ensures FoundIn(ip, q) ==> Holds(ip, q) {
      if FoundIn(ip, q) { FoundLeads(ip, ip.root.value, ip.at, q); }
    }
    assert BlockedIn(ip, ip.at);
  }

  /** An index path whose directories can all be read and that holds a file. */
  ghost predicate Plain(ip: IndexPath)
  {
    ip.root.Some? && ip.root.value.Dir? && Readable(ip.root.value) && exists q :: Holds(ip, q)
  }

  lemma PlainIsNeverBlocked(ip: IndexPath, u: Location)
    requires Plain(ip)
    ensures !BlockedIn(ip, u) && forall p :: FoundIn(ip, p) <==> Holds(ip, p)
  {
    ReadableNeverFails(ip, ip.root.value, ip.at, u);
    forall p ensures FoundIn(ip, p) <==> Holds(ip, p) {
      if FoundIn(ip, p) { FoundLeads(ip, ip.root.value, ip.at, p); }
      if Holds(ip, p) {
        LeadsIsFoundOrFails(ip, ip.root.value, ip.at, p);
        if v :| Fails(ip, ip.root.value, ip.at, v) && v <= p { ReadableNeverFails(ip, ip.root.value, ip.at, v); }
      }
    }
  }

  /** When everything can be read, the stale paths are exactly those no index path holds. */
  lemma ReadableStaleIff(indexPaths: seq<IndexPath>, p: Location)
    requires forall ip | ip in indexPaths :: Plain(ip)
    ensures ((forall ip | ip in indexPaths :: !FoundIn(ip, p)) && !OutOfSight(indexPaths, p))
            <==> forall ip | ip in indexPaths :: !Holds(ip, p)
  {
    forall ip | ip in indexPaths ensures FoundIn(ip, p) <==> Holds(ip, p) {
      PlainIsNeverBlocked(ip, ip.at);
    }
    if ip, u :| ip in indexPaths && BlockedIn(ip, u) && u <= p {
      PlainIsNeverBlocked(ip, u);
    }
  }
}
