/** One SQLite connection per thread, and close() for all of them. */
module Connections {
  // Threads open and register their own connections, and any thread may close them all.  The steps
  // between taking and leaving the lock are separate actions, so every other thread's unlocked steps
  // interleave with them.

  import opened Options

  type Thread = nat
  type Conn = nat

  datatype Entry = Entry(thread: Thread, conn: Conn)

  /**
   * Opened: the connection is made and not yet registered.  From Pruning to Leaving the lock is
   * held: by a thread registering its connection, or by one that closes all.
   */
  datatype Place =
    | Idle | Dead | Opened(conn: Conn)
    | Pruning(mine: Conn, live: seq<Entry>, i: nat) | Registered(own: Conn)
    | Closing(next: nat) | Cleared | Leaving

  /** `cached` is what the current thread-local object holds, thread by thread; `makers` is history: who opened
   * which connection, which are numbered as they are opened. */
  datatype State = State(
    places: map<Thread, Place>, lock: Option<Thread>, conns: seq<Entry>, cached: map<Thread, Conn>,
    open: set<Conn>, makers: seq<Thread>)

  const START := State(map[], None, [], map[], {}, [])

  datatype Action =
    | Start(t: Thread) | Exit(t: Thread)
    | Open(t: Thread) | Fail(t: Thread) | LockToRegister(t: Thread) | Prune(t: Thread)
    | Register(t: Thread) | Cache(t: Thread)
    | LockToClose(t: Thread) | CloseOne(t: Thread) | Clear(t: Thread) | Swap(t: Thread)
    | Unlock(t: Thread)

  predicate At(s: State, t: Thread, p: Place)
  {
    t in s.places && s.places[t] == p
  }

  predicate Enabled(s: State, a: Action)
  {
    match a
    case Start(t) => t !in s.places
    case Exit(t) => At(s, t, Idle)
    case Open(t) => At(s, t, Idle) && t !in s.cached
    case Fail(t) => t in s.places && s.places[t].Opened?
    case LockToRegister(t) => t in s.places && s.places[t].Opened? && s.lock == None
    case Prune(t) => t in s.places && s.places[t].Pruning? && s.places[t].i < |s.conns|
    case Register(t) => t in s.places && s.places[t].Pruning? && s.places[t].i >= |s.conns|
    case Cache(t) => t in s.places && s.places[t].Registered?
    case LockToClose(t) => At(s, t, Idle) && s.lock == None
    case CloseOne(t) => t in s.places && s.places[t].Closing? && s.places[t].next < |s.conns|
    case Clear(t) => t in s.places && s.places[t].Closing? && s.places[t].next >= |s.conns|
    case Swap(t) => At(s, t, Cleared)
    case Unlock(t) => At(s, t, Leaving)
  }

  function Move(s: State, t: Thread, p: Place): State
  {
    s.(places := s.places[t := p])
  }

  function PruneOne(s: State, t: Thread): State
    requires Enabled(s, Prune(t))
  {
    var p := s.places[t];
    var e := s.conns[p.i];
    if At(s, e.thread, Dead) then Move(s, t, Pruning(p.mine, p.live, p.i + 1)).(open := s.open - {e.conn})
    else Move(s, t, Pruning(p.mine, p.live + [e], p.i + 1))
  }

  function Apply(s: State, a: Action): State
    requires Enabled(s, a)
  {
    match a
    case Start(t) => Move(s, t, Idle)
    case Exit(t) => Move(s, t, Dead).(cached := s.cached - {t})
    case Open(t) => Move(s, t, Opened(|s.makers|)).(open := s.open + {|s.makers|}, makers := s.makers + [t])
    case Fail(t) => Move(s, t, Idle).(open := s.open - {s.places[t].conn})
    case LockToRegister(t) => Move(s, t, Pruning(s.places[t].conn, [], 0)).(lock := Some(t))
    case Prune(t) => PruneOne(s, t)
    case Register(t) =>
      Move(s, t, Registered(s.places[t].mine)).(conns := s.places[t].live + [Entry(t, s.places[t].mine)])
    case Cache(t) => Move(s, t, Leaving).(cached := s.cached[t := s.places[t].own])
    case LockToClose(t) => Move(s, t, Closing(0)).(lock := Some(t))
    case CloseOne(t) => Move(s, t, Closing(s.places[t].next + 1)).(open := s.open - {s.conns[s.places[t].next].conn})
    case Clear(t) => Move(s, t, Cleared).(conns := [])
    case Swap(t) => Move(s, t, Leaving).(cached := map[])
    case Unlock(t) => Move(s, t, Idle).(lock := None)
  }

  function Run(actions: seq<Action>): Option<State>
  {
    if actions == [] then Some(START)
    else
      var last := actions[|actions| - 1];
      match Run(actions[..|actions| - 1])
      case None => None
      case Some(s) => if Enabled(s, last) then Some(Apply(s, last)) else None
  }

  // ---------------------------------------------------------------- the invariant

  predicate Inside(p: Place)
  {
    p.Pruning? || p.Registered? || p.Closing? || p.Cleared? || p.Leaving?
  }

  ghost predicate Locking(s: State)
  {
    && (s.lock.Some? ==> s.lock.value in s.places && Inside(s.places[s.lock.value]))
    && forall t | t in s.places && Inside(s.places[t]) :: s.lock == Some(t)
  }

  /** The connection made and not yet registered. */
  function Hand(p: Place): Option<Conn>
  {
    match p
    case Opened(c) => Some(c)
    case Pruning(c, _, _) => Some(c)
    case _ => None
  }

  predicate MadeBy(s: State, t: Thread, c: Conn)
  {
    c < |s.makers| && s.makers[c] == t && t in s.places
  }

  ghost predicate SeparateConns(s: State)
  {
    forall i, j | 0 <= i < j < |s.conns| :: s.conns[i].conn != s.conns[j].conn
  }

  ghost predicate EntriesMade(s: State)
  {
    forall i | 0 <= i < |s.conns| :: MadeBy(s, s.conns[i].thread, s.conns[i].conn)
  }

  /** What a thread has in hand is open, and neither cached nor registered. */
  ghost predicate HandsSeparate(s: State)
  {
    forall t | t in s.places && Hand(s.places[t]).Some? ::
      var c := Hand(s.places[t]).value; MadeBy(s, t, c) && c in s.open && t !in s.cached && Entry(t, c) !in s.conns
  }

  ghost predicate CachedByLive(s: State)
  {
    forall t | t in s.cached :: MadeBy(s, t, s.cached[t]) && s.places[t] != Dead
  }

  /** A connection is registered for its maker only, only once, and not while in the maker's hands. */
  ghost predicate Separate(s: State)
  {
    SeparateConns(s) && EntriesMade(s) && HandsSeparate(s) && CachedByLive(s)
  }

  /** Every open connection is registered or still in the hands of the thread that opens it. */
  ghost predicate Accounted(s: State)
  {
    forall c | c in s.open ::
      c < |s.makers| && MadeBy(s, s.makers[c], c)
      && (Entry(s.makers[c], c) in s.conns || Hand(s.places[s.makers[c]]) == Some(c))
  }

  /** A live thread's connection is cached exactly when it is registered. */
  ghost predicate Agrees(s: State, t: Thread)
  {
    forall c :: Entry(t, c) in s.conns <==> (t in s.cached && s.cached[t] == c)
  }

  ghost predicate AllAgree(s: State)
  {
    forall t | t in s.places && s.places[t] != Dead :: Agrees(s, t)
  }

  ghost predicate OpenFrom(s: State, k: nat)
  {
    forall i | k <= i < |s.conns| :: s.conns[i].conn in s.open
  }

  ghost predicate PruneSoFar(s: State, live: seq<Entry>, i: nat)
  {
    && i <= |s.conns| && OpenFrom(s, i)
    && (forall j | 0 <= j < i :: s.conns[j] in live || (At(s, s.conns[j].thread, Dead) && s.conns[j].conn !in s.open))
    && (forall k | 0 <= k < |live| :: live[k] in s.conns[..i] && live[k].conn in s.open)
    && (forall j, k | 0 <= j < k < |live| :: live[j].conn != live[k].conn)
  }

  /** What holds inside the lock, by the place of the thread that holds it. */
  ghost predicate Holds(s: State, t: Thread)
    requires t in s.places
  {
    match s.places[t]
    case Pruning(mine, live, i) => AllAgree(s) && PruneSoFar(s, live, i)
    case Registered(own) =>
      && OpenFrom(s, 0) && t !in s.cached && (forall c :: Entry(t, c) in s.conns <==> c == own)
      && (forall u | u in s.places && s.places[u] != Dead && u != t :: Agrees(s, u))
    case Closing(next) =>
      AllAgree(s) && next <= |s.conns| && OpenFrom(s, next) && forall j | 0 <= j < next :: s.conns[j].conn !in s.open
    case Cleared => s.conns == [] && forall u | u in s.cached :: s.cached[u] !in s.open
    case _ => AllAgree(s) && OpenFrom(s, 0)
  }

  ghost predicate Contents(s: State)
  {
    if s.lock.Some? then s.lock.value in s.places && Holds(s, s.lock.value) else AllAgree(s) && OpenFrom(s, 0)
  }

  ghost predicate Invariant(s: State)
  {
    Locking(s) && Separate(s) && Accounted(s) && Contents(s)
  }

  // ---------------------------------------------------------------- every step keeps it

  predicate Outside(a: Action)
  {
    a.Start? || a.Exit? || a.Open? || a.Fail?
  }

  lemma OutsideSeparate(s: State, a: Action)
    requires Separate(s) && Enabled(s, a) && Outside(a)
    ensures Separate(Apply(s, a)) && (Locking(s) ==> Locking(Apply(s, a)))
  {
  }

  lemma OutsideAccounted(s: State, a: Action)
    requires Separate(s) && Accounted(s) && Enabled(s, a) && Outside(a)
    ensures Accounted(Apply(s, a))
  {
  }

  lemma OutsideAgree(s: State, a: Action, t: Thread)
    requires Separate(s) && Enabled(s, a) && Outside(a) && t in Apply(s, a).places && Apply(s, a).places[t] != Dead
    requires t in s.places ==> Agrees(s, t)
    ensures Agrees(Apply(s, a), t)
  {
  }

  lemma OutsideOpen(s: State, a: Action)
    requires Separate(s) && Enabled(s, a) && Outside(a)
    ensures forall i | 0 <= i < |s.conns| :: s.conns[i].conn in Apply(s, a).open <==> s.conns[i].conn in s.open
  {
  }

  lemma OutsideAllAgree(s: State, a: Action)
    requires Separate(s) && AllAgree(s) && Enabled(s, a) && Outside(a)
    ensures AllAgree(Apply(s, a))
  {
    var s' := Apply(s, a);
    forall t | t in s'.places && s'.places[t] != Dead ensures Agrees(s', t) {
      OutsideAgree(s, a, t);
    }
  }

  lemma OutsideHolds(s: State, a: Action, h: Thread)
    requires Separate(s) && Enabled(s, a) && Outside(a) && h in s.places && Inside(s.places[h]) && Holds(s, h)
    ensures var s' := Apply(s, a); s'.conns == s.conns && h in s'.places && s'.places[h] == s.places[h] && Holds(s', h)
  {
    OutsideOpen(s, a);
    var s' := Apply(s, a);
    if s.places[h].Registered? {
      forall t | t in s'.places && s'.places[t] != Dead && t != h ensures Agrees(s', t) {
        OutsideAgree(s, a, t);
      }
    } else if !s.places[h].Cleared? {
      OutsideAllAgree(s, a);
    }
  }

  lemma OutsideContents(s: State, a: Action)
    requires Invariant(s) && Enabled(s, a) && Outside(a)
    ensures Contents(Apply(s, a))
  {
    if s.lock.Some? {
      OutsideHolds(s, a, s.lock.value);
    } else {
      OutsideOpen(s, a);
      OutsideAllAgree(s, a);
    }
  }

  /** One thread has moved, with what it has in hand; registry and cache are the same. */
  predicate OneMoved(s: State, s': State, t: Thread)
  {
    && s'.conns == s.conns && s'.cached == s.cached && s'.makers == s.makers
    && t in s.places && t in s'.places && s'.places == s.places[t := s'.places[t]]
    && Hand(s'.places[t]) == Hand(s.places[t]) && s.places[t] != Dead && s'.places[t] != Dead
  }

  ghost predicate HandsOpen(s: State, open: set<Conn>)
  {
    forall u | u in s.places && Hand(s.places[u]).Some? :: Hand(s.places[u]).value in open
  }

  lemma MovedSeparate(s: State, s': State, t: Thread)
    requires OneMoved(s, s', t) && Separate(s) && HandsOpen(s, s'.open)
    ensures Separate(s')
  {
  }

  lemma MovedAgree(s: State, s': State, t: Thread)
    requires OneMoved(s, s', t) && AllAgree(s)
    ensures AllAgree(s')
  {
    forall u | u in s'.places && s'.places[u] != Dead ensures Agrees(s', u) {
      assert Agrees(s, u);
    }
  }

  lemma MovedAccounted(s: State, s': State, t: Thread)
    requires OneMoved(s, s', t) && Accounted(s) && s'.open <= s.open
    ensures Accounted(s')
  {
  }

  lemma MovedKeeps(s: State, s': State, t: Thread)
    requires OneMoved(s, s', t) && Separate(s) && Accounted(s) && s'.open <= s.open && HandsOpen(s, s'.open)
    ensures Separate(s') && Accounted(s') && (AllAgree(s) ==> AllAgree(s'))
  {
    MovedSeparate(s, s', t);
    MovedAccounted(s, s', t);
    if AllAgree(s) { MovedAgree(s, s', t); }
  }

  /** Closing a registered connection leaves what is in hand open. */
  lemma HandsStayOpen(s: State, i: nat)
    requires Separate(s) && i < |s.conns|
    ensures HandsOpen(s, s.open) && HandsOpen(s, s.open - {s.conns[i].conn})
  {
    forall u | u in s.places && Hand(s.places[u]).Some? ensures Hand(s.places[u]).value != s.conns[i].conn {
      assert s.conns[i] == Entry(s.conns[i].thread, s.conns[i].conn) && s.conns[i] in s.conns;
    }
  }

  lemma LockToRegisterKeeps(s: State, t: Thread)
    requires Invariant(s) && Enabled(s, LockToRegister(t))
    ensures Invariant(Apply(s, LockToRegister(t)))
  {
    MovedKeeps(s, Apply(s, LockToRegister(t)), t);
  }

  lemma LockToCloseKeeps(s: State, t: Thread)
    requires Invariant(s) && Enabled(s, LockToClose(t))
    ensures Invariant(Apply(s, LockToClose(t)))
  {
    MovedKeeps(s, Apply(s, LockToClose(t)), t);
  }

  lemma UnlockKeeps(s: State, t: Thread)
    requires Invariant(s) && Enabled(s, Unlock(t))
    ensures Invariant(Apply(s, Unlock(t)))
  {
    MovedKeeps(s, Apply(s, Unlock(t)), t);
  }

  lemma PruneKeeps(s: State, t: Thread)
    requires Invariant(s) && Enabled(s, Prune(t))
    ensures var s' := Apply(s, Prune(t)); Locking(s') && Separate(s') && Accounted(s') && AllAgree(s')
  {
    HandsStayOpen(s, s.places[t].i);
    MovedKeeps(s, Apply(s, Prune(t)), t);
  }

  lemma PruneDead(s: State, s': State, live: seq<Entry>, i: nat)
    requires Separate(s) && PruneSoFar(s, live, i) && i < |s.conns| && At(s, s.conns[i].thread, Dead)
    requires s'.conns == s.conns && s'.open == s.open - {s.conns[i].conn}
    requires forall u | u in s.places && s.places[u] == Dead :: At(s', u, Dead)
    ensures PruneSoFar(s', live, i + 1)
  {
  }

  lemma PruneLive(s: State, s': State, live: seq<Entry>, i: nat)
    requires Separate(s) && PruneSoFar(s, live, i) && i < |s.conns|
    requires s'.conns == s.conns && s'.open == s.open
    requires forall u | u in s.places && s.places[u] == Dead :: At(s', u, Dead)
    ensures PruneSoFar(s', live + [s.conns[i]], i + 1)
  {
    var longer := live + [s.conns[i]];
    assert s.conns[i] == longer[|live|] && forall e | e in live :: e in longer;
  }

  lemma PruneSoFarGrows(s: State, t: Thread)
    requires Invariant(s) && Enabled(s, Prune(t))
    ensures var s' := Apply(s, Prune(t)); PruneSoFar(s', s'.places[t].live, s'.places[t].i)
  {
    var s', p := Apply(s, Prune(t)), s.places[t];
    if At(s, s.conns[p.i].thread, Dead) {
      PruneDead(s, s', p.live, p.i);
    } else {
      PruneLive(s, s', p.live, p.i);
    }
  }

  lemma PruneContents(s: State, t: Thread)
    requires Invariant(s) && Enabled(s, Prune(t))
    ensures Contents(Apply(s, Prune(t)))
  {
    PruneKeeps(s, t);
    PruneSoFarGrows(s, t);
  }

  lemma RegisterDistinct(s: State, t: Thread)
    requires Invariant(s) && Enabled(s, Register(t))
    ensures var s' := Apply(s, Register(t)); Locking(s') && SeparateConns(s') && EntriesMade(s')
  {
    forall k | 0 <= k < |s.places[t].live| ensures s.places[t].live[k] in s.conns {
    }
  }

  lemma RegisterSeparate(s: State, t: Thread)
    requires Invariant(s) && Enabled(s, Register(t))
    ensures var s' := Apply(s, Register(t)); Locking(s') && Separate(s')
  {
    RegisterDistinct(s, t);
  }

  lemma RegisterAccounted(s: State, t: Thread)
    requires Invariant(s) && Enabled(s, Register(t))
    ensures var s' := Apply(s, Register(t)); Accounted(s')
  {
  }

  lemma RegisterContents(s: State, t: Thread)
    requires Invariant(s) && Enabled(s, Register(t))
    ensures var s' := Apply(s, Register(t)); Contents(s')
  {
  }

  lemma CacheKeeps(s: State, t: Thread)
    requires Invariant(s) && Enabled(s, Cache(t))
    ensures Invariant(Apply(s, Cache(t)))
  {
    assert Entry(t, s.places[t].own) in s.conns;
  }

  lemma CloseOneContents(s: State, t: Thread)
    requires Invariant(s) && Enabled(s, CloseOne(t)) && AllAgree(Apply(s, CloseOne(t)))
    ensures Contents(Apply(s, CloseOne(t)))
  {
  }

  lemma CloseOneKeeps(s: State, t: Thread)
    requires Invariant(s) && Enabled(s, CloseOne(t))
    ensures Invariant(Apply(s, CloseOne(t)))
  {
    HandsStayOpen(s, s.places[t].next);
    MovedKeeps(s, Apply(s, CloseOne(t)), t);
    CloseOneContents(s, t);
  }

  /** Every cached connection is registered, so when all entries are closed none of them is open. */
  lemma AllClosed(s: State, t: Thread)
    requires Invariant(s) && Enabled(s, Clear(t))
    ensures forall u | u in s.cached :: s.cached[u] !in s.open
  {
    forall u | u in s.cached ensures s.cached[u] !in s.open {
      assert Agrees(s, u) && Entry(u, s.cached[u]) in s.conns;
    }
  }

  lemma ClearKeeps(s: State, t: Thread)
    requires Invariant(s) && Enabled(s, Clear(t))
    ensures Invariant(Apply(s, Clear(t)))
  {
    AllClosed(s, t);
  }

  lemma SwapKeeps(s: State, t: Thread)
    requires Invariant(s) && Enabled(s, Swap(t))
    ensures Invariant(Apply(s, Swap(t)))
  {
  }

  lemma StepKeeps(s: State, a: Action)
    requires Invariant(s) && Enabled(s, a)
    ensures Invariant(Apply(s, a))
  {
    match a
    case LockToRegister(t) => LockToRegisterKeeps(s, t);
    case LockToClose(t) => LockToCloseKeeps(s, t);
    case Unlock(t) => UnlockKeeps(s, t);
    case Prune(t) => PruneKeeps(s, t); PruneContents(s, t);
    case Register(t) => RegisterSeparate(s, t); RegisterAccounted(s, t); RegisterContents(s, t);
    case Cache(t) => CacheKeeps(s, t);
    case CloseOne(t) => CloseOneKeeps(s, t);
    case Clear(t) => ClearKeeps(s, t);
    case Swap(t) => SwapKeeps(s, t);
    case _ => OutsideSeparate(s, a); OutsideAccounted(s, a); OutsideContents(s, a);
  }

  lemma {:induction false} RunKeeps(actions: seq<Action>)
    requires Run(actions).Some?
    ensures Invariant(Run(actions).value)
  {
    if actions != [] {
      var init := actions[..|actions| - 1];
      RunKeeps(init);
      StepKeeps(Run(init).value, actions[|actions| - 1]);
    }
  }

  // ---------------------------------------------------------------- what every run guarantees

  /** Whenever the lock is free: cached exactly when registered, open, one per live thread; and nothing leaks. */
  lemma RegistryWhenUnlocked(actions: seq<Action>)
    requires Run(actions).Some? && Run(actions).value.lock == None
    ensures var s := Run(actions).value;
      && (forall t, c | t in s.places && s.places[t] != Dead ::
            Entry(t, c) in s.conns <==> (t in s.cached && s.cached[t] == c))
      && (forall t, c | t in s.places && Entry(t, c) in s.conns :: c in s.open)
      && (forall i, j | 0 <= i < j < |s.conns| && !At(s, s.conns[i].thread, Dead) ::
            s.conns[i].thread != s.conns[j].thread)
      && (forall c | c in s.open :: exists t :: Entry(t, c) in s.conns || At(s, t, Opened(c)))
  {
    RunKeeps(actions);
    var s := Run(actions).value;
    forall i, j | 0 <= i < j < |s.conns| && !At(s, s.conns[i].thread, Dead)
      ensures s.conns[i].thread != s.conns[j].thread
    {
      assert s.conns[i] == Entry(s.conns[i].thread, s.conns[i].conn)
             && s.conns[j] == Entry(s.conns[j].thread, s.conns[j].conn);
    }
    forall c | c in s.open ensures exists t :: Entry(t, c) in s.conns || At(s, t, Opened(c)) {
      assert Entry(s.makers[c], c) in s.conns || At(s, s.makers[c], Opened(c));
    }
  }

  predicate ClosingNow(s: State)
  {
    s.lock.Some? && s.lock.value in s.places && (s.places[s.lock.value].Closing? || s.places[s.lock.value].Cleared?)
  }

  /** A thread that finds a cached connection gets an open one that no other thread uses, unless close() is at work. */
  lemma CachedIsOpen(actions: seq<Action>, t: Thread)
    requires Run(actions).Some? && t in Run(actions).value.cached
    requires !ClosingNow(Run(actions).value)
    ensures var s := Run(actions).value;
      s.cached[t] in s.open && forall u | u in s.cached && u != t :: s.cached[u] != s.cached[t]
  {
    RunKeeps(actions);
    var s := Run(actions).value;
    forall u | u in s.cached
      ensures Entry(u, s.cached[u]) in s.conns && s.cached[u] in s.open && MadeBy(s, u, s.cached[u])
    {
      if s.lock.Some? && s.places[s.lock.value].Registered? {
        assert u != s.lock.value && Agrees(s, u);
      } else {
        assert Agrees(s, u);
      }
    }
  }

  /** After close(), only connections still being opened are open, and every thread opens a fresh one. */
  lemma CloseLeavesNothing(actions: seq<Action>, t: Thread)
    requires Run(actions).Some? && Enabled(Run(actions).value, Swap(t))
    ensures var s := Apply(Run(actions).value, Swap(t));
      && s.conns == [] && s.cached == map[]
      && (forall c | c in s.open :: exists u :: At(s, u, Opened(c)))
  {
    RunKeeps(actions);
    SwapKeeps(Run(actions).value, t);
    var s := Apply(Run(actions).value, Swap(t));
    forall c | c in s.open ensures exists u :: At(s, u, Opened(c)) {
      assert At(s, s.makers[c], Opened(c));
    }
  }

  lemma RunSnoc(actions: seq<Action>, a: Action)
    requires Run(actions).Some? && Enabled(Run(actions).value, a)
    ensures Run(actions + [a]) == Some(Apply(Run(actions).value, a))
  {
    assert (actions + [a])[..|actions|] == actions;
  }

  /** The connection close() has yet to reach, or any when it is not at work. */
  ghost predicate NotYetClosed(s: State, t: Thread)
    requires t in s.cached
  {
    if !ClosingNow(s) then true
    else s.places[s.lock.value].Closing?
         && exists j | s.places[s.lock.value].next <= j < |s.conns| :: s.conns[j] == Entry(t, s.cached[t])
  }

  /** At any moment a cached connection is open if and only if close() has not reached it. */
  lemma CachedIsOpenIff(actions: seq<Action>, t: Thread)
    requires Run(actions).Some? && t in Run(actions).value.cached
    ensures var s := Run(actions).value; s.cached[t] in s.open <==> NotYetClosed(s, t)
  {
    var s := Run(actions).value;
    if !ClosingNow(s) {
      CachedIsOpen(actions, t);
    } else {
      RunKeeps(actions);
      if s.places[s.lock.value].Closing? {
        assert Agrees(s, t) && Entry(t, s.cached[t]) in s.conns;
      }
    }
  }

  lemma OneRegistered() returns (actions: seq<Action>)
    ensures Run(actions).Some?
    ensures var s := Run(actions).value; At(s, 0, Idle) && s.lock == None && |s.conns| == 1
    ensures var s := Run(actions).value;
      s.conns[0] == Entry(0, 0) && 0 in s.cached && s.cached[0] == 0 && s.places.Keys == {0}
  {
    actions := [];
    RunSnoc(actions, Start(0));
    actions := actions + [Start(0)];
    RunSnoc(actions, Open(0));
    actions := actions + [Open(0)];
    RunSnoc(actions, LockToRegister(0));
    actions := actions + [LockToRegister(0)];
    RunSnoc(actions, Register(0));
    actions := actions + [Register(0)];
    RunSnoc(actions, Cache(0));
    actions := actions + [Cache(0)];
    RunSnoc(actions, Unlock(0));
    actions := actions + [Unlock(0)];
  }

  /** While one thread is inside close(), another that is free to ask finds its connection cached and closed. */
  lemma ClosedWhileCached() returns (actions: seq<Action>)
    ensures Run(actions).Some?
    ensures var s := Run(actions).value;
      && At(s, 0, Idle) && 0 in s.cached && s.cached[0] !in s.open
      && At(s, 1, Closing(1)) && s.lock == Some(1)
  {
    actions := OneRegistered();
    RunSnoc(actions, Start(1));
    actions := actions + [Start(1)];
    RunSnoc(actions, LockToClose(1));
    actions := actions + [LockToClose(1)];
    RunSnoc(actions, CloseOne(1));
    actions := actions + [CloseOne(1)];
  }
}
