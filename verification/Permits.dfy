/** Admission to the thread pool by permits. */
module Permits {
  // A request waits for a permit, submits its job under it, and the permit comes back in the callback
  // run after the job is done, not when the caller stops waiting for it.

  import opened Options

  datatype Phase = Waiting | Holding | Queued | Running | Returned | Gone

  datatype State = State(requests: seq<Phase>, free: nat)

  datatype Config = Config(limit: nat, workers: nat)

  datatype Action =
    | Arrive
    | Acquire(i: nat) | TimeOut(i: nat)
    | GiveBack(i: nat)   // no time is left, or the submission raises
    | Submit(i: nat) | Begin(i: nat) | Return(i: nat) | Callback(i: nat)

  function Count(requests: seq<Phase>, p: Phase): nat
  {
    if requests == [] then 0
    else Count(requests[..|requests| - 1], p) + if requests[|requests| - 1] == p then 1 else 0
  }

  function InFlight(requests: seq<Phase>): nat
  {
    Count(requests, Queued) + Count(requests, Running) + Count(requests, Returned)
  }

  predicate At(s: State, i: nat, p: Phase)
  {
    i < |s.requests| && s.requests[i] == p
  }

  predicate Enabled(c: Config, s: State, a: Action)
  {
    match a
    case Arrive => true
    case Acquire(i) => At(s, i, Waiting) && s.free > 0
    case TimeOut(i) => At(s, i, Waiting)
    case GiveBack(i) => At(s, i, Holding)
    case Submit(i) => At(s, i, Holding)
    case Begin(i) => At(s, i, Queued) && Count(s.requests, Running) < c.workers
    case Return(i) => At(s, i, Running)
    case Callback(i) => At(s, i, Returned)
  }

  function Apply(c: Config, s: State, a: Action): State
    requires Enabled(c, s, a)
  {
    match a
    case Arrive => s.(requests := s.requests + [Waiting])
    case Acquire(i) => State(s.requests[i := Holding], s.free - 1)
    case TimeOut(i) => s.(requests := s.requests[i := Gone])
    case GiveBack(i) => State(s.requests[i := Gone], s.free + 1)
    case Submit(i) => s.(requests := s.requests[i := Queued])
    case Begin(i) => s.(requests := s.requests[i := Running])
    case Return(i) => s.(requests := s.requests[i := Returned])
    case Callback(i) => State(s.requests[i := Gone], s.free + 1)
  }

  function Run(c: Config, actions: seq<Action>): Option<State>
  {
    if actions == [] then Some(State([], c.limit))
    else
      var last := actions[|actions| - 1];
      match Run(c, actions[..|actions| - 1])
      case None => None
      case Some(s) => if Enabled(c, s, last) then Some(Apply(c, s, last)) else None
  }

  // ---------------------------------------------------------------- no permit is lost or made

  lemma {:induction false} CountUpdate(requests: seq<Phase>, i: nat, p: Phase, q: Phase)
    requires i < |requests|
    ensures Count(requests[i := p], q) + (if requests[i] == q then 1 else 0)
            == Count(requests, q) + if p == q then 1 else 0
  {
    var n := |requests| - 1;
    if i < n {
      CountUpdate(requests[..n], i, p, q);
      assert requests[i := p][..n] == requests[..n][i := p];
    } else {
      assert requests[i := p][..n] == requests[..n];
    }
  }

  lemma CountSnoc(requests: seq<Phase>, p: Phase, q: Phase)
    ensures Count(requests + [p], q) == Count(requests, q) + if p == q then 1 else 0
  {
    assert (requests + [p])[..|requests|] == requests;
  }

  predicate Conserved(c: Config, s: State)
  {
    s.free + Count(s.requests, Holding) + InFlight(s.requests) == c.limit
  }

  lemma StepConserves(c: Config, s: State, a: Action)
    requires Conserved(c, s) && Enabled(c, s, a)
    ensures Conserved(c, Apply(c, s, a))
  {
    forall q: Phase | true
      ensures a.Arrive? ==> Count(s.requests + [Waiting], q) == Count(s.requests, q) + if q == Waiting then 1 else 0
    {
      CountSnoc(s.requests, Waiting, q);
    }
    if !a.Arrive? {
      var p := Apply(c, s, a).requests[a.i];
      CountUpdate(s.requests, a.i, p, Holding);
      CountUpdate(s.requests, a.i, p, Queued);
      CountUpdate(s.requests, a.i, p, Running);
      CountUpdate(s.requests, a.i, p, Returned);
    }
  }

  /** In every state of every run. */
  lemma {:induction false} PermitsConserved(c: Config, actions: seq<Action>)
    requires Run(c, actions).Some?
    ensures var s := Run(c, actions).value;
      s.free + Count(s.requests, Holding) + InFlight(s.requests) == c.limit
  {
    if actions != [] {
      var init := actions[..|actions| - 1];
      PermitsConserved(c, init);
      StepConserves(c, Run(c, init).value, actions[|actions| - 1]);
    }
  }

  // ---------------------------------------------------------------- an admitted job gets a worker

  lemma {:induction false} CountsQueued(requests: seq<Phase>, i: nat)
    requires i < |requests|
    ensures Count(requests, requests[i]) > 0
  {
    if i < |requests| - 1 { CountsQueued(requests[..|requests| - 1], i); }
  }

  ghost predicate NeverQueues(c: Config)
  {
    forall actions, i ::
      Run(c, actions).Some? && At(Run(c, actions).value, i, Queued) ==> Enabled(c, Run(c, actions).value, Begin(i))
  }

  lemma RunSnoc(c: Config, actions: seq<Action>, a: Action)
    requires Run(c, actions).Some? && Enabled(c, Run(c, actions).value, a)
    ensures Run(c, actions + [a]) == Some(Apply(c, Run(c, actions).value, a))
  {
    assert (actions + [a])[..|actions|] == actions;
  }

  /** n jobs submitted, the first k of them running. */
  function Jobs(n: nat, k: nat): seq<Phase>
  {
    seq(n, i => if i < k then Running else Queued)
  }

  lemma {:induction false} CountJobs(n: nat, k: nat)
    requires k <= n
    ensures Count(Jobs(n, k), Running) == k
  {
    if n > 0 {
      assert Jobs(n, k)[..n - 1] == Jobs(n - 1, if k < n then k else k - 1);
      CountJobs(n - 1, if k < n then k else k - 1);
    }
  }

  lemma {:induction false} SubmitMany(c: Config, n: nat) returns (actions: seq<Action>)
    requires n <= c.limit
    ensures Run(c, actions) == Some(State(Jobs(n, 0), c.limit - n))
  {
    if n == 0 {
      actions := [];
      assert Jobs(0, 0) == [];
    } else {
      actions := SubmitMany(c, n - 1);
      RunSnoc(c, actions, Arrive);
      actions := actions + [Arrive];
      RunSnoc(c, actions, Acquire(n - 1));
      actions := actions + [Acquire(n - 1)];
      RunSnoc(c, actions, Submit(n - 1));
      actions := actions + [Submit(n - 1)];
      assert Run(c, actions).value.requests == Jobs(n, 0);
    }
  }

  lemma {:induction false} BeginMany(c: Config, k: nat) returns (actions: seq<Action>)
    requires k <= c.workers && k <= c.limit
    ensures Run(c, actions) == Some(State(Jobs(c.limit, k), 0))
  {
    if k == 0 {
      actions := SubmitMany(c, c.limit);
    } else {
      actions := BeginMany(c, k - 1);
      CountJobs(c.limit, k - 1);
      RunSnoc(c, actions, Begin(k - 1));
      actions := actions + [Begin(k - 1)];
      assert Run(c, actions).value.requests == Jobs(c.limit, k);
    }
  }

  /** The settings check is exactly what keeps admitted requests from queueing inside the executor. */
  lemma NeverQueuesIff(c: Config)
    ensures NeverQueues(c) <==> c.limit <= c.workers
  {
    if c.limit <= c.workers {
      forall actions, i | Run(c, actions).Some? && At(Run(c, actions).value, i, Queued)
        ensures Enabled(c, Run(c, actions).value, Begin(i))
      {
        PermitsConserved(c, actions);
        CountsQueued(Run(c, actions).value.requests, i);
      }
    } else {
      var actions := BeginMany(c, c.workers);
      CountJobs(c.limit, c.workers);
      assert At(Run(c, actions).value, c.workers, Queued) && !Enabled(c, Run(c, actions).value, Begin(c.workers));
    }
  }

  /** Running jobs never exceed the permits, and once every request is gone all permits are free again. */
  lemma RunningWithinLimit(c: Config, actions: seq<Action>)
    requires Run(c, actions).Some?
    ensures var s := Run(c, actions).value;
      && Count(s.requests, Running) <= InFlight(s.requests) <= c.limit
      && ((forall i | 0 <= i < |s.requests| :: s.requests[i] == Gone) ==> s.free == c.limit)
  {
    PermitsConserved(c, actions);
    var requests := Run(c, actions).value.requests;
    if forall i | 0 <= i < |requests| :: requests[i] == Gone {
      AllGone(requests);
    }
  }

  lemma {:induction false} AllGone(requests: seq<Phase>)
    requires forall i | 0 <= i < |requests| :: requests[i] == Gone
    ensures Count(requests, Holding) == 0 && InFlight(requests) == 0
  {
    if requests != [] { AllGone(requests[..|requests| - 1]); }
  }
}
