/** The bridge from a worker thread to an asynchronous stream. */
module Bridge {
  // One streamed answer: a worker thread hands items over to the event loop's bounded queue, and an
  // asynchronous consumer takes them from there.  Every step of the worker, the loop, the consumer
  // and the disconnect watcher is one action, and actions interleave freely.

  import opened Options

  const QUEUE_SIZE := 32

  /** Error stands for the exception object handed over, End for the None that ends the stream. */
  datatype Item = Text(text: string) | Error | End

  /** The worker inside the generator, or at one of _put's three steps. */
  datatype Worker = Generating | Checking(item: Item) | Scheduling(item: Item) | Awaiting(item: Item) | Finished

  /** The put the worker waits for. */
  datatype Delivery = NoPut | Waiting(item: Item) | Delivered | Cancelled

  datatype Consumer = Reading | Ended | Failed | TimedOut | Closed

  /**
   * History: what the generator produced, and whether it returned or raised; how many pieces, and
   * whether the error and the end, were handed to the loop and not dropped by it; whether the worker
   * gave up on the put of a piece or of the error, and with it on the generator.
   */
  datatype Ledger = Ledger(
    produced: seq<string>, returned: bool, raised: bool, kept: nat, errorKept: bool, endKept: bool, cut: bool)

  /**
   * abandoned: timed-out puts whose cancellation the loop has not reached, oldest first.
   */
  datatype State = State(
    worker: Worker, delivery: Delivery, abandoned: seq<Item>, queue: seq<Item>, consumer: Consumer,
    emitted: seq<string>, cancel: bool, loopOpen: bool, ledger: Ledger)

  const START :=
    State(Generating, NoPut, [], [], Reading, [], false, true, Ledger([], false, false, 0, false, false, false))

  datatype Action =
    | Produce(text: string) | Return | Raise
    | LookAtCancel | Schedule | SeeDelivered | SeeCancelled | GiveUp
    | Deliver | DeliverAbandoned | DropAbandoned | CancelPut | CloseLoop
    | Take | TimeOut | Leave | Cleanup | Disconnect

  predicate Enabled(s: State, a: Action)
  {
    match a
    case Produce(_) | Return | Raise => s.worker == Generating
    case LookAtCancel => s.worker.Checking?
    case Schedule => s.worker.Scheduling?
    case SeeDelivered => s.worker.Awaiting? && s.delivery == Delivered
    case SeeCancelled => s.worker.Awaiting? && s.delivery == Cancelled
    case GiveUp => s.worker.Awaiting?
    case Deliver => s.loopOpen && s.delivery.Waiting? && s.abandoned == [] && |s.queue| < QUEUE_SIZE
    case DeliverAbandoned => s.loopOpen && s.abandoned != [] && |s.queue| < QUEUE_SIZE
    case DropAbandoned => s.loopOpen && s.abandoned != []
    case CancelPut => s.loopOpen && s.delivery.Waiting?
    case CloseLoop => s.loopOpen
    case Take => s.loopOpen && s.consumer == Reading && s.queue != []
    case TimeOut | Leave => s.loopOpen && s.consumer == Reading
    case Cleanup => s.consumer != Reading && !s.cancel
    case Disconnect => s.consumer == Reading && !s.cancel
  }

  /** Where _put's False leads: the generator is abandoned, and the end is still offered. */
  function Refused(item: Item): Worker
  {
    if item == End then Finished else Checking(End)
  }

  function Accepted(item: Item): Worker
  {
    match item
    case Text(_) => Generating
    case Error => Checking(End)
    case End => Finished
  }

  function HandOver(l: Ledger, item: Item): Ledger
  {
    match item
    case Text(_) => l.(kept := l.kept + 1)
    case Error => l.(errorKept := true)
    case End => l.(endKept := true)
  }

  function Drop(l: Ledger, item: Item): Ledger
  {
    match item
    case Text(_) => l.(kept := if l.kept > 0 then l.kept - 1 else 0)
    case Error => l.(errorKept := false)
    case End => l.(endKept := false)
  }

  function Cut(l: Ledger, item: Item): Ledger
  {
    l.(cut := l.cut || item != End)
  }

  function Receive(s: State, item: Item): State
  {
    match item
    case Text(text) => s.(emitted := s.emitted + [text])
    case Error => s.(consumer := Failed)
    case End => s.(consumer := Ended)
  }

  function Apply(s: State, a: Action): State
    requires Enabled(s, a)
  {
    match a
    case Produce(text) =>
      s.(worker := Checking(Text(text)), ledger := s.ledger.(produced := s.ledger.produced + [text]))
    case Return => s.(worker := Checking(End), ledger := s.ledger.(returned := true))
    case Raise => s.(worker := Checking(Error), ledger := s.ledger.(raised := true))
    case LookAtCancel => s.(worker := if s.cancel then Refused(s.worker.item) else Scheduling(s.worker.item))
    case Schedule =>
      var item := s.worker.item;
      if s.loopOpen then s.(worker := Awaiting(item), delivery := Waiting(item), ledger := HandOver(s.ledger, item))
      else s.(worker := Refused(item))
    case SeeDelivered => s.(worker := Accepted(s.worker.item), delivery := NoPut)
    case SeeCancelled => s.(worker := Refused(s.worker.item), delivery := NoPut, ledger := Cut(s.ledger, s.worker.item))
    case GiveUp =>
      s.(worker := Refused(s.worker.item), delivery := NoPut, ledger := Cut(s.ledger, s.worker.item),
         abandoned := if s.delivery.Waiting? then s.abandoned + [s.delivery.item] else s.abandoned)
    case Deliver => s.(queue := s.queue + [s.delivery.item], delivery := Delivered)
    case DeliverAbandoned => s.(queue := s.queue + [s.abandoned[0]], abandoned := s.abandoned[1..])
    case DropAbandoned => s.(abandoned := s.abandoned[1..], ledger := Drop(s.ledger, s.abandoned[0]))
    case CancelPut => s.(delivery := Cancelled, ledger := Drop(s.ledger, s.delivery.item))
    case CloseLoop => s.(loopOpen := false)
    case Take => Receive(s.(queue := s.queue[1..]), s.queue[0])
    case TimeOut => s.(consumer := TimedOut, cancel := true)
    case Leave => s.(consumer := Closed)
    case Cleanup | Disconnect => s.(cancel := true)
  }

  function Run(actions: seq<Action>): Option<State>
  {
    if actions == [] then Some(START)
    else
      var last := actions[|actions| - 1];
      match Run(actions[..|actions| - 1])
      case None => None
      case Some(s) => if Enabled(s, last) then Some(Apply(s, last)) else None
  }

  // ---------------------------------------------------------------- the invariant

  function Items(texts: seq<string>): seq<Item>
  {
    seq(|texts|, i requires 0 <= i < |texts| => Text(texts[i]))
  }

  /** What the consumer has taken. */
  function Taken(s: State): seq<Item>
  {
    Items(s.emitted) + match s.consumer case Ended => [End] case Failed => [Error] case _ => []
  }

  /** What the loop holds outside the queue, in the order in which it resumes the puts. */
  function InHand(s: State): seq<Item>
  {
    s.abandoned + if s.delivery.Waiting? then [s.delivery.item] else []
  }

  function Tail(error: bool, end: bool): seq<Item>
  {
    (if error then [Error] else []) + if end then [End] else []
  }

  function Due(l: Ledger): seq<Item>
    requires l.kept <= |l.produced|
  {
    Items(l.produced[..l.kept]) + Tail(l.errorKept, l.endKept)
  }

  /** Nothing is lost, duplicated or reordered between the hand-over and the consumer. */
  ghost predicate InOrder(s: State)
  {
    && s.ledger.kept <= |s.ledger.produced|
    && Taken(s) + (s.queue + InHand(s)) == Due(s.ledger)
  }

  predicate IsLatest(l: Ledger, text: string)
  {
    l.produced != [] && text == l.produced[|l.produced| - 1]
  }

  predicate Latest(l: Ledger, item: Item)
  {
    match item
    case Text(text) => !l.raised && IsLatest(l, text) && !l.errorKept && !l.endKept
    case Error => l.kept == |l.produced| && l.raised && !l.endKept
    case End => true
  }

  /** An item on its way to the loop: nothing of it has been handed over. */
  predicate Offered(s: State, item: Item)
  {
    && s.delivery == NoPut && Latest(s.ledger, item)
    && match item
       case Text(_) => s.ledger.kept == |s.ledger.produced| - 1 && s.abandoned == []
       case Error => !s.ledger.errorKept && s.abandoned == []
       case End => !s.ledger.endKept && WithoutEnd(s.ledger, s.abandoned)
  }

  predicate Handed(s: State, item: Item)
  {
    && Latest(s.ledger, item) && s.delivery != NoPut && (s.delivery.Waiting? ==> s.delivery.item == item)
    && var accepted := s.delivery != Cancelled;
       match item
       case Text(_) => s.abandoned == [] && s.ledger.kept + (if accepted then 0 else 1) == |s.ledger.produced|
       case Error => s.abandoned == [] && s.ledger.errorKept == accepted
       case End => WithoutEnd(s.ledger, s.abandoned) && s.ledger.endKept == accepted
  }

  /** The abandoned put of the last piece or of the error, if any. */
  predicate WithoutEnd(l: Ledger, abandoned: seq<Item>)
  {
    || abandoned == []
    || (abandoned == [Error] && l.errorKept)
    || (|abandoned| == 1 && abandoned[0].Text? && IsLatest(l, abandoned[0].text)
        && l.kept == |l.produced| && !l.errorKept)
  }

  predicate WithEnd(l: Ledger, abandoned: seq<Item>)
  {
    && l.endKept && abandoned != [] && abandoned[|abandoned| - 1] == End
    && WithoutEnd(l, abandoned[..|abandoned| - 1])
  }

  predicate Closing(s: State)
  {
    match s.worker
    case Generating => false
    case Finished => true
    case _ => s.worker.item == End
  }

  predicate WorkerAgrees(s: State)
  {
    match s.worker
    case Generating =>
      && s.delivery == NoPut && s.abandoned == [] && s.ledger.kept == |s.ledger.produced|
      && !s.ledger.errorKept && !s.ledger.endKept && !s.ledger.raised
    case Checking(item) => Offered(s, item)
    case Scheduling(item) => Offered(s, item)
    case Awaiting(item) => Handed(s, item)
    case Finished => s.delivery == NoPut && (WithoutEnd(s.ledger, s.abandoned) || WithEnd(s.ledger, s.abandoned))
  }

  /** The end will be refused, after the cancel event or by a closed loop. */
  predicate Refusing(s: State)
  {
    !s.ledger.endKept && (!s.loopOpen || (s.cancel && (s.worker.Checking? || s.worker.Finished?)))
  }

  /** How the generator was left: it returned, its error went out, it was cut short, or everything is refused. */
  predicate Accounted(s: State)
  {
    var l := s.ledger;
    && |l.produced| <= l.kept + 1
    && (l.errorKept ==> l.kept == |l.produced| && l.raised)
    && (l.cut || l.returned ==> Closing(s))
    && !(l.cut && l.returned) && !(l.raised && l.returned)
    && (l.returned ==> l.kept == |l.produced|)
    && (!l.cut ==> s.abandoned == [] || s.abandoned == [End])
    && (Closing(s) && !l.cut ==> l.returned || (l.raised && l.errorKept) || Refusing(s))
  }

  predicate Control(s: State)
  {
    |s.queue| <= QUEUE_SIZE && s.ledger.kept <= |s.ledger.produced| && WorkerAgrees(s) && Accounted(s)
  }

  ghost predicate Invariant(s: State)
  {
    Control(s) && InOrder(s)
  }

  // ---------------------------------------------------------------- every step keeps it

  predicate OfWorker(a: Action)
  {
    a.Produce? || a.Return? || a.Raise? || a.LookAtCancel? || a.SeeDelivered? || a.SeeCancelled?
  }

  lemma WorkerControl(s: State, a: Action)
    requires Control(s) && Enabled(s, a) && OfWorker(a)
    ensures Control(Apply(s, a))
  {
  }

  lemma WorkerOrder(s: State, a: Action)
    requires Control(s) && InOrder(s) && Enabled(s, a) && OfWorker(a)
    ensures InOrder(Apply(s, a))
  {
    var s' := Apply(s, a);
    assert s'.ledger.produced[..s'.ledger.kept] == s.ledger.produced[..s.ledger.kept];
    assert InHand(s') == InHand(s) && Taken(s') == Taken(s);
  }

  lemma GiveUpOnEnd(l: Ledger, abandoned: seq<Item>)
    requires WithoutEnd(l, abandoned) && l.endKept
    ensures WithEnd(l, abandoned + [End])
  {
    assert (abandoned + [End])[..|abandoned|] == abandoned;
  }

  lemma GiveUpOnItem(s: State)
    requires Control(s) && s.worker.Awaiting? && s.worker.item != End
    ensures Offered(Apply(s, GiveUp), End) && Apply(s, GiveUp).worker == Checking(End)
  {
    assert [] + [s.worker.item] == [s.worker.item];
  }

  lemma GiveUpAgrees(s: State)
    requires Control(s) && Enabled(s, GiveUp)
    ensures WorkerAgrees(Apply(s, GiveUp))
  {
    if s.worker.item != End {
      GiveUpOnItem(s);
    } else if s.delivery.Waiting? {
      GiveUpOnEnd(s.ledger, s.abandoned);
    }
  }

  lemma GiveUpAccounted(s: State)
    requires Control(s) && Enabled(s, GiveUp)
    ensures Accounted(Apply(s, GiveUp))
  {
  }

  lemma GiveUpControl(s: State)
    requires Control(s) && Enabled(s, GiveUp)
    ensures Control(Apply(s, GiveUp))
  {
    GiveUpAgrees(s);
    GiveUpAccounted(s);
  }

  lemma GiveUpOrder(s: State)
    requires Control(s) && InOrder(s) && Enabled(s, GiveUp)
    ensures InOrder(Apply(s, GiveUp))
  {
    assert InHand(Apply(s, GiveUp)) == InHand(s);
  }

  lemma ScheduleControl(s: State)
    requires Control(s) && Enabled(s, Schedule)
    ensures Control(Apply(s, Schedule))
  {
  }

  lemma ItemsTake(texts: seq<string>, n: nat)
    requires n < |texts|
    ensures Items(texts[..n + 1]) == Items(texts[..n]) + [Text(texts[n])]
  {
  }

  lemma ScheduleOrder(s: State)
    requires Control(s) && InOrder(s) && Enabled(s, Schedule)
    ensures InOrder(Apply(s, Schedule))
  {
    var item, s' := s.worker.item, Apply(s, Schedule);
    assert !s.loopOpen ==> InHand(s') == InHand(s);
    if s.loopOpen {
      assert InHand(s') == InHand(s) + [item];
      assert Taken(s') + (s'.queue + InHand(s')) == (Taken(s) + (s.queue + InHand(s))) + [item];
      if item.Text? { ItemsTake(s.ledger.produced, s.ledger.kept); }
    }
  }

  lemma DeliverControl(s: State, a: Action)
    requires Control(s) && Enabled(s, a) && (a.Deliver? || a.DeliverAbandoned?)
    ensures Control(Apply(s, a))
  {
  }

  lemma MoveToQueue(queue: seq<Item>, item: Item, rest: seq<Item>)
    ensures queue + ([item] + rest) == (queue + [item]) + rest
  {
  }

  lemma DeliverPutOrder(s: State, s': State)
    requires InOrder(s) && s.delivery.Waiting? && s.abandoned == []
    requires s' == s.(queue := s.queue + [s.delivery.item], delivery := Delivered)
    ensures InOrder(s')
  {
    assert InHand(s) == [s.delivery.item] + InHand(s');
    MoveToQueue(s.queue, s.delivery.item, InHand(s'));
  }

  lemma DeliverAbandonedOrder(s: State, s': State)
    requires InOrder(s) && s.abandoned != []
    requires s' == s.(queue := s.queue + [s.abandoned[0]], abandoned := s.abandoned[1..])
    ensures InOrder(s')
  {
    assert InHand(s) == [s.abandoned[0]] + InHand(s');
    MoveToQueue(s.queue, s.abandoned[0], InHand(s'));
  }

  lemma DeliverOrder(s: State, a: Action)
    requires Control(s) && InOrder(s) && Enabled(s, a) && (a.Deliver? || a.DeliverAbandoned?)
    ensures InOrder(Apply(s, a))
  {
    if a.Deliver? {
      DeliverPutOrder(s, Apply(s, a));
    } else {
      DeliverAbandonedOrder(s, Apply(s, a));
    }
  }

  predicate OfConsumer(a: Action)
  {
    a.CloseLoop? || a.Take? || a.TimeOut? || a.Leave? || a.Cleanup? || a.Disconnect?
  }

  lemma SameWorkerSameControl(s: State, s': State)
    requires s'.worker == s.worker && s'.delivery == s.delivery && s'.abandoned == s.abandoned && s'.ledger == s.ledger
    requires Control(s) && |s'.queue| <= |s.queue| && (s.cancel ==> s'.cancel) && (s'.loopOpen ==> s.loopOpen)
    ensures Control(s')
  {
  }

  lemma ConsumerControl(s: State, a: Action)
    requires Control(s) && Enabled(s, a) && OfConsumer(a)
    ensures Control(Apply(s, a))
  {
    SameWorkerSameControl(s, Apply(s, a));
  }

  lemma Regroup(taken: seq<Item>, queue: seq<Item>, hand: seq<Item>)
    requires queue != []
    ensures taken + (queue + hand) == (taken + [queue[0]]) + (queue[1..] + hand)
  {
  }

  lemma TakeMoves(s: State)
    requires Enabled(s, Take)
    ensures Taken(Apply(s, Take)) == Taken(s) + [s.queue[0]]
  {
    assert Items(s.emitted + [if s.queue[0].Text? then s.queue[0].text else ""])[..|s.emitted|] == Items(s.emitted);
  }

  lemma TakeOrder(s: State)
    requires InOrder(s) && Enabled(s, Take)
    ensures InOrder(Apply(s, Take))
  {
    TakeMoves(s);
    TakeLeaves(s);
    Regroup(Taken(s), s.queue, InHand(s));
  }

  lemma TakeLeaves(s: State)
    requires Enabled(s, Take)
    ensures var s' := Apply(s, Take);
      && s'.queue == s.queue[1..] && InHand(s') == InHand(s)
      && s'.ledger == s.ledger
  {
  }

  /** The dropped put is the last piece or the error, with at most the end behind it, or the end itself. */
  lemma DropLeaves(before: seq<Item>, x: Item, after: seq<Item>, kept: seq<string>, error: bool, end: bool)
    requires before + ([x] + after) == Items(kept) + Tail(error, end)
    requires after == [] || (after == [End] && x != End)
    requires match x case Text(_) => kept != [] && !error case Error => error case End => end
    ensures before + after == match x
                              case Text(_) => Items(kept[..|kept| - 1]) + Tail(error, end)
                              case Error => Items(kept) + Tail(false, end)
                              case End => Items(kept) + Tail(error, false)
  {
    var all := before + ([x] + after);
    assert all[|all| - 1] == if after == [] then x else End;
    assert before == all[..|before|];
    if x.Text? {
      assert Items(kept) == Items(kept[..|kept| - 1]) + [Text(kept[|kept| - 1])];
    }
  }

  lemma DropControl(s: State, a: Action)
    requires Control(s) && Enabled(s, a) && (a.DropAbandoned? || a.CancelPut?)
    ensures Control(Apply(s, a))
  {
  }

  lemma Between(taken: seq<Item>, queue: seq<Item>, ahead: seq<Item>, rest: seq<Item>)
    ensures taken + (queue + (ahead + rest)) == (taken + queue + ahead) + rest
  {
  }

  /** The item has been handed over and not dropped, and nothing but the end can be behind it. */
  predicate Droppable(l: Ledger, item: Item)
  {
    match item
    case Text(_) => l.kept > 0 && !l.errorKept
    case Error => l.errorKept
    case End => l.endKept
  }

  lemma DropOrder(s: State, ahead: seq<Item>, item: Item, behind: seq<Item>, s': State)
    requires InOrder(s) && InHand(s) == ahead + ([item] + behind) && Droppable(s.ledger, item)
    requires behind == [] || (behind == [End] && item != End)
    requires InHand(s') == ahead + behind && s'.queue == s.queue && Taken(s') == Taken(s)
    requires s'.ledger == Drop(s.ledger, item)
    ensures InOrder(s')
  {
    var l := s.ledger;
    Between(Taken(s), s.queue, ahead, [item] + behind);
    Between(Taken(s), s.queue, ahead, behind);
    DropLeaves(Taken(s) + s.queue + ahead, item, behind, l.produced[..l.kept], l.errorKept, l.endKept);
  }

  lemma OldestAbandoned(s: State)
    requires Control(s) && s.abandoned != []
    ensures Droppable(s.ledger, s.abandoned[0])
    ensures |InHand(s)| == 1 || (|InHand(s)| == 2 && s.abandoned[0] != End && InHand(s)[1] == End)
  {
  }

  lemma HeadInHand(s: State, s': State)
    requires s.abandoned != [] && s'.abandoned == s.abandoned[1..] && s'.delivery == s.delivery
    ensures InHand(s) == [] + ([s.abandoned[0]] + InHand(s')) && InHand(s') == [] + InHand(s')
  {
  }

  lemma ShortTail(all: seq<Item>, head: Item, rest: seq<Item>)
    requires all == [] + ([head] + rest) && (|all| == 1 || (|all| == 2 && head != End && all[1] == End))
    ensures rest == [] || (rest == [End] && head != End)
  {
    assert |all| == 2 ==> rest[0] == all[1];
  }

  lemma DropAbandonedOrder(s: State, s': State)
    requires Control(s) && InOrder(s) && s.abandoned != []
    requires s' == s.(abandoned := s.abandoned[1..], ledger := Drop(s.ledger, s.abandoned[0]))
    ensures InOrder(s')
  {
    OldestAbandoned(s);
    HeadInHand(s, s');
    ShortTail(InHand(s), s.abandoned[0], InHand(s'));
    DropOrder(s, [], s.abandoned[0], InHand(s'), s');
  }

  lemma WaitingIsDroppable(s: State)
    requires Control(s) && s.delivery.Waiting?
    ensures Droppable(s.ledger, s.delivery.item)
  {
  }

  lemma CancelPutOrder(s: State, s': State)
    requires Control(s) && InOrder(s) && s.delivery.Waiting?
    requires s' == s.(delivery := Cancelled, ledger := Drop(s.ledger, s.delivery.item))
    ensures InOrder(s')
  {
    WaitingIsDroppable(s);
    assert [s.delivery.item] == [s.delivery.item] + [] && s.abandoned + [] == s.abandoned;
    DropOrder(s, s.abandoned, s.delivery.item, [], s');
  }

  lemma DropOrders(s: State, a: Action)
    requires Control(s) && InOrder(s) && Enabled(s, a) && (a.DropAbandoned? || a.CancelPut?)
    ensures InOrder(Apply(s, a))
  {
    if a.CancelPut? {
      CancelPutOrder(s, Apply(s, a));
    } else {
      DropAbandonedOrder(s, Apply(s, a));
    }
  }

  lemma StepKeeps(s: State, a: Action)
    requires Invariant(s) && Enabled(s, a)
    ensures Invariant(Apply(s, a))
  {
    if OfWorker(a) {
      WorkerControl(s, a);
      WorkerOrder(s, a);
    } else if OfConsumer(a) {
      ConsumerControl(s, a);
      if a.Take? { TakeOrder(s); }
    } else if a.GiveUp? {
      GiveUpControl(s);
      GiveUpOrder(s);
    } else if a.Schedule? {
      ScheduleControl(s);
      ScheduleOrder(s);
    } else if a.Deliver? || a.DeliverAbandoned? {
      DeliverControl(s, a);
      DeliverOrder(s, a);
    } else {
      DropControl(s, a);
      DropOrders(s, a);
    }
  }

  lemma {:induction false} RunKeeps(actions: seq<Action>)
    requires Run(actions).Some?
    ensures Invariant(Run(actions).value)
  {
    if actions != [] {
      var init := actions[..|actions| - 1];
      RunKeeps(init);
      StepKeeps(Run(init).value, actions[|actions| - 1]);
    }
  }

  // ---------------------------------------------------------------- what the client reads

  /** Where texts and closing items meet in two writings of one line of items. */
  lemma SameLine(emitted: seq<string>, rest: seq<Item>, kept: seq<string>, error: bool, end: bool)
    requires Items(emitted) + rest == Items(kept) + Tail(error, end)
    ensures emitted <= kept
    ensures rest != [] && !rest[0].Text? ==>
              emitted == kept && rest[0] == Tail(error, end)[0] && |rest| == |Tail(error, end)|
  {
    var all := Items(emitted) + rest;
    if emitted != [] {
      assert all[|emitted| - 1] == Items(emitted)[|emitted| - 1];
    }
    assert |emitted| <= |kept|;
    forall i | 0 <= i < |emitted| ensures emitted[i] == kept[i] {
      assert all[i] == Items(emitted)[i];
    }
    if |emitted| == |kept| {
      assert rest == all[|emitted|..] && Tail(error, end) == (Items(kept) + Tail(error, end))[|kept|..];
    }
    if rest != [] && |emitted| < |kept| {
      assert all[|emitted|] == rest[0] && all[|emitted|] == Items(kept)[|emitted|];
    }
  }

  lemma Line(s: State) returns (rest: seq<Item>)
    requires InOrder(s)
    ensures Items(s.emitted) + rest == Due(s.ledger)
    ensures s.consumer == Ended ==> rest != [] && rest[0] == End
    ensures s.consumer == Failed ==> rest != [] && rest[0] == Error
    ensures s.consumer == Ended && |rest| == 1 ==> s.queue == [] && InHand(s) == []
  {
    var closing := Taken(s)[|s.emitted|..];
    rest := closing + (s.queue + InHand(s));
    assert Taken(s) == Items(s.emitted) + closing;
    assert Items(s.emitted) + rest == Taken(s) + (s.queue + InHand(s));
  }

  /** In every state of every run. */
  lemma EmittedIsPrefix(actions: seq<Action>)
    requires Run(actions).Some?
    ensures var s := Run(actions).value; s.emitted <= s.ledger.produced && |s.queue| <= 32
  {
    RunKeeps(actions);
    var s := Run(actions).value;
    var rest := Line(s);
    SameLine(s.emitted, rest, s.ledger.produced[..s.ledger.kept], s.ledger.errorKept, s.ledger.endKept);
  }

  /** An error is shown only behind every piece; a normal end misses at most the last of those produced. */
  lemma EndMeansAllKept(s: State)
    requires Invariant(s) && (s.consumer == Ended || s.consumer == Failed)
    ensures s.emitted == s.ledger.produced[..s.ledger.kept]
    ensures s.consumer == Failed ==> s.emitted == s.ledger.produced && s.ledger.raised
    ensures s.consumer == Ended ==>
              && s.ledger.endKept && !s.ledger.errorKept && s.queue == [] && InHand(s) == []
              && |s.ledger.produced| <= |s.emitted| + 1
  {
    var rest := Line(s);
    SameLine(s.emitted, rest, s.ledger.produced[..s.ledger.kept], s.ledger.errorKept, s.ledger.endKept);
  }

  lemma EndIsClosing(s: State)
    requires Control(s) && s.ledger.endKept
    ensures Closing(s)
  {
  }

  /** The worker stops waiting for a put of a piece or of the error: the except branch of _put. */
  predicate Cuts(s: State, a: Action)
  {
    (a.GiveUp? || a.SeeCancelled?) && s.worker.Awaiting? && s.worker.item != End
  }

  predicate CutAt(actions: seq<Action>, i: nat)
  {
    i < |actions| && Run(actions[..i]).Some? && Cuts(Run(actions[..i]).value, actions[i])
  }

  ghost predicate CutShort(actions: seq<Action>)
  {
    exists i :: CutAt(actions, i)
  }

  lemma WorkerCutsNothing(s: State, a: Action)
    requires Enabled(s, a) && (a.Produce? || a.Return? || a.Raise? || a.LookAtCancel? || a.Schedule? || a.SeeDelivered?)
    ensures Apply(s, a).ledger.cut == s.ledger.cut
  {
  }

  lemma LoopCutsNothing(s: State, a: Action)
    requires Enabled(s, a) && (a.Deliver? || a.DeliverAbandoned? || a.DropAbandoned? || a.CancelPut?)
    ensures Apply(s, a).ledger.cut == s.ledger.cut
  {
  }

  lemma ConsumerCutsNothing(s: State, a: Action)
    requires Enabled(s, a) && OfConsumer(a)
    ensures Apply(s, a).ledger.cut == s.ledger.cut
  {
  }

  lemma StepCuts(s: State, a: Action)
    requires Enabled(s, a)
    ensures Apply(s, a).ledger.cut <==> s.ledger.cut || Cuts(s, a)
  {
    if OfConsumer(a) {
      ConsumerCutsNothing(s, a);
    } else if a.Deliver? || a.DeliverAbandoned? || a.DropAbandoned? || a.CancelPut? {
      LoopCutsNothing(s, a);
    } else if !a.GiveUp? && !a.SeeCancelled? {
      WorkerCutsNothing(s, a);
    }
  }

  lemma CutAtInit(actions: seq<Action>, n: nat, i: nat)
    requires i < n <= |actions|
    ensures CutAt(actions[..n], i) <==> CutAt(actions, i)
  {
    assert actions[..n][..i] == actions[..i];
  }

  lemma CutShortLast(actions: seq<Action>)
    requires actions != []
    ensures CutShort(actions) <==> CutShort(actions[..|actions| - 1]) || CutAt(actions, |actions| - 1)
  {
    var n := |actions| - 1;
    if i: nat :| CutAt(actions, i) {
      if i < n { CutAtInit(actions, n, i); }
    }
    if i: nat :| CutAt(actions[..n], i) {
      CutAtInit(actions, n, i);
    }
  }

  lemma {:induction false} CutIsCutShort(actions: seq<Action>)
    requires Run(actions).Some?
    ensures Run(actions).value.ledger.cut <==> CutShort(actions)
  {
    if actions != [] {
      var init, last := actions[..|actions| - 1], actions[|actions| - 1];
      CutIsCutShort(init);
      CutShortLast(actions);
      StepCuts(Run(init).value, last);
    }
  }

  lemma EndIsWholeUnlessCut(s: State)
    requires Invariant(s) && s.consumer == Ended
    ensures (s.ledger.returned && s.emitted == s.ledger.produced && !s.ledger.raised) <==> !s.ledger.cut
  {
    EndMeansAllKept(s);
    EndIsClosing(s);
  }

  /**
   * A stream that ends normally holds everything of a generator that returned without raising, if
   * and only if the worker never stopped waiting for the put of a piece or of the error.
   */
  lemma NormalEndIsCompleteIff(actions: seq<Action>)
    requires Run(actions).Some? && Run(actions).value.consumer == Ended
    ensures var s := Run(actions).value;
      (s.ledger.returned && s.emitted == s.ledger.produced && !s.ledger.raised) <==> !CutShort(actions)
  {
    RunKeeps(actions);
    CutIsCutShort(actions);
    EndIsWholeUnlessCut(Run(actions).value);
  }

  /** An error that the client is shown was raised, and comes behind every piece produced. */
  lemma ShownErrorIsReal(actions: seq<Action>)
    requires Run(actions).Some? && Run(actions).value.consumer == Failed
    ensures var s := Run(actions).value; s.emitted == s.ledger.produced && s.ledger.raised
  {
    RunKeeps(actions);
    EndMeansAllKept(Run(actions).value);
  }

  lemma RunSnoc(actions: seq<Action>, a: Action)
    requires Run(actions).Some? && Enabled(Run(actions).value, a)
    ensures Run(actions + [a]) == Some(Apply(Run(actions).value, a))
  {
    assert (actions + [a])[..|actions|] == actions;
  }

  /** One put that waits too long: the worker gives up on the piece and on the generator. */
  lemma GivenUpPut(text: string) returns (actions: seq<Action>)
    ensures Run(actions) == Some(START.(
      worker := Checking(End), abandoned := [Text(text)],
      ledger := Ledger([text], false, false, 1, false, false, true)))
  {
    actions := [];
    RunSnoc(actions, Produce(text));
    actions := actions + [Produce(text)];
    RunSnoc(actions, LookAtCancel);
    actions := actions + [LookAtCancel];
    RunSnoc(actions, Schedule);
    actions := actions + [Schedule];
    RunSnoc(actions, GiveUp);
    actions := actions + [GiveUp];
    assert [] + [text] == [text] && [] + [Text(text)] == [Text(text)];
  }

  /** The condition is needed: the piece is dropped, and the stream still ends normally. */
  lemma SilentTruncation(text: string) returns (actions: seq<Action>)
    ensures Run(actions).Some? && Run(actions).value.consumer == Ended
    ensures Run(actions).value.ledger.produced == [text] && Run(actions).value.emitted == []
  {
    actions := GivenUpPut(text);
    RunSnoc(actions, DropAbandoned);
    actions := actions + [DropAbandoned];
    RunSnoc(actions, LookAtCancel);
    actions := actions + [LookAtCancel];
    RunSnoc(actions, Schedule);
    actions := actions + [Schedule];
    RunSnoc(actions, Deliver);
    actions := actions + [Deliver];
    RunSnoc(actions, Take);
    actions := actions + [Take];
  }

  /** Nor is it enough that the piece gets through: the generator was abandoned and never returned. */
  lemma AbandonedGenerator(text: string) returns (actions: seq<Action>)
    ensures Run(actions).Some? && Run(actions).value.consumer == Ended
    ensures Run(actions).value.emitted == Run(actions).value.ledger.produced == [text]
    ensures !Run(actions).value.ledger.returned && !Run(actions).value.ledger.raised
  {
    actions := GivenUpPut(text);
    RunSnoc(actions, DeliverAbandoned);
    actions := actions + [DeliverAbandoned];
    RunSnoc(actions, LookAtCancel);
    actions := actions + [LookAtCancel];
    RunSnoc(actions, Schedule);
    actions := actions + [Schedule];
    RunSnoc(actions, Deliver);
    actions := actions + [Deliver];
    RunSnoc(actions, Take);
    actions := actions + [Take];
    RunSnoc(actions, Take);
    actions := actions + [Take];
  }

  /** The worker's error is dropped the same way: the client sees a normal end of a generator that raised. */
  lemma SilentError() returns (actions: seq<Action>)
    ensures Run(actions).Some? && Run(actions).value.consumer == Ended
    ensures Run(actions).value.ledger.raised && Run(actions).value.emitted == []
  {
    actions := [];
    RunSnoc(actions, Raise);
    actions := actions + [Raise];
    RunSnoc(actions, LookAtCancel);
    actions := actions + [LookAtCancel];
    RunSnoc(actions, Schedule);
    actions := actions + [Schedule];
    RunSnoc(actions, GiveUp);
    actions := actions + [GiveUp];
    RunSnoc(actions, DropAbandoned);
    actions := actions + [DropAbandoned];
    RunSnoc(actions, LookAtCancel);
    actions := actions + [LookAtCancel];
    RunSnoc(actions, Schedule);
    actions := actions + [Schedule];
    RunSnoc(actions, Deliver);
    actions := actions + [Deliver];
    RunSnoc(actions, Take);
    actions := actions + [Take];
  }

  // ---------------------------------------------------------------- progress

  /** The steps of a run in which nothing raises, times out, disconnects or shuts down. */
  predicate Calm(a: Action)
  {
    a.Produce? || a.Return? || a.LookAtCancel? || a.Schedule? || a.SeeDelivered? || a.Deliver? || a.Take? || a.Cleanup?
  }

  ghost predicate Undisturbed(s: State)
  {
    && s.loopOpen && s.abandoned == [] && s.delivery != Cancelled
    && (s.consumer == Reading ==> !s.cancel)
    && (s.consumer == Reading || s.consumer == Ended)
    && (s.worker == Finished ==> s.ledger.endKept)
    && !s.ledger.raised && !s.ledger.cut && (s.worker.Awaiting? ==> s.delivery != NoPut)
  }

  lemma CalmStepKeeps(s: State, a: Action)
    requires Invariant(s) && Undisturbed(s) && Enabled(s, a) && Calm(a)
    ensures Undisturbed(Apply(s, a))
  {
    if a.Take? && s.queue[0] == Error { ErrorIsRaised(s); }
    if s.consumer == Ended && s.worker.Checking? {
      EndMeansAllKept(s);
    }
  }

  lemma ErrorIsRaised(s: State)
    requires Invariant(s) && s.queue != [] && s.queue[0] == Error && s.consumer == Reading
    ensures s.ledger.raised
  {
    var rest := s.queue + InHand(s);
    SameLine(s.emitted, rest, s.ledger.produced[..s.ledger.kept], s.ledger.errorKept, s.ledger.endKept);
  }

  lemma {:induction false} CalmRunKeeps(actions: seq<Action>)
    requires Run(actions).Some? && forall i | 0 <= i < |actions| :: Calm(actions[i])
    ensures Undisturbed(Run(actions).value)
  {
    if actions != [] {
      var init := actions[..|actions| - 1];
      CalmRunKeeps(init);
      RunKeeps(init);
      CalmStepKeeps(Run(init).value, actions[|actions| - 1]);
    }
  }

  lemma NormalEndIsCalm(s: State)
    requires Invariant(s) && Undisturbed(s) && s.consumer == Ended
    ensures Closing(s) && !s.delivery.Waiting? && (s.worker.Checking? ==> Enabled(s, LookAtCancel))
    ensures s.worker.Awaiting? ==> Enabled(s, SeeDelivered)
  {
    EndMeansAllKept(s);
    EndIsClosing(s);
  }

  lemma EndIsBehind(emitted: seq<string>, rest: seq<Item>, kept: seq<string>, error: bool)
    requires Items(emitted) + rest == Items(kept) + Tail(error, true)
    ensures rest != []
  {
    var all := Items(emitted) + rest;
    assert all[|all| - 1] == End;
  }

  lemma FullQueueCanBeTaken(s: State)
    requires Invariant(s) && Undisturbed(s) && s.consumer == Reading && s.worker != Generating
    ensures
      || Enabled(s, LookAtCancel) || Enabled(s, Schedule) || Enabled(s, SeeDelivered)
      || Enabled(s, Take) || Enabled(s, Deliver)
  {
    if s.worker == Finished {
      EndIsBehind(s.emitted, s.queue + InHand(s), s.ledger.produced[..s.ledger.kept], s.ledger.errorKept);
    }
  }

  /** Undisturbed, bridge and queue never block for good: some step is possible until all has been emitted. */
  lemma CalmRunNeverSticks(actions: seq<Action>)
    requires Run(actions).Some? && forall i | 0 <= i < |actions| :: Calm(actions[i])
    ensures var s := Run(actions).value;
      || (exists a :: Calm(a) && Enabled(s, a))
      || (s.worker == Finished && s.consumer == Ended && s.ledger.returned && s.emitted == s.ledger.produced)
  {
    RunKeeps(actions);
    CalmRunKeeps(actions);
    var s := Run(actions).value;
    if s.consumer == Ended {
      EndIsWholeUnlessCut(s);
      NormalEndIsCalm(s);
      assert Enabled(s, LookAtCancel) || Enabled(s, Schedule) || Enabled(s, SeeDelivered) || s.worker == Finished;
    } else if s.worker == Generating {
      assert Enabled(s, Return) && Calm(Return);
    } else {
      FullQueueCanBeTaken(s);
    }
  }

  function WorkerRank(w: Worker): nat
  {
    match w
    case Generating => 35
    case Finished => 0
    case Checking(item) => 15 + ItemRank(item)
    case Scheduling(item) => 10 + ItemRank(item)
    case Awaiting(item) => 5 + ItemRank(item)
  }

  function ItemRank(item: Item): nat
  {
    match item case Text(_) => 35 case Error => 15 case End => 0
  }

  function Rank(s: State): nat
  {
    WorkerRank(s.worker) + (if s.delivery.Waiting? then 3 else 0) + 2 * |s.abandoned| + |s.queue|
    + (if s.consumer == Reading then 1 else 0) + (if s.cancel then 0 else 1) + (if s.loopOpen then 1 else 0)
  }

  lemma WorkerLowersRank(s: State, a: Action)
    requires WorkerAgrees(s) && Enabled(s, a) && (OfWorker(a) || a.Schedule? || a.GiveUp?)
    ensures Rank(Apply(s, a)) < Rank(s) + if a.Produce? then 16 else 0
  {
  }

  lemma LoopLowersRank(s: State, a: Action)
    requires Enabled(s, a) && (a.Deliver? || a.DeliverAbandoned? || a.DropAbandoned? || a.CancelPut?)
    ensures Rank(Apply(s, a)) < Rank(s)
  {
  }

  lemma ConsumerLowersRank(s: State, a: Action)
    requires Enabled(s, a) && OfConsumer(a)
    ensures Rank(Apply(s, a)) < Rank(s)
  {
  }

  /** Without another piece from the generator a run soon ends, whatever fails. */
  lemma {:induction false} RunsAreBounded(actions: seq<Action>)
    requires Run(actions).Some?
    ensures |actions| + Rank(Run(actions).value) <= Rank(START) + 16 * |Run(actions).value.ledger.produced|
  {
    if actions != [] {
      var init, a := actions[..|actions| - 1], actions[|actions| - 1];
      RunsAreBounded(init);
      RunKeeps(init);
      StepBound(Run(init).value, a);
    }
  }

  lemma StepBound(s: State, a: Action)
    requires Invariant(s) && Enabled(s, a)
    ensures var s' := Apply(s, a); Rank(s') + 1 + 16 * |s.ledger.produced| <= Rank(s) + 16 * |s'.ledger.produced|
  {
    if OfWorker(a) || a.Schedule? || a.GiveUp? {
      WorkerLowersRank(s, a);
    } else if OfConsumer(a) {
      ConsumerLowersRank(s, a);
    } else {
      LoopLowersRank(s, a);
    }
  }

  // ---------------------------------------------------------------- stopping, and ending

  /** How many more pieces a generator told to stop can still yield. */
  function Left(w: Worker): nat
  {
    match w
    case Generating => 1
    case Scheduling(item) => if item.Text? then 1 else 0
    case Awaiting(item) => if item.Text? then 1 else 0
    case _ => 0
  }

  lemma StoppingStep(s: State, a: Action)
    requires s.cancel && Enabled(s, a)
    ensures var s' := Apply(s, a);
            s'.cancel && |s'.ledger.produced| + Left(s'.worker) <= |s.ledger.produced| + Left(s.worker)
  {
  }

  lemma {:induction false} StoppingRun(actions: seq<Action>, n: nat)
    requires n <= |actions| && Run(actions).Some? && Run(actions[..n]).Some? && Run(actions[..n]).value.cancel
    ensures var s, s' := Run(actions[..n]).value, Run(actions).value;
            s'.cancel && |s'.ledger.produced| + Left(s'.worker) <= |s.ledger.produced| + Left(s.worker)
    decreases |actions|
  {
    if n == |actions| {
      assert actions[..n] == actions;
    } else {
      var init, a := actions[..|actions| - 1], actions[|actions| - 1];
      assert init[..n] == actions[..n];
      StoppingRun(init, n);
      StoppingStep(Run(init).value, a);
    }
  }

  lemma {:induction false} TimedOutIsCancelled(actions: seq<Action>)
    requires Run(actions).Some?
    ensures Run(actions).value.consumer == TimedOut ==> Run(actions).value.cancel
  {
    if actions != [] {
      TimedOutIsCancelled(actions[..|actions| - 1]);
    }
  }

  /**
   * Once the consumer has timed out or anything else has told the worker to stop, the generator
   * yields at most one more piece, however the run goes on.
   */
  lemma StopsSoon(actions: seq<Action>, n: nat)
    requires n <= |actions| && Run(actions).Some? && Run(actions[..n]).Some?
    requires Run(actions[..n]).value.cancel || Run(actions[..n]).value.consumer == TimedOut
    ensures |Run(actions).value.ledger.produced| <= |Run(actions[..n]).value.ledger.produced| + 1
  {
    TimedOutIsCancelled(actions[..n]);
    StoppingRun(actions, n);
  }

  /** No put is given up, cancelled or dropped. */
  predicate Patient(a: Action)
  {
    !a.GiveUp? && !a.SeeCancelled? && !a.CancelPut? && !a.DropAbandoned?
  }

  ghost predicate EndSent(s: State)
  {
    !s.cancel && s.loopOpen ==>
      && s.delivery != Cancelled && s.abandoned == []
      && (s.worker == Finished || s.worker == Awaiting(End) ==> s.ledger.endKept)
  }

  /**
   * While no put fails, the loop runs and nobody told it to stop, a worker that has finished, after
   * an error too, has sent the end marker.
   */
  lemma {:induction false} EndIsSent(actions: seq<Action>)
    requires Run(actions).Some? && forall i | 0 <= i < |actions| :: Patient(actions[i])
    ensures var s := Run(actions).value; EndSent(s)
    ensures var s := Run(actions).value; !s.cancel && s.loopOpen && s.worker == Finished ==> s.ledger.endKept
  {
    if actions != [] {
      EndIsSent(actions[..|actions| - 1]);
      assert Patient(actions[|actions| - 1]);
    }
  }
}
