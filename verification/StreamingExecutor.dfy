/** The streaming bundle executor: a worker thread, a FIFO queue closed by a sentinel, a polling
    consumer (the generator) and a cancel flag anyone may set, as one transition system in which
    every test of the flag and every queue operation is its own step. */
module StreamingExecutor {
  import opened Options

  datatype Item =
    | Progress(event: string)
    | TextDelta(text: string)
    | Result(payload: string)
    | Failure(message: string)
    | Done

  predicate Streamed(item: Item) { item.Progress? || item.TextDelta? }

  predicate Terminal(item: Item) { item.Result? || item.Failure? }

  datatype Worker =
    | Running
    | Emitting(item: Item)    // a callback has seen the flag clear and is about to put
    | Finishing(item: Item)   // the request ended: about to put its result or error
    | Closing                 // about to put the sentinel
    | Ended

  datatype Consumer =
    | Getting                     // in get(timeout)
    | TimedOut                    // the queue stayed empty; the flag is tested next
    | Got(item: Item)             // dequeued, not yet tested
    | Passed(item: Item)          // past the sentinel and the flag test, about to yield
    | Suspended                   // yielded, waiting to be resumed
    | Stopped(last: Option<Item>) // left the loop, holding an item that was not yielded

  /** `enqueued` and `yielded` record everything put and everything yielded so far. */
  datatype System = System(
    cancellable: bool, cancelled: bool,
    queue: seq<Item>, worker: Worker, consumer: Consumer,
    enqueued: seq<Item>, yielded: seq<Item>)

  datatype Action =
    | Emit(item: Item)   // the request calls a progress or chunk callback
    | Drop               // building the item fails after the flag test
    | Put                // the worker puts what it is about to put
    | End(item: Item)    // the request returns or raises
    | Consume            // the consumer's next step
    | Cancel

  function Initial(cancellable: bool): System {
    System(cancellable, false, [], Running, Getting, [], [])
  }

  function Enqueue(s: System, item: Item, worker: Worker): System {
    s.(queue := s.queue + [item], enqueued := s.enqueued + [item], worker := worker)
  }

  function ConsumerStep(s: System): System {
    match s.consumer
    case Getting =>
      if s.queue == [] then s.(consumer := TimedOut)
      else s.(consumer := Got(s.queue[0]), queue := s.queue[1..])
    case TimedOut => s.(consumer := if s.cancelled then Stopped(None) else Getting)
    case Got(item) => s.(consumer := if item == Done || s.cancelled then Stopped(Some(item)) else Passed(item))
    case Passed(item) => s.(consumer := Suspended, yielded := s.yielded + [item])
    case Suspended => s.(consumer := Getting)
    case Stopped(_) => s
  }

  /** One step of the system; an action that is not enabled changes nothing. */
  function Next(s: System, action: Action): System {
    match action
    case Emit(item) =>
      if s.worker == Running && Streamed(item) && item != TextDelta("") && !s.cancelled
      then s.(worker := Emitting(item)) else s
    case Drop => if s.worker.Emitting? then s.(worker := Running) else s
    case Put =>
      (match s.worker
       case Emitting(item) => Enqueue(s, item, Running)
       case Finishing(item) => Enqueue(s, item, Closing)
       case Closing => Enqueue(s, Done, Ended)
       case _ => s)
    case End(item) => if s.worker == Running && Terminal(item) then s.(worker := Finishing(item)) else s
    case Consume => ConsumerStep(s)
    case Cancel => if s.cancellable then s.(cancelled := true) else s
  }

  function Execute(s: System, actions: seq<Action>): System
    decreases |actions|
  {
    if actions == [] then s else Execute(Next(s, actions[0]), actions[1..])
  }

  // ---- The invariant ----

  function Hand(consumer: Consumer): seq<Item> {
    match consumer
    case Got(item) => [item]
    case Passed(item) => [item]
    case Stopped(last) => if last.Some? then [last.value] else []
    case _ => []
  }

  ghost predicate AllStreamed(items: seq<Item>) {
    forall item :: item in items ==> Streamed(item)
  }

  function Front(items: seq<Item>): seq<Item>
    requires items != []
  {
    items[..|items| - 1]
  }

  function Last(items: seq<Item>): Item
    requires items != []
  {
    items[|items| - 1]
  }

  /** Streamed items, then one result or error. */
  ghost predicate Complete(items: seq<Item>) {
    items != [] && AllStreamed(Front(items)) && Terminal(Last(items))
  }

  /** What the worker has put, by where it is. */
  ghost predicate Produced(worker: Worker, enqueued: seq<Item>) {
    match worker
    case Running => AllStreamed(enqueued)
    case Emitting(item) => AllStreamed(enqueued) && Streamed(item)
    case Finishing(item) => AllStreamed(enqueued) && Terminal(item)
    case Closing => Complete(enqueued)
    case Ended => enqueued != [] && Complete(Front(enqueued)) && Last(enqueued) == Done
  }

  ghost predicate Orderly(s: System) {
    && s.enqueued == s.yielded + Hand(s.consumer) + s.queue
    && Produced(s.worker, s.enqueued)
    && Done !in s.yielded
    && (s.consumer.Passed? ==> s.consumer.item != Done)
    && (s.consumer.Stopped? ==> s.consumer.last == Some(Done) || s.cancelled)
    && (s.cancelled ==> s.cancellable)
  }

  lemma PutKeepsProduced(s: System)
    requires Produced(s.worker, s.enqueued)
    ensures Produced(Next(s, Put).worker, Next(s, Put).enqueued)
  {
    forall item: Item ensures Front(s.enqueued + [item]) == s.enqueued {
    }
  }

  lemma PutKeepsOrder(s: System, item: Item)
    requires s.enqueued == s.yielded + Hand(s.consumer) + s.queue
    ensures s.enqueued + [item] == s.yielded + Hand(s.consumer) + (s.queue + [item])
  {
  }

  lemma PutKeepsOrderly(s: System)
    requires Orderly(s)
    ensures Orderly(Next(s, Put))
  {
    PutKeepsProduced(s);
    if Next(s, Put) != s {
      PutKeepsOrder(s, Last(Next(s, Put).enqueued));
    }
  }

  lemma ConsumerKeepsOrder(s: System)
    requires s.enqueued == s.yielded + Hand(s.consumer) + s.queue
    ensures var s' := ConsumerStep(s); s'.enqueued == s'.yielded + Hand(s'.consumer) + s'.queue
  {
    var s' := ConsumerStep(s);
    if s.consumer == Getting && s.queue != [] {
      assert s.queue == [s.queue[0]] + s.queue[1..];
      assert s.yielded + [] + s.queue == s.yielded + [s.queue[0]] + s.queue[1..];
    } else if s.consumer.Passed? {
      assert s.yielded + [s.consumer.item] + s.queue == (s.yielded + [s.consumer.item]) + [] + s.queue;
    }
  }

  lemma StepKeepsOrderly(s: System, action: Action)
    requires Orderly(s)
    ensures Orderly(Next(s, action))
  {
    hide Produced;
    match action {
      case Put => PutKeepsOrderly(s);
      case Consume => ConsumerKeepsOrder(s);
      case Emit(_) => OwnStepKeepsProduced(s, action);
      case End(_) => OwnStepKeepsProduced(s, action);
      case Drop => OwnStepKeepsProduced(s, action);
      case Cancel =>
    }
  }

  lemma OwnStepKeepsProduced(s: System, action: Action)
    requires Produced(s.worker, s.enqueued) && (action.Emit? || action.End? || action.Drop?)
    ensures Produced(Next(s, action).worker, Next(s, action).enqueued)
  {
  }

  lemma {:induction false} RunsAreOrderly(s: System, actions: seq<Action>)
    requires Orderly(s)
    ensures Orderly(Execute(s, actions))
    decreases |actions|
  {
    if actions != [] {
      StepKeepsOrderly(s, actions[0]);
      RunsAreOrderly(Next(s, actions[0]), actions[1..]);
    }
  }

  // ---- What every interleaving guarantees ----

  /** The yielded items are a prefix of the enqueued ones; the sentinel is never yielded. */
  lemma YieldsAreAPrefix(cancellable: bool, actions: seq<Action>)
    ensures var s := Execute(Initial(cancellable), actions);
            s.yielded <= s.enqueued && Done !in s.yielded
  {
    RunsAreOrderly(Initial(cancellable), actions);
  }

  /** A run that was not cancelled and whose consumer has stopped delivered everything: streamed
      items, then exactly one result or error. */
  lemma UncancelledRunsDeliverEverything(cancellable: bool, actions: seq<Action>)
    requires var s := Execute(Initial(cancellable), actions); !s.cancelled && s.consumer.Stopped?
    ensures var s := Execute(Initial(cancellable), actions);
            s.worker == Ended && s.enqueued == s.yielded + [Done] && Complete(s.yielded)
  {
    var s := Execute(Initial(cancellable), actions);
    RunsAreOrderly(Initial(cancellable), actions);
    DoneIsLast(s);
  }

  /** The sentinel, once in the consumer's hand, was the last thing ever put. */
  lemma DoneIsLast(s: System)
    requires Orderly(s) && Hand(s.consumer) == [Done]
    ensures s.worker == Ended && s.queue == [] && s.enqueued == s.yielded + [Done] && Complete(s.yielded)
  {
    var k := |s.yielded|;
    assert s.enqueued[k] == Done;
    DoneOnlyAtTheEnd(s.worker, s.enqueued, k);
    assert s.queue == [];
    assert s.yielded == Front(s.enqueued);
  }

  lemma DoneOnlyAtTheEnd(worker: Worker, enqueued: seq<Item>, k: nat)
    requires Produced(worker, enqueued) && k < |enqueued| && enqueued[k] == Done
    ensures worker == Ended && k == |enqueued| - 1
  {
    assert Done in enqueued;
    if worker == Closing {
      CompleteHasNoDone(enqueued);
    } else if worker == Ended {
      CompleteHasNoDone(Front(enqueued));
      assert forall i :: 0 <= i < |enqueued| - 1 ==> enqueued[i] == Front(enqueued)[i];
    }
  }

  lemma CompleteHasNoDone(items: seq<Item>)
    requires Complete(items)
    ensures Done !in items
  {
    assert items == Front(items) + [Last(items)];
  }

  /** After the flag is set, only an item already past the test is still yielded. */
  lemma {:induction false} CancelSilences(s: System, actions: seq<Action>)
    requires s.cancelled
    ensures var s' := Execute(s, actions);
            && s'.cancelled
            && (s'.yielded == s.yielded || (s.consumer.Passed? && s'.yielded == s.yielded + [s.consumer.item]))
    decreases |actions|
  {
    if actions != [] {
      CancelSilences(Next(s, actions[0]), actions[1..]);
    }
  }

  function ConsumerSteps(actions: seq<Action>): nat {
    if actions == [] then 0 else (if actions[0] == Consume then 1 else 0) + ConsumerSteps(actions[1..])
  }

  /** How many of its own steps the consumer still takes once the flag is set. */
  function StepsToStop(consumer: Consumer): nat {
    match consumer
    case Passed(_) => 4
    case Suspended => 3
    case Getting => 2
    case TimedOut => 1
    case Got(_) => 1
    case Stopped(_) => 0
  }

  /** A cancelled consumer stops within four of its own steps, whatever the worker does meanwhile. */
  lemma {:induction false} CancelStopsTheConsumer(s: System, actions: seq<Action>)
    requires s.cancelled && ConsumerSteps(actions) >= StepsToStop(s.consumer)
    ensures Execute(s, actions).consumer.Stopped?
    decreases |actions|
  {
    if actions != [] {
      CancelStopsTheConsumer(Next(s, actions[0]), actions[1..]);
    }
  }

  function PutsLeft(worker: Worker): nat {
    match worker
    case Running => 2
    case Emitting(_) => 3
    case Finishing(_) => 2
    case Closing => 1
    case Ended => 0
  }

  /** A cancelled worker puts at most the item in flight, its result or error, and the sentinel. */
  lemma {:induction false} CancelThrottlesTheWorker(s: System, actions: seq<Action>)
    requires s.cancelled
    ensures var s' := Execute(s, actions);
            |s'.enqueued| + PutsLeft(s'.worker) <= |s.enqueued| + PutsLeft(s.worker)
    decreases |actions|
  {
    if actions != [] {
      CancelThrottlesTheWorker(Next(s, actions[0]), actions[1..]);
    }
  }

  /** Consumer steps needed to work off a queue to which nothing more is added. */
  function StepsToDrain(s: System): nat {
    match s.consumer
    case Getting => 4 * |s.queue|
    case TimedOut => 4 * |s.queue| + 1
    case Got(_) => 4 * |s.queue| + 3
    case Passed(_) => 4 * |s.queue| + 2
    case Suspended => 4 * |s.queue| + 1
    case Stopped(_) => 0
  }

  /** Once the worker has ended, enough consumer steps always end the stream. */
  lemma {:induction false} EndedWorkerLetsTheConsumerFinish(s: System, actions: seq<Action>)
    requires Orderly(s) && s.worker == Ended && ConsumerSteps(actions) >= StepsToDrain(s)
    ensures Execute(s, actions).consumer.Stopped?
    decreases |actions|
  {
    if !s.consumer.Stopped? {
      SentinelStillAhead(s);
    }
    if actions != [] {
      StepKeepsOrderly(s, actions[0]);
      StepDrains(s, actions[0]);
      EndedWorkerLetsTheConsumerFinish(Next(s, actions[0]), actions[1..]);
    }
  }

  lemma StepDrains(s: System, action: Action)
    requires s.worker == Ended && (s.consumer == Getting ==> s.queue != [])
    ensures var s' := Next(s, action);
            && s'.worker == Ended && StepsToDrain(s') <= StepsToDrain(s)
            && (action == Consume && !s.consumer.Stopped? ==> StepsToDrain(s') < StepsToDrain(s))
  {
  }

  lemma SentinelStillAhead(s: System)
    requires Orderly(s) && s.worker == Ended && !s.consumer.Stopped?
    ensures Done in s.queue || s.consumer == Got(Done)
  {
    assert s.enqueued[|s.enqueued| - 1] == Done;
    if s.queue != [] {
      assert s.queue[|s.queue| - 1] == Done;
    } else {
      var rest := s.yielded + Hand(s.consumer);
      assert rest == s.enqueued && rest[|rest| - 1] == Done;
    }
  }

  // ---- From what the request offers to what is yielded ----

  /** What the two callbacks pass on: progress always, text unless it is empty. */
  predicate Offered(item: Item) { item.Progress? || (item.TextDelta? && item.text != "") }

  /** An offer made while nothing is cancelled is enqueued; after a cancel, and for empty text, nothing is. */
  lemma OfferIsEnqueued(s: System, item: Item)
    requires s.worker == Running && (item.Progress? || item.TextDelta?)
    ensures var s' := Execute(s, [Emit(item), Put]);
            && s'.worker == Running && s'.yielded == s.yielded && s'.consumer == s.consumer
            && (if !s.cancelled && item != TextDelta("")
                then s'.enqueued == s.enqueued + [item] && s'.queue == s.queue + [item]
                else s' == s)
  {
    TwoActions(s, Emit(item), Put);
  }

  /** The request's result or error is enqueued, cancelled or not, and then the sentinel. */
  lemma EndIsEnqueued(s: System, item: Item)
    requires s.worker == Running && (item.Result? || item.Failure?)
    ensures var s' := Execute(s, [End(item), Put, Put]);
            && s'.worker == Ended && s'.enqueued == s.enqueued + [item, Done]
            && s'.queue == s.queue + [item, Done]
  {
    var actions := [End(item), Put, Put];
    assert actions[1..] == [Put, Put];
    TwoActions(Next(s, End(item)), Put, Put);
    assert s.enqueued + [item] + [Done] == s.enqueued + [item, Done];
    assert s.queue + [item] + [Done] == s.queue + [item, Done];
  }

  lemma TwoActions(s: System, a: Action, b: Action)
    ensures Execute(s, [a, b]) == Next(Next(s, a), b)
  {
    assert [a, b][1..] == [b] && [b][1..] == [];
    assert Execute(Next(s, a), [b]) == Execute(Next(Next(s, a), b), []);
  }

  /** The flag is set exactly by a cancel of a cancellable stream, and never cleared. */
  lemma CancelSetsTheFlag(s: System, action: Action)
    ensures Next(s, action).cancelled <==> s.cancelled || (action == Cancel && s.cancellable)
  {
  }

  function Offer(action: Action): seq<Item> {
    if action.Emit? && Offered(action.item) then [action.item]
    else if action.End? && Terminal(action.item) then [action.item] else []
  }

  /** Everything the request offers and ends with, in order. */
  function Offers(actions: seq<Action>): seq<Item> {
    if actions == [] then [] else Offer(actions[0]) + Offers(actions[1..])
  }

  /** The request makes one offer at a time, none of them fails to be built, and none follows its end. */
  ghost predicate OneAtATime(s: System, actions: seq<Action>)
    decreases |actions|
  {
    actions == [] || (Timely(s, actions[0]) && OneAtATime(Next(s, actions[0]), actions[1..]))
  }

  ghost predicate Timely(s: System, action: Action) {
    !action.Drop? && (Offer(action) != [] ==> s.worker == Running)
  }

  /** What the worker has put or is about to put, the sentinel aside. */
  function Sent(s: System): seq<Item> {
    match s.worker
    case Emitting(item) => s.enqueued + [item]
    case Finishing(item) => s.enqueued + [item]
    case Ended => if s.enqueued == [] then [] else Front(s.enqueued)
    case _ => s.enqueued
  }

  lemma PutSends(s: System)
    requires Produced(s.worker, s.enqueued)
    ensures Sent(Next(s, Put)) == Sent(s)
  {
    if s.worker == Closing {
      assert Front(s.enqueued + [Done]) == s.enqueued;
    }
  }

  lemma StepSends(s: System, action: Action)
    requires Produced(s.worker, s.enqueued) && !s.cancelled && Timely(s, action)
    ensures Sent(Next(s, action)) == Sent(s) + Offer(action)
  {
    if action == Put {
      PutSends(s);
    }
    hide Produced;
    if Offer(action) == [] {
      assert Sent(s) + [] == Sent(s);
    }
  }

  lemma {:induction false} RunsSend(s: System, actions: seq<Action>)
    requires Orderly(s) && OneAtATime(s, actions) && !Execute(s, actions).cancelled
    ensures Sent(Execute(s, actions)) == Sent(s) + Offers(actions)
    decreases |actions|
  {
    if actions == [] {
      assert Sent(s) + [] == Sent(s);
    } else {
      var first, rest := actions[0], actions[1..];
      if s.cancelled {
        CancelSilences(s, actions);
      }
      StepKeepsOrderly(s, first);
      StepSends(s, first);
      RunsSend(Next(s, first), rest);
      hide Next;
      hide Sent;
      hide Orderly;
      assert (Sent(s) + Offer(first)) + Offers(rest) == Sent(s) + (Offer(first) + Offers(rest));
    }
  }

  /** A stream that was not cancelled and has ended has yielded exactly what its request offered, in
      order, and then its result or error. */
  lemma StreamIsWhatWasOffered(cancellable: bool, actions: seq<Action>)
    requires OneAtATime(Initial(cancellable), actions)
    requires var s := Execute(Initial(cancellable), actions); !s.cancelled && s.consumer.Stopped?
    ensures Execute(Initial(cancellable), actions).yielded == Offers(actions)
    ensures Complete(Offers(actions))
  {
    var s := Execute(Initial(cancellable), actions);
    UncancelledRunsDeliverEverything(cancellable, actions);
    RunsSend(Initial(cancellable), actions);
    assert Front(s.enqueued) == s.yielded;
    assert [] + Offers(actions) == Offers(actions);
  }
}
