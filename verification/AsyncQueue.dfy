/** The push-to-pull queue between a streaming producer and its one consumer (`src/chat/async-queue.ts`). The producer's
    calls, the consumer's pulls and its resumptions after a wake-up interleave freely. */
module AsyncQueue {
  import opened Wrappers

  /** `Resume` is the consumer's microtask running after a wake-up. A step whose actor cannot take it does nothing:
      a consumer only pulls again once its last pull has returned. */
  datatype Step<T, E> = Push(item: T) | Close | Fail(error: E) | Next | Resume

  datatype Consumer = Idle | Parked | Woken

  /** What a pull returned: an item, the end of the stream, or the failure. */
  datatype Outcome<T, E> = Item(item: T) | Done | Thrown(error: E)

  datatype State<T, E> = State(buffer: seq<T>, closed: bool, failure: Option<E>, consumer: Consumer,
                               outcomes: seq<Outcome<T, E>>)

  function Fresh<T, E>(): State<T, E> { State([], false, None, Idle, []) }

  function Wake(c: Consumer): Consumer { if c.Parked? then Woken else c }

  /** One pass of the loop in `next`. */
  function Pull<T, E>(s: State<T, E>): State<T, E> {
    if |s.buffer| > 0 then s.(buffer := s.buffer[1..], consumer := Idle, outcomes := s.outcomes + [Item(s.buffer[0])])
    else if s.failure.Some? then s.(consumer := Idle, outcomes := s.outcomes + [Thrown(s.failure.value)])
    else if s.closed then s.(consumer := Idle, outcomes := s.outcomes + [Done])
    else s.(consumer := Parked)
  }

  function Apply<T, E>(s: State<T, E>, step: Step<T, E>): State<T, E> {
    var over := s.closed || s.failure.Some?;
    match step
    case Push(x) => if over then s else s.(buffer := s.buffer + [x], consumer := Wake(s.consumer))
    case Close => if over then s else s.(closed := true, consumer := Wake(s.consumer))
    case Fail(e) => if over then s else s.(failure := Some(e), consumer := Wake(s.consumer))
    case Next => if s.consumer.Idle? then Pull(s) else s
    case Resume => if s.consumer.Woken? then Pull(s) else s
  }

  function Run<T, E>(steps: seq<Step<T, E>>): State<T, E> {
    if steps == [] then Fresh() else Apply(Run(steps[..|steps| - 1]), steps[|steps| - 1])
  }

  // ----- what the steps say, without the queue

  /** How the producer ended the stream: by its first close or fail. */
  function Ending<T, E>(steps: seq<Step<T, E>>): Option<Outcome<T, E>> {
    if steps == [] then None
    else
      var before := Ending(steps[..|steps| - 1]);
      if before.Some? then before
      else match steps[|steps| - 1]
        case Close => Some(Done)
        case Fail(e) => Some(Thrown(e))
        case _ => None
  }

  /** The items pushed before the stream was ended. */
  function Pushed<T, E>(steps: seq<Step<T, E>>): seq<T> {
    if steps == [] then []
    else
      var before := Pushed(steps[..|steps| - 1]);
      match steps[|steps| - 1]
      case Push(x) => if Ending(steps[..|steps| - 1]).None? then before + [x] else before
      case _ => before
  }

  function Items<T, E>(outcomes: seq<Outcome<T, E>>): seq<T> {
    if outcomes == [] then []
    else Items(outcomes[..|outcomes| - 1])
         + match outcomes[|outcomes| - 1] case Item(x) => [x] case _ => []
  }

  /** The first `n` outcomes are items and each later one is `ending`. */
  ghost predicate ItemsThenEnding<T, E>(outcomes: seq<Outcome<T, E>>, n: nat, ending: Option<Outcome<T, E>>) {
    && n <= |outcomes|
    && (forall i :: 0 <= i < n ==> outcomes[i].Item?)
    && (forall i :: n <= i < |outcomes| ==> ending == Some(outcomes[i]))
  }

  // ----- every interleaving

  /** The producer's flags say how it ended the stream. */
  lemma {:induction false} FlagsAreTheEnding<T, E>(steps: seq<Step<T, E>>)
    ensures var s := Run(steps);
      && !(s.closed && s.failure.Some?)
      && Ending(steps) == (if s.failure.Some? then Some(Thrown(s.failure.value)) else if s.closed then Some(Done) else None)
      && (Ending(steps).Some? ==> !Ending(steps).value.Item?)
  {
    if steps != [] { FlagsAreTheEnding(steps[..|steps| - 1]); }
  }

  lemma OneMoreOutcome<T, E>(outcomes: seq<Outcome<T, E>>, o: Outcome<T, E>)
    ensures Items(outcomes + [o]) == Items(outcomes) + if o.Item? then [o.item] else []
  {
    assert (outcomes + [o])[..|outcomes|] == outcomes;
  }

  lemma PullMovesTheFront<T, E>(s: State<T, E>)
    ensures Items(Pull(s).outcomes) + Pull(s).buffer == Items(s.outcomes) + s.buffer
  {
    if |s.buffer| > 0 {
      OneMoreOutcome(s.outcomes, Item(s.buffer[0]));
      assert Items(s.outcomes) + [s.buffer[0]] + s.buffer[1..] == Items(s.outcomes) + s.buffer;
    } else if s.failure.Some? {
      OneMoreOutcome(s.outcomes, Thrown(s.failure.value));
    } else if s.closed {
      OneMoreOutcome(s.outcomes, Done);
    }
  }

  /** Nothing is lost, duplicated or reordered: what was delivered, followed by what is buffered, is what was pushed
      before the end. */
  lemma {:induction false} DeliveredThenBuffered<T, E>(steps: seq<Step<T, E>>)
    ensures Items(Run(steps).outcomes) + Run(steps).buffer == Pushed(steps)
  {
    if steps != [] {
      var s := Run(steps[..|steps| - 1]);
      DeliveredThenBuffered(steps[..|steps| - 1]);
      FlagsAreTheEnding(steps[..|steps| - 1]);
      if steps[|steps| - 1].Next? || steps[|steps| - 1].Resume? {
        PullMovesTheFront(s);
      } else if steps[|steps| - 1].Push? {
        var x := steps[|steps| - 1].item;
        assert Items(s.outcomes) + (s.buffer + [x]) == Items(s.outcomes) + s.buffer + [x];
      }
    }
  }

  /** No lost wake-up: a parked consumer means an empty, open and unfailed queue, and a woken one has something to find. */
  lemma {:induction false} NoLostWakeUp<T, E>(steps: seq<Step<T, E>>)
    ensures var s := Run(steps);
      && (s.consumer.Parked? ==> s.buffer == [] && Ending(steps).None?)
      && (s.consumer.Woken? ==> s.buffer != [] || Ending(steps).Some?)
  {
    if steps != [] {
      NoLostWakeUp(steps[..|steps| - 1]);
      FlagsAreTheEnding(steps[..|steps| - 1]);
      FlagsAreTheEnding(steps);
    }
  }

  ghost predicate Ordered<T, E>(s: State<T, E>, ending: Option<Outcome<T, E>>) {
    ItemsThenEnding(s.outcomes, |Items(s.outcomes)|, ending) && (|Items(s.outcomes)| < |s.outcomes| ==> s.buffer == [])
  }

  lemma PullKeepsOrder<T, E>(s: State<T, E>, ending: Option<Outcome<T, E>>)
    requires Ordered(s, ending) && (ending.Some? ==> !ending.value.Item?)
    requires ending == if s.failure.Some? then Some(Thrown(s.failure.value)) else if s.closed then Some(Done) else None
    ensures Ordered(Pull(s), ending)
  {
    var s' := Pull(s);
    if s'.outcomes != s.outcomes {
      OneMoreOutcome(s.outcomes, s'.outcomes[|s.outcomes|]);
    }
  }

  lemma {:induction false} AlwaysOrdered<T, E>(steps: seq<Step<T, E>>)
    ensures Ordered(Run(steps), Ending(steps))
  {
    if steps != [] {
      var before := steps[..|steps| - 1];
      AlwaysOrdered(before);
      FlagsAreTheEnding(before);
      if steps[|steps| - 1].Next? || steps[|steps| - 1].Resume? {
        PullKeepsOrder(Run(before), Ending(before));
      } else {
        FlagsAreTheEnding(steps);
      }
    }
  }

  /** The consumer sees the items first and then only the producer's own ending, which it is told only once every item
      pushed before the end has been delivered. */
  lemma EndingComesLast<T, E>(steps: seq<Step<T, E>>)
    ensures var s := Run(steps);
      && ItemsThenEnding(s.outcomes, |Items(s.outcomes)|, Ending(steps))
      && (|Items(s.outcomes)| < |s.outcomes| ==> Items(s.outcomes) == Pushed(steps))
  {
    AlwaysOrdered(steps);
    DeliveredThenBuffered(steps);
  }

  // ----- and it drains

  function Nexts<T, E>(n: nat): seq<Step<T, E>> { seq(n, _ => Next) }

  lemma {:induction false} NextsDrain<T, E>(steps: seq<Step<T, E>>, n: nat)
    requires Run(steps).consumer.Idle? && Ending(steps).Some?
    ensures Ending(steps + Nexts(n)) == Ending(steps) && Pushed(steps + Nexts(n)) == Pushed(steps)
    ensures var s := Run(steps + Nexts(n));
      && s.consumer.Idle?
      && |s.outcomes| == |Run(steps).outcomes| + n
      && |s.buffer| == if n < |Run(steps).buffer| then |Run(steps).buffer| - n else 0
  {
    if n == 0 {
      assert steps + Nexts(0) == steps;
    } else {
      var all := steps + Nexts(n);
      NextsDrain(steps, n - 1);
      assert all[..|all| - 1] == steps + Nexts(n - 1) && all[|all| - 1] == Next;
      FlagsAreTheEnding(steps + Nexts(n - 1));
    }
  }

  /** Once the stream is ended, letting the consumer run delivers everything and then tells it of the ending, from every
      state that an interleaving can reach. */
  lemma EndedStreamDrains<T, E>(steps: seq<Step<T, E>>)
    requires Ending(steps).Some?
    ensures var all := steps + [Resume] + Nexts(|Run(steps).buffer| + 1);
      && Items(Run(all).outcomes) == Pushed(steps)
      && Run(all).outcomes != []
      && Run(all).outcomes[|Run(all).outcomes| - 1] == Ending(steps).value
  {
    var resumed := steps + [Resume];
    assert resumed[..|steps|] == steps;
    NoLostWakeUp(steps);
    FlagsAreTheEnding(steps);
    var n := |Run(steps).buffer| + 1;
    var all := resumed + Nexts(n);
    NextsDrain(resumed, n);
    DeliveredThenBuffered(all);
    AlwaysOrdered(all);
    DrainedIsTold(steps, all);
  }

  lemma DrainedIsTold<T, E>(steps: seq<Step<T, E>>, all: seq<Step<T, E>>)
    requires Pushed(all) == Pushed(steps) && Run(all).buffer == []
    requires |Run(all).outcomes| >= |Run(steps).outcomes| + |Run(steps).buffer| + 1
    ensures |Items(Run(all).outcomes)| < |Run(all).outcomes|
  {
    DeliveredThenBuffered(all);
    DeliveredThenBuffered(steps);
    ItemsAreFewer(Run(steps).outcomes);
  }

  lemma {:induction false} ItemsAreFewer<T, E>(outcomes: seq<Outcome<T, E>>)
    ensures |Items(outcomes)| <= |outcomes|
  {
    if outcomes != [] { ItemsAreFewer(outcomes[..|outcomes| - 1]); }
  }

  // ----- the queue itself

  /** The closure of `createAsyncQueue`: `waiting` holds the parked consumer's resolver. The ghost fields follow its one
      consumer. */
  class Queue<T, E> {
    var buffer: seq<T>
    var waiting: bool
    var closed: bool
    var failure: Option<E>
    ghost var consumer: Consumer
    ghost var outcomes: seq<Outcome<T, E>>

    ghost predicate Valid()
      reads this
    {
      waiting <==> consumer.Parked?
    }

    ghost function Now(): State<T, E>
      reads this
    {
      State(buffer, closed, failure, consumer, outcomes)
    }

    constructor ()
      ensures Valid() && Now() == Fresh()
    {
      buffer, waiting, closed, failure := [], false, false, None;
      consumer, outcomes := Idle, [];
    }

    method WakeConsumer()
      requires Valid()
      modifies this`waiting, this`consumer
      ensures Valid() && consumer == Wake(old(consumer))
    {
      waiting := false;
      consumer := Wake(consumer);
    }

    method PushItem(item: T)
      requires Valid()
      modifies this
      ensures Valid() && Now() == Apply(old(Now()), Push(item))
    {
      if closed || failure.Some? { return; }
      buffer := buffer + [item];
      WakeConsumer();
    }

    method CloseStream()
      requires Valid()
      modifies this
      ensures Valid() && Now() == Apply(old(Now()), Close)
    {
      if closed || failure.Some? { return; }
      closed := true;
      WakeConsumer();
    }

    method FailStream(error: E)
      requires Valid()
      modifies this
      ensures Valid() && Now() == Apply(old(Now()), Fail(error))
    {
      if closed || failure.Some? { return; }
      failure := Some(error);
      WakeConsumer();
    }

    /** One pass of the consumer's loop: the outcome of its pull, or None when it parks. */
    method PullOnce() returns (outcome: Option<Outcome<T, E>>)
      requires Valid() && !consumer.Parked?
      modifies this
      ensures Valid() && Now() == Pull(old(Now()))
      ensures outcomes == old(outcomes) + if outcome.Some? then [outcome.value] else []
      ensures outcome.None? <==> waiting
    {
      if |buffer| > 0 {
        outcome := Some(Item(buffer[0]));
        buffer := buffer[1..];
      } else if failure.Some? {
        outcome := Some(Thrown(failure.value));
      } else if closed {
        outcome := Some(Done);
      } else {
        outcome := None;
        waiting := true;
        consumer := Parked;
        return;
      }
      consumer := Idle;
      outcomes := outcomes + [outcome.value];
    }
  }
}
