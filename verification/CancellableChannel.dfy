/** A producer and a consumer on a bounded channel under a context that is cancelled at some moment.

    Each select is one step: it takes any ready case, and `default` only when no case is ready (Go language
    specification, section "Select statements"). A receive from a closed channel yields what is still buffered
    first; a send on a closed channel, or a second close, panics. */
module CancellableChannel {
  import opened Runs

  /** The producer's goroutine: at the outer select, at the inner one, at its deferred close, gone. */
  datatype Producer = Choosing | Sending | Leaving | ProducerGone

  /** The consumer's goroutine: at its select, in the drain loop, gone. */
  datatype Consumer = Receiving | Draining | ConsumerGone

  /** The last four are history: successful sends, those among them after the cancellation, calls of `close`,
      and the values received, by either loop. */
  datatype State = State(
    capacity: nat, queue: seq<int>, closed: bool, cancelled: bool, panicked: bool,
    producer: Producer, time: int, consumer: Consumer,
    sent: nat, lateSends: nat, closes: nat, received: seq<int>)

  ghost function Init(capacity: nat): State {
    State(capacity, [], false, false, false, Choosing, 0, Receiving, 0, 0, 0, [])
  }

  datatype Action =
    | Choose       // the producer's outer select
    | Send         // the inner select sends
    | Quit         // the inner select sees the cancellation
    | CloseQueue   // the deferred close
    | Receive      // the consumer's select, or its drain loop, receives a value
    | SeeClosed    // the same, on a closed and empty channel
    | StartDrain   // the consumer's select sees the cancellation
    | Cancel       // the timeout

  predicate Enabled(s: State, a: Action) {
    && !s.panicked
    && match a
       case Choose => s.producer == Choosing
       case Send => s.producer == Sending && (s.closed || |s.queue| < s.capacity)
       case Quit => s.producer == Sending && s.cancelled
       case CloseQueue => s.producer == Leaving
       case Receive => s.consumer != ConsumerGone && s.queue != []
       case SeeClosed => s.consumer != ConsumerGone && s.queue == [] && s.closed
       case StartDrain => s.consumer == Receiving && s.cancelled
       case Cancel => !s.cancelled
  }

  function Apply(s: State, a: Action): State
    requires Enabled(s, a)
  {
    match a
    case Choose =>
      if s.cancelled then s.(producer := Leaving)
      else s.(time := s.time + 1, producer := Sending)
    case Send =>
      if s.closed then s.(panicked := true)
      else s.(queue := s.queue + [s.time], producer := Choosing,
              sent := s.sent + 1, lateSends := s.lateSends + if s.cancelled then 1 else 0)
    case Quit => s.(producer := Leaving)
    case CloseQueue =>
      if s.closed then s.(panicked := true)
      else s.(closed := true, closes := s.closes + 1, producer := ProducerGone)
    case Receive => s.(queue := s.queue[1..], received := s.received + [s.queue[0]])
    case SeeClosed => s.(consumer := ConsumerGone)
    case StartDrain => s.(consumer := Draining)
    case Cancel => s.(cancelled := true)
  }

  ghost predicate Step(s: State, a: Action, t: State) {
    Enabled(s, a) && t == Apply(s, a)
  }

  ghost predicate Next(s: State, t: State) {
    exists a :: Step(s, a, t)
  }

  // ---- what every run keeps

  function UpTo(k: nat): seq<int> {
    seq(k, i => i + 1)
  }

  ghost predicate Orderly(s: State) {
    && s.received + s.queue == UpTo(s.sent)
    && |s.queue| <= s.capacity
    && !s.panicked
    // the counter runs at most one ahead of the sends, and only while a value is on offer or was given up
    && (s.producer == Choosing ==> s.time == s.sent)
    && (s.producer == Sending ==> s.time == s.sent + 1)
    && s.sent <= s.time <= s.sent + 1
    // one close, by a producer that is gone
    && (s.closed <==> s.producer == ProducerGone)
    && s.closes == (if s.closed then 1 else 0)
    // a late send leaves the producer before its outer select, which then sees the cancellation
    && s.lateSends <= 1
    && (!s.cancelled ==> s.lateSends == 0 && s.producer in {Choosing, Sending} && s.consumer == Receiving)
    && (s.producer == Sending ==> s.lateSends == 0)
    // a consumer leaves a closed channel empty
    && (s.consumer == ConsumerGone ==> s.closed && s.queue == [])
  }

  lemma OrderlyKept(s: State, a: Action)
    requires Orderly(s) && Enabled(s, a)
    ensures Orderly(Apply(s, a))
  {
    var t := Apply(s, a);
    if a == Send {
      assert t.received + t.queue == (s.received + s.queue) + [s.time];
      assert UpTo(s.sent) + [s.time] == UpTo(t.sent);
    } else if a == Receive {
      assert s.queue == [s.queue[0]] + s.queue[1..];
    }
  }

  // ---- who may do what

  /** A value enters the channel at its end, by a send of the producer, and leaves it at its front, by a receive of the
      consumer; no other step touches what was sent or received. */
  lemma OnlyThroughTheChannel(s: State, a: Action, t: State)
    requires Orderly(s) && Step(s, a, t)
    ensures t.queue == (if a == Receive then s.queue[1..] else s.queue) + if a == Send then [s.time] else []
    ensures t.received == s.received + if a == Receive then [s.queue[0]] else []
    ensures t.sent == s.sent + if a == Send then 1 else 0
    ensures t.lateSends == s.lateSends + if a == Send && s.cancelled then 1 else 0
    ensures t.closes == s.closes + if a == CloseQueue then 1 else 0
    ensures t.cancelled == (s.cancelled || a == Cancel) && t.closed == (s.closed || a == CloseQueue)
    ensures t.time == s.time + if a == Choose && !s.cancelled then 1 else 0
  {
  }

  /** Each select can take any case that is ready: the producer's inner one a send if there is room and its exit if the
      context is cancelled, the consumer's a receive if there is a value, or the end of a closed channel, and its drain
      loop if the context is cancelled. */
  lemma SelectsTakeAnyReadyCase(s: State)
    requires Orderly(s)
    ensures s.producer == Sending ==> (Enabled(s, Send) <==> |s.queue| < s.capacity)
    ensures s.producer == Sending ==> (Enabled(s, Quit) <==> s.cancelled)
    ensures s.consumer != ConsumerGone ==> (Enabled(s, Receive) <==> s.queue != [])
    ensures s.consumer != ConsumerGone ==> (Enabled(s, SeeClosed) <==> s.queue == [] && s.producer == ProducerGone)
    ensures s.consumer == Receiving ==> (Enabled(s, StartDrain) <==> s.cancelled)
  {
  }

  /** The values that the producer's sends offered, and those that the consumer's receives took, in a run. */
  ghost function Offered(run: seq<State>, actions: seq<Action>): seq<int>
    requires |run| == |actions| + 1
  {
    if actions == [] then []
    else
      var last := |actions| - 1;
      Offered(run[..last + 1], actions[..last]) + if actions[last] == Send then [run[last].time] else []
  }

  ghost function Taken(run: seq<State>, actions: seq<Action>): seq<int>
    requires |run| == |actions| + 1
  {
    if actions == [] then []
    else
      var last := |actions| - 1;
      Taken(run[..last + 1], actions[..last])
      + if actions[last] == Receive && run[last].queue != [] then [run[last].queue[0]] else []
  }

  // ---- progress

  ghost predicate Finished(s: State) {
    s.producer == ProducerGone && s.consumer == ConsumerGone
  }

  /** The two goroutines never both block, even if the timeout never comes. */
  lemma NeverStuck(s: State)
    requires Orderly(s) && s.capacity >= 1
    ensures (exists a :: a != Cancel && Enabled(s, a)) <==> !Finished(s)
  {
    if !Finished(s) {
      assert Enabled(s, Choose) || Enabled(s, Send) || Enabled(s, Quit) || Enabled(s, CloseQueue)
        || Enabled(s, Receive) || Enabled(s, SeeClosed) || Enabled(s, StartDrain);
    }
  }

  /** The steps that can still follow a cancellation. */
  function Remaining(s: State): nat {
    |s.queue|
    + (match s.producer case Choosing => 2 case Sending => 4 case Leaving => 1 case ProducerGone => 0)
    + (match s.consumer case Receiving => 2 case Draining => 1 case ConsumerGone => 0)
  }

  ghost predicate Cancelled(s: State) {
    Orderly(s) && s.cancelled
  }

  lemma RemainingDrops(s: State, a: Action)
    requires Cancelled(s) && Enabled(s, a)
    ensures Cancelled(Apply(s, a)) && Remaining(Apply(s, a)) < Remaining(s)
  {
    OrderlyKept(s, a);
  }

  // ---- whole runs

  lemma AlwaysOrderly(capacity: nat, s: State)
    requires Reaches(Next, Init(capacity), s)
    ensures Orderly(s) && s.capacity == capacity
  {
    forall s, t | Orderly(s) && Next(s, t) ensures Orderly(t) {
      var a :| Step(s, a, t);
      OrderlyKept(s, a);
    }
    InvariantReachable(Next, (u: State) => Orderly(u) && u.capacity == capacity, Init(capacity), s);
  }

  /** After the cancellation at most capacity + 6 steps follow, whatever the schedule. */
  lemma ShortAfterCancel(capacity: nat, s: State, run: seq<State>, k: nat)
    requires Reaches(Next, Init(capacity), s) && s.cancelled
    requires IsRun(Next, run) && run[0] == s && k < |run|
    ensures k <= Remaining(s) <= capacity + 6
  {
    AlwaysOrderly(capacity, s);
    forall s, t | Cancelled(s) && Next(s, t) ensures Cancelled(t) && Remaining(t) < Remaining(s) {
      var a :| Step(s, a, t);
      RemainingDrops(s, a);
    }
    LengthBounded(Next, Cancelled, Remaining, run, k);
  }

  /** A run ends only when both goroutines are gone; the channel was closed once, without a panic, and the consumer
      has received every value that was sent, in order, by whichever of its exits it left. */
  lemma AllReceivedAtTheEnd(capacity: nat, s: State)
    requires capacity >= 1 && Reaches(Next, Init(capacity), s)
    requires !exists t :: Next(s, t)
    ensures Finished(s) && s.received == UpTo(s.sent) && s.queue == []
    ensures s.closed && s.closes == 1 && !s.panicked && s.sent <= s.time <= s.sent + 1 && s.lateSends <= 1
  {
    AlwaysOrderly(capacity, s);
    if a :| a != Cancel && Enabled(s, a) {
      assert Step(s, a, Apply(s, a));
      assert Next(s, Apply(s, a));
    }
    NeverStuck(s);
  }

  /** In any run, what the consumer took, followed by what is in the channel, is what the producer sent: 1, 2, 3, ... */
  lemma {:induction false} TakenAsSent(capacity: nat, run: seq<State>, actions: seq<Action>)
    requires Performs(Step, run, actions) && run[0] == Init(capacity)
    ensures var s := run[|actions|];
            && Orderly(s) && s.received == Taken(run, actions)
            && Taken(run, actions) + s.queue == Offered(run, actions) == UpTo(s.sent)
  {
    if actions != [] {
      var last := |actions| - 1;
      PerformsLess(Step, run, actions);
      TakenAsSent(capacity, run[..last + 1], actions[..last]);
      OrderlyKept(run[last], actions[last]);
      OnlyThroughTheChannel(run[last], actions[last], run[last + 1]);
      if actions[last] == Send {
        assert UpTo(run[last].sent) + [run[last].time] == UpTo(run[last + 1].sent);
      }
    }
  }

  // ---- the program

  class Program {
    const capacity: nat
    var queue: seq<int>
    var closed: bool
    var cancelled: bool
    var panicked: bool
    var producer: Producer
    var time: int
    var consumer: Consumer
    ghost var sent: nat
    ghost var lateSends: nat
    ghost var closes: nat
    ghost var received: seq<int>

    ghost function View(): State
      reads this
    {
      State(capacity, queue, closed, cancelled, panicked, producer, time, consumer, sent, lateSends, closes, received)
    }

    constructor (capacity: nat)
      ensures View() == Init(capacity)
    {
      this.capacity := capacity;
      queue, closed, cancelled, panicked := [], false, false, false;
      producer, time, consumer := Choosing, 0, Receiving;
      sent, lateSends, closes, received := 0, 0, 0, [];
    }

    /** The producer's next step; of two ready cases of the inner select it takes either. */
    method Produce() returns (ghost a: Action)
      requires Enabled(View(), Choose) || Enabled(View(), Send) || Enabled(View(), Quit) || Enabled(View(), CloseQueue)
      modifies this
      ensures a in {Choose, Send, Quit, CloseQueue}
      ensures Enabled(old(View()), a) && View() == Apply(old(View()), a)
      ensures consumer == old(consumer) && received == old(received) && cancelled == old(cancelled)
      ensures queue == old(queue) + (if a == Send && !old(closed) then [old(time)] else [])
      ensures sent == old(sent) + if a == Send && !old(closed) then 1 else 0
      ensures lateSends == old(lateSends) + if a == Send && !old(closed) && cancelled then 1 else 0
      ensures closes == old(closes) + if a == CloseQueue && !old(closed) then 1 else 0
      ensures time == old(time) + if a == Choose && !cancelled then 1 else 0
      ensures producer == if a == Choose then (if cancelled then Leaving else Sending)
                          else if panicked then old(producer)
                          else if a == Send then Choosing else if a == Quit then Leaving else ProducerGone
      ensures closed == (old(closed) || a == CloseQueue)
      ensures panicked == (old(closed) && a in {Send, CloseQueue})
    {
      match producer
      case Choosing =>
        a := Choose;
        if cancelled {
          producer := Leaving;
        } else {
          time := time + 1;
          producer := Sending;
        }
      case Sending =>
        if {
          case closed || |queue| < capacity =>
            a := Send;
            if closed {
              panicked := true;
            } else {
              queue := queue + [time];
              producer := Choosing;
              sent, lateSends := sent + 1, lateSends + if cancelled then 1 else 0;
            }
          case cancelled =>
            a := Quit;
            producer := Leaving;
        }
      case Leaving =>
        a := CloseQueue;
        if closed {
          panicked := true;
        } else {
          closed := true;
          closes := closes + 1;
          producer := ProducerGone;
        }
    }

    /** The consumer's next step; of two ready cases of its select it takes either. `ok` if it receives a value. */
    method Consume() returns (val: int, ok: bool, ghost a: Action)
      requires Enabled(View(), Receive) || Enabled(View(), SeeClosed) || Enabled(View(), StartDrain)
      modifies this
      ensures a in {Receive, SeeClosed, StartDrain}
      ensures Enabled(old(View()), a) && View() == Apply(old(View()), a)
      ensures producer == old(producer) && time == old(time) && sent == old(sent)
      ensures closed == old(closed) && cancelled == old(cancelled) && !panicked
      ensures ok <==> a == Receive
      ensures ok ==> old(queue) == [val] + queue && received == old(received) + [val]
      ensures !ok ==> queue == old(queue) && received == old(received)
      ensures consumer == if ok then old(consumer) else if a == SeeClosed then ConsumerGone else Draining
    {
      val, ok := 0, false;
      if
      case queue != [] =>
        a := Receive;
        val, ok := queue[0], true;
        received := received + [val];
        queue := queue[1..];
      case queue == [] && closed =>
        a := SeeClosed;
        consumer := ConsumerGone;
      case consumer == Receiving && cancelled =>
        a := StartDrain;
        consumer := Draining;
    }

    method Timeout()
      requires Enabled(View(), Cancel)
      modifies this
      ensures View() == Apply(old(View()), Cancel) == old(View()).(cancelled := true)
    {
      cancelled := true;
    }

    /** One step of whichever goroutine the scheduler picks among those that are not blocked; `vals` is the value that
        the consumer has received, if it was its step and it received one. */
    method Turn() returns (vals: seq<int>, ghost a: Action)
      requires Orderly(View()) && capacity >= 1 && !Finished(View())
      modifies this
      ensures a != Cancel && Enabled(old(View()), a) && View() == Apply(old(View()), a)
      ensures received == old(received) + vals
    {
      NeverStuck(View());
      var canProduce := producer == Choosing || producer == Leaving
        || (producer == Sending && (closed || |queue| < capacity || cancelled));
      var canConsume := consumer != ConsumerGone && (queue != [] || closed || (consumer == Receiving && cancelled));
      if
      case canProduce =>
        a := Produce();
        vals := [];
      case canConsume =>
        var val, ok;
        val, ok, a := Consume();
        vals := if ok then [val] else [];
    }

    /** `main`: any number of steps, the timeout, and then on until both goroutines are gone. `consumed` are the values
        that the consumer's steps have returned. */
    method Run(steps: nat) returns (consumed: seq<int>)
      requires View() == Init(capacity) && capacity >= 1
      modifies this
      ensures Finished(View()) && closes == 1 && lateSends <= 1
      ensures consumed == received == UpTo(sent) && sent <= time <= sent + 1
    {
      consumed := [];
      for i := 0 to steps
        invariant Orderly(View()) && !cancelled && consumed == received
      {
        ghost var before := View();
        ghost var a;
        var vals;
        vals, a := Turn();
        consumed := consumed + vals;
        OrderlyKept(before, a);
      }
      Timeout();
      while !(producer == ProducerGone && consumer == ConsumerGone)
        invariant Cancelled(View()) && consumed == received
        decreases Remaining(View())
      {
        ghost var before := View();
        ghost var a;
        var vals;
        vals, a := Turn();
        consumed := consumed + vals;
        RemainingDrops(before, a);
      }
    }
  }
}
