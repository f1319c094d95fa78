/** The terminating queue: an unbounded FIFO buffer under a mutex, one condition variable for its consumers,
    `Signal` for each new item, `Broadcast` on termination, and the zero value as the sign that nothing will come.

    A stay inside the mutex, up to `Wait` or the return, is one step. */
module MonitorQueue {
  import opened Runs
  import opened Tallies

  /** Where a consumer's goroutine is: between two calls, inside `Consume` and contending for the mutex (at
      first, or after a wake-up), parked inside `Consume`, or out of its loop. */
  datatype Consumer = Outside | Inside | Parked | Left

  /** A producer's goroutine: the values it goes through, and how many it has produced. */
  datatype Producer = Producer(script: seq<int>, sent: nat)

  datatype Option<+T> = None | Some(value: T)

  datatype Item = Item(producer: nat, value: int)

  /** `given` are the items that `Consume` has returned to each consumer's loop. The last four are history: all items in
      the order of `append`, all items in the order of removal, who removed each of these, and how many items had been
      produced when `Terminated` first ran. */
  datatype State = State(
    producers: seq<Producer>, consumers: seq<Consumer>, given: seq<seq<Item>>,
    buffer: seq<Item>, terminated: bool,
    produced: seq<Item>, consumed: seq<Item>, takers: seq<nat>, atTermination: nat)

  ghost function Init(scripts: seq<seq<int>>, consumers: nat): State {
    State(seq(|scripts|, p requires 0 <= p < |scripts| => Producer(scripts[p], 0)), seq(consumers, _ => Outside),
          seq(consumers, _ => []), [], false, [], [], [], 0)
  }

  // ---- the steps

  datatype Action =
    | Produce(p: nat, woken: nat) // producer `p` calls `Produce`; `Signal` wakes `woken`, if anybody waits
    | Call(c: nat)                // consumer `c` calls `Consume`
    | Lock(c: nat)                // consumer `c` gets the mutex, inside `Consume`
    | Terminate                   // the first `Terminated`; a later one changes nothing

  predicate Enabled(s: State, a: Action) {
    match a
    case Produce(p, woken) =>
      && p < |s.producers| && s.producers[p].sent < |s.producers[p].script|
      && (Parked in s.consumers ==> woken < |s.consumers| && s.consumers[woken] == Parked)
    case Call(c) => c < |s.consumers| && s.consumers[c] == Outside
    case Lock(c) => c < |s.consumers| == |s.given| && s.consumers[c] == Inside
    case Terminate => !s.terminated
  }

  function Signalled(consumers: seq<Consumer>, woken: nat): seq<Consumer>
    requires Parked in consumers ==> woken < |consumers|
  {
    if Parked in consumers then consumers[woken := Inside] else consumers
  }

  function AllWoken(consumers: seq<Consumer>): (woken: seq<Consumer>)
    ensures |woken| == |consumers|
    ensures forall c | 0 <= c < |woken| :: woken[c] == if consumers[c] == Parked then Inside else consumers[c]
  {
    seq(|consumers|, c requires 0 <= c < |consumers| => if consumers[c] == Parked then Inside else consumers[c])
  }

  /** A consumer that is given a zero value leaves its loop. */
  function Given(value: int): Consumer {
    if value == 0 then Left else Outside
  }

  function Apply(s: State, a: Action): State
    requires Enabled(s, a)
  {
    match a
    case Produce(p, woken) =>
      var producer := s.producers[p];
      var item := Item(p, producer.script[producer.sent]);
      s.(producers := s.producers[p := producer.(sent := producer.sent + 1)],
         buffer := s.buffer + [item], produced := s.produced + [item],
         consumers := Signalled(s.consumers, woken))
    case Call(c) =>
      s.(consumers := s.consumers[c := Inside])
    case Lock(c) =>
      if s.buffer == [] && !s.terminated then s.(consumers := s.consumers[c := Parked])
      else if s.buffer != [] then
        s.(buffer := s.buffer[1..], consumed := s.consumed + [s.buffer[0]], takers := s.takers + [c],
           given := s.given[c := s.given[c] + [s.buffer[0]]],
           consumers := s.consumers[c := Given(s.buffer[0].value)])
      else s.(consumers := s.consumers[c := Given(0)])
    case Terminate => AfterTerminated(s)
  }

  /** `Terminated`, which sets the flag again if it is set. */
  function AfterTerminated(s: State): State {
    s.(terminated := true, consumers := AllWoken(s.consumers),
       atTermination := if s.terminated then s.atTermination else |s.produced|)
  }

  ghost predicate Next(s: State, t: State) {
    exists a :: Enabled(s, a) && t == Apply(s, a)
  }

  // ---- who may do what

  /** A `Produce` adds its item at the end of the buffer, and nobody is given anything. */
  lemma ProduceAppends(s: State, p: nat, woken: nat, t: State)
    requires Enabled(s, Produce(p, woken)) && t == Apply(s, Produce(p, woken))
    ensures var item := Item(p, s.producers[p].script[s.producers[p].sent]);
            t.buffer == s.buffer + [item] && t.produced == s.produced + [item]
    ensures t.consumed == s.consumed && t.given == s.given && t.terminated == s.terminated
    ensures t.producers == s.producers[p := Producer(s.producers[p].script, s.producers[p].sent + 1)]
  {
  }

  /** An item leaves the buffer only from the front, and only into the hands of the consumer that has the mutex. */
  lemma OnlyConsumersTake(s: State, a: Action, t: State)
    requires Enabled(s, a) && t == Apply(s, a)
    ensures a.Lock? && s.buffer != [] ==>
      && t.buffer == s.buffer[1..] && t.consumed == s.consumed + [s.buffer[0]]
      && t.given == s.given[a.c := s.given[a.c] + [s.buffer[0]]]
    ensures !(a.Lock? && s.buffer != []) ==> s.buffer <= t.buffer && t.consumed == s.consumed && t.given == s.given
    ensures !a.Produce? ==> t.produced == s.produced && t.producers == s.producers
  {
  }

  // ---- no lost wake-up

  function Count(consumers: seq<Consumer>, phase: Consumer): nat {
    multiset(consumers)[phase]
  }

  /** While somebody is parked, there is an unparked consumer inside `Consume` for each buffered item, though it
      need not be the one that was signalled for it; and nobody is parked after termination. */
  ghost predicate NoLostWakeup(s: State) {
    && (Parked in s.consumers ==> |s.buffer| <= Count(s.consumers, Inside))
    && (s.terminated ==> Parked !in s.consumers)
  }

  lemma NoLostWakeupKept(s: State, a: Action)
    requires NoLostWakeup(s) && Enabled(s, a)
    ensures NoLostWakeup(Apply(s, a))
  {
  }

  /** A call of `Terminated` after the first changes nothing. */
  lemma TerminatedAgain(s: State)
    requires NoLostWakeup(s) && s.terminated
    ensures AfterTerminated(s) == s
  {
    assert AllWoken(s.consumers) == s.consumers;
  }

  // ---- first in, first out

  /** The values of the items that producer `p` has made, in order. */
  function Values(items: seq<Item>, p: nat): seq<int> {
    if items == [] then []
    else
      var last := items[|items| - 1];
      Values(items[..|items| - 1], p) + if last.producer == p then [last.value] else []
  }

  lemma ValuesAppend(items: seq<Item>, x: Item, p: nat)
    ensures Values(items + [x], p) == Values(items, p) + if x.producer == p then [x.value] else []
  {
    assert (items + [x])[..|items|] == items;
  }

  lemma {:induction false} ValuesOfPrefix(items: seq<Item>, n: nat, p: nat)
    requires n <= |items|
    ensures Values(items[..n], p) <= Values(items, p)
  {
    if n < |items| {
      assert items[..n] == items[..|items| - 1][..n];
      ValuesOfPrefix(items[..|items| - 1], n, p);
    } else {
      assert items[..n] == items;
    }
  }

  lemma {:induction false} ValueListed(items: seq<Item>, k: nat)
    requires k < |items|
    ensures items[k].value in Values(items, items[k].producer)
  {
    if k < |items| - 1 {
      ValueListed(items[..|items| - 1], k);
    }
  }

  /** What a producer has added is the part of its script it has gone through. */
  ghost predicate Scripted(producer: Producer, p: nat, produced: seq<Item>) {
    && producer.sent <= |producer.script|
    && Values(produced, p) == producer.script[..producer.sent]
  }

  /** The items removed and those in the buffer are all the items produced, in order. */
  ghost predicate InOrder(s: State) {
    s.consumed + s.buffer == s.produced
  }

  ghost predicate FromScripts(s: State) {
    && (forall x | x in s.produced :: x.producer < |s.producers|)
    && (forall p | 0 <= p < |s.producers| :: Scripted(s.producers[p], p, s.produced))
  }

  ghost predicate Fifo(s: State) {
    InOrder(s) && FromScripts(s)
  }

  lemma InOrderKept(s: State, a: Action)
    requires InOrder(s) && Enabled(s, a)
    ensures InOrder(Apply(s, a))
  {
    var t := Apply(s, a);
    if a.Produce? {
      assert t.consumed + t.buffer == (s.consumed + s.buffer) + [t.produced[|s.produced|]];
    } else if a.Lock? && s.buffer != [] {
      assert s.buffer == [s.buffer[0]] + s.buffer[1..];
    }
  }

  lemma FromScriptsKept(s: State, a: Action)
    requires FromScripts(s) && Enabled(s, a)
    ensures FromScripts(Apply(s, a))
  {
    var t := Apply(s, a);
    if a.Produce? {
      forall q | 0 <= q < |t.producers| ensures Scripted(t.producers[q], q, t.produced) {
        assert Scripted(s.producers[q], q, s.produced);
        ScriptedFurther(s.producers[q], q, s.produced, t.producers[q], t.produced[|s.produced|]);
      }
    }
  }

  lemma ScriptedFurther(before: Producer, q: nat, produced: seq<Item>, after: Producer, x: Item)
    requires Scripted(before, q, produced)
    requires if x.producer == q
             then before.sent < |before.script| && x.value == before.script[before.sent]
                  && after == before.(sent := before.sent + 1)
             else after == before
    ensures Scripted(after, q, produced + [x])
  {
    ValuesAppend(produced, x, q);
  }

  // ---- what the consumers are given

  /** The items among those consumed that consumer `c` took, in order. */
  function Share(consumed: seq<Item>, takers: seq<nat>, c: nat): seq<Item>
    requires |takers| == |consumed|
  {
    if consumed == [] then []
    else
      var last := |consumed| - 1;
      Share(consumed[..last], takers[..last], c) + if takers[last] == c then [consumed[last]] else []
  }

  function AsMultiset(items: seq<Item>): multiset<Item> {
    multiset(items)
  }

  /** Each item consumed was given to exactly one consumer, and each consumer was given its items in the order of the
      queue. */
  ghost predicate HandedOut(s: State) {
    && |s.given| == |s.consumers| && |s.takers| == |s.consumed|
    && (forall c | 0 <= c < |s.given| :: s.given[c] == Share(s.consumed, s.takers, c))
    && forall x :: Tally(AsMultiset, s.given)[x] == multiset(s.consumed)[x]
  }

  lemma ShareAppend(consumed: seq<Item>, takers: seq<nat>, x: Item, taker: nat, c: nat)
    requires |takers| == |consumed|
    ensures Share(consumed + [x], takers + [taker], c)
         == Share(consumed, takers, c) + if taker == c then [x] else []
  {
    assert (consumed + [x])[..|consumed|] == consumed && (takers + [taker])[..|takers|] == takers;
  }

  lemma HandedOutKept(s: State, a: Action)
    requires HandedOut(s) && Enabled(s, a)
    ensures HandedOut(Apply(s, a))
  {
    if a.Lock? && s.buffer != [] {
      ItemHandedOut(s, a.c, s.buffer[0], Apply(s, a));
    }
  }

  lemma ItemHandedOut(s: State, c: nat, x: Item, t: State)
    requires HandedOut(s) && c < |s.given|
    requires t.consumed == s.consumed + [x] && t.takers == s.takers + [c] && |t.consumers| == |s.consumers|
    requires t.given == s.given[c := s.given[c] + [x]]
    ensures HandedOut(t)
  {
    forall d | 0 <= d < |t.given| ensures t.given[d] == Share(t.consumed, t.takers, d) {
      ShareAppend(s.consumed, s.takers, x, c, d);
    }
    forall y ensures Tally(AsMultiset, t.given)[y] == multiset(t.consumed)[y] {
      TallyUpdate(AsMultiset, s.given, c, s.given[c] + [x], y);
    }
  }

  lemma {:induction false} NothingGiven(given: seq<seq<Item>>)
    requires forall c | 0 <= c < |given| :: given[c] == []
    ensures Tally(AsMultiset, given) == multiset{}
  {
    if given != [] {
      NothingGiven(given[..|given| - 1]);
    }
  }

  // ---- leaving

  ghost predicate HasZero(items: seq<Item>) {
    exists k :: 0 <= k < |items| && items[k].value == 0
  }

  /** A consumer has left only because it was given a zero item, or because it found the queue terminated and
      empty, which was after everything produced before the termination had been consumed. */
  ghost predicate LeftForAReason(s: State) {
    && s.consumed + s.buffer == s.produced
    && s.atTermination <= |s.produced|
    && (Left in s.consumers ==> HasZero(s.consumed) || (s.terminated && s.atTermination <= |s.consumed|))
    && (HasZero(s.consumed) ==> Left in s.consumers)
  }

  lemma LeftForAReasonKept(s: State, a: Action)
    requires LeftForAReason(s) && Enabled(s, a)
    ensures LeftForAReason(Apply(s, a))
  {
    var t := Apply(s, a);
    LeaversStay(s, a);
    if a.Lock? && s.buffer != [] {
      assert s.buffer == [s.buffer[0]] + s.buffer[1..];
      HasZeroAppend(s.consumed, s.buffer[0]);
      assert t.consumers[a.c] == Given(s.buffer[0].value);
    }
  }

  lemma HasZeroAppend(items: seq<Item>, x: Item)
    ensures HasZero(items + [x]) <==> HasZero(items) || x.value == 0
  {
    if k :| 0 <= k < |items| && items[k].value == 0 {
      assert (items + [x])[k].value == 0;
    }
    assert (items + [x])[|items|] == x;
  }

  lemma LeaversStay(s: State, a: Action)
    requires Enabled(s, a)
    ensures Left in s.consumers ==> Left in Apply(s, a).consumers
  {
    if c :| 0 <= c < |s.consumers| && s.consumers[c] == Left {
      assert Apply(s, a).consumers[c] == Left;
    }
  }

  // ---- termination

  function ConsumerCost(c: Consumer): nat {
    match c
    case Outside => 2
    case Inside => 1
    case Parked => 0
    case Left => 0
  }

  function Unsent(p: Producer): nat {
    if p.sent < |p.script| then |p.script| - p.sent else 0
  }

  ghost function Measure(s: State): nat {
    4 * Total(Unsent, s.producers) + 2 * |s.buffer| + Total(ConsumerCost, s.consumers)
    + if s.terminated then 0 else |s.consumers| + 1
  }

  lemma {:induction false} BroadcastCost(consumers: seq<Consumer>)
    ensures Total(ConsumerCost, AllWoken(consumers)) <= Total(ConsumerCost, consumers) + |consumers|
  {
    if consumers != [] {
      var last := |consumers| - 1;
      BroadcastCost(consumers[..last]);
      assert AllWoken(consumers)[..last] == AllWoken(consumers[..last]);
    }
  }

  lemma MeasureDrops(s: State, a: Action)
    requires Enabled(s, a)
    ensures Measure(Apply(s, a)) < Measure(s)
  {
    var t := Apply(s, a);
    match a
    case Produce(p, woken) =>
      TotalUpdate(Unsent, s.producers, p, t.producers[p]);
      if Parked in s.consumers {
        TotalUpdate(ConsumerCost, s.consumers, woken, Inside);
      }
    case Call(c) =>
      TotalUpdate(ConsumerCost, s.consumers, c, Inside);
    case Lock(c) =>
      TotalUpdate(ConsumerCost, s.consumers, c, t.consumers[c]);
    case Terminate =>
      BroadcastCost(s.consumers);
  }

  /** All producers have gone through their scripts, the queue is terminated, and all consumers have left. */
  ghost predicate Finished(s: State) {
    && (forall p | 0 <= p < |s.producers| :: s.producers[p].sent == |s.producers[p].script|)
    && s.terminated
    && (forall c | 0 <= c < |s.consumers| :: s.consumers[c] == Left)
  }

  lemma FinishedExactlyWhenStuck(s: State)
    requires NoLostWakeup(s) && Fifo(s) && |s.given| == |s.consumers|
    ensures (forall a :: !Enabled(s, a)) <==> Finished(s)
  {
    if forall a :: !Enabled(s, a) {
      assert !Enabled(s, Terminate);
      forall p | 0 <= p < |s.producers| ensures s.producers[p].sent == |s.producers[p].script| {
        assert Scripted(s.producers[p], p, s.produced) && !Enabled(s, Produce(p, 0));
      }
      forall c | 0 <= c < |s.consumers| ensures s.consumers[c] == Left {
        assert !Enabled(s, Call(c)) && !Enabled(s, Lock(c)) && s.consumers[c] in s.consumers;
      }
    }
  }

  // ---- whole runs

  ghost predicate Sound(s: State) {
    NoLostWakeup(s) && Fifo(s) && LeftForAReason(s) && HandedOut(s)
  }

  lemma SoundKept(s: State, a: Action)
    requires Sound(s) && Enabled(s, a)
    ensures Sound(Apply(s, a))
  {
    NoLostWakeupKept(s, a);
    InOrderKept(s, a);
    FromScriptsKept(s, a);
    LeftForAReasonKept(s, a);
    HandedOutKept(s, a);
  }

  ghost predicate SoundFor(s: State, scripts: seq<seq<int>>) {
    && Sound(s)
    && |s.producers| == |scripts|
    && forall p | 0 <= p < |scripts| :: s.producers[p].script == scripts[p]
  }

  lemma SoundForKept(s: State, a: Action, scripts: seq<seq<int>>)
    requires SoundFor(s, scripts) && Enabled(s, a)
    ensures SoundFor(Apply(s, a), scripts)
  {
    SoundKept(s, a);
    forall p | 0 <= p < |scripts| ensures Apply(s, a).producers[p].script == scripts[p] {
    }
  }

  lemma SoundForInitially(scripts: seq<seq<int>>, consumers: nat)
    ensures SoundFor(Init(scripts, consumers), scripts)
  {
    NothingGiven(Init(scripts, consumers).given);
  }

  lemma AlwaysSound(scripts: seq<seq<int>>, consumers: nat, s: State)
    requires Reaches(Next, Init(scripts, consumers), s)
    ensures SoundFor(s, scripts)
  {
    forall s, t | SoundFor(s, scripts) && Next(s, t) ensures SoundFor(t, scripts) {
      var a :| Enabled(s, a) && t == Apply(s, a);
      SoundForKept(s, a, scripts);
    }
    SoundForInitially(scripts, consumers);
    InvariantReachable(Next, (u: State) => SoundFor(u, scripts), Init(scripts, consumers), s);
  }

  lemma EveryRunEnds(scripts: seq<seq<int>>, consumers: nat, run: seq<State>, k: nat)
    requires IsRun(Next, run) && run[0] == Init(scripts, consumers) && k < |run|
    ensures k <= 4 * Total(Length, scripts) + 3 * consumers + 1
  {
    forall s, t | Sound(s) && Next(s, t) ensures Sound(t) && Measure(t) < Measure(s) {
      var a :| Enabled(s, a) && t == Apply(s, a);
      SoundKept(s, a);
      MeasureDrops(s, a);
    }
    InitialProducers(scripts, run[0].producers);
    InitialConsumers(run[0].consumers);
    SoundForInitially(scripts, consumers);
    LengthBounded(Next, Sound, Measure, run, k);
  }

  function Length(script: seq<int>): nat { |script| }

  lemma {:induction false} InitialProducers(scripts: seq<seq<int>>, producers: seq<Producer>)
    requires |producers| == |scripts| && forall p | 0 <= p < |scripts| :: producers[p] == Producer(scripts[p], 0)
    ensures Total(Unsent, producers) == Total(Length, scripts)
  {
    if scripts != [] {
      InitialProducers(scripts[..|scripts| - 1], producers[..|scripts| - 1]);
    }
  }

  lemma {:induction false} InitialConsumers(consumers: seq<Consumer>)
    requires forall c | 0 <= c < |consumers| :: consumers[c] == Outside
    ensures Total(ConsumerCost, consumers) == 2 * |consumers|
  {
    if consumers != [] {
      InitialConsumers(consumers[..|consumers| - 1]);
    }
  }

  /** Whatever is produced, each producer's values are consumed in the order of its script. */
  lemma ConsumedInOrder(scripts: seq<seq<int>>, consumers: nat, s: State, p: nat)
    requires Reaches(Next, Init(scripts, consumers), s) && p < |scripts|
    ensures s.consumed <= s.produced && Values(s.consumed, p) <= scripts[p]
  {
    AlwaysSound(scripts, consumers, s);
    assert Scripted(s.producers[p], p, s.produced);
    ValuesOfPrefix(s.produced, |s.consumed|, p);
    assert s.produced[..|s.consumed|] == s.consumed;
  }

  /** What the consumers were given, all together, is what was consumed, and each was given its part in that order. */
  lemma AllGivenToConsumers(scripts: seq<seq<int>>, consumers: nat, s: State)
    requires Reaches(Next, Init(scripts, consumers), s)
    ensures |s.given| == |s.consumers| && |s.takers| == |s.consumed|
    ensures forall x :: Tally(AsMultiset, s.given)[x] == multiset(s.consumed)[x]
    ensures forall c | 0 <= c < |s.given| :: s.given[c] == Share(s.consumed, s.takers, c)
  {
    AlwaysSound(scripts, consumers, s);
  }

  /** `atTermination` counts what had been produced when `Terminated` first ran, whatever comes after. */
  lemma {:induction false} CountedAtTermination(run: seq<State>, i: nat, k: nat)
    requires IsRun(Next, run) && i < k < |run| && !run[i].terminated && run[i + 1].terminated
    ensures run[k].terminated && run[k].atTermination == |run[i].produced|
  {
    if k == i + 1 {
      assert StepAt(Next, run, i);
    } else {
      CountedAtTermination(run, i, k - 1);
      assert StepAt(Next, run, k - 1);
    }
  }

  lemma ZeroFromScript(s: State, scripts: seq<seq<int>>, k: nat) returns (p: nat)
    requires SoundFor(s, scripts) && k < |s.produced| && s.produced[k].value == 0
    ensures p < |scripts| && 0 in scripts[p]
  {
    p := s.produced[k].producer;
    assert s.produced[k] in s.produced;
    assert Scripted(s.producers[p], p, s.produced);
    ValueListed(s.produced, k);
  }

  /** If no producer's values include zero, a consumer that has left saw the queue terminated and drained: all
      that was produced before the termination has been consumed, and if that is all there was, everything. */
  lemma GracefulDrain(scripts: seq<seq<int>>, consumers: nat, s: State)
    requires Reaches(Next, Init(scripts, consumers), s)
    requires forall p | 0 <= p < |scripts| :: 0 !in scripts[p]
    requires Left in s.consumers
    ensures s.terminated && s.atTermination <= |s.produced| && s.produced[..s.atTermination] <= s.consumed <= s.produced
    ensures |s.produced| == s.atTermination ==> s.consumed == s.produced && s.buffer == []
  {
    AlwaysSound(scripts, consumers, s);
    if k :| 0 <= k < |s.produced| && s.produced[k].value == 0 {
      var p := ZeroFromScript(s, scripts, k);
    }
    forall k | 0 <= k < |s.consumed| ensures s.consumed[k].value != 0 {
      assert s.produced[k] == s.consumed[k];
    }
  }

  /** The sentinel is exact: before the termination, consumers have left if and only if a zero was consumed. */
  lemma EarlyLeaveExactlyOnZero(scripts: seq<seq<int>>, consumers: nat, s: State)
    requires Reaches(Next, Init(scripts, consumers), s) && !s.terminated
    ensures Left in s.consumers <==> exists k :: 0 <= k < |s.consumed| && s.consumed[k].value == 0
  {
    AlwaysSound(scripts, consumers, s);
  }

  /** Why the values must not be zero: one item of value zero, and the only consumer leaves before termination. */
  lemma ZeroEndsConsumer() returns (s: State)
    ensures Reaches(Next, Init([[0]], 1), s) && s.consumers == [Left] && !s.terminated
  {
    var s0 := Init([[0]], 1);
    var s1 := Apply(s0, Produce(0, 0));
    var s2 := Apply(s1, Call(0));
    s := Apply(s2, Lock(0));
    ReachesItself(Next, s0);
    ReachesFurther(Next, s0, s0, s1);
    ReachesFurther(Next, s0, s1, s2);
    ReachesFurther(Next, s0, s2, s);
  }

  /** No consumer leaves before the termination. */
  ghost predicate StaysToTheEnd(scripts: seq<seq<int>>, consumers: nat) {
    forall s | Reaches(Next, Init(scripts, consumers), s) && !s.terminated :: Left !in s.consumers
  }

  /** A consumer leaves only when everything produced before the termination has been consumed. */
  ghost predicate DrainsGracefully(scripts: seq<seq<int>>, consumers: nat) {
    forall s | Reaches(Next, Init(scripts, consumers), s) && Left in s.consumers ::
      s.terminated && s.atTermination <= |s.consumed|
  }

  ghost predicate NoZeros(scripts: seq<seq<int>>) {
    forall p | 0 <= p < |scripts| :: 0 !in scripts[p]
  }

  /** Producer `p` alone goes through its script, and one consumer takes each item at once, up to a zero. */
  lemma {:induction false} LeavesAtZero(init: State, s: State, p: nat, z: nat) returns (t: State)
    requires Reaches(Next, init, s) && p < |s.producers|
    requires s.producers[p].sent <= z < |s.producers[p].script| && s.producers[p].script[z] == 0
    requires s.buffer == [] && !s.terminated && s.consumers != [] && |s.given| == |s.consumers|
    requires forall c | 0 <= c < |s.consumers| :: s.consumers[c] == Outside
    ensures Reaches(Next, init, t) && Left in t.consumers && !t.terminated
    decreases z - s.producers[p].sent
  {
    var s1 := Apply(s, Produce(p, 0));
    var s2 := Apply(s1, Call(0));
    t := Apply(s2, Lock(0));
    ReachesFurther(Next, init, s, s1);
    ReachesFurther(Next, init, s1, s2);
    ReachesFurther(Next, init, s2, t);
    var value := s.producers[p].script[s.producers[p].sent];
    assert t.consumers[0] == Given(value);
    if value != 0 {
      t := LeavesAtZero(init, t, p, z);
    }
  }

  /** The values must not be zero, and that is all: whatever the producers' values are, no consumer leaves early, and
      the drain is graceful, if and only if none of the values is zero. */
  lemma GracefulExactlyWithoutZeros(scripts: seq<seq<int>>, consumers: nat)
    requires consumers >= 1
    ensures StaysToTheEnd(scripts, consumers) <==> NoZeros(scripts)
    ensures DrainsGracefully(scripts, consumers) <==> NoZeros(scripts)
  {
    var init := Init(scripts, consumers);
    if NoZeros(scripts) {
      forall s | Reaches(Next, init, s) && Left in s.consumers ensures s.terminated && s.atTermination <= |s.consumed| {
        GracefulDrain(scripts, consumers, s);
      }
    } else {
      var p :| 0 <= p < |scripts| && 0 in scripts[p];
      var z :| 0 <= z < |scripts[p]| && scripts[p][z] == 0;
      ReachesItself(Next, init);
      var t := LeavesAtZero(init, init, p, z);
    }
  }

  // ---- the program

  /** The queue, with the goroutines that use it. */
  class Queue {
    var buffer: seq<Item>
    var terminated: bool
    var producers: seq<Producer>
    var consumers: seq<Consumer>
    ghost var given: seq<seq<Item>>
    ghost var produced: seq<Item>
    ghost var consumed: seq<Item>
    ghost var takers: seq<nat>
    ghost var atTermination: nat

    ghost function View(): State
      reads this
    {
      State(producers, consumers, given, buffer, terminated, produced, consumed, takers, atTermination)
    }

    constructor (scripts: seq<seq<int>>, consumers: nat)
      ensures View() == Init(scripts, consumers)
    {
      buffer, terminated := [], false;
      producers := seq(|scripts|, p requires 0 <= p < |scripts| => Producer(scripts[p], 0));
      this.consumers := seq(consumers, _ => Outside);
      given := seq(consumers, _ => []);
      produced, consumed, takers, atTermination := [], [], [], 0;
    }

    /** Producer `p` calls `Produce` with the next value of its script. */
    method Produce(p: nat) returns (ghost woken: nat)
      requires p < |producers| && producers[p].sent < |producers[p].script|
      modifies this
      ensures Enabled(old(View()), Action.Produce(p, woken))
      ensures View() == Apply(old(View()), Action.Produce(p, woken))
      ensures buffer == old(buffer + [Item(p, producers[p].script[producers[p].sent])])
      ensures producers == old(producers[p := producers[p].(sent := producers[p].sent + 1)])
      ensures consumed == old(consumed) && given == old(given) && terminated == old(terminated)
      ensures consumers == old(if Parked in consumers then consumers[woken := Inside] else consumers)
      ensures old(Parked in consumers) ==> woken < |consumers| && old(consumers)[woken] == Parked
    {
      var producer := producers[p];
      var item := Item(p, producer.script[producer.sent]);
      producers := producers[p := producer.(sent := producer.sent + 1)];
      buffer := buffer + [item];
      produced := produced + [item];
      woken := 0;
      if Parked in consumers {
        var c: nat :| c < |consumers| && consumers[c] == Parked;
        consumers := consumers[c := Inside];
        woken := c;
      }
    }

    method CallConsume(c: nat)
      requires Enabled(View(), Call(c))
      modifies this
      ensures View() == Apply(old(View()), Call(c))
      ensures consumers == old(consumers)[c := Inside] && buffer == old(buffer) && producers == old(producers)
      ensures produced == old(produced) && consumed == old(consumed) && given == old(given)
    {
      consumers := consumers[c := Inside];
    }

    /** Consumer `c` has the mutex, inside `Consume`: it waits, or returns a value to its loop, which ends on zero. */
    method Consume(c: nat) returns (value: Option<int>)
      requires Enabled(View(), Lock(c))
      modifies this
      ensures View() == Apply(old(View()), Lock(c))
      ensures producers == old(producers) && produced == old(produced) && terminated == old(terminated)
      ensures value == if old(buffer) != [] then Some(old(buffer)[0].value) else if terminated then Some(0) else None
      ensures consumers
           == old(consumers)[c := if value == None then Parked else if value.value == 0 then Left else Outside]
      ensures if old(buffer) != []
              then old(buffer) == [old(buffer)[0]] + buffer && consumed == old(consumed) + [old(buffer)[0]]
                   && given == old(given[c := given[c] + [buffer[0]]])
              else buffer == [] && consumed == old(consumed) && given == old(given)
    {
      value := None;
      if buffer == [] && !terminated {
        consumers := consumers[c := Parked];
      } else if buffer != [] {
        var item := buffer[0];
        buffer := buffer[1..];
        consumed, takers := consumed + [item], takers + [c];
        given := given[c := given[c] + [item]];
        value := Some(item.value);
        consumers := consumers[c := if item.value == 0 then Left else Outside];
      } else {
        value := Some(0);
        consumers := consumers[c := Left];
      }
    }

    method Terminated()
      modifies this
      ensures View() == AfterTerminated(old(View()))
      ensures terminated && atTermination == (if old(terminated) then old(atTermination) else |produced|)
      ensures buffer == old(buffer) && producers == old(producers)
      ensures produced == old(produced) && consumed == old(consumed) && given == old(given)
      ensures |consumers| == old(|consumers|) && Parked !in consumers
    {
      atTermination := if terminated then atTermination else |produced|;
      terminated := true;
      consumers := AllWoken(consumers);
    }

    /** The scheduler lets some goroutine, any one that can, make its next move. */
    method Turn() returns (moved: bool, ghost a: Action)
      requires |given| == |consumers|
      modifies this
      ensures moved ==> Enabled(old(View()), a) && View() == Apply(old(View()), a)
      ensures !moved ==> View() == old(View()) && forall b :: !Enabled(View(), b)
    {
      moved, a := true, Terminate;
      var canProduce := exists p | 0 <= p < |producers| :: producers[p].sent < |producers[p].script|;
      if
      case canProduce =>
        var p: nat :| p < |producers| && producers[p].sent < |producers[p].script|;
        ghost var woken := Produce(p);
        a := Action.Produce(p, woken);
      case Outside in consumers =>
        var c: nat :| c < |consumers| && consumers[c] == Outside;
        a := Call(c);
        CallConsume(c);
      case Inside in consumers =>
        var c: nat :| c < |consumers| && consumers[c] == Inside;
        a := Lock(c);
        var value := Consume(c);
      case !terminated =>
        Terminated();
      case !canProduce && Outside !in consumers && Inside !in consumers && terminated =>
        moved := false;
    }

    /** The program under an arbitrary scheduler, with the termination at an arbitrary moment: all producers get
        through their scripts, all consumers leave, and what is consumed is a prefix of what is produced that, unless
        some value was zero, covers everything produced before the termination. */
    method Run(ghost scripts: seq<seq<int>>)
      requires View() == Init(scripts, |consumers|)
      modifies this
      ensures Finished(View()) && consumed + buffer == produced
      ensures forall p | 0 <= p < |scripts| :: Values(produced, p) == scripts[p]
      ensures consumers != [] && !HasZero(consumed) ==> atTermination <= |consumed|
      ensures HandedOut(View())
    {
      SoundForInitially(scripts, |consumers|);
      var moved := true;
      while moved
        invariant SoundFor(View(), scripts)
        invariant !moved ==> forall b :: !Enabled(View(), b)
        decreases moved, Measure(View())
      {
        ghost var before := View();
        ghost var a;
        moved, a := Turn();
        if moved {
          SoundForKept(before, a, scripts);
          MeasureDrops(before, a);
        }
      }
      FinishedExactlyWhenStuck(View());
      assert consumers != [] ==> consumers[0] in consumers;
      forall p | 0 <= p < |scripts| ensures Values(produced, p) == scripts[p] {
        assert Scripted(producers[p], p, produced);
      }
    }
  }
}
