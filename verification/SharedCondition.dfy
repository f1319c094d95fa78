/** The bounded buffer whose producers and consumers all wait on ONE condition variable.

    A thread's stay inside the lock, from acquiring it to `Wait` or `Unlock`, is one step; a thread that has
    been signalled contends for the lock and re-tests its waiting condition exactly as one that has just
    called `Lock`, so both are `Awake`. `Signal` wakes any one waiter, of either kind. */
module SharedCondition {
  import opened Runs

  function Excess(a: nat, b: nat): nat { if a > b then a - b else 0 }

  /** How often so many products fill a buffer of the given capacity. */
  function Fillings(products: nat, capacity: nat): nat
    requires capacity >= 1
  {
    if products < capacity then 0 else 1 + Fillings(products - capacity, capacity)
  }

  datatype Config = Config(producers: nat, consumers: nat, capacity: nat, total: nat) {
    ghost predicate Valid() {
      producers >= 1 && consumers >= 1 && capacity >= 1 && total >= 1
    }

    /** At most two threads for each place in the buffer. */
    predicate Roomy() {
      producers + consumers <= 2 * capacity
    }

    /** How many consumers can be parked when the buffer is full for the `n`-th time, if nothing stands in the way. */
    ghost function Level(n: nat): int {
      Excess(consumers, capacity) + (n - 1) * (producers + consumers - 2 * capacity)
    }

    /** There are more than two threads for each place, and products enough to fill the buffer, before the last one is
        made, as often as it takes to park them all. */
    ghost predicate Starves()
      requires Valid()
    {
      var n := Fillings(total - 1, capacity);
      !Roomy() && n >= 1 && (Level(n) >= capacity || (n >= 2 && producers + Level(n - 1) >= 2 * capacity))
    }
  }

  datatype Phase = Awake | Parked | Returned

  /** `taken` is history: how many products consumers have removed. */
  datatype State = State(
    cfg: Config,
    producers: seq<Phase>, consumers: seq<Phase>,
    productCount: nat, producedCount: nat, done: bool,
    taken: nat)

  datatype Waiter = Nobody | Producer(i: nat) | Consumer(j: nat)

  ghost function Init(cfg: Config): State {
    State(cfg, seq(cfg.producers, _ => Awake), seq(cfg.consumers, _ => Awake), 0, 0, false, 0)
  }

  function Count(threads: seq<Phase>, phase: Phase): nat {
    multiset(threads)[phase]
  }

  // ---- the steps

  /** The waiters `Signal` may wake: any parked thread, and nobody only if none is parked. */
  ghost predicate CanWake(s: State, w: Waiter) {
    match w
    case Nobody => Parked !in s.producers && Parked !in s.consumers
    case Producer(i) => i < |s.producers| && s.producers[i] == Parked
    case Consumer(j) => j < |s.consumers| && s.consumers[j] == Parked
  }

  ghost function Signalled(s: State, w: Waiter): State
    requires CanWake(s, w)
  {
    match w
    case Nobody => s
    case Producer(i) => s.(producers := s.producers[i := Awake])
    case Consumer(j) => s.(consumers := s.consumers[j := Awake])
  }

  function AllWoken(threads: seq<Phase>): (woken: seq<Phase>)
    ensures |woken| == |threads|
    ensures forall k | 0 <= k < |threads| :: woken[k] == if threads[k] == Parked then Awake else threads[k]
  {
    seq(|threads|, k requires 0 <= k < |threads| => if threads[k] == Parked then Awake else threads[k])
  }

  /** Only thread `k` is woken, if there is one of this number. */
  predicate Woken(before: seq<Phase>, after: seq<Phase>, k: nat) {
    && |after| == |before|
    && (k < |before| ==> before[k] == Parked && after[k] == Awake)
    && forall l | 0 <= l < |before| && l != k :: after[l] == before[l]
  }

  ghost function Broadcasted(s: State): State {
    s.(producers := AllWoken(s.producers), consumers := AllWoken(s.consumers))
  }

  /** Producer `i` runs from the lock to `Wait` or `Unlock`; `w` is whom `Signal` wakes, if it comes to that. */
  ghost function ProducerTurn(s: State, i: nat, w: Waiter): State
    requires i < |s.producers| && CanWake(s, w)
  {
    if s.productCount >= s.cfg.capacity && !s.done then s.(producers := s.producers[i := Parked])
    else if s.done then s.(producers := s.producers[i := Returned])
    else if s.producedCount + 1 >= s.cfg.total then
      Broadcasted(s.(productCount := s.productCount + 1, producedCount := s.producedCount + 1, done := true))
    else
      Signalled(s, w).(productCount := s.productCount + 1, producedCount := s.producedCount + 1)
  }

  ghost function ConsumerTurn(s: State, j: nat, w: Waiter): State
    requires j < |s.consumers| && CanWake(s, w)
  {
    if s.productCount <= 0 && !s.done then s.(consumers := s.consumers[j := Parked])
    else if s.done then s.(consumers := s.consumers[j := Returned])
    else Signalled(s, w).(productCount := s.productCount - 1, taken := s.taken + 1)
  }

  ghost predicate ProducerStep(s: State, i: nat, w: Waiter, t: State) {
    i < |s.producers| && s.producers[i] == Awake && CanWake(s, w) && t == ProducerTurn(s, i, w)
  }

  ghost predicate ConsumerStep(s: State, j: nat, w: Waiter, t: State) {
    j < |s.consumers| && s.consumers[j] == Awake && CanWake(s, w) && t == ConsumerTurn(s, j, w)
  }

  ghost predicate Next(s: State, t: State) {
    || (exists i, w :: ProducerStep(s, i, w, t))
    || (exists j, w :: ConsumerStep(s, j, w, t))
  }

  // ---- what every run keeps

  ghost predicate Safe(s: State) {
    && s.cfg.Valid()
    && |s.producers| == s.cfg.producers && |s.consumers| == s.cfg.consumers
    && s.productCount <= s.cfg.capacity
    && s.producedCount == s.productCount + s.taken
    && s.producedCount <= s.cfg.total
    && (s.done <==> s.producedCount == s.cfg.total)
    && (s.done ==> Parked !in s.producers && Parked !in s.consumers)
    && (!s.done ==> Returned !in s.producers && Returned !in s.consumers)
  }

  lemma SafeInitially(cfg: Config)
    requires cfg.Valid()
    ensures Safe(Init(cfg))
  {
  }

  lemma SafeAfterProducer(s: State, i: nat, w: Waiter, t: State)
    requires Safe(s) && ProducerStep(s, i, w, t)
    ensures Safe(t)
  {
  }

  lemma SafeAfterConsumer(s: State, j: nat, w: Waiter, t: State)
    requires Safe(s) && ConsumerStep(s, j, w, t)
    ensures Safe(t)
  {
  }

  /** Every step keeps the invariant; once `done` is set, the counters are frozen. */
  lemma SafeKept(s: State, t: State)
    requires Safe(s) && Next(s, t)
    ensures Safe(t) && t.cfg == s.cfg
    ensures s.done ==> t.done && t.productCount == s.productCount && t.producedCount == s.producedCount
  {
    if i, w :| ProducerStep(s, i, w, t) {
      SafeAfterProducer(s, i, w, t);
    } else {
      var j, w :| ConsumerStep(s, j, w, t);
      SafeAfterConsumer(s, j, w, t);
    }
  }

  // ---- who may do what

  /** A producer that finds room, and the exit flag not set, makes exactly one product; nothing else does. */
  lemma ProducerMakes(s: State, i: nat, w: Waiter, t: State)
    requires Safe(s) && ProducerStep(s, i, w, t)
    ensures var made := if s.productCount < s.cfg.capacity && !s.done then 1 else 0;
            t.productCount == s.productCount + made && t.producedCount == s.producedCount + made
    ensures t.taken == s.taken
    ensures t.producers[i]
         == if s.done then Returned else if s.productCount == s.cfg.capacity then Parked else Awake
  {
  }

  /** A consumer that finds a product, and the exit flag not set, takes exactly one; nothing else does. */
  lemma ConsumerTakes(s: State, j: nat, w: Waiter, t: State)
    requires Safe(s) && ConsumerStep(s, j, w, t)
    ensures var took := if s.productCount > 0 && !s.done then 1 else 0;
            t.productCount + took == s.productCount && t.taken == s.taken + took
    ensures t.producedCount == s.producedCount && t.done == s.done
    ensures t.consumers[j] == if s.done then Returned else if s.productCount == 0 then Parked else Awake
  {
  }

  // ---- deadlock freedom

  /** The most producers that can be parked when the buffer is empty again after it has been full `n` times. */
  ghost function ProducersLeft(cfg: Config, n: nat): nat
    decreases n, 1
  {
    if n == 0 then 0 else Excess(cfg.producers, Excess(cfg.capacity, ConsumersLeft(cfg, n)))
  }

  /** The most consumers that can be parked when the buffer is full for the `n`-th time: all were, at best, when it was
      last empty, and the signals on the way up woke them once no producer was left to be woken. */
  ghost function ConsumersLeft(cfg: Config, n: nat): nat
    requires n >= 1
    decreases n, 0
  {
    Excess(cfg.consumers, Excess(cfg.capacity, ProducersLeft(cfg, n - 1)))
  }

  /** After the buffer has been full `n` times all threads of one kind, and so in the end all threads, can be parked. */
  ghost predicate Stuck(cfg: Config, n: nat) {
    n >= 1 && (ConsumersLeft(cfg, n) == cfg.consumers || ProducersLeft(cfg, n) == cfg.producers)
  }

  lemma {:induction false} LevelsGrow(cfg: Config, m: nat, n: nat)
    requires m <= n
    ensures ProducersLeft(cfg, m) <= ProducersLeft(cfg, n)
    ensures m >= 1 ==> ConsumersLeft(cfg, m) <= ConsumersLeft(cfg, n)
    decreases m
  {
    if m > 0 {
      LevelsGrow(cfg, m - 1, n - 1);
      assert ConsumersLeft(cfg, m) <= ConsumersLeft(cfg, n);
    }
  }

  lemma StuckForGood(cfg: Config, m: nat, n: nat)
    requires Stuck(cfg, m) && m <= n
    ensures Stuck(cfg, n)
  {
    LevelsGrow(cfg, m, n);
  }

  /** With at most two threads for each place the levels do not rise, */
  lemma {:induction false} NeverStuckIfRoomy(cfg: Config, n: nat)
    requires cfg.Valid() && cfg.Roomy()
    ensures ProducersLeft(cfg, n) <= Excess(cfg.producers, cfg.capacity) && !Stuck(cfg, n)
  {
    if n > 0 {
      NeverStuckIfRoomy(cfg, n - 1);
    }
  }

  /** and with more they rise by the surplus each time, until all threads are parked. */
  lemma {:induction false} StuckExactly(cfg: Config, n: nat)
    requires cfg.Valid() && !cfg.Roomy() && n >= 1
    ensures Stuck(cfg, n)
       <==> cfg.Level(n) >= cfg.capacity || (n >= 2 && cfg.producers + cfg.Level(n - 1) >= 2 * cfg.capacity)
    ensures Stuck(cfg, n) || ConsumersLeft(cfg, n) == cfg.Level(n)
    ensures Stuck(cfg, n) || ProducersLeft(cfg, n) == cfg.producers - cfg.capacity + cfg.Level(n)
  {
    if n > 1 {
      StuckExactly(cfg, n - 1);
      LevelRises(cfg, n);
      if n > 2 {
        LevelRises(cfg, n - 1);
      }
      if Stuck(cfg, n - 1) {
        StuckForGood(cfg, n - 1, n);
      }
    }
  }

  lemma LevelRises(cfg: Config, n: nat)
    requires n > 1
    ensures cfg.Level(n) == cfg.Level(n - 1) + cfg.producers + cfg.consumers - 2 * cfg.capacity
  {
    var d := cfg.producers + cfg.consumers - 2 * cfg.capacity;
    assert (n - 1) * d == (n - 2) * d + d;
  }

  /** At most `x` consumers will be parked when the buffer is next full, and at most `y` producers when it is next
      empty, whatever `Signal` chooses: either so few are parked already, or there are so few waiters that the signals
      sent on the way must reach them. */
  ghost predicate BalancedAt(s: State, x: nat, y: nat) {
    var wp, wc := Count(s.producers, Parked), Count(s.consumers, Parked);
    && (wc <= x || wp + wc + s.productCount <= x + s.cfg.capacity)
    && (wp <= y || wp + wc <= y + s.productCount)
  }

  /** The levels are those of the times that the buffer can have been full and empty, by the products made and taken.
      All threads are parked only if these times are enough for it. */
  ghost predicate Balanced(s: State)
    requires s.cfg.Valid()
  {
    var full, empty := Fillings(s.producedCount, s.cfg.capacity), Fillings(s.taken, s.cfg.capacity);
    && BalancedAt(s, ConsumersLeft(s.cfg, empty + 1), ProducersLeft(s.cfg, full))
    && (Count(s.producers, Parked) + Count(s.consumers, Parked) == s.cfg.producers + s.cfg.consumers
        ==> Stuck(s.cfg, full))
  }

  ghost predicate Live(s: State) {
    Safe(s) && (!s.done ==> Balanced(s))
  }

  /** No step is possible before the exit flag is set: every thread is parked on the condition variable. */
  ghost predicate Deadlocked(s: State) {
    !s.done && Awake !in s.producers && Awake !in s.consumers
  }

  lemma {:induction false} CountsAddUp(threads: seq<Phase>)
    ensures Count(threads, Awake) + Count(threads, Parked) + Count(threads, Returned) == |threads|
  {
    if threads != [] {
      var last := |threads| - 1;
      assert threads == threads[..last] + [threads[last]];
      assert multiset(threads) == multiset(threads[..last]) + multiset{threads[last]};
      CountsAddUp(threads[..last]);
      match threads[last] case Awake => case Parked => case Returned =>
    }
  }

  lemma {:induction false} FillingsGrow(a: nat, b: nat, capacity: nat)
    requires a <= b && capacity >= 1
    ensures Fillings(a, capacity) <= Fillings(b, capacity)
  {
    if a >= capacity {
      FillingsGrow(a - capacity, b - capacity, capacity);
    }
  }

  /** A signal wakes a waiter, if there is one. */
  lemma OneFewerParked(s: State, w: Waiter)
    requires CanWake(s, w)
    ensures var wp, wc := Count(s.producers, Parked), Count(s.consumers, Parked);
            var vp, vc := Count(Signalled(s, w).producers, Parked), Count(Signalled(s, w).consumers, Parked);
            vp <= wp && vc <= wc && (if wp + wc == 0 then vp + vc == 0 else vp + vc == wp + wc - 1)
  {
    match w case Nobody => case Producer(i) => case Consumer(j) =>
  }

  lemma BalancedWhenMade(s: State, w: Waiter, t: State, x: nat, y: nat, y': nat)
    requires BalancedAt(s, x, y) && y <= y' && CanWake(s, w)
    requires t == Signalled(s, w).(productCount := s.productCount + 1, producedCount := s.producedCount + 1)
    ensures BalancedAt(t, x, y')
  {
    OneFewerParked(s, w);
  }

  lemma BalancedWhenTaken(s: State, w: Waiter, t: State, x: nat, x': nat, y: nat)
    requires BalancedAt(s, x, y) && x <= x' && CanWake(s, w) && s.productCount > 0
    requires t == Signalled(s, w).(productCount := s.productCount - 1, taken := s.taken + 1)
    ensures BalancedAt(t, x', y)
  {
    OneFewerParked(s, w);
  }

  lemma BalancedWhenProducerParks(s: State, i: nat, t: State, x: nat, y: nat)
    requires Safe(s) && BalancedAt(s, x, y) && s.productCount == s.cfg.capacity
    requires y == Excess(s.cfg.producers, Excess(s.cfg.capacity, x))
    requires i < |s.producers| && s.producers[i] == Awake && t == s.(producers := s.producers[i := Parked])
    ensures BalancedAt(t, x, y)
  {
    CountsAddUp(t.producers);
  }

  lemma BalancedWhenConsumerParks(s: State, j: nat, t: State, x: nat, y: nat)
    requires Safe(s) && BalancedAt(s, x, y) && s.productCount == 0
    requires x == Excess(s.cfg.consumers, Excess(s.cfg.capacity, y))
    requires j < |s.consumers| && s.consumers[j] == Awake && t == s.(consumers := s.consumers[j := Parked])
    ensures BalancedAt(t, x, y)
  {
    CountsAddUp(t.consumers);
  }

  /** At either end of the buffer all threads are parked only if a level covers all of one kind. */
  lemma AllParkedIsStuck(s: State, n: nat)
    requires Safe(s) && (s.productCount == s.cfg.capacity || s.productCount == 0)
    requires n == Fillings(s.producedCount, s.cfg.capacity)
    requires BalancedAt(s, ConsumersLeft(s.cfg, Fillings(s.taken, s.cfg.capacity) + 1), ProducersLeft(s.cfg, n))
    ensures Balanced(s)
  {
    CountsAddUp(s.producers);
    CountsAddUp(s.consumers);
    if s.productCount == s.cfg.capacity {
      assert n == Fillings(s.taken, s.cfg.capacity) + 1;
    }
  }

  lemma SomeoneAwake(s: State, i: nat, j: nat)
    requires Safe(s)
    requires (i < |s.producers| && s.producers[i] == Awake) || (j < |s.consumers| && s.consumers[j] == Awake)
    ensures Count(s.producers, Parked) + Count(s.consumers, Parked) < s.cfg.producers + s.cfg.consumers
  {
    CountsAddUp(s.producers);
    CountsAddUp(s.consumers);
  }

  lemma BalancedAfterMaking(s: State, i: nat, w: Waiter, t: State)
    requires Live(s) && ProducerStep(s, i, w, t) && !t.done && s.productCount < s.cfg.capacity
    ensures Balanced(t)
  {
    var cap := s.cfg.capacity;
    var full, after := Fillings(s.producedCount, cap), Fillings(t.producedCount, cap);
    FillingsGrow(s.producedCount, t.producedCount, cap);
    LevelsGrow(s.cfg, full, after);
    BalancedWhenMade(s, w, t, ConsumersLeft(s.cfg, Fillings(s.taken, cap) + 1),
                     ProducersLeft(s.cfg, full), ProducersLeft(s.cfg, after));
    SafeAfterProducer(s, i, w, t);
    SomeoneAwake(t, i, |t.consumers|);
  }

  lemma BalancedAfterTaking(s: State, j: nat, w: Waiter, t: State)
    requires Live(s) && ConsumerStep(s, j, w, t) && !t.done && s.productCount > 0
    ensures Balanced(t)
  {
    var cap := s.cfg.capacity;
    var empty, after := Fillings(s.taken, cap), Fillings(t.taken, cap);
    FillingsGrow(s.taken, t.taken, cap);
    LevelsGrow(s.cfg, empty + 1, after + 1);
    BalancedWhenTaken(s, w, t, ConsumersLeft(s.cfg, empty + 1), ConsumersLeft(s.cfg, after + 1),
                      ProducersLeft(s.cfg, Fillings(s.producedCount, cap)));
    SafeAfterConsumer(s, j, w, t);
    SomeoneAwake(t, |t.producers|, j);
  }

  lemma BalancedAfterProducer(s: State, i: nat, w: Waiter, t: State)
    requires Live(s) && ProducerStep(s, i, w, t) && !t.done
    ensures Balanced(t)
  {
    if s.productCount < s.cfg.capacity {
      BalancedAfterMaking(s, i, w, t);
    } else {
      var full, empty := Fillings(s.producedCount, s.cfg.capacity), Fillings(s.taken, s.cfg.capacity);
      var x, y := ConsumersLeft(s.cfg, empty + 1), ProducersLeft(s.cfg, full);
      assert full == empty + 1;
      BalancedWhenProducerParks(s, i, t, x, y);
      SafeAfterProducer(s, i, w, t);
      AllParkedIsStuck(t, full);
    }
  }

  lemma BalancedAfterConsumer(s: State, j: nat, w: Waiter, t: State)
    requires Live(s) && ConsumerStep(s, j, w, t) && !t.done
    ensures Balanced(t)
  {
    if s.productCount > 0 {
      BalancedAfterTaking(s, j, w, t);
    } else {
      var full, empty := Fillings(s.producedCount, s.cfg.capacity), Fillings(s.taken, s.cfg.capacity);
      var x, y := ConsumersLeft(s.cfg, empty + 1), ProducersLeft(s.cfg, full);
      BalancedWhenConsumerParks(s, j, t, x, y);
      SafeAfterConsumer(s, j, w, t);
      AllParkedIsStuck(t, full);
    }
  }

  lemma LiveKept(s: State, t: State)
    requires Live(s) && Next(s, t)
    ensures Live(t) && t.cfg == s.cfg
  {
    SafeKept(s, t);
    if !t.done {
      if i, w :| ProducerStep(s, i, w, t) {
        BalancedAfterProducer(s, i, w, t);
      } else {
        var j, w :| ConsumerStep(s, j, w, t);
        BalancedAfterConsumer(s, j, w, t);
      }
    }
  }

  lemma DeadlockStarves(s: State)
    requires Live(s) && Deadlocked(s)
    ensures s.cfg.Starves()
  {
    CountsAddUp(s.producers);
    CountsAddUp(s.consumers);
    var n := Fillings(s.cfg.total - 1, s.cfg.capacity);
    FillingsGrow(s.producedCount, s.cfg.total - 1, s.cfg.capacity);
    StuckForGood(s.cfg, Fillings(s.producedCount, s.cfg.capacity), n);
    if s.cfg.Roomy() {
      NeverStuckIfRoomy(s.cfg, n);
    }
    StuckExactly(s.cfg, n);
  }

  // ---- termination

  /** Four for each product still to be made, two for each one in the buffer, one for each awake thread, and
      one for each thread the final broadcast may wake. */
  ghost function Measure(s: State): nat {
    4 * Excess(s.cfg.total, s.producedCount) + 2 * s.productCount
    + Count(s.producers, Awake) + Count(s.consumers, Awake)
    + if s.done then 0 else s.cfg.producers + s.cfg.consumers
  }

  lemma MeasureDropsForProducer(s: State, i: nat, w: Waiter, t: State)
    requires Safe(s) && ProducerStep(s, i, w, t)
    ensures Measure(t) < Measure(s)
  {
    CountsAddUp(t.producers);
    CountsAddUp(t.consumers);
  }

  lemma MeasureDropsForConsumer(s: State, j: nat, w: Waiter, t: State)
    requires Safe(s) && ConsumerStep(s, j, w, t)
    ensures Measure(t) < Measure(s)
  {
    CountsAddUp(t.producers);
    CountsAddUp(t.consumers);
  }

  lemma MeasureDrops(s: State, t: State)
    requires Safe(s) && Next(s, t)
    ensures Measure(t) < Measure(s)
  {
    if i, w :| ProducerStep(s, i, w, t) {
      MeasureDropsForProducer(s, i, w, t);
    } else {
      var j, w :| ConsumerStep(s, j, w, t);
      MeasureDropsForConsumer(s, j, w, t);
    }
  }

  lemma StepsExactlyWhenAwake(s: State)
    ensures (exists t :: Next(s, t)) <==> Awake in s.producers || Awake in s.consumers
  {
    SomeoneToWake(s);
    var w :| CanWake(s, w);
    if i :| 0 <= i < |s.producers| && s.producers[i] == Awake {
      assert ProducerStep(s, i, w, ProducerTurn(s, i, w));
      assert Next(s, ProducerTurn(s, i, w));
    } else if j :| 0 <= j < |s.consumers| && s.consumers[j] == Awake {
      assert ConsumerStep(s, j, w, ConsumerTurn(s, j, w));
      assert Next(s, ConsumerTurn(s, j, w));
    }
  }

  lemma SomeoneToWake(s: State)
    ensures exists w :: CanWake(s, w)
  {
    if i :| 0 <= i < |s.producers| && s.producers[i] == Parked {
      assert CanWake(s, Producer(i));
    } else if j :| 0 <= j < |s.consumers| && s.consumers[j] == Parked {
      assert CanWake(s, Consumer(j));
    } else {
      assert CanWake(s, Nobody);
    }
  }

  // ---- whole runs

  lemma AlwaysLive(cfg: Config, s: State)
    requires cfg.Valid() && Reaches(Next, Init(cfg), s)
    ensures Live(s) && s.cfg == cfg
  {
    forall s, t | Live(s) && Next(s, t) ensures Live(t) && t.cfg == s.cfg { LiveKept(s, t); }
    LiveInitially(cfg);
    InvariantReachable(Next, (u: State) => Live(u) && u.cfg == cfg, Init(cfg), s);
  }

  lemma LiveInitially(cfg: Config)
    requires cfg.Valid()
    ensures Live(Init(cfg))
  {
    SafeInitially(cfg);
  }

  /** Unless there are both too many threads and enough products to make, no reachable state is a deadlock. */
  lemma NoDeadlock(cfg: Config, s: State)
    requires cfg.Valid() && !cfg.Starves() && Reaches(Next, Init(cfg), s)
    ensures !Deadlocked(s)
  {
    AlwaysLive(cfg, s);
    if Deadlocked(s) {
      DeadlockStarves(s);
    }
  }

  /** In particular the program, with its own constants, never deadlocks. */
  lemma ProgramNeverDeadlocks(s: State)
    requires Reaches(Next, Init(Config(5, 2, 20, 5 * 20)), s)
    ensures !Deadlocked(s)
  {
    NoDeadlock(Config(5, 2, 20, 5 * 20), s);
  }

  /** Whatever the sizes, every run is finite, and safe all along. */
  lemma EveryRunEnds(cfg: Config, run: seq<State>, k: nat)
    requires cfg.Valid() && IsRun(Next, run) && run[0] == Init(cfg) && k < |run|
    ensures Safe(run[k])
    ensures k <= 4 * cfg.total + 2 * (cfg.producers + cfg.consumers)
  {
    forall s, t | Safe(s) && Next(s, t) ensures Safe(t) && Measure(t) < Measure(s) {
      SafeKept(s, t);
      MeasureDrops(s, t);
    }
    LengthBounded(Next, Safe, Measure, run, k);
    CountsAddUp(run[0].producers);
    CountsAddUp(run[0].consumers);
  }

  /** A run that cannot go on has returned from every thread with exactly `total` products made. */
  lemma FinishedAtTheEnd(cfg: Config, s: State)
    requires cfg.Valid() && !cfg.Starves() && Reaches(Next, Init(cfg), s)
    requires !exists t :: Next(s, t)
    ensures s.done && s.producedCount == cfg.total == s.productCount + s.taken
    ensures |s.producers| == cfg.producers && forall phase | phase in s.producers :: phase == Returned
    ensures |s.consumers| == cfg.consumers && forall phase | phase in s.consumers :: phase == Returned
  {
    NoDeadlock(cfg, s);
    AlwaysLive(cfg, s);
    StepsExactlyWhenAwake(s);
  }

  // ---- the program

  /** The shared variables of the program, with the phase of each goroutine. */
  class Monitor {
    const cfg: Config
    var productCount: nat
    var producedCount: nat
    var done: bool
    var producers: seq<Phase>
    var consumers: seq<Phase>
    ghost var taken: nat

    ghost function View(): State
      reads this
    {
      State(cfg, producers, consumers, productCount, producedCount, done, taken)
    }

    constructor (cfg: Config)
      ensures this.cfg == cfg && View() == Init(cfg)
    {
      this.cfg := cfg;
      productCount, producedCount, done, taken := 0, 0, false, 0;
      producers := seq(cfg.producers, _ => Awake);
      consumers := seq(cfg.consumers, _ => Awake);
    }

    /** Wakes one parked goroutine, any one, if there is one. */
    method Signal() returns (ghost w: Waiter)
      modifies this`producers, this`consumers
      ensures CanWake(old(View()), w) && View() == Signalled(old(View()), w)
    {
      if
      case Parked in producers =>
        var i: nat :| i < |producers| && producers[i] == Parked;
        producers, w := producers[i := Awake], Producer(i);
      case Parked in consumers =>
        var j: nat :| j < |consumers| && consumers[j] == Parked;
        consumers, w := consumers[j := Awake], Consumer(j);
      case Parked !in producers && Parked !in consumers =>
        w := Nobody;
    }

    /** Wakes every parked goroutine. */
    method Broadcast()
      modifies this`producers, this`consumers
      ensures View() == Broadcasted(old(View()))
    {
      producers := AllWoken(producers);
      consumers := AllWoken(consumers);
    }

    /** One stay of producer `i` inside the lock. */
    method Produce(i: nat) returns (ghost w: Waiter)
      requires i < |producers| && producers[i] == Awake
      modifies this
      ensures ProducerStep(old(View()), i, w, View())
      ensures taken == old(taken)
      ensures var made := if old(productCount < cfg.capacity && !done) then 1 else 0;
              productCount == old(productCount) + made && producedCount == old(producedCount) + made
              && done == (old(done) || (made == 1 && producedCount >= cfg.total))
      ensures if old(productCount >= cfg.capacity && !done) then producers == old(producers)[i := Parked]
              else if old(done) then producers == old(producers)[i := Returned]
              else if done then producers == AllWoken(old(producers)) && consumers == AllWoken(old(consumers))
              else Woken(old(producers), producers, if w.Producer? then w.i else |producers|)
                   && Woken(old(consumers), consumers, if w.Consumer? then w.j else |consumers|)
    {
      SomeoneToWake(View());
      w :| CanWake(View(), w);
      if productCount >= cfg.capacity && !done {
        producers := producers[i := Parked];
      } else if done {
        producers := producers[i := Returned];
      } else {
        productCount := productCount + 1;
        producedCount := producedCount + 1;
        if producedCount >= cfg.total {
          done := true;
          Broadcast();
        } else {
          w := Signal();
        }
      }
    }

    /** One stay of consumer `j` inside the lock. */
    method Consume(j: nat) returns (ghost w: Waiter)
      requires j < |consumers| && consumers[j] == Awake
      modifies this
      ensures ConsumerStep(old(View()), j, w, View())
      ensures producedCount == old(producedCount) && done == old(done)
      ensures var took := if old(productCount > 0 && !done) then 1 else 0;
              productCount + took == old(productCount) && taken == old(taken) + took
      ensures if old(productCount <= 0 && !done) then consumers == old(consumers)[j := Parked]
              else if done then consumers == old(consumers)[j := Returned]
              else Woken(old(producers), producers, if w.Producer? then w.i else |producers|)
                   && Woken(old(consumers), consumers, if w.Consumer? then w.j else |consumers|)
    {
      SomeoneToWake(View());
      w :| CanWake(View(), w);
      if productCount <= 0 && !done {
        consumers := consumers[j := Parked];
      } else if done {
        consumers := consumers[j := Returned];
      } else {
        productCount := productCount - 1;
        taken := taken + 1;
        w := Signal();
      }
    }

    /** The scheduler lets some goroutine, any one, into the lock. */
    method Turn()
      requires Awake in producers || Awake in consumers
      modifies this
      ensures Next(old(View()), View())
    {
      if
      case Awake in producers =>
        var i: nat :| i < |producers| && producers[i] == Awake;
        ghost var w := Produce(i);
      case Awake in consumers =>
        var j: nat :| j < |consumers| && consumers[j] == Awake;
        ghost var w := Consume(j);
    }

    /** The program under an arbitrary scheduler: it terminates, and with all products made. */
    method Run()
      requires View() == Init(cfg) && cfg.Valid() && !cfg.Starves()
      modifies this
      ensures done && producedCount == cfg.total == productCount + taken
      ensures forall phase | phase in producers + consumers :: phase == Returned
    {
      LiveInitially(cfg);
      while Awake in producers || Awake in consumers
        invariant Live(View())
        decreases Measure(View())
      {
        ghost var before := View();
        Turn();
        LiveKept(before, View());
        MeasureDrops(before, View());
      }
      if Deadlocked(View()) {
        DeadlockStarves(View());
      }
    }
  }
}
