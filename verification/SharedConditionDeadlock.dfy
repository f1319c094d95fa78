/** Exactly when some choice of schedule and of signalled waiters parks every thread: there are more than two threads
    for each buffer place, and enough products to be made.

    The schedule swings between a full and an empty buffer. On the way up one producer works and the signals go to
    producers first, so that few consumers are woken; at the top all producers park. On the way down it is the other way
    round. Each swing reaches exactly the levels that no run can exceed, so that this is also the quickest way. */
module SharedConditionDeadlock {
  import opened Runs
  import opened SharedCondition

  lemma PreferProducer(s: State) returns (w: Waiter)
    ensures CanWake(s, w)
    ensures Count(Signalled(s, w).producers, Parked) == Excess(Count(s.producers, Parked), 1)
    ensures Count(Signalled(s, w).consumers, Parked)
         == Excess(Count(s.consumers, Parked), Excess(1, Count(s.producers, Parked)))
  {
    if Parked in s.producers {
      var i :| 0 <= i < |s.producers| && s.producers[i] == Parked;
      w := Producer(i);
    } else if Parked in s.consumers {
      var j :| 0 <= j < |s.consumers| && s.consumers[j] == Parked;
      w := Consumer(j);
    } else {
      w := Nobody;
    }
  }

  lemma PreferConsumer(s: State) returns (w: Waiter)
    ensures CanWake(s, w)
    ensures Count(Signalled(s, w).consumers, Parked) == Excess(Count(s.consumers, Parked), 1)
    ensures Count(Signalled(s, w).producers, Parked)
         == Excess(Count(s.producers, Parked), Excess(1, Count(s.consumers, Parked)))
  {
    if Parked in s.consumers {
      var j :| 0 <= j < |s.consumers| && s.consumers[j] == Parked;
      w := Consumer(j);
    } else if Parked in s.producers {
      var i :| 0 <= i < |s.producers| && s.producers[i] == Parked;
      w := Producer(i);
    } else {
      w := Nobody;
    }
  }

  /** A reachable state in which the exit flag is not yet set. */
  ghost predicate Reached(cfg: Config, s: State) {
    Reaches(Next, Init(cfg), s) && Safe(s) && !s.done && s.cfg == cfg
  }

  lemma ReachedFurther(cfg: Config, s: State, t: State)
    requires Reached(cfg, s) && Next(s, t) && !t.done
    ensures Reached(cfg, t)
  {
    ReachesFurther(Next, Init(cfg), s, t);
    SafeKept(s, t);
  }

  lemma {:induction false} Fill(cfg: Config, s: State, i: nat) returns (t: State)
    requires Reached(cfg, s) && i < |s.producers| && s.producers[i] == Awake
    requires s.producedCount + cfg.capacity - s.productCount < cfg.total
    ensures Reached(cfg, t) && t.productCount == cfg.capacity
    ensures t.producedCount == s.producedCount + cfg.capacity - s.productCount
    ensures var k, wp, wc := cfg.capacity - s.productCount, Count(s.producers, Parked), Count(s.consumers, Parked);
            && Count(t.producers, Parked) == Excess(wp, k)
            && Count(t.consumers, Parked) == Excess(wc, Excess(k, wp))
    decreases cfg.capacity - s.productCount
  {
    if s.productCount == cfg.capacity {
      t := s;
    } else {
      var w := PreferProducer(s);
      var u := ProducerTurn(s, i, w);
      assert ProducerStep(s, i, w, u);
      ReachedFurther(cfg, s, u);
      t := Fill(cfg, u, i);
    }
  }

  lemma {:induction false} Drain(cfg: Config, s: State, j: nat) returns (t: State)
    requires Reached(cfg, s) && j < |s.consumers| && s.consumers[j] == Awake
    ensures Reached(cfg, t) && t.productCount == 0 && t.producedCount == s.producedCount
    ensures var k, wp, wc := s.productCount, Count(s.producers, Parked), Count(s.consumers, Parked);
            && Count(t.consumers, Parked) == Excess(wc, k)
            && Count(t.producers, Parked) == Excess(wp, Excess(k, wc))
    decreases s.productCount
  {
    if s.productCount == 0 {
      t := s;
    } else {
      var w := PreferConsumer(s);
      var u := ConsumerTurn(s, j, w);
      assert ConsumerStep(s, j, w, u);
      ReachedFurther(cfg, s, u);
      t := Drain(cfg, u, j);
    }
  }

  lemma {:induction false} ParkProducers(cfg: Config, s: State) returns (t: State)
    requires Reached(cfg, s) && s.productCount == cfg.capacity
    ensures Reached(cfg, t) && Awake !in t.producers && t == s.(producers := t.producers)
    decreases Count(s.producers, Awake)
  {
    if i :| 0 <= i < |s.producers| && s.producers[i] == Awake {
      SomeoneToWake(s);
      var w :| CanWake(s, w);
      var u := ProducerTurn(s, i, w);
      assert ProducerStep(s, i, w, u);
      ReachedFurther(cfg, s, u);
      t := ParkProducers(cfg, u);
    } else {
      t := s;
    }
  }

  lemma {:induction false} ParkConsumers(cfg: Config, s: State) returns (t: State)
    requires Reached(cfg, s) && s.productCount == 0
    ensures Reached(cfg, t) && Awake !in t.consumers && t == s.(consumers := t.consumers)
    decreases Count(s.consumers, Awake)
  {
    if j :| 0 <= j < |s.consumers| && s.consumers[j] == Awake {
      SomeoneToWake(s);
      var w :| CanWake(s, w);
      var u := ConsumerTurn(s, j, w);
      assert ConsumerStep(s, j, w, u);
      ReachedFurther(cfg, s, u);
      t := ParkConsumers(cfg, u);
    } else {
      t := s;
    }
  }

  /** The buffer is empty after being full `n` times; all consumers are parked, and as many producers as can be. */
  ghost predicate Bottom(cfg: Config, s: State, n: nat) {
    && Reached(cfg, s) && s.productCount == 0 && Awake !in s.consumers
    && Count(s.producers, Parked) == ProducersLeft(cfg, n) && !Stuck(cfg, n)
  }

  /** One swing to a full buffer and back parks everybody, or gets to the next level. */
  lemma Swing(cfg: Config, s: State, n: nat) returns (t: State)
    requires Bottom(cfg, s, n) && s.producedCount + cfg.capacity < cfg.total
    ensures Reached(cfg, t)
    ensures Deadlocked(t) || (Bottom(cfg, t, n + 1) && t.producedCount == s.producedCount + cfg.capacity)
  {
    CountsAddUp(s.producers);
    CountsAddUp(s.consumers);
    var i :| 0 <= i < |s.producers| && s.producers[i] == Awake;
    var full := Fill(cfg, s, i);
    t := ParkProducers(cfg, full);
    assert Count(t.consumers, Parked) == ConsumersLeft(cfg, n + 1);
    if j :| 0 <= j < |t.consumers| && t.consumers[j] == Awake {
      CountsAddUp(t.producers);
      CountsAddUp(t.consumers);
      assert ConsumersLeft(cfg, n + 1) < cfg.consumers;
      var empty := Drain(cfg, t, j);
      t := ParkConsumers(cfg, empty);
      assert Count(t.producers, Parked) == ProducersLeft(cfg, n + 1);
      CountsAddUp(t.producers);
    }
  }

  /** Swing after swing, until nobody is awake. */
  lemma {:induction false} Starve(cfg: Config, s: State, n: nat) returns (t: State)
    requires Bottom(cfg, s, n) && Stuck(cfg, n + Fillings(cfg.total - 1 - s.producedCount, cfg.capacity))
    ensures Reached(cfg, t) && Deadlocked(t)
    decreases cfg.total - s.producedCount
  {
    t := Swing(cfg, s, n);
    if !Deadlocked(t) {
      t := Starve(cfg, t, n + 1);
    }
  }

  ghost predicate DeadlockReachable(cfg: Config) {
    exists s :: Reaches(Next, Init(cfg), s) && Deadlocked(s)
  }

  /** The exact condition, whatever the numbers of threads, places and products. */
  lemma DeadlockReachableExactly(cfg: Config)
    requires cfg.Valid()
    ensures DeadlockReachable(cfg) <==> cfg.Starves()
  {
    if s :| Reaches(Next, Init(cfg), s) && Deadlocked(s) && !cfg.Starves() {
      NoDeadlock(cfg, s);
    }
    if cfg.Starves() {
      StuckExactly(cfg, Fillings(cfg.total - 1, cfg.capacity));
      ReachesItself(Next, Init(cfg));
      var s := ParkConsumers(cfg, Init(cfg));
      var t := Starve(cfg, s, 0);
    }
  }

  // ---- in particular

  lemma {:induction false} FillingsOf(n: nat, rest: nat, capacity: nat)
    requires rest < capacity
    ensures Fillings(n * capacity + rest, capacity) == n
  {
    if n > 0 {
      assert n * capacity + rest - capacity == (n - 1) * capacity + rest;
      FillingsOf(n - 1, rest, capacity);
    }
  }

  ghost predicate DeadlockFree(producers: nat, consumers: nat, capacity: nat) {
    forall total: nat :: total >= 1 ==> !DeadlockReachable(Config(producers, consumers, capacity, total))
  }

  /** Over all numbers of products it is the number of threads that counts. */
  lemma DeadlockFreeExactlyWhenRoomy(producers: nat, consumers: nat, capacity: nat)
    requires producers >= 1 && consumers >= 1 && capacity >= 1
    ensures DeadlockFree(producers, consumers, capacity) <==> producers + consumers <= 2 * capacity
  {
    forall total: nat | total >= 1
      ensures var cfg := Config(producers, consumers, capacity, total); DeadlockReachable(cfg) <==> cfg.Starves()
    {
      DeadlockReachableExactly(Config(producers, consumers, capacity, total));
    }
    if producers + consumers > 2 * capacity {
      var cfg := Config(producers, consumers, capacity, (capacity + 1) * capacity + 1);
      FillingsOf(capacity + 1, 0, capacity);
      HighLevel(cfg);
      assert cfg.Starves();
    }
  }

  lemma HighLevel(cfg: Config)
    requires !cfg.Roomy()
    ensures cfg.Level(cfg.capacity + 1) >= cfg.capacity
  {
    ProductAtLeast(cfg.capacity, cfg.producers + cfg.consumers - 2 * cfg.capacity, 1);
  }

  lemma ProductAtLeast(a: nat, d: nat, k: nat)
    requires d >= k
    ensures a * d >= a * k
  {
  }

  /** What the condition comes to when the buffer can be filled once less often than there are producers. */
  lemma OwnLevels(cfg: Config)
    requires cfg.Valid() && !cfg.Roomy() && cfg.producers >= 2
    ensures cfg.Level(cfg.producers - 1) >= cfg.capacity
         || (cfg.producers >= 3 && cfg.producers + cfg.Level(cfg.producers - 2) >= 2 * cfg.capacity)
       <==> (cfg.producers + cfg.consumers == 2 * cfg.capacity + 1 ==> cfg.producers >= cfg.capacity + 2)
  {
    var d := cfg.producers + cfg.consumers - 2 * cfg.capacity;
    if d >= 2 {
      ProductAtLeast(cfg.producers - 2, d, 2);
      assert (cfg.producers - 2) * d >= 2 * (cfg.producers - 2);
      assert cfg.Level(cfg.producers - 1) >= cfg.capacity;
    } else {
      assert d == 1;
      assert cfg.Level(cfg.producers - 1) == Excess(cfg.consumers, cfg.capacity) + cfg.producers - 2;
    }
  }

  /** For the program's own number of products, as many for each producer as the buffer has places, one thread too many
      does no harm to few producers, and none does any to a single one. */
  lemma OwnTotalExactly(producers: nat, consumers: nat, capacity: nat)
    requires producers >= 1 && consumers >= 1 && capacity >= 1
    ensures DeadlockReachable(Config(producers, consumers, capacity, producers * capacity))
       <==> producers >= 2 && producers + consumers > 2 * capacity
            && (producers + consumers == 2 * capacity + 1 ==> producers >= capacity + 2)
  {
    var cfg := Config(producers, consumers, capacity, producers * capacity);
    OwnTotal(producers, capacity);
    DeadlockReachableExactly(cfg);
    if producers >= 2 && !cfg.Roomy() {
      OwnLevels(cfg);
    }
  }

  lemma OwnTotal(producers: nat, capacity: nat)
    requires producers >= 1 && capacity >= 1
    ensures producers * capacity >= 1 && Fillings(producers * capacity - 1, capacity) == producers - 1
  {
    assert producers * capacity == (producers - 1) * capacity + capacity;
    FillingsOf(producers - 1, capacity - 1, capacity);
  }
}
