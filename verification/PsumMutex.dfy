/** The sum whose threads all add to one global variable under a semaphore. P, the read of the variable, the
    write back and V are separate steps of a thread, interleaved with those of the others in any way. */
module PsumMutex {
  import opened Runs
  import opened Tallies
  import opened ParallelSum

  /** A thread at the top of its loop, or inside: after P, after the read, after the write. */
  datatype Point = Top | Locked | Loaded(value: nat) | Stored

  datatype Thread = Thread(start: nat, end: nat, i: nat, point: Point)

  datatype State = State(threads: seq<Thread>, gsum: nat, mutex: nat)

  ghost function Init(nthreads: nat, per: nat): State {
    State(seq(nthreads, t requires 0 <= t => Thread(t * per, t * per + per, t * per, Top)), 0, 1)
  }

  datatype Action = P(t: nat) | Load(t: nat) | Store(t: nat) | V(t: nat)

  predicate Enabled(s: State, a: Action) {
    && a.t < |s.threads|
    && var th := s.threads[a.t];
       match a
       case P(_) => th.point == Top && th.i < th.end && s.mutex > 0
       case Load(_) => th.point == Locked
       case Store(_) => th.point.Loaded?
       case V(_) => th.point == Stored
  }

  function Apply(s: State, a: Action): State
    requires Enabled(s, a)
  {
    var th := s.threads[a.t];
    match a
    case P(t) => s.(mutex := s.mutex - 1, threads := s.threads[t := th.(point := Locked)])
    case Load(t) => s.(threads := s.threads[t := th.(point := Loaded(s.gsum))])
    case Store(t) => s.(gsum := th.point.value + th.i, threads := s.threads[t := th.(point := Stored)])
    case V(t) => s.(mutex := s.mutex + 1, threads := s.threads[t := th.(i := th.i + 1, point := Top)])
  }

  ghost predicate Next(s: State, t: State) {
    exists a :: Enabled(s, a) && t == Apply(s, a)
  }

  // ---- what every run keeps

  function InSection(th: Thread): nat {
    if th.point == Top then 0 else 1
  }

  /** The sum of the indices a thread has passed: those before `i`, and `i` itself once it is written. */
  function Passed(th: Thread): nat {
    RangeSum(th.start, th.i) + if th.point == Stored then th.i else 0
  }

  ghost predicate ThreadOk(th: Thread, gsum: nat, t: nat, per: nat) {
    && th.start == t * per && th.end == th.start + per
    && th.start <= th.i <= th.end
    && (th.point != Top ==> th.i < th.end)
    && (th.point.Loaded? ==> th.point.value == gsum)
  }

  /** The semaphore counts the threads outside the section down from one, and the global variable is the sum of
      everything passed; a thread about to write still holds the current value. */
  ghost predicate Consistent(s: State, per: nat) {
    && Total(InSection, s.threads) + s.mutex == 1
    && s.gsum == Total(Passed, s.threads)
    && forall t | 0 <= t < |s.threads| :: ThreadOk(s.threads[t], s.gsum, t, per)
  }

  lemma {:induction false} NothingPassed(threads: seq<Thread>)
    requires forall t | 0 <= t < |threads| :: threads[t].point == Top && threads[t].i == threads[t].start
    ensures Total(InSection, threads) == 0 == Total(Passed, threads)
  {
    if threads != [] {
      NothingPassed(threads[..|threads| - 1]);
    }
  }

  lemma MutualExclusion(s: State, per: nat, t: nat, u: nat)
    requires Consistent(s, per) && t < u < |s.threads|
    ensures s.threads[t].point == Top || s.threads[u].point == Top
  {
    TotalIncludesTwo(InSection, s.threads, t, u);
  }

  lemma ConsistentKept(s: State, a: Action, per: nat)
    requires Consistent(s, per) && Enabled(s, a)
    ensures Consistent(Apply(s, a), per)
  {
    var t := Apply(s, a);
    TotalUpdate(InSection, s.threads, a.t, t.threads[a.t]);
    TotalUpdate(Passed, s.threads, a.t, t.threads[a.t]);
    forall u | 0 <= u < |t.threads| ensures ThreadOk(t.threads[u], t.gsum, u, per) {
      if u < a.t {
        MutualExclusion(s, per, u, a.t);
      } else if u > a.t {
        MutualExclusion(s, per, a.t, u);
      }
      assert ThreadOk(s.threads[u], s.gsum, u, per);
    }
  }

  // ---- termination

  function StepsLeft(th: Thread): nat {
    if th.end < th.i then 0
    else
      4 * (th.end - th.i) + match th.point case Top => 3 case Locked => 2 case Loaded(_) => 1 case Stored => 0
  }

  ghost function Measure(s: State): nat {
    Total(StepsLeft, s.threads)
  }

  lemma MeasureDrops(s: State, a: Action, per: nat)
    requires Consistent(s, per) && Enabled(s, a)
    ensures Measure(Apply(s, a)) + 1 == Measure(s)
  {
    assert ThreadOk(s.threads[a.t], s.gsum, a.t, per);
    TotalUpdate(StepsLeft, s.threads, a.t, Apply(s, a).threads[a.t]);
  }

  /** All threads have returned, so that all joins succeed. */
  ghost predicate Joined(s: State) {
    forall t | 0 <= t < |s.threads| :: s.threads[t].point == Top && s.threads[t].i == s.threads[t].end
  }

  lemma SomeoneInside(s: State)
    requires Total(InSection, s.threads) > 0
    ensures exists a :: Enabled(s, a)
  {
    TotalWitness(InSection, s.threads);
    var t: nat :| t < |s.threads| && InSection(s.threads[t]) > 0;
    assert Enabled(s, Load(t)) || Enabled(s, Store(t)) || Enabled(s, V(t));
  }

  lemma JoinedExactlyWhenStuck(s: State, per: nat)
    requires Consistent(s, per)
    ensures (forall a :: !Enabled(s, a)) <==> Joined(s)
  {
    if forall a :: !Enabled(s, a) {
      if Total(InSection, s.threads) > 0 {
        SomeoneInside(s);
      }
      forall t | 0 <= t < |s.threads| ensures s.threads[t].point == Top && s.threads[t].i == s.threads[t].end {
        assert ThreadOk(s.threads[t], s.gsum, t, per);
        TotalIncludes(InSection, s.threads, t);
        assert !Enabled(s, P(t));
      }
    } else {
      var a :| Enabled(s, a);
      assert ThreadOk(s.threads[a.t], s.gsum, a.t, per);
    }
  }

  lemma {:induction false} AllPassed(threads: seq<Thread>, per: nat)
    requires forall t | 0 <= t < |threads| ::
      threads[t].point == Top && threads[t].start == t * per && threads[t].i == t * per + per
    ensures Total(Passed, threads) == BlockSums(|threads|, per)
  {
    if threads != [] {
      AllPassed(threads[..|threads| - 1], per);
      assert (|threads| - 1) * per + per == |threads| * per;
    }
  }

  lemma JoinedSum(s: State, per: nat)
    requires Consistent(s, per) && Joined(s)
    ensures s.gsum == Expected(|s.threads| * per)
  {
    forall t | 0 <= t < |s.threads| ensures s.threads[t].start == t * per && s.threads[t].i == t * per + per {
      assert ThreadOk(s.threads[t], s.gsum, t, per);
    }
    AllPassed(s.threads, per);
    BlockSumsTogether(|s.threads|, per);
    RangeSumExpected(|s.threads| * per);
  }

  // ---- whole runs

  lemma ConsistentInitially(nthreads: nat, per: nat)
    ensures Consistent(Init(nthreads, per), per)
  {
    NothingPassed(Init(nthreads, per).threads);
  }

  lemma AlwaysConsistent(nthreads: nat, per: nat, s: State)
    requires Reaches(Next, Init(nthreads, per), s)
    ensures Consistent(s, per) && |s.threads| == nthreads
  {
    forall s, t | Consistent(s, per) && Next(s, t) ensures Consistent(t, per) {
      var a :| Enabled(s, a) && t == Apply(s, a);
      ConsistentKept(s, a, per);
    }
    ConsistentInitially(nthreads, per);
    InvariantReachable(Next, (u: State) => Consistent(u, per) && |u.threads| == nthreads, Init(nthreads, per), s);
  }

  lemma {:induction false} InitialSteps(threads: seq<Thread>, per: nat)
    requires forall t | 0 <= t < |threads| :: threads[t].point == Top && threads[t].i + per == threads[t].end
    ensures Total(StepsLeft, threads) == (4 * per + 3) * |threads|
  {
    if threads != [] {
      InitialSteps(threads[..|threads| - 1], per);
    }
  }

  lemma EveryRunEnds(nthreads: nat, per: nat, run: seq<State>, k: nat)
    requires IsRun(Next, run) && run[0] == Init(nthreads, per) && k < |run|
    ensures k <= (4 * per + 3) * nthreads
  {
    var inv := (u: State) => Consistent(u, per);
    forall s, t | inv(s) && Next(s, t) ensures inv(t) && Measure(t) < Measure(s) {
      var a :| Enabled(s, a) && t == Apply(s, a);
      ConsistentKept(s, a, per);
      MeasureDrops(s, a, per);
    }
    ConsistentInitially(nthreads, per);
    InitialSteps(run[0].threads, per);
    LengthBounded(Next, inv, Measure, run, k);
  }

  /** Every interleaving that has run to its end leaves the same sum, m(m-1)/2 for m the elements in all blocks. */
  lemma SumAtTheEnd(nthreads: nat, per: nat, s: State)
    requires Reaches(Next, Init(nthreads, per), s) && !exists t :: Next(s, t)
    ensures Joined(s) && s.gsum == Expected(nthreads * per) && s.mutex == 1
  {
    AlwaysConsistent(nthreads, per, s);
    forall a ensures !Enabled(s, a) {
      if Enabled(s, a) {
        assert Next(s, Apply(s, a));
      }
    }
    JoinedExactlyWhenStuck(s, per);
    JoinedSum(s, per);
    if Total(InSection, s.threads) > 0 {
      SomeoneInside(s);
    }
  }

  // ---- the program

  class Program {
    var threads: seq<Thread>
    var gsum: nat
    var mutex: nat

    ghost function View(): State
      reads this
    {
      State(threads, gsum, mutex)
    }

    constructor (nthreads: nat, per: nat)
      ensures View() == Init(nthreads, per)
    {
      threads := seq(nthreads, t requires 0 <= t => Thread(t * per, t * per + per, t * per, Top));
      gsum, mutex := 0, 1;
    }

    /** The next step of thread `t`. */
    method Step(t: nat) returns (ghost a: Action)
      requires t < |threads| && (threads[t].point == Top ==> threads[t].i < threads[t].end && mutex > 0)
      modifies this
      ensures a.t == t && Enabled(old(View()), a) && View() == Apply(old(View()), a)
      ensures var th := old(threads[t]);
              match th.point
              case Top => gsum == old(gsum) && mutex == old(mutex) - 1
                          && threads == old(threads)[t := Thread(th.start, th.end, th.i, Locked)]
              case Locked => gsum == old(gsum) && mutex == old(mutex)
                             && threads == old(threads)[t := Thread(th.start, th.end, th.i, Loaded(gsum))]
              case Loaded(value) => gsum == value + th.i && mutex == old(mutex)
                                    && threads == old(threads)[t := Thread(th.start, th.end, th.i, Stored)]
              case Stored => gsum == old(gsum) && mutex == old(mutex) + 1
                             && threads == old(threads)[t := Thread(th.start, th.end, th.i + 1, Top)]
    {
      var th := threads[t];
      match th.point
      case Top =>
        a := P(t);
        mutex := mutex - 1;
        threads := threads[t := th.(point := Locked)];
      case Locked =>
        a := Load(t);
        threads := threads[t := th.(point := Loaded(gsum))];
      case Loaded(value) =>
        a := Store(t);
        gsum := value + th.i;
        threads := threads[t := th.(point := Stored)];
      case Stored =>
        a := V(t);
        mutex := mutex + 1;
        threads := threads[t := th.(i := th.i + 1, point := Top)];
    }

    /** All threads under an arbitrary scheduler, until all are joined. */
    method Run(ghost per: nat)
      requires Consistent(View(), per)
      modifies this
      ensures |threads| == old(|threads|) && gsum == Expected(|threads| * per)
    {
      var runnable := exists t | 0 <= t < |threads| ::
        threads[t].point != Top || (threads[t].i < threads[t].end && mutex > 0);
      while runnable
        invariant Consistent(View(), per) && |threads| == old(|threads|)
        invariant runnable == exists t | 0 <= t < |threads| ::
          threads[t].point != Top || (threads[t].i < threads[t].end && mutex > 0)
        decreases Measure(View())
      {
        var t: nat :| t < |threads| && (threads[t].point != Top || (threads[t].i < threads[t].end && mutex > 0));
        ghost var before := View();
        ghost var a := Step(t);
        ConsistentKept(before, a, per);
        MeasureDrops(before, a, per);
        runnable := exists t | 0 <= t < |threads| ::
          threads[t].point != Top || (threads[t].i < threads[t].end && mutex > 0);
      }
      JoinedExactlyWhenStuck(View(), per);
      JoinedSum(View(), per);
    }
  }

  /** `main` of psum-mutex.c: whether it prints its error. */
  method PsumMutex(nthreads: nat, logNelems: nat) returns (error: bool)
    requires nthreads >= 1
    ensures error <==> Pow2(logNelems) % nthreads != 0 && logNelems > 0
  {
    var nelems := Pow2(logNelems);
    var per := nelems / nthreads;
    ConsistentInitially(nthreads, per);
    var program := new Program(nthreads, per);
    program.Run(per);
    error := program.gsum != (nelems * (nelems - 1)) / 2;
    CheckPassesExactly(nthreads, nelems);
  }
}
