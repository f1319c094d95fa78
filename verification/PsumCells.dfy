/** The sums whose threads need no lock, because each has a cell of `psum` to itself: in the array variant a
    thread adds each element to its cell, in the local variant it adds up a local variable and stores that once.
    Reads and writes of the cells are separate steps, interleaved in any way. */
module PsumCells {
  import opened Runs
  import opened Tallies
  import opened ParallelSum

  const MAXTHREADS: nat := 32

  datatype Variant = ArrayCells | LocalSums

  /** `local` is what the thread has in hand: the value it loaded from its cell, or its local sum. */
  datatype Thread = Thread(i: nat, end: nat, local: nat, loaded: bool, returned: bool)

  datatype State = State(variant: Variant, per: nat, threads: seq<Thread>, psum: seq<nat>)

  ghost function Init(variant: Variant, nthreads: nat, per: nat): State {
    State(variant, per, seq(nthreads, t requires 0 <= t => Thread(t * per, t * per + per, 0, false, false)),
          seq(nthreads, _ => 0))
  }

  datatype Action =
    | Load(t: nat)    // array: read the cell
    | Store(t: nat)   // array: write the cell, and on to the next element
    | Add(t: nat)     // local: add to the local sum, and on to the next element
    | Publish(t: nat) // local: after the loop, store the local sum
    | Return(t: nat)  // array: after the loop

  predicate Enabled(s: State, a: Action) {
    && a.t < |s.threads| && a.t < |s.psum|
    && var th := s.threads[a.t];
       && !th.returned
       && match a
          case Load(t) => s.variant == ArrayCells && th.i < th.end && !th.loaded
          case Store(t) => s.variant == ArrayCells && th.loaded
          case Return(t) => s.variant == ArrayCells && th.i >= th.end && !th.loaded
          case Add(t) => s.variant == LocalSums && th.i < th.end
          case Publish(t) => s.variant == LocalSums && th.i >= th.end
  }

  function Apply(s: State, a: Action): State
    requires Enabled(s, a)
  {
    var th := s.threads[a.t];
    match a
    case Load(t) => s.(threads := s.threads[t := th.(local := s.psum[t], loaded := true)])
    case Store(t) =>
      s.(psum := s.psum[t := th.local + th.i], threads := s.threads[t := th.(i := th.i + 1, loaded := false)])
    case Return(t) => s.(threads := s.threads[t := th.(returned := true)])
    case Add(t) => s.(threads := s.threads[t := th.(local := th.local + th.i, i := th.i + 1)])
    case Publish(t) => s.(psum := s.psum[t := th.local], threads := s.threads[t := th.(returned := true)])
  }

  ghost predicate Next(s: State, t: State) {
    exists a :: Enabled(s, a) && t == Apply(s, a)
  }

  /** What thread `t` has summed, wherever its variant keeps it. */
  ghost predicate CellOk(s: State, t: nat)
    requires t < |s.threads| && t < |s.psum|
  {
    var th, start := s.threads[t], t * s.per;
    && start <= th.i <= th.end == start + s.per
    && (th.returned ==> th.i == th.end && !th.loaded && s.psum[t] == RangeSum(start, th.i))
    && match s.variant
       case ArrayCells =>
         && s.psum[t] == RangeSum(start, th.i)
         && th.local <= s.psum[t]
         && (th.loaded ==> th.i < th.end && th.local == s.psum[t])
       case LocalSums =>
         && th.local == RangeSum(start, th.i)
         && (!th.returned ==> s.psum[t] == 0)
         && !th.loaded
  }

  ghost predicate Consistent(s: State) {
    && |s.threads| == |s.psum|
    && forall t | 0 <= t < |s.threads| :: CellOk(s, t)
  }

  lemma ConsistentKept(s: State, a: Action)
    requires Consistent(s) && Enabled(s, a)
    ensures Consistent(Apply(s, a))
  {
    var t := Apply(s, a);
    forall u | 0 <= u < |t.threads| ensures CellOk(t, u) {
      assert CellOk(s, u);
    }
  }

  function StepsLeft(th: Thread): nat {
    if th.returned || th.end < th.i then 0
    else 2 + 2 * (th.end - th.i) - if th.loaded then 1 else 0
  }

  lemma StepsLeftDrop(s: State, a: Action)
    requires Consistent(s) && Enabled(s, a)
    ensures Total(StepsLeft, Apply(s, a).threads) < Total(StepsLeft, s.threads)
  {
    assert CellOk(s, a.t);
    TotalUpdate(StepsLeft, s.threads, a.t, Apply(s, a).threads[a.t]);
  }

  ghost predicate Joined(s: State) {
    forall t | 0 <= t < |s.threads| :: s.threads[t].returned
  }

  lemma JoinedExactlyWhenStuck(s: State)
    requires Consistent(s)
    ensures (forall a :: !Enabled(s, a)) <==> Joined(s)
  {
    if forall a :: !Enabled(s, a) {
      forall t | 0 <= t < |s.threads| ensures s.threads[t].returned {
        assert CellOk(s, t);
        assert !Enabled(s, Load(t)) && !Enabled(s, Store(t)) && !Enabled(s, Return(t));
        assert !Enabled(s, Add(t)) && !Enabled(s, Publish(t));
      }
    }
  }

  /** Each cell of a finished run holds the sum of its thread's block. */
  ghost predicate CellsFilled(psum: seq<nat>, per: nat) {
    forall t | 0 <= t < |psum| :: psum[t] == RangeSum(t * per, t * per + per)
  }

  function CellTotal(psum: seq<nat>): nat {
    if psum == [] then 0 else CellTotal(psum[..|psum| - 1]) + psum[|psum| - 1]
  }

  lemma {:induction false} FilledTotal(psum: seq<nat>, per: nat)
    requires CellsFilled(psum, per)
    ensures CellTotal(psum) == BlockSums(|psum|, per)
  {
    if psum != [] {
      FilledTotal(psum[..|psum| - 1], per);
      assert (|psum| - 1) * per + per == |psum| * per;
    }
  }

  lemma FilledSum(psum: seq<nat>, per: nat)
    requires CellsFilled(psum, per)
    ensures CellTotal(psum) == Expected(|psum| * per)
  {
    FilledTotal(psum, per);
    BlockSumsTogether(|psum|, per);
    RangeSumExpected(|psum| * per);
  }

  lemma JoinedCellsFilled(s: State)
    requires Consistent(s) && Joined(s)
    ensures CellsFilled(s.psum, s.per)
  {
    forall t | 0 <= t < |s.psum| ensures s.psum[t] == RangeSum(t * s.per, t * s.per + s.per) {
      assert CellOk(s, t);
    }
  }

  // ---- whole runs

  ghost predicate SameShape(s: State, variant: Variant, nthreads: nat, per: nat) {
    Consistent(s) && s.variant == variant && s.per == per && |s.threads| == nthreads
  }

  lemma AlwaysConsistent(variant: Variant, nthreads: nat, per: nat, s: State)
    requires Reaches(Next, Init(variant, nthreads, per), s)
    ensures SameShape(s, variant, nthreads, per)
  {
    var inv := (u: State) => SameShape(u, variant, nthreads, per);
    forall s, t | inv(s) && Next(s, t) ensures inv(t) {
      var a :| Enabled(s, a) && t == Apply(s, a);
      ConsistentKept(s, a);
    }
    InvariantReachable(Next, inv, Init(variant, nthreads, per), s);
  }

  /** Both variants, under every interleaving that has run to its end, fill the cells alike. */
  lemma SumAtTheEnd(variant: Variant, nthreads: nat, per: nat, s: State)
    requires Reaches(Next, Init(variant, nthreads, per), s) && !exists t :: Next(s, t)
    ensures Joined(s) && CellsFilled(s.psum, per) && CellTotal(s.psum) == Expected(nthreads * per)
  {
    AlwaysConsistent(variant, nthreads, per, s);
    forall a ensures !Enabled(s, a) {
      if Enabled(s, a) {
        assert Next(s, Apply(s, a));
      }
    }
    JoinedExactlyWhenStuck(s);
    JoinedCellsFilled(s);
    FilledSum(s.psum, per);
  }

  /** Indices, block ends, cells and local sums stay below the number of elements and the final sum. */
  lemma BoundedByTotal(s: State, t: nat, nelems: nat)
    requires Consistent(s) && t < |s.threads| && |s.threads| * s.per <= nelems
    ensures s.threads[t].i <= s.threads[t].end <= nelems
    ensures s.psum[t] <= Expected(nelems) && s.threads[t].local <= Expected(nelems)
  {
    assert CellOk(s, t);
    BlockWithin(t, |s.threads|, s.per, nelems);
    RangeSumMonotone(0, t * s.per, s.threads[t].i, nelems);
    RangeSumExpected(nelems);
  }

  /** The partial results of the reduction stay below the final sum too. */
  lemma ReductionBounded(psum: seq<nat>, per: nat, k: nat, nelems: nat)
    requires CellsFilled(psum, per) && k <= |psum| && |psum| * per <= nelems
    ensures CellTotal(psum[..k]) <= Expected(nelems)
  {
    FilledTotal(psum[..k], per);
    BlockSumsTogether(k, per);
    if k > 0 {
      BlockWithin(k - 1, |psum|, per, nelems);
    }
    RangeSumMonotone(0, 0, k * per, nelems);
    RangeSumExpected(nelems);
  }

  ghost predicate IsLong(x: int) {
    -0x8000_0000_0000_0000 <= x < 0x8000_0000_0000_0000
  }

  /** What thread `t` computes with, and what it has in its cell. */
  ghost predicate FitsLong(s: State, t: nat) {
    && t < |s.threads| == |s.psum|
    && IsLong(t * s.per) && IsLong(s.threads[t].end) && IsLong(s.threads[t].i)
    && IsLong(s.psum[t]) && IsLong(s.threads[t].local)
  }

  lemma AllFits(s: State, nelems: nat)
    requires Consistent(s) && |s.threads| * s.per <= nelems && IsLong(nelems) && IsLong(Expected(nelems))
    ensures forall t | 0 <= t < |s.threads| :: FitsLong(s, t)
    ensures Joined(s) ==> forall k | 0 <= k <= |s.psum| :: IsLong(CellTotal(s.psum[..k]))
  {
    forall t | 0 <= t < |s.threads| ensures FitsLong(s, t) {
      BoundedByTotal(s, t, nelems);
      assert CellOk(s, t);
    }
    if Joined(s) {
      JoinedCellsFilled(s);
      forall k | 0 <= k <= |s.psum| ensures IsLong(CellTotal(s.psum[..k])) {
        ReductionBounded(s.psum, s.per, k, nelems);
      }
    }
  }

  /** For accepted arguments nothing that the program computes leaves the range of a signed 64-bit long: no start, end
      or index of a block, no cell and no local sum in any reachable state, no partial result of the reduction once the
      threads are joined, and not the product in the final check. */
  lemma NoOverflow(variant: Variant, nthreads: nat, logNelems: nat, s: State)
    requires 1 <= nthreads && Accepted(nthreads, logNelems)
    requires Reaches(Next, Init(variant, nthreads, Pow2(logNelems) / nthreads), s)
    ensures |s.threads| == |s.psum| == nthreads && forall t | 0 <= t < nthreads :: FitsLong(s, t)
    ensures Joined(s) ==> forall k | 0 <= k <= |s.psum| :: IsLong(CellTotal(s.psum[..k]))
    ensures IsLong(Pow2(logNelems)) && IsLong(Pow2(logNelems) * (Pow2(logNelems) - 1))
  {
    var n := Pow2(logNelems);
    AlwaysConsistent(variant, nthreads, n / nthreads, s);
    WholeBlocks(n, nthreads);
    FitsInLong(logNelems);
    ExpectedFits(n);
    AllFits(s, n);
  }

  lemma ExpectedFits(n: nat)
    requires n >= 1
    ensures 0 <= Expected(n) <= n * (n - 1) <= n * n && n <= n * n
  {
    assert n * (n - 1) == n * n - n;
    assert 0 <= n * (n - 1);
  }

  // ---- the programs

  class Program {
    const variant: Variant
    const per: nat
    const psum: array<nat>
    var threads: seq<Thread>

    ghost predicate Valid()
      reads this
    {
      |threads| <= psum.Length
    }

    ghost function View(): State
      requires Valid()
      reads this, psum
    {
      State(variant, per, threads, psum[..|threads|])
    }

    constructor (variant: Variant, nthreads: nat, per: nat)
      requires nthreads <= MAXTHREADS
      ensures Valid() && fresh(psum) && View() == Init(variant, nthreads, per)
    {
      this.variant, this.per := variant, per;
      psum := new nat[MAXTHREADS](_ => 0);
      threads := seq(nthreads, t requires 0 <= t => Thread(t * per, t * per + per, 0, false, false));
    }

    /** The next step of thread `t`, in the routine of its variant. */
    method Step(t: nat) returns (ghost a: Action)
      requires Valid() && t < |threads| && !threads[t].returned
      requires variant == LocalSums ==> !threads[t].loaded
      modifies this, psum
      ensures Valid() && a.t == t && Enabled(old(View()), a) && View() == Apply(old(View()), a)
      ensures forall u | 0 <= u < psum.Length && u != t :: psum[u] == old(psum[u])
      ensures var th := old(threads[t]);
              match variant
              case ArrayCells =>
                if th.loaded then
                  psum[t] == th.local + th.i
                  && threads == old(threads)[t := Thread(th.i + 1, th.end, th.local, false, false)]
                else
                  psum[t] == old(psum[t])
                  && threads == old(threads)[t := if th.i < th.end then Thread(th.i, th.end, psum[t], true, false)
                                                  else Thread(th.i, th.end, th.local, false, true)]
              case LocalSums =>
                if th.i < th.end then
                  psum[t] == old(psum[t])
                  && threads == old(threads)[t := Thread(th.i + 1, th.end, th.local + th.i, th.loaded, false)]
                else
                  psum[t] == th.local
                  && threads == old(threads)[t := Thread(th.i, th.end, th.local, th.loaded, true)]
    {
      var th := threads[t];
      match variant
      case ArrayCells =>
        if th.loaded {
          a := Store(t);
          psum[t] := th.local + th.i;
          threads := threads[t := th.(i := th.i + 1, loaded := false)];
        } else if th.i < th.end {
          a := Load(t);
          threads := threads[t := th.(local := psum[t], loaded := true)];
        } else {
          a := Return(t);
          threads := threads[t := th.(returned := true)];
        }
      case LocalSums =>
        if th.i < th.end {
          a := Add(t);
          threads := threads[t := th.(local := th.local + th.i, i := th.i + 1)];
        } else {
          a := Publish(t);
          psum[t] := th.local;
          threads := threads[t := th.(returned := true)];
        }
    }

    /** All threads under an arbitrary scheduler, until all are joined. */
    method Run()
      requires Valid() && Consistent(View())
      modifies this, psum
      ensures Valid() && |threads| == old(|threads|) && CellsFilled(psum[..|threads|], per)
    {
      while exists t | 0 <= t < |threads| :: !threads[t].returned
        invariant Valid() && Consistent(View()) && |threads| == old(|threads|)
        decreases Total(StepsLeft, threads)
      {
        var t: nat :| t < |threads| && !threads[t].returned;
        ghost var before := View();
        assert CellOk(before, t);
        ghost var a := Step(t);
        ConsistentKept(before, a);
        StepsLeftDrop(before, a);
      }
      forall t | 0 <= t < |threads| ensures psum[t] == RangeSum(t * per, t * per + per) {
        assert CellOk(View(), t);
      }
    }

    /** The loop of `main` that adds up the cells. */
    method Reduce() returns (result: nat)
      requires Valid()
      ensures result == CellTotal(psum[..|threads|])
    {
      result := 0;
      for i := 0 to |threads|
        invariant result == CellTotal(psum[..i])
      {
        result := result + psum[i];
        assert psum[..i + 1][..i] == psum[..i];
      }
    }
  }

  /** What `main` does: exit at the guard, or print an error at the final check, or neither. */
  datatype Outcome = InvalidArguments | WrongResult | Silent

  /** The threads and the reduction of `main`. */
  method Summed(variant: Variant, nthreads: nat, per: nat) returns (result: nat)
    requires nthreads <= MAXTHREADS
    ensures result == Expected(nthreads * per)
  {
    var program := new Program(variant, nthreads, per);
    program.Run();
    result := program.Reduce();
    FilledSum(program.psum[..nthreads], per);
  }

  /** `main` of psum-array.c and psum-local.c: for arguments that pass the guard the final check never fails. */
  method Psum(variant: Variant, nthreads: nat, logNelems: nat) returns (outcome: Outcome)
    requires 1 <= nthreads <= MAXTHREADS
    ensures outcome != WrongResult
    ensures outcome == Silent <==> logNelems <= 31 && exists j :: 0 <= j <= logNelems && nthreads == Pow2(j)
  {
    AcceptedExactly(nthreads, logNelems);
    var nelems := Pow2(logNelems);
    if nelems % nthreads != 0 || logNelems > 31 {
      return InvalidArguments;
    }
    var result := Summed(variant, nthreads, nelems / nthreads);
    WholeBlocks(nelems, nthreads);
    outcome := if result != (nelems * (nelems - 1)) / 2 then WrongResult else Silent;
  }
}
