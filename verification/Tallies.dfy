/** Multisets and sums collected from the elements of a sequence, and how a change of one element shows. */
module Tallies {

  function Tally<T, U(==)>(f: T -> multiset<U>, items: seq<T>): multiset<U> {
    if items == [] then multiset{} else Tally(f, items[..|items| - 1]) + f(items[|items| - 1])
  }

  lemma {:induction false} TallyUpdate<T, U>(f: T -> multiset<U>, items: seq<T>, i: nat, x: T, u: U)
    requires i < |items|
    ensures Tally(f, items[i := x])[u] + f(items[i])[u] == Tally(f, items)[u] + f(x)[u]
  {
    var last := |items| - 1;
    if i < last {
      TallyUpdate(f, items[..last], i, x, u);
      assert items[i := x][..last] == items[..last][i := x];
    } else {
      assert items[i := x][..last] == items[..last];
    }
  }

  lemma TallyAppend<T, U>(f: T -> multiset<U>, items: seq<T>, x: T, u: U)
    ensures Tally(f, items + [x])[u] == Tally(f, items)[u] + f(x)[u]
  {
    assert (items + [x])[..|items|] == items;
  }

  /** An element's share is part of the tally. */
  lemma {:induction false} TallyIncludes<T, U>(f: T -> multiset<U>, items: seq<T>, i: nat)
    requires i < |items|
    ensures f(items[i]) <= Tally(f, items)
  {
    if i < |items| - 1 {
      TallyIncludes(f, items[..|items| - 1], i);
    }
  }

  /** What is in a tally comes from some element. */
  lemma {:induction false} TallyWitness<T, U>(f: T -> multiset<U>, items: seq<T>, u: U)
    requires u in Tally(f, items)
    ensures exists i :: 0 <= i < |items| && u in f(items[i])
  {
    var last := |items| - 1;
    if u !in f(items[last]) {
      TallyWitness(f, items[..last], u);
      var i :| 0 <= i < last && u in f(items[..last][i]);
      assert u in f(items[i]);
    }
  }

  /** Taking the first element of a queue. */
  lemma CountAfterPop<T>(queue: seq<T>, x: T)
    requires queue != []
    ensures multiset(queue)[x] == multiset(queue[1..])[x] + if queue[0] == x then 1 else 0
  {
    assert queue == [queue[0]] + queue[1..];
  }

  function Total<T>(f: T -> nat, items: seq<T>): nat {
    if items == [] then 0 else Total(f, items[..|items| - 1]) + f(items[|items| - 1])
  }

  lemma {:induction false} TotalUpdate<T>(f: T -> nat, items: seq<T>, i: nat, x: T)
    requires i < |items|
    ensures Total(f, items[i := x]) + f(items[i]) == Total(f, items) + f(x)
  {
    var last := |items| - 1;
    if i < last {
      TotalUpdate(f, items[..last], i, x);
      assert items[i := x][..last] == items[..last][i := x];
    } else {
      assert items[i := x][..last] == items[..last];
    }
  }

  lemma TotalAppend<T>(f: T -> nat, items: seq<T>, x: T)
    ensures Total(f, items + [x]) == Total(f, items) + f(x)
  {
    assert (items + [x])[..|items|] == items;
  }

  /** Two elements' shares are part of the total. */
  lemma {:induction false} TotalIncludesTwo<T>(f: T -> nat, items: seq<T>, i: nat, j: nat)
    requires i < j < |items|
    ensures f(items[i]) + f(items[j]) <= Total(f, items)
  {
    if j < |items| - 1 {
      TotalIncludesTwo(f, items[..|items| - 1], i, j);
    } else {
      TotalIncludes(f, items[..|items| - 1], i);
    }
  }

  lemma {:induction false} TotalIncludes<T>(f: T -> nat, items: seq<T>, i: nat)
    requires i < |items|
    ensures f(items[i]) <= Total(f, items)
  {
    if i < |items| - 1 {
      TotalIncludes(f, items[..|items| - 1], i);
    }
  }

  /** A positive total has a positive share. */
  lemma {:induction false} TotalWitness<T>(f: T -> nat, items: seq<T>)
    requires Total(f, items) > 0
    ensures exists i :: 0 <= i < |items| && f(items[i]) > 0
  {
    var last := |items| - 1;
    if f(items[last]) == 0 {
      TotalWitness(f, items[..last]);
      var i :| 0 <= i < last && f(items[..last][i]) > 0;
      assert f(items[i]) > 0;
    }
  }
}
