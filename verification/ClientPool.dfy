/** The pool of connected descriptors of the select() echo server: a slot array, the set of descriptors to watch,
    two high-water marks, and the countdown of ready descriptors that ends a round early.

    As in the code, the `else` of check_client belongs to the readiness test: a descriptor before the last ready
    one that is not itself ready is closed, and an empty slot there makes `Close(-1)` end the run. */
module ClientPool {

  // ---- slots

  /** The client descriptors in the slots from `i` on. */
  function Clients(slots: seq<int>, i: nat): (fds: set<int>)
    requires i <= |slots|
    ensures forall fd | fd in fds :: fd >= 0
    decreases |slots| - i
  {
    if i == |slots| then {} else Clients(slots, i + 1) + if slots[i] >= 0 then {slots[i]} else {}
  }

  /** The ready ones among them. */
  function ReadyFrom(slots: seq<int>, ready: set<int>, i: nat): set<int>
    requires i <= |slots|
  {
    Clients(slots, i) * ready
  }

  lemma {:induction false} ClientsMember(slots: seq<int>, i: nat, fd: int)
    requires i <= |slots|
    ensures fd in Clients(slots, i) <==> fd >= 0 && fd in slots[i..]
    decreases |slots| - i
  {
    if i < |slots| {
      assert slots[i..] == [slots[i]] + slots[i + 1..];
      ClientsMember(slots, i + 1, fd);
    }
  }

  ghost predicate DistinctClients(slots: seq<int>) {
    forall i, j | 0 <= i < j < |slots| :: slots[i] >= 0 ==> slots[i] != slots[j]
  }

  /** A client descriptor is in one slot only. */
  lemma ClientsApart(slots: seq<int>, i: nat)
    requires i < |slots| && DistinctClients(slots)
    ensures slots[i] >= 0 ==> slots[i] !in Clients(slots, i + 1)
  {
    ClientsMember(slots, i + 1, slots[i]);
  }

  lemma {:induction false} ClientsShrink(slots: seq<int>, i: nat, j: nat)
    requires i <= j <= |slots|
    ensures Clients(slots, j) <= Clients(slots, i)
    decreases j - i
  {
    if i < j {
      ClientsShrink(slots, i + 1, j);
    }
  }

  /** Only slots from `i` on matter. */
  lemma {:induction false} ClientsSame(slots: seq<int>, others: seq<int>, i: nat)
    requires i <= |slots| == |others| && slots[i..] == others[i..]
    ensures Clients(slots, i) == Clients(others, i)
    decreases |slots| - i
  {
    if i < |slots| {
      assert slots[i] == slots[i..][0] == others[i..][0] == others[i];
      assert slots[i + 1..] == slots[i..][1..] == others[i..][1..] == others[i + 1..];
      ClientsSame(slots, others, i + 1);
    }
  }

  /** Filling a free slot, and emptying a slot. */
  lemma {:induction false} ClientsUpdate(slots: seq<int>, k: nat, fd: int, i: nat)
    requires i <= k < |slots| && DistinctClients(slots) && (slots[k] < 0 || fd < 0)
    ensures Clients(slots[k := fd], i) == Clients(slots, i) - {slots[k]} + if fd >= 0 then {fd} else {}
    decreases k - i
  {
    if i < k {
      ClientsUpdate(slots, k, fd, i + 1);
      assert slots[i] >= 0 ==> slots[i] != slots[k];
    } else {
      ClientsSame(slots, slots[k := fd], k + 1);
      ClientsApart(slots, k);
    }
  }

  /** Distinct numbers below `n` are at most `n`. */
  lemma {:induction false} Pigeonhole(s: set<int>, n: nat)
    requires forall x | x in s :: 0 <= x < n
    ensures |s| <= n
  {
    if n == 0 {
      assert forall x :: x !in s;
    } else {
      Pigeonhole(s - {n - 1}, n - 1);
    }
  }

  lemma {:induction false} ClientsCount(slots: seq<int>, i: nat)
    requires i <= |slots| && DistinctClients(slots) && forall k | 0 <= k < |slots| :: slots[k] >= 0
    ensures |Clients(slots, i)| == |slots| - i
    decreases |slots| - i
  {
    if i < |slots| {
      ClientsCount(slots, i + 1);
      ClientsApart(slots, i);
    }
  }

  /** If descriptors are below the number of slots, and one that is not a client's exists, a slot is free. */
  lemma FreeSlot(slots: seq<int>, other: int)
    requires DistinctClients(slots) && 0 <= other < |slots| && other !in Clients(slots, 0)
    requires forall fd | fd in Clients(slots, 0) :: fd < |slots|
    ensures exists i :: 0 <= i < |slots| && slots[i] < 0
  {
    if forall i | 0 <= i < |slots| :: slots[i] >= 0 {
      ClientsCount(slots, 0);
      Pigeonhole(Clients(slots, 0) + {other}, |slots|);
    }
  }

  lemma DistinctFill(slots: seq<int>, k: nat, fd: int)
    requires k < |slots| && DistinctClients(slots) && fd !in Clients(slots, 0)
    ensures fd >= 0 ==> DistinctClients(slots[k := fd])
  {
    ClientsMember(slots, 0, fd);
    assert slots[0..] == slots;
  }

  // ---- the countdown

  ghost predicate NoRepeats(fds: seq<int>) {
    forall i, j | 0 <= i < j < |fds| :: fds[i] != fds[j]
  }

  function Fds(fds: seq<int>): set<int> {
    set fd | fd in fds
  }

  /** Before slot `i`: as many are still expected as ready clients are left, and the others have been handled, each
      once. */
  ghost predicate CountedDown(slots: seq<int>, ready: set<int>, i: nat, handled: seq<int>, nready: int)
    requires i <= |slots|
  {
    && nready == |ReadyFrom(slots, ready, i)|
    && Fds(handled) == ReadyFrom(slots, ready, 0) - ReadyFrom(slots, ready, i)
    && NoRepeats(handled)
  }

  lemma CountedDownNext(slots: seq<int>, ready: set<int>, i: nat, handled: seq<int>, nready: int)
    requires i < |slots| && DistinctClients(slots) && CountedDown(slots, ready, i, handled, nready)
    ensures if slots[i] >= 0 && slots[i] in ready
            then CountedDown(slots, ready, i + 1, handled + [slots[i]], nready - 1)
            else CountedDown(slots, ready, i + 1, handled, nready)
  {
    ClientsApart(slots, i);
    ClientsShrink(slots, 0, i);
    var fd, all := slots[i], ReadyFrom(slots, ready, 0);
    var left, next := ReadyFrom(slots, ready, i), ReadyFrom(slots, ready, i + 1);
    if fd >= 0 && fd in ready {
      assert left == next + {fd};
      Served(all, left, next, handled, fd);
    } else {
      assert left == next;
    }
  }

  lemma Served(all: set<int>, left: set<int>, next: set<int>, handled: seq<int>, fd: int)
    requires left == next + {fd} && fd !in next && left <= all
    requires Fds(handled) == all - left && NoRepeats(handled)
    ensures Fds(handled + [fd]) == all - next && NoRepeats(handled + [fd]) && |next| == |left| - 1
  {
    assert fd !in Fds(handled);
    assert Fds(handled + [fd]) == Fds(handled) + {fd};
  }

  /** An empty slot that the loop comes to before it has seen every ready client. */
  ghost predicate HoleBeforeReady(slots: seq<int>, ready: set<int>) {
    exists i :: 0 <= i < |slots| && slots[i] < 0 && ReadyFrom(slots, ready, i) != {}
  }

  /** The first slot without a client, or the number of slots. */
  function FirstFree(slots: seq<int>): (k: nat)
    ensures k <= |slots|
    ensures k < |slots| ==> slots[k] < 0
    ensures forall i | 0 <= i < k :: slots[i] >= 0
  {
    if slots == [] || slots[0] < 0 then 0 else 1 + FirstFree(slots[1..])
  }

  ghost predicate NoHoleBelow(slots: seq<int>, i: nat)
    requires i <= |slots|
  {
    forall k | 0 <= k < i :: slots[k] >= 0
  }

  lemma NoHoleNext(slots: seq<int>, i: nat)
    requires i < |slots| && NoHoleBelow(slots, i)
    ensures slots[i] >= 0 ==> NoHoleBelow(slots, i + 1)
  {
  }

  /** What a whole scan makes of the slots: clients that are not ready are closed if a ready one follows, the others
      keep their slots. */
  ghost function Scanned(slots: seq<int>, ready: set<int>): seq<int> {
    seq(|slots|, k requires 0 <= k < |slots| =>
      if slots[k] !in ready && ReadyFrom(slots, ready, k) != {} then -1 else slots[k])
  }

  /** A scan of `slots` that has come to slot `i` and has made `now` of them. */
  ghost predicate Scan(slots: seq<int>, now: seq<int>, ready: set<int>, i: nat, handled: seq<int>, nready: int) {
    && i <= |slots| == |now|
    && now[i..] == slots[i..]
    && now[..i] == Scanned(slots, ready)[..i]
    && NoHoleBelow(slots, i)
    && CountedDown(slots, ready, i, handled, nready)
  }

  lemma ScannedNext(slots: seq<int>, now: seq<int>, after: seq<int>, ready: set<int>, i: nat)
    requires i < |slots| == |now| && now[i..] == slots[i..] && now[..i] == Scanned(slots, ready)[..i]
    requires ReadyFrom(slots, ready, i) != {}
    requires after == if slots[i] in ready then now else now[i := -1]
    ensures after[..i + 1] == Scanned(slots, ready)[..i + 1] && after[i + 1..] == slots[i + 1..]
  {
    assert now[i] == now[i..][0] == slots[i];
    assert after[..i] == now[..i];
    assert after[i] == Scanned(slots, ready)[i];
    assert after[i + 1..] == now[i..][1..];
  }

  lemma ScanNext(slots: seq<int>, now: seq<int>, ready: set<int>, i: nat, handled: seq<int>, nready: int)
    requires Scan(slots, now, ready, i, handled, nready) && i < |slots| && nready > 0 && DistinctClients(slots)
    ensures now[i] == slots[i]
    ensures now[i] < 0 ==> HoleBeforeReady(slots, ready)
    ensures now[i] >= 0 && now[i] in ready ==> Scan(slots, now, ready, i + 1, handled + [now[i]], nready - 1)
    ensures now[i] >= 0 && now[i] !in ready ==> Scan(slots, now[i := -1], ready, i + 1, handled, nready)
  {
    assert now[i] == now[i..][0] == slots[i];
    assert ReadyFrom(slots, ready, i) != {};
    CountedDownNext(slots, ready, i, handled, nready);
    NoHoleNext(slots, i);
    ScannedNext(slots, now, if slots[i] in ready then now else now[i := -1], ready, i);
  }

  /** A scan that an empty slot ends: the slots before it are as after a whole scan, the others as they were, and the
      ready clients before it have been handled, each once. */
  ghost predicate CutOff(slots: seq<int>, now: seq<int>, ready: set<int>, handled: seq<int>) {
    var k := FirstFree(slots);
    && HoleBeforeReady(slots, ready) && |now| == |slots|
    && now[..k] == Scanned(slots, ready)[..k] && now[k..] == slots[k..]
    && Fds(handled) == ReadyFrom(slots, ready, 0) - ReadyFrom(slots, ready, k) && NoRepeats(handled)
  }

  lemma ScanCutOff(slots: seq<int>, now: seq<int>, ready: set<int>, i: nat, handled: seq<int>, nready: int)
    requires Scan(slots, now, ready, i, handled, nready) && i < |slots| && nready > 0 && now[i] < 0
    ensures CutOff(slots, now, ready, handled)
  {
    assert now[i] == now[i..][0] == slots[i];
    assert i == FirstFree(slots);
    assert ReadyFrom(slots, ready, i) != {};
  }

  lemma {:induction false} NoClientsAbove(slots: seq<int>, i: nat)
    requires i <= |slots| && forall k | i <= k < |slots| :: slots[k] < 0
    ensures Clients(slots, i) == {}
    decreases |slots| - i
  {
    if i < |slots| {
      NoClientsAbove(slots, i + 1);
    }
  }

  /** When the scan ends, above the high-water mark or with the countdown at zero, nothing ready is left. */
  lemma ScanDone(slots: seq<int>, now: seq<int>, ready: set<int>, i: nat, maxi: int, handled: seq<int>, nready: int)
    requires Scan(slots, now, ready, i, handled, nready) && (i > maxi || nready <= 0)
    requires -1 <= maxi && forall k | maxi < k < |now| :: now[k] < 0
    ensures nready == 0 && Fds(handled) == ReadyFrom(slots, ready, 0) && !HoleBeforeReady(slots, ready)
    ensures now == Scanned(slots, ready)
  {
    if i > maxi {
      ClientsSame(slots, now, i);
      NoClientsAbove(now, i);
    }
    assert ReadyFrom(slots, ready, i) == {};
    forall k | i <= k < |slots| ensures ReadyFrom(slots, ready, k) == {} && now[k] == slots[k] {
      ClientsShrink(slots, i, k);
      assert now[k] == now[i..][k - i] == slots[i..][k - i];
    }
    forall k | 0 <= k < |slots| ensures now[k] == Scanned(slots, ready)[k] {
      if k < i {
        assert now[k] == now[..i][k] == Scanned(slots, ready)[..i][k];
      }
    }
  }

  /** The listening descriptor aside, the ready descriptors are the ready clients. */
  lemma ReadyClients(slots: seq<int>, listenfd: int, ready: set<int>)
    requires listenfd !in Clients(slots, 0) && ready <= Clients(slots, 0) + {listenfd}
    ensures ReadyFrom(slots, ready, 0) == ready - {listenfd}
    ensures |ready| == |ReadyFrom(slots, ready, 0)| + if listenfd in ready then 1 else 0
  {
    assert ReadyFrom(slots, ready, 0) == ready - {listenfd};
    if listenfd !in ready {
      assert ready - {listenfd} == ready;
    }
  }

  /** Between two states of the watched set only descriptors that are not ready have been dropped. */
  ghost predicate DropsUnready(before: set<int>, after: set<int>, ready: set<int>) {
    before * ready <= after <= before
  }

  lemma DropsUnreadyTwice(before: set<int>, between: set<int>, after: set<int>, ready: set<int>)
    requires DropsUnready(before, between, ready) && DropsUnready(between, after, ready)
    ensures DropsUnready(before, after, ready)
  {
  }

  // ---- rounds

  const FD_SETSIZE: nat := 1024

  function Filled(slots: seq<int>, fd: int): seq<int> {
    if FirstFree(slots) < |slots| then slots[FirstFree(slots) := fd] else slots
  }

  /** What comes from outside in a round: the descriptors with something to read, the listening one among them if a
      connection is waiting, and the descriptor that `Accept` returns for it. */
  datatype Events = Events(input: set<int>, connfd: int)

  ghost function Watched(slots: seq<int>, listenfd: int): set<int> {
    Clients(slots, 0) + {listenfd}
  }

  /** Select reports the watched descriptors that have something to read. */
  ghost function Ready(slots: seq<int>, listenfd: int, e: Events): set<int> {
    e.input * Watched(slots, listenfd)
  }

  /** `Accept` returns a descriptor that is not in use. */
  ghost predicate Legal(slots: seq<int>, listenfd: int, e: Events) {
    listenfd in e.input ==> 0 < e.connfd < FD_SETSIZE && e.connfd !in Watched(slots, listenfd)
  }

  ghost function AfterAccept(slots: seq<int>, listenfd: int, e: Events): seq<int> {
    if listenfd in e.input then Filled(slots, e.connfd) else slots
  }

  /** The round ends the run. */
  ghost predicate Exits(slots: seq<int>, listenfd: int, e: Events) {
    HoleBeforeReady(AfterAccept(slots, listenfd, e), Ready(slots, listenfd, e))
  }

  ghost function AfterRound(slots: seq<int>, listenfd: int, e: Events): seq<int> {
    Scanned(AfterAccept(slots, listenfd, e), Ready(slots, listenfd, e))
  }

  /** The slots before round `k`. */
  ghost function Before(slots: seq<int>, listenfd: int, events: seq<Events>, k: nat): seq<int>
    requires k <= |events|
  {
    if k == 0 then slots else AfterRound(Before(slots, listenfd, events, k - 1), listenfd, events[k - 1])
  }

  ghost predicate ExitsAt(slots: seq<int>, listenfd: int, events: seq<Events>, k: nat) {
    k < |events| && Exits(Before(slots, listenfd, events, k), listenfd, events[k])
  }

  /** In round `k` just the clients that are ready are handled, each once. */
  ghost predicate HandlesAt(slots: seq<int>, listenfd: int, events: seq<Events>, k: nat, handled: seq<int>) {
    && k < |events| && NoRepeats(handled)
    && Fds(handled) == Ready(Before(slots, listenfd, events, k), listenfd, events[k]) - {listenfd}
  }

  /** Round `k` ends the run; it leaves these slots and has handled these clients. */
  ghost predicate EndsAt(
    slots: seq<int>, listenfd: int, events: seq<Events>, k: nat, now: seq<int>, handled: seq<int>)
  {
    && ExitsAt(slots, listenfd, events, k)
    && var before := Before(slots, listenfd, events, k);
       CutOff(AfterAccept(before, listenfd, events[k]), now, Ready(before, listenfd, events[k]), handled)
  }

  /** The run gets to round `k`. */
  ghost predicate GetsTo(slots: seq<int>, listenfd: int, events: seq<Events>, k: nat) {
    k <= |events| && forall j | 0 <= j < k :: !ExitsAt(slots, listenfd, events, j)
  }

  ghost predicate LegalRun(slots: seq<int>, listenfd: int, events: seq<Events>) {
    forall k | 0 <= k < |events| && GetsTo(slots, listenfd, events, k) ::
      Legal(Before(slots, listenfd, events, k), listenfd, events[k])
  }

  /** The run gets through these rounds, and in each just the clients that are ready are handled. */
  ghost predicate Run(slots: seq<int>, listenfd: int, events: seq<Events>, rounds: seq<seq<int>>) {
    && GetsTo(slots, listenfd, events, |rounds|)
    && forall k | 0 <= k < |rounds| :: HandlesAt(slots, listenfd, events, k, rounds[k])
  }

  lemma GetsOn(slots: seq<int>, listenfd: int, events: seq<Events>, k: nat)
    requires GetsTo(slots, listenfd, events, k) && k < |events| && !ExitsAt(slots, listenfd, events, k)
    ensures GetsTo(slots, listenfd, events, k + 1)
  {
  }

  lemma RunOn(slots: seq<int>, listenfd: int, events: seq<Events>, rounds: seq<seq<int>>, handled: seq<int>)
    requires Run(slots, listenfd, events, rounds) && |rounds| < |events|
    requires !ExitsAt(slots, listenfd, events, |rounds|) && HandlesAt(slots, listenfd, events, |rounds|, handled)
    ensures Run(slots, listenfd, events, rounds + [handled])
  {
    GetsOn(slots, listenfd, events, |rounds|);
    var more := rounds + [handled];
    forall k | 0 <= k < |more| ensures HandlesAt(slots, listenfd, events, k, more[k]) {
      if k < |rounds| {
        assert HandlesAt(slots, listenfd, events, k, rounds[k]);
      }
    }
  }

  lemma BeforeNext(slots: seq<int>, listenfd: int, events: seq<Events>, k: nat)
    requires k < |events|
    ensures Before(slots, listenfd, events, k + 1)
         == AfterRound(Before(slots, listenfd, events, k), listenfd, events[k])
  {
  }

  /** The round closes a client: one that is not ready comes before one that is. */
  ghost predicate Closes(slots: seq<int>, listenfd: int, e: Events) {
    var after, ready := AfterAccept(slots, listenfd, e), Ready(slots, listenfd, e);
    exists i :: 0 <= i < |after| && after[i] >= 0 && after[i] !in ready && ReadyFrom(after, ready, i) != {}
  }

  ghost predicate ClosesAt(slots: seq<int>, listenfd: int, events: seq<Events>, k: nat) {
    k < |events| && Closes(Before(slots, listenfd, events, k), listenfd, events[k])
  }

  /** No empty slot comes before a client. */
  ghost predicate Packed(slots: seq<int>) {
    forall i, j | 0 <= i < j < |slots| :: slots[i] < 0 ==> slots[j] < 0
  }

  lemma PackedHasNoHole(slots: seq<int>, ready: set<int>)
    requires Packed(slots)
    ensures !HoleBeforeReady(slots, ready)
  {
    forall i | 0 <= i < |slots| && slots[i] < 0 ensures ReadyFrom(slots, ready, i) == {} {
      NoClientsAbove(slots, i);
    }
  }

  lemma PackedRound(slots: seq<int>, listenfd: int, e: Events)
    requires Packed(slots)
    ensures !Exits(slots, listenfd, e)
    ensures !Closes(slots, listenfd, e) ==> Packed(AfterRound(slots, listenfd, e))
  {
    var after, ready := AfterAccept(slots, listenfd, e), Ready(slots, listenfd, e);
    assert Packed(after);
    PackedHasNoHole(after, ready);
    if !Closes(slots, listenfd, e) {
      forall k | 0 <= k < |after| ensures Scanned(after, ready)[k] == after[k] {
        assert after[k] < 0 ==> ReadyFrom(after, ready, k) == {};
      }
    }
  }

  lemma {:induction false} PackedUnlessClosed(slots: seq<int>, listenfd: int, events: seq<Events>, k: nat)
    requires Packed(slots) && k <= |events| && forall j | 0 <= j < k :: !ClosesAt(slots, listenfd, events, j)
    ensures Packed(Before(slots, listenfd, events, k))
  {
    if k > 0 {
      PackedUnlessClosed(slots, listenfd, events, k - 1);
      assert !ClosesAt(slots, listenfd, events, k - 1);
      PackedRound(Before(slots, listenfd, events, k - 1), listenfd, events[k - 1]);
    }
  }

  /** `Close(-1)` ends a run only after a round that closed a client because it was not ready. */
  lemma ExitsOnlyAfterClosing(slots: seq<int>, listenfd: int, events: seq<Events>, k: nat)
    requires Packed(slots) && ExitsAt(slots, listenfd, events, k)
    ensures exists j :: 0 <= j < k && ClosesAt(slots, listenfd, events, j)
  {
    if forall j | 0 <= j < k :: !ClosesAt(slots, listenfd, events, j) {
      PackedUnlessClosed(slots, listenfd, events, k);
      PackedRound(Before(slots, listenfd, events, k), listenfd, events[k]);
    }
  }

  lemma NothingReady(slots: seq<int>, ready: set<int>)
    requires Clients(slots, 0) * ready == {}
    ensures Scanned(slots, ready) == slots && !HoleBeforeReady(slots, ready)
  {
    forall i | 0 <= i < |slots| ensures ReadyFrom(slots, ready, i) == {} {
      ClientsShrink(slots, 0, i);
    }
  }

  /** A round with a new connection alone. */
  lemma AcceptRound(slots: seq<int>, listenfd: int, connfd: int, k: nat)
    requires DistinctClients(slots) && k == FirstFree(slots) < |slots|
    requires listenfd !in Clients(slots, 0) && 0 < connfd < FD_SETSIZE && connfd !in Clients(slots, 0) + {listenfd}
    ensures var e, after := Events({listenfd}, connfd), slots[k := connfd];
            && Legal(slots, listenfd, e) && !Exits(slots, listenfd, e) && AfterRound(slots, listenfd, e) == after
            && Clients(after, 0) == Clients(slots, 0) + {connfd} && DistinctClients(after)
  {
    var e := Events({listenfd}, connfd);
    ClientsUpdate(slots, k, connfd, 0);
    DistinctFill(slots, k, connfd);
    assert Ready(slots, listenfd, e) == {listenfd};
    NothingReady(slots[k := connfd], {listenfd});
  }

  /** A round in which only the client in slot 1 is ready, and one is in slot 0: that one is closed. */
  lemma SecondReadyRound(slots: seq<int>, listenfd: int, a: int, b: int)
    requires |slots| >= 2 && slots[0] == a >= 0 && slots[1] == b >= 0 && a != b && listenfd != b
    requires forall k | 2 <= k < |slots| :: slots[k] < 0
    ensures var e := Events({b}, 0);
            && Legal(slots, listenfd, e) && !Exits(slots, listenfd, e)
            && AfterRound(slots, listenfd, e) == slots[0 := -1]
  {
    var e := Events({b}, 0);
    NoClientsAbove(slots, 2);
    assert Clients(slots, 1) == {b} && Clients(slots, 0) == {a, b};
    assert Ready(slots, listenfd, e) == {b};
    forall k | 2 <= k < |slots| ensures ReadyFrom(slots, {b}, k) == {} {
      ClientsShrink(slots, 2, k);
    }
  }

  lemma HoleRound(slots: seq<int>, listenfd: int, b: int)
    requires |slots| >= 2 && slots[0] < 0 && slots[1] == b >= 0 && listenfd != b
    ensures var e := Events({b}, 0); Legal(slots, listenfd, e) && Exits(slots, listenfd, e)
  {
    assert b in Clients(slots, 1) && b in Clients(slots, 0);
  }

  /** Such a run: two clients connect; the second one sends something, which closes the first; it sends something more,
      and the run ends at the empty slot 0. */
  lemma CloseMinusOneReached(slots: seq<int>, events: seq<Events>)
    requires slots == seq(FD_SETSIZE, _ => -1)
    requires events == [Events({3}, 4), Events({3}, 5), Events({5}, 0), Events({5}, 0)]
    ensures LegalRun(slots, 3, events) && GetsTo(slots, 3, events, 3) && ExitsAt(slots, 3, events, 3)
  {
    NoClientsAbove(slots, 0);
    AcceptRound(slots, 3, 4, 0);
    var s1 := slots[0 := 4];
    assert Before(slots, 3, events, 1) == s1;
    AcceptRound(s1, 3, 5, 1);
    var s2 := s1[1 := 5];
    assert Before(slots, 3, events, 2) == s2;
    SecondReadyRound(s2, 3, 4, 5);
    assert Before(slots, 3, events, 3) == s2[0 := -1];
    HoleRound(s2[0 := -1], 3, 5);
    forall k | 0 <= k < |events|
      ensures Legal(Before(slots, 3, events, k), 3, events[k]) && (ExitsAt(slots, 3, events, k) <==> k == 3)
    {
      assert k == 0 || k == 1 || k == 2 || k == 3;
    }
  }

  // ---- the pool

  class Pool {
    const listenfd: int
    const clientfd: array<int>
    var maxfd: int
    var maxi: int
    var read_set: set<int>
    var ready_set: set<int>
    var nready: int

    ghost function Slots(): seq<int>
      reads clientfd
    {
      clientfd[..]
    }

    /** The client descriptors are distinct and, with the listening one, exactly the watched ones; all lie below
        both high-water marks. */
    ghost predicate Valid()
      reads this`read_set, this`maxfd, this`maxi, clientfd
    {
      && clientfd.Length == FD_SETSIZE
      && DistinctClients(Slots())
      && listenfd !in Clients(Slots(), 0)
      && read_set == Clients(Slots(), 0) + {listenfd}
      && (forall fd | fd in read_set :: 0 < fd <= maxfd && fd < FD_SETSIZE)
      && -1 <= maxi < FD_SETSIZE
      && (forall i | 0 <= i < FD_SETSIZE :: Slots()[i] >= -1)
      && (forall i | maxi < i < FD_SETSIZE :: Slots()[i] == -1)
    }

    /** `init_pool`. */
    constructor (listenfd: int)
      requires 0 < listenfd < FD_SETSIZE
      ensures Valid() && fresh(clientfd) && this.listenfd == maxfd == listenfd && maxi == -1
      ensures read_set == {listenfd} && forall i | 0 <= i < FD_SETSIZE :: Slots()[i] == -1
    {
      this.listenfd := listenfd;
      clientfd := new int[FD_SETSIZE](_ => -1);
      maxfd, maxi := listenfd, -1;
      read_set, ready_set, nready := {listenfd}, {}, 0;
      new;
      NoClientsAbove(Slots(), 0);
    }

    /** The search loop of `add_client`. */
    method FindFree() returns (i: nat)
      requires clientfd.Length == FD_SETSIZE
      ensures i == FirstFree(Slots())
    {
      i := 0;
      while i < FD_SETSIZE && clientfd[i] >= 0
        invariant 0 <= i <= FD_SETSIZE && forall k | 0 <= k < i :: clientfd[k] >= 0
      {
        i := i + 1;
      }
    }

    /** The new client takes slot `i`. */
    method FillSlot(i: nat, connfd: int)
      requires Valid() && i < FD_SETSIZE && clientfd[i] < 0 && 0 < connfd < FD_SETSIZE && connfd !in read_set
      modifies this`read_set, this`maxfd, this`maxi, clientfd
      ensures Valid() && Slots() == old(Slots())[i := connfd] && read_set == old(read_set) + {connfd}
      ensures maxfd == (if connfd > old(maxfd) then connfd else old(maxfd))
      ensures maxi == if i > old(maxi) then i else old(maxi)
    {
      ClientsUpdate(Slots(), i, connfd, 0);
      DistinctFill(Slots(), i, connfd);
      clientfd[i] := connfd;
      assert Slots() == old(Slots())[i := connfd];
      read_set := read_set + {connfd};
      if connfd > maxfd {
        maxfd := connfd;
      }
      if i > maxi {
        maxi := i;
      }
    }

    /** `add_client`: the first free slot takes the descriptor; there is always one. */
    method AddClient(connfd: int) returns (slot: nat, tooMany: bool)
      requires Valid() && 0 < connfd < FD_SETSIZE && connfd !in read_set
      modifies this`nready, this`read_set, this`maxfd, this`maxi, clientfd
      ensures Valid() && !tooMany && nready == old(nready) - 1
      ensures slot == FirstFree(old(Slots())) < FD_SETSIZE && Slots() == Filled(old(Slots()), connfd)
      ensures read_set == old(read_set) + {connfd}
      ensures maxfd == (if connfd > old(maxfd) then connfd else old(maxfd))
      ensures maxi == if slot > old(maxi) then slot else old(maxi)
    {
      FreeSlot(Slots(), listenfd);
      nready := nready - 1;
      slot := FindFree();
      tooMany := slot == FD_SETSIZE;
      if !tooMany {
        FillSlot(slot, connfd);
      }
    }

    /** Closes the descriptor in slot `i`. */
    method CloseSlot(i: nat)
      requires Valid() && i < FD_SETSIZE && clientfd[i] >= 0
      modifies this`read_set, clientfd
      ensures Valid() && Slots() == old(Slots())[i := -1] && read_set == old(read_set) - {old(clientfd[i])}
    {
      ClientsUpdate(Slots(), i, -1, 0);
      ClientsMember(Slots(), 0, clientfd[i]);
      read_set := read_set - {clientfd[i]};
      clientfd[i] := -1;
      assert Slots() == old(Slots())[i := -1];
    }

    /** One turn of the loop of check_client: a ready client is served, another one is closed, and an empty slot
        would make `Close(-1)` end the run. */
    method CheckSlot(i: nat) returns (connfd: int, served: bool)
      requires Valid() && i < FD_SETSIZE
      modifies this`nready, this`read_set, clientfd
      ensures Valid() && connfd == old(Slots()[i])
      ensures served <==> connfd >= 0 && connfd in ready_set
      ensures nready == old(nready) - (if served then 1 else 0)
      ensures if connfd >= 0 && !served
              then Slots() == old(Slots())[i := -1] && read_set == old(read_set) - {connfd}
              else Slots() == old(Slots()) && read_set == old(read_set)
      ensures DropsUnready(old(read_set), read_set, ready_set)
    {
      connfd := clientfd[i];
      ClientsMember(Slots(), 0, connfd);
      served := connfd > 0 && connfd in ready_set;
      if served {
        nready := nready - 1;
      } else if connfd >= 0 {
        CloseSlot(i);
      }
    }

    /** The loop of check_client, at slot `i`; it started with these slots and this watched set. */
    ghost predicate Scanning(slots: seq<int>, watched: set<int>, i: nat, handled: seq<int>)
      reads this, clientfd
    {
      && Valid() && DistinctClients(slots) && DropsUnready(watched, read_set, ready_set)
      && Scan(slots, Slots(), ready_set, i, handled, nready)
    }

    /** An empty slot has ended it. */
    ghost predicate Ended(slots: seq<int>, watched: set<int>, handled: seq<int>)
      reads this, clientfd
    {
      Valid() && DropsUnready(watched, read_set, ready_set) && CutOff(slots, Slots(), ready_set, handled)
    }

    ghost predicate Stage(slots: seq<int>, watched: set<int>, i: nat, handled: seq<int>, hole: bool)
      reads this, clientfd
    {
      if hole then Ended(slots, watched, handled) else Scanning(slots, watched, i, handled)
    }

    method ScanSlot(ghost slots: seq<int>, ghost watched: set<int>, i: nat, handled: seq<int>)
      returns (more: seq<int>, hole: bool)
      requires Scanning(slots, watched, i, handled) && i < FD_SETSIZE && nready > 0
      modifies this`nready, this`read_set, clientfd
      ensures Stage(slots, watched, i + 1, more, hole)
    {
      ScanNext(slots, Slots(), ready_set, i, handled, nready);
      if clientfd[i] < 0 {
        ScanCutOff(slots, Slots(), ready_set, i, handled, nready);
      }
      var connfd, served := CheckSlot(i);
      DropsUnreadyTwice(watched, old(read_set), read_set, ready_set);
      more := if served then handled + [connfd] else handled;
      hole := connfd < 0;
    }

    /** The loop of check_client. */
    method ScanSlots(ghost slots: seq<int>, ghost watched: set<int>) returns (i: nat, handled: seq<int>, exited: bool)
      requires Scanning(slots, watched, 0, [])
      modifies this`nready, this`read_set, clientfd
      ensures Stage(slots, watched, i, handled, exited) && (exited || i > maxi || nready <= 0)
    {
      i, handled, exited := 0, [], false;
      while !exited && i <= maxi && nready > 0
        invariant Stage(slots, watched, i, handled, exited) && maxi == old(maxi) < FD_SETSIZE
      {
        handled, exited := ScanSlot(slots, watched, i, handled);
        i := i + 1;
      }
    }

    /** `check_client`. Given as many ready clients as `nready` says, the countdown is exact at every slot, so that the
        early exit leaves no ready client out: each is served once and `nready` ends at zero; unless an empty slot
        comes before the last ready client, where `Close(-1)` ends the run. */
    method CheckClients() returns (handled: seq<int>, exited: bool)
      requires Valid() && nready == |ReadyFrom(Slots(), ready_set, 0)|
      modifies this`nready, this`read_set, clientfd
      ensures Valid() && DropsUnready(old(read_set), read_set, ready_set)
      ensures exited <==> HoleBeforeReady(old(Slots()), ready_set)
      ensures !exited ==> nready == 0 && Fds(handled) == old(ReadyFrom(Slots(), ready_set, 0))
      ensures !exited ==> Slots() == Scanned(old(Slots()), ready_set)
      ensures exited ==> CutOff(old(Slots()), Slots(), ready_set, handled)
      ensures NoRepeats(handled)
    {
      ghost var slots := Slots();
      var i;
      i, handled, exited := ScanSlots(slots, read_set);
      if !exited {
        ScanDone(slots, Slots(), ready_set, i, maxi, handled, nready);
      }
    }

    /** Takes in a client that is not ready: the ready clients stay the same ones. */
    method TakeIn(connfd: int)
      requires Valid() && 0 < connfd < FD_SETSIZE && connfd !in read_set && connfd !in ready_set
      modifies this`nready, this`read_set, this`maxfd, this`maxi, clientfd
      ensures Valid() && nready == old(nready) - 1 && read_set == old(read_set) + {connfd}
      ensures Slots() == Filled(old(Slots()), connfd)
      ensures ReadyFrom(Slots(), ready_set, 0) == old(ReadyFrom(Slots(), ready_set, 0))
    {
      ghost var slots := Slots();
      var slot, tooMany := AddClient(connfd);
      ClientsUpdate(slots, slot, connfd, 0);
    }

    /** What select reports: the countdown starts at the number of ready descriptors, which are the ready clients and
        perhaps the listening one. */
    method Select(input: set<int>)
      requires Valid()
      modifies this`ready_set, this`nready
      ensures Valid() && ready_set == input * read_set
      ensures ReadyFrom(Slots(), ready_set, 0) == ready_set - {listenfd}
      ensures nready == |ready_set - {listenfd}| + if listenfd in input then 1 else 0
    {
      ready_set := read_set;
      ready_set := input * ready_set;
      nready := |ready_set|;
      ReadyClients(Slots(), listenfd, ready_set);
    }

    /** The first half of a round of `main`: what select reports and, if the listening descriptor is among it, the
        connection accepted. The countdown is then the number of ready clients. */
    method Poll(e: Events)
      requires Valid() && Legal(Slots(), listenfd, e)
      modifies this, clientfd
      ensures Valid() && ready_set == old(Ready(Slots(), listenfd, e))
      ensures Slots() == old(AfterAccept(Slots(), listenfd, e))
      ensures ReadyFrom(Slots(), ready_set, 0) == ready_set - {listenfd} && nready == |ready_set - {listenfd}|
      ensures read_set == old(read_set) + if listenfd in e.input then {e.connfd} else {}
    {
      ghost var slots := Slots();
      Select(e.input);
      assert ready_set == Ready(slots, listenfd, e);
      if listenfd in ready_set {
        TakeIn(e.connfd);
      }
      assert Slots() == AfterAccept(slots, listenfd, e);
    }

    /** A round of `main`: each ready client is handled, once, and the others that come before a ready one are closed;
        or an empty slot comes before a ready client, and the run ends there. */
    method Round(e: Events) returns (handled: seq<int>, exited: bool)
      requires Valid() && Legal(Slots(), listenfd, e)
      modifies this, clientfd
      ensures Valid()
      ensures exited <==> old(Exits(Slots(), listenfd, e))
      ensures !exited ==> Fds(handled) == old(Ready(Slots(), listenfd, e)) - {listenfd} && NoRepeats(handled)
      ensures !exited ==> nready == 0 && Slots() == old(AfterRound(Slots(), listenfd, e))
      ensures exited ==>
        CutOff(old(AfterAccept(Slots(), listenfd, e)), Slots(), old(Ready(Slots(), listenfd, e)), handled)
      ensures old(read_set) * e.input <= read_set <= old(read_set) + if listenfd in e.input then {e.connfd} else {}
    {
      Poll(e);
      handled, exited := CheckClients();
    }

    /** The loop of `main`, whatever comes from outside. The pool stays valid for good; each round finds the slots that
        the rounds before it have left and handles the clients that are ready, each once; and the run ends exactly at
        the first round in which an empty slot comes before a ready client; only the ready clients before that slot are
        then handled. */
    method Serve(events: seq<Events>) returns (rounds: seq<seq<int>>, exited: bool, last: seq<int>)
      requires Valid() && LegalRun(Slots(), listenfd, events)
      modifies this, clientfd
      ensures Valid() && Run(old(Slots()), listenfd, events, rounds)
      ensures if exited then EndsAt(old(Slots()), listenfd, events, |rounds|, Slots(), last)
              else |rounds| == |events| && Slots() == Before(old(Slots()), listenfd, events, |events|)
    {
      ghost var slots := Slots();
      rounds, exited, last := [], false, [];
      for round := 0 to |events|
        invariant Valid() && |rounds| == round && Run(slots, listenfd, events, rounds)
        invariant Slots() == Before(slots, listenfd, events, round)
      {
        last, exited := Round(events[round]);
        if exited {
          return;
        }
        RunOn(slots, listenfd, events, rounds, last);
        BeforeNext(slots, listenfd, events, round);
        rounds := rounds + [last];
      }
    }
  }
}
