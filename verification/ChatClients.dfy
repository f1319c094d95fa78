/** The server object: the slice of clients, with `accept` and `remove` on its backing array, `Broadcast` over it,
    and the `serve` loop of one client. */
module ChatClients {
  import opened ChatProtocol
  import opened ChatServer

  // ---- lists of clients

  predicate Distinct<T(==)>(s: seq<T>) {
    forall i, j | 0 <= i < j < |s| :: s[i] != s[j]
  }

  function Without<T(==)>(s: seq<T>, x: T): seq<T> {
    if s == [] then [] else (if s[0] == x then [] else [s[0]]) + Without(s[1..], x)
  }

  lemma {:induction false} WithoutAbsent<T>(s: seq<T>, x: T)
    requires x !in s
    ensures Without(s, x) == s
  {
    if s != [] {
      WithoutAbsent(s[1..], x);
      assert s == [s[0]] + s[1..];
    }
  }

  lemma {:induction false} WithoutAt<T>(s: seq<T>, x: T, p: nat)
    requires Distinct(s) && p < |s| && s[p] == x
    ensures Without(s, x) == s[..p] + s[p + 1..]
  {
    if p == 0 {
      WithoutAbsent(s[1..], x);
    } else {
      WithoutAt(s[1..], x, p - 1);
      assert s[..p] == [s[0]] + s[1..][..p - 1];
      assert s[1..][p..] == s[p + 1..];
    }
  }

  lemma {:induction false} WithoutMembers<T>(s: seq<T>, x: T, y: T)
    ensures y in Without(s, x) <==> y in s && y != x
  {
    if s != [] {
      WithoutMembers(s[1..], x, y);
    }
  }

  /** A sequence of calls of `accept`, each for a new client, and of `remove`. */
  datatype Call<T> = Accepted(client: T) | Removed(client: T)

  function AfterCall<T(==)>(clients: seq<T>, call: Call<T>): seq<T> {
    match call
    case Accepted(c) => clients + [c]
    case Removed(c) => Without(clients, c)
  }

  function After<T(==)>(clients: seq<T>, calls: seq<Call<T>>): seq<T> {
    if calls == [] then clients else AfterCall(After(clients, calls[..|calls| - 1]), calls[|calls| - 1])
  }

  /** Accepted at some call, and not removed since. */
  ghost predicate Connected<T>(calls: seq<Call<T>>, c: T) {
    exists i :: 0 <= i < |calls| && calls[i] == Accepted(c) && Removed(c) !in calls[i..]
  }

  lemma ConnectedStep<T>(calls: seq<Call<T>>, last: Call<T>, c: T)
    ensures Connected(calls + [last], c) <==> last == Accepted(c) || (Connected(calls, c) && last != Removed(c))
  {
    var longer := calls + [last];
    forall i | 0 <= i < |calls| ensures longer[i..] == calls[i..] + [last] {
    }
    if last == Accepted(c) {
      assert longer[|calls|..] == [last];
    } else if Connected(calls, c) && last != Removed(c) {
      var i :| 0 <= i < |calls| && calls[i] == Accepted(c) && Removed(c) !in calls[i..];
      assert longer[i] == Accepted(c) && Removed(c) !in longer[i..];
    }
    if Connected(longer, c) && last != Accepted(c) {
      var i :| 0 <= i < |longer| && longer[i] == Accepted(c) && Removed(c) !in longer[i..];
      assert calls[i] == Accepted(c) && Removed(c) !in calls[i..];
      assert longer[|calls|] in longer[i..];
    }
  }

  /** Over any sequence of calls the list holds exactly the clients accepted and not removed since. */
  lemma {:induction false} MembersOverCalls<T>(calls: seq<Call<T>>, c: T)
    ensures c in After([], calls) <==> Connected(calls, c)
  {
    if calls != [] {
      var earlier, last := calls[..|calls| - 1], calls[|calls| - 1];
      assert calls == earlier + [last];
      MembersOverCalls(earlier, c);
      ConnectedStep(earlier, last, c);
      WithoutMembers(After([], earlier), last.client, c);
    }
  }

  /** And if each accepted client is a new one, it holds each of them once. */
  lemma {:induction false} DistinctOverCalls<T>(calls: seq<Call<T>>)
    requires forall i, j | 0 <= i < j < |calls| ::
      calls[i].Accepted? && calls[j].Accepted? ==> calls[i].client != calls[j].client
    ensures Distinct(After([], calls))
  {
    if calls != [] {
      var earlier, last := calls[..|calls| - 1], calls[|calls| - 1];
      DistinctOverCalls(earlier);
      MembersOverCalls(earlier, last.client);
      WithoutKeepsDistinct(After([], earlier), last.client);
    }
  }

  /** `x` was accepted before `y`. */
  ghost predicate AcceptedBefore<T>(calls: seq<Call<T>>, x: T, y: T) {
    exists k, l :: 0 <= k < l < |calls| && calls[k] == Accepted(x) && calls[l] == Accepted(y)
  }

  ghost predicate InOrderOf<T>(clients: seq<T>, calls: seq<Call<T>>) {
    forall i, j | 0 <= i < j < |clients| :: AcceptedBefore(calls, clients[i], clients[j])
  }

  lemma AcceptedBeforeStill<T>(calls: seq<Call<T>>, last: Call<T>, x: T, y: T)
    requires AcceptedBefore(calls, x, y)
    ensures AcceptedBefore(calls + [last], x, y)
  {
    var k, l :| 0 <= k < l < |calls| && calls[k] == Accepted(x) && calls[l] == Accepted(y);
    assert (calls + [last])[k] == Accepted(x) && (calls + [last])[l] == Accepted(y);
  }

  lemma AcceptedLast<T>(calls: seq<Call<T>>, x: T, y: T)
    requires Connected(calls, x)
    ensures AcceptedBefore(calls + [Accepted(y)], x, y)
  {
    var k :| 0 <= k < |calls| && calls[k] == Accepted(x) && Removed(x) !in calls[k..];
    assert (calls + [Accepted(y)])[k] == Accepted(x) && (calls + [Accepted(y)])[|calls|] == Accepted(y);
  }

  lemma {:induction false} WithoutKeepsOrder<T>(clients: seq<T>, x: T, calls: seq<Call<T>>)
    requires Distinct(clients) && InOrderOf(clients, calls)
    ensures InOrderOf(Without(clients, x), calls)
  {
    if x in clients {
      var p :| 0 <= p < |clients| && clients[p] == x;
      WithoutAt(clients, x, p);
    } else {
      WithoutAbsent(clients, x);
    }
  }

  /** And in the order in which they were accepted. */
  lemma {:induction false} OrderOverCalls<T>(calls: seq<Call<T>>)
    requires forall i, j | 0 <= i < j < |calls| ::
      calls[i].Accepted? && calls[j].Accepted? ==> calls[i].client != calls[j].client
    ensures InOrderOf(After([], calls), calls)
  {
    if calls != [] {
      var earlier, last := calls[..|calls| - 1], calls[|calls| - 1];
      var before := After([], earlier);
      assert calls == earlier + [last];
      OrderOverCalls(earlier);
      DistinctOverCalls(earlier);
      forall i, j | 0 <= i < j < |before| ensures AcceptedBefore(calls, before[i], before[j]) {
        AcceptedBeforeStill(earlier, last, before[i], before[j]);
      }
      match last
      case Removed(c) => WithoutKeepsOrder(before, c, calls);
      case Accepted(c) =>
        forall i | 0 <= i < |before| ensures AcceptedBefore(calls, before[i], c) {
          MembersOverCalls(earlier, before[i]);
          AcceptedLast(earlier, before[i], c);
        }
    }
  }

  lemma {:induction false} WithoutKeepsDistinct<T>(s: seq<T>, x: T)
    requires Distinct(s)
    ensures Distinct(Without(s, x))
  {
    if x in s {
      var p :| 0 <= p < |s| && s[p] == x;
      WithoutAt(s, x, p);
    } else {
      WithoutAbsent(s, x);
    }
  }

  // ---- one serve loop as a whole

  /** The messages a `serve` loop broadcasts, from an input still unread and the name so far. */
  function Relay(input: string, name: string): seq<Command>
    decreases |input|
  {
    var r := Parse(input);
    if r.error == EOF then []
    else
      match r.command
      case Some(Send(message)) => [Message(name, message)] + Relay(r.rest, name)
      case Some(Name(newName)) => Relay(r.rest, newName)
      case _ => Relay(r.rest, name)
  }

  lemma RelayStep(input: string, name: string)
    ensures var r := Parse(input);
            && (r.error == EOF ==> Relay(input, name) == [])
            && (r.error == UnknownCommand ==> Relay(input, name) == Relay(r.rest, name))
            && (r.error == NoError ==> r.command.Some? && var c := r.command.value;
                  Relay(input, name) == (if c.Send? then [Message(name, c.message)] else [])
                                         + Relay(r.rest, if c.Name? then c.name else name))
  {
  }

  lemma RelayedMore(before: seq<Command>, c: Command, more: seq<Command>, tail: seq<Command>)
    requires Relayed(before + [c]) + tail == Relayed(before + [c] + more)
    ensures Relayed(before) + ((if c.Send? then [Message(LastName(before), c.message)] else []) + tail)
         == Relayed(before + ([c] + more))
  {
    RelayedStep(before, c);
    Associate(Relayed(before), if c.Send? then [Message(LastName(before), c.message)] else [], tail);
    Associate(before, [c], more);
  }

  /** What the loop broadcasts is what all it reads calls for. */
  lemma {:induction false} RelayIsRelayed(before: seq<Command>, input: string)
    ensures Relayed(before) + Relay(input, LastName(before)) == Relayed(before + ReadByServe(input))
    decreases |input|
  {
    var r := Parse(input);
    ReadByServeStep(input);
    RelayStep(input, LastName(before));
    if r.error == EOF {
      assert before + [] == before;
    } else if r.error == UnknownCommand {
      RelayIsRelayed(before, r.rest);
    } else {
      var c := r.command.value;
      RelayedStep(before, c);
      RelayIsRelayed(before + [c], r.rest);
      RelayedMore(before, c, ReadByServe(r.rest), Relay(r.rest, LastName(before + [c])));
    }
  }

  // ---- the server object

  class Client {
    var name: string
    const writer: CommandWriter

    constructor ()
      ensures name == "" && writer.written == "" && fresh(writer)
    {
      name := "";
      writer := new CommandWriter();
    }
  }

  predicate DistinctWriters(clients: seq<Client>) {
    forall i, j | 0 <= i < j < |clients| :: clients[i].writer != clients[j].writer
  }

  lemma WithoutOk(clients: seq<Client>, client: Client)
    requires Distinct(clients) && DistinctWriters(clients)
    ensures Distinct(Without(clients, client)) && DistinctWriters(Without(clients, client))
  {
    WithoutKeepsDistinct(clients, client);
    if client in clients {
      var p :| 0 <= p < |clients| && clients[p] == client;
      WithoutAt(clients, client, p);
    } else {
      WithoutAbsent(clients, client);
    }
  }

  /** After the shift the rest of the range loop does not meet the removed client again, although it skips a client
      and meets the last one in its old place too, which the shift leaves as it was. */
  lemma StaleTail(clients: seq<Client>, client: Client, p: nat, shifted: seq<Client>)
    requires Distinct(clients) && p < |clients| && clients[p] == client && |shifted| == |clients|
    requires shifted[..|clients| - 1] == clients[..p] + clients[p + 1..]
    requires shifted[|clients| - 1] == clients[|clients| - 1]
    ensures forall k | p < k < |clients| :: shifted[k] != client
  {
    forall k | p < k < |clients| - 1 ensures shifted[k] != client {
      assert shifted[k] == shifted[..|clients| - 1][k] == clients[k + 1];
    }
  }

  /** The server with its slice of clients: the first `len` elements of a backing array. */
  class TcpChatServer {
    var backing: array<Client>
    var len: nat

    ghost predicate Valid()
      reads this, backing
    {
      && len <= backing.Length
      && Distinct(Clients())
      && DistinctWriters(Clients())
    }

    ghost function Clients(): seq<Client>
      requires len <= backing.Length
      reads this, backing
    {
      backing[..len]
    }

    constructor ()
      ensures Valid() && Clients() == [] && fresh(backing)
    {
      backing := new Client[0];
      len := 0;
    }

    /** What `append` does when the backing array is full: it moves to a larger one. */
    method Grow(filler: Client)
      requires len == backing.Length
      modifies this`backing
      ensures len < backing.Length && backing[..len] == old(backing[..len]) && fresh(backing)
    {
      var clients := backing[..];
      backing := new Client[2 * len + 1](k requires 0 <= k => if k < |clients| then clients[k] else filler);
      assert backing[..len] == clients;
    }

    /** `accept`: `append` writes into the backing array if it has room, and moves to a larger one otherwise. */
    method Accept() returns (client: Client)
      requires Valid()
      modifies this, backing
      ensures Valid() && fresh(client) && (backing == old(backing) || fresh(backing))
      ensures Clients() == old(Clients()) + [client] == AfterCall(old(Clients()), Accepted(client))
      ensures client.name == "" && client.writer.written == ""
    {
      client := new Client();
      ghost var clients := Clients();
      if len == backing.Length {
        Grow(client);
      }
      backing[len] := client;
      len := len + 1;
      assert Clients() == clients + [client];
    }

    /** `copy` within the backing array, as `append(s.clients[:i], s.clients[i+1:]...)` does it. */
    method ShiftLeft(i: nat, n: nat)
      requires i < n <= backing.Length
      modifies backing
      ensures backing[..n - 1] == old(backing[..i] + backing[i + 1..n])
      ensures backing[n - 1..] == old(backing[n - 1..])
    {
      var k := i;
      while k + 1 < n
        invariant i <= k < n
        invariant forall m | 0 <= m < i :: backing[m] == old(backing[m])
        invariant forall m | i <= m < k :: backing[m] == old(backing[m + 1])
        invariant forall m | k <= m < backing.Length :: backing[m] == old(backing[m])
      {
        backing[k] := backing[k + 1];
        k := k + 1;
      }
    }

    /** `remove`: the range loop goes over the original length and reads the backing array that it shifts. */
    method Remove(client: Client)
      requires Valid()
      modifies this`len, backing
      ensures Valid() && Clients() == AfterCall(old(Clients()), Removed(client))
      ensures client !in Clients() && forall c | c in old(Clients()) && c != client :: c in Clients()
    {
      ghost var clients := Clients();
      ghost var removedAt: Option<nat> := None;
      var n, i := len, 0;
      while i < n
        invariant 0 <= i <= n == |clients| <= backing.Length
        invariant removedAt.None? ==> len == n && backing[..n] == clients && client !in clients[..i]
        invariant removedAt.Some? ==>
          var p := removedAt.value;
          && p < i && clients[p] == client && len == n - 1
          && backing[..n - 1] == clients[..p] + clients[p + 1..]
        invariant removedAt.Some? ==> forall k | i <= k < n :: backing[k] != client
      {
        var check := backing[i];
        if check == client {
          assert i + 1 <= len; // or the slice s.clients[i+1:] would be out of bounds
          assert backing[n - 1] == backing[n - 1..][0] == clients[n - 1];
          ShiftLeft(i, len);
          len := len - 1;
          removedAt := Some(i);
          StaleTail(clients, client, i, backing[..n]);
        }
        i := i + 1;
      }
      match removedAt {
        case None => WithoutAbsent(clients, client);
        case Some(p) => WithoutAt(clients, client, p);
      }
      WithoutOk(clients, client);
      forall c ensures c in Without(clients, client) <==> c in clients && c != client {
        WithoutMembers(clients, client, c);
      }
    }

    /** `Broadcast`: each client of the list is sent the whole frame, once. */
    method Broadcast(command: Command)
      requires Valid()
      modifies set c | c in Clients() :: c.writer
      ensures forall c | c in Clients() :: c.writer.written == old(c.writer.written) + Encode(command)
    {
      ghost var clients := Clients();
      for i := 0 to len
        invariant forall k | 0 <= k < i :: clients[k].writer.written == old(clients[k].writer.written) + Encode(command)
        invariant forall k | i <= k < len :: clients[k].writer.written == old(clients[k].writer.written)
      {
        assert backing[i] == clients[i];
        var error := backing[i].writer.Write(Some(command));
      }
    }

    /** One turn of the loop of `serve`. */
    method ServeNext(client: Client, reader: CommandReader) returns (broadcasts: seq<Command>, eof: bool)
      modifies client`name, reader
      ensures Relay(old(reader.unread), old(client.name))
           == broadcasts + if eof then [] else Relay(reader.unread, client.name)
      ensures var r := Parse(old(reader.unread));
              && reader.unread == r.rest && (eof <==> r.error == EOF)
              && client.name == (if r.command.Some? && r.command.value.Name? then r.command.value.name
                                 else old(client.name))
              && broadcasts == if r.command.Some? && r.command.value.Send?
                               then [Message(old(client.name), r.command.value.message)] else []
    {
      RelayStep(reader.unread, client.name);
      var cmd, err := reader.Read();
      broadcasts, eof := [], err == EOF;
      match cmd
      case Some(Send(message)) => broadcasts := [Message(client.name, message)];
      case Some(Name(name)) => client.name := name;
      case _ =>
    }

    /** `serve`, up to its end of input: the broadcasts it starts, in order. */
    method Serve(client: Client, reader: CommandReader) returns (broadcasts: seq<Command>)
      modifies client`name, reader
      ensures broadcasts == Relay(old(reader.unread), old(client.name)) && reader.unread == ""
    {
      var eof := false;
      broadcasts := [];
      assert broadcasts + Relay(reader.unread, client.name) == Relay(reader.unread, client.name);
      while !eof
        invariant Relay(old(reader.unread), old(client.name))
               == broadcasts + if eof then [] else Relay(reader.unread, client.name)
        invariant eof ==> reader.unread == ""
        decreases !eof, |reader.unread|
      {
        var more;
        more, eof := ServeNext(client, reader);
        broadcasts := broadcasts + more;
      }
    }
  }
}
