/** The chat server as a whole: the `serve` loops of its clients, the broadcasts they start, and what each client is
    sent. */
module ChatServer {
  import opened Runs
  import opened ChatProtocol

  /** A message that some `serve` loop has started to broadcast: the SEND it read at place `at` among its commands. */
  datatype Frame = Frame(from: nat, at: nat, message: Command)

  /** One client's connection: what it still has to send, and what it was sent. `history`, the commands its `serve`
      loop has read, and `delivered`, the frames written to it, are history. */
  datatype Connection = Connection(
    unread: string, name: string, serving: bool, output: string,
    history: seq<Command>, delivered: seq<Frame>)

  /** `inputs` is all that the clients ever send. */
  datatype State = State(inputs: seq<string>, connections: seq<Connection>, frames: seq<Frame>)

  ghost function Init(inputs: seq<string>): State {
    State(inputs, seq(|inputs|, j requires 0 <= j < |inputs| => Connection(inputs[j], "", true, "", [], [])), [])
  }

  // ---- the steps

  /** The effect on a `serve` loop's own connection of a `Read` with result `r`. */
  function Served(c: Connection, r: Result): Connection {
    var after := c.(unread := r.rest, serving := r.error != EOF);
    match r.command
    case None => after
    case Some(Name(name)) => after.(name := name, history := c.history + [Name(name)])
    case Some(command) => after.(history := c.history + [command])
  }

  /** The message it broadcasts, if what it read is a SEND. */
  function Broadcasts(c: Connection, r: Result): Option<Command> {
    match r.command
    case Some(Send(message)) => Some(Message(c.name, message))
    case _ => None
  }

  ghost predicate ServeStep(s: State, j: nat, t: State) {
    && j < |s.connections| && s.connections[j].serving
    && var c := s.connections[j];
       var r := Parse(c.unread);
       t == s.(connections := s.connections[j := Served(c, r)],
               frames := match Broadcasts(c, r)
                         case None => s.frames
                         case Some(message) => s.frames + [Frame(j, |c.history|, message)])
  }

  function Delivered(c: Connection, f: Frame): Connection {
    c.(output := c.output + Encode(f.message), delivered := c.delivered + [f])
  }

  /** Some broadcast writes its frame to some client. A broadcast goes over the client list without the lock, so
      nothing is said of which clients it writes to, when, or how often; but each write is one whole frame. */
  ghost predicate WriteStep(s: State, f: Frame, j: nat, t: State) {
    && f in s.frames && j < |s.connections|
    && t == s.(connections := s.connections[j := Delivered(s.connections[j], f)])
  }

  datatype Action = Serve(j: nat) | Write(f: Frame, j: nat)

  ghost predicate Step(s: State, a: Action, t: State) {
    match a
    case Serve(j) => ServeStep(s, j, t)
    case Write(f, j) => WriteStep(s, f, j, t)
  }

  ghost predicate Next(s: State, t: State) {
    exists a :: Step(s, a, t)
  }

  // ---- reading a frame

  /** What a client can show of a message: the name, a space, the text. */
  function Text(message: Command): string
    requires message.Message?
  {
    message.name + " " + message.message
  }

  /** A frame is one line if neither of its parts has a newline, and reads as a message with the same text; a
      space in the name only moves the boundary between name and message. */
  lemma ParseFrame(message: Command, rest: string) returns (read: Command)
    requires OneLine(message)
    ensures read.Message? && Text(read) == Text(message)
    ensures Parse(Encode(message) + rest) == Result(Some(read), NoError, rest)
  {
    read := Reparted(message);
    ParseEncoded(read, rest);
  }

  /** The message with the same text and line that has no space in its name. */
  lemma Reparted(message: Command) returns (read: Command)
    requires OneLine(message)
    ensures read.Message? && WellFormed(read) && Text(read) == Text(message) && Encode(read) == Encode(message)
  {
    var text := Text(message);
    var k := IndexOf(text, ' ');
    assert text[|message.name|] == ' ';
    read := Message(text[..k], text[k + 1..]);
    assert Text(read) == text;
    assert forall i | 0 <= i < |text| :: text[i] != '\n';
    EncodeText(message);
    EncodeText(read);
  }

  lemma EncodeText(message: Command)
    requires message.Message?
    ensures Encode(message) == "MESSAGE " + Text(message) + "\n"
  {
  }

  // ---- what every run keeps

  /** The name that the last NAME among the commands set. */
  function LastName(history: seq<Command>): string {
    if history == [] then ""
    else
      match history[|history| - 1]
      case Name(name) => name
      case _ => LastName(history[..|history| - 1])
  }

  /** That is, no name comes after it; and without any the name is empty. */
  lemma {:induction false} LastNameExactly(history: seq<Command>, name: string)
    ensures LastName(history) == name <==>
      || (name == "" && forall k | 0 <= k < |history| :: !history[k].Name?)
      || (exists i :: 0 <= i < |history| && history[i] == Name(name)
                   && forall k | i < k < |history| :: !history[k].Name?)
  {
    if history != [] {
      var last := |history| - 1;
      if history[last].Name? {
        assert history[last] == Name(history[last].name);
      } else {
        LastNameExactly(history[..last], name);
        assert forall i | 0 <= i < last :: history[..last][i] == history[i];
      }
    }
  }

  /** The messages that a list of commands calls for: each SEND, in order, under the last NAME before it. */
  function Relayed(commands: seq<Command>): seq<Command> {
    if commands == [] then []
    else
      var before := commands[..|commands| - 1];
      match commands[|commands| - 1]
      case Send(message) => Relayed(before) + [Message(LastName(before), message)]
      case _ => Relayed(before)
  }

  lemma RelayedStep(commands: seq<Command>, c: Command)
    ensures Relayed(commands + [c])
         == Relayed(commands) + if c.Send? then [Message(LastName(commands), c.message)] else []
    ensures LastName(commands + [c]) == if c.Name? then c.name else LastName(commands)
  {
    assert (commands + [c])[..|commands|] == commands;
  }

  /** All the commands that a `serve` loop reads from an input, passing over the unknown ones. */
  function ReadByServe(input: string): seq<Command>
    decreases |input|
  {
    var r := Parse(input);
    match r.error
    case EOF => []
    case UnknownCommand => ReadByServe(r.rest)
    case NoError => [r.command.value] + ReadByServe(r.rest)
  }

  /** The commands a `serve` loop reads, all in all. */
  function Reads(c: Connection): seq<Command> {
    c.history + if c.serving then ReadByServe(c.unread) else []
  }

  function Written(delivered: seq<Frame>): string {
    if delivered == [] then "" else Encode(delivered[0].message) + Written(delivered[1..])
  }

  /** A frame relays a SEND of some client's input, under the last NAME before it. */
  ghost predicate Relays(f: Frame, inputs: seq<string>) {
    && f.from < |inputs|
    && var commands := ReadByServe(inputs[f.from]);
       && f.at < |commands| && commands[f.at].Send?
       && f.message == Message(LastName(commands[..f.at]), commands[f.at].message)
  }

  ghost predicate OneLine(message: Command) {
    message.Message? && '\n' !in message.name && '\n' !in message.message
  }

  ghost predicate AllFramed(frames: seq<Frame>, inputs: seq<string>) {
    forall f | f in frames :: Relays(f, inputs) && OneLine(f.message)
  }

  ghost predicate ServeOk(c: Connection, input: string) {
    && c.name == LastName(c.history) && '\n' !in c.name
    && Reads(c) == ReadByServe(input)
  }

  ghost predicate OutputOk(c: Connection, inputs: seq<string>) {
    && c.output == Written(c.delivered)
    && AllFramed(c.delivered, inputs)
  }

  ghost predicate Framed(s: State) {
    && |s.connections| == |s.inputs|
    && AllFramed(s.frames, s.inputs)
    && (forall j | 0 <= j < |s.inputs| :: ServeOk(s.connections[j], s.inputs[j]))
    && (forall j | 0 <= j < |s.inputs| :: OutputOk(s.connections[j], s.inputs))
  }

  lemma {:induction false} WrittenAppend(delivered: seq<Frame>, f: Frame)
    ensures Written(delivered + [f]) == Written(delivered) + Encode(f.message)
  {
    if delivered != [] {
      WrittenAppend(delivered[1..], f);
      assert (delivered + [f])[1..] == delivered[1..] + [f];
      Associate(Encode(delivered[0].message), Written(delivered[1..]), Encode(f.message));
    }
  }

  lemma ServedName(c: Connection, r: Result)
    requires c.name == LastName(c.history) && '\n' !in c.name
    requires r.command.Some? ==> WellFormed(r.command.value)
    ensures var d := Served(c, r);
            && d.history == c.history + (if r.command.Some? then [r.command.value] else [])
            && d.name == LastName(d.history) && '\n' !in d.name
  {
    var d := Served(c, r);
    if r.command.Some? {
      assert d.history[..|d.history| - 1] == c.history;
    }
  }

  lemma ReadByServeStep(input: string)
    ensures var r := Parse(input);
            ReadByServe(input)
            == (if r.command.Some? then [r.command.value] else []) + if r.error == EOF then [] else ReadByServe(r.rest)
  {
  }

  /** A `serve` loop reads each command that was written, passes over each unknown one with the space that ends it, and
      ends where the input does or a command is cut short. */
  lemma ReadByServeExactly(c: Command, word: string, rest: string)
    ensures WellFormed(c) ==> ReadByServe(Encode(c) + rest) == [c] + ReadByServe(rest)
    ensures ' ' !in word && !KnownWord(word) ==> ReadByServe(word + " " + rest) == ReadByServe(rest)
    ensures ' ' !in rest || CutShort(rest) ==> ReadByServe(rest) == []
  {
    if WellFormed(c) {
      ParseEncoded(c, rest);
      ReadByServeStep(Encode(c) + rest);
    }
    if ' ' !in word && !KnownWord(word) {
      UnknownExactly(word + " " + rest, rest);
      ReadByServeStep(word + " " + rest);
    }
    EndExactly(rest);
    ReadByServeStep(rest);
  }

  lemma ServeOkKept(c: Connection, r: Result, input: string)
    requires ServeOk(c, input) && c.serving && r == Parse(c.unread)
    ensures ServeOk(Served(c, r), input)
  {
    ServedName(c, r);
    ReadByServeStep(c.unread);
    Associate(c.history, if r.command.Some? then [r.command.value] else [],
              if r.error == EOF then [] else ReadByServe(r.rest));
  }

  lemma BroadcastOk(c: Connection, r: Result, j: nat, inputs: seq<string>)
    requires j < |inputs| && ServeOk(c, inputs[j]) && c.serving && r == Parse(c.unread)
    requires Broadcasts(c, r).Some?
    ensures AllFramed([Frame(j, |c.history|, Broadcasts(c, r).value)], inputs)
  {
    ReadByServeStep(c.unread);
    var commands := ReadByServe(inputs[j]);
    assert commands[..|c.history|] == c.history && commands[|c.history|] == r.command.value;
  }

  lemma FramedByServe(s: State, j: nat, t: State)
    requires Framed(s) && ServeStep(s, j, t)
    ensures Framed(t)
  {
    var c := s.connections[j];
    var r := Parse(c.unread);
    assert ServeOk(c, s.inputs[j]) && OutputOk(c, s.inputs);
    ServeOkKept(c, r, s.inputs[j]);
    if Broadcasts(c, r).Some? {
      BroadcastOk(c, r, j, s.inputs);
    }
  }

  lemma FramedByWrite(s: State, f: Frame, j: nat, t: State)
    requires Framed(s) && WriteStep(s, f, j, t)
    ensures Framed(t)
  {
    var c := s.connections[j];
    assert ServeOk(c, s.inputs[j]) && OutputOk(c, s.inputs);
    WrittenAppend(c.delivered, f);
    assert OutputOk(Delivered(c, f), s.inputs);
  }

  lemma FramedKept(s: State, a: Action, t: State)
    requires Framed(s) && Step(s, a, t)
    ensures Framed(t)
  {
    match a
    case Serve(j) => FramedByServe(s, j, t);
    case Write(f, j) => FramedByWrite(s, f, j, t);
  }

  lemma AlwaysFramed(inputs: seq<string>, s: State)
    requires Reaches(Next, Init(inputs), s)
    ensures Framed(s) && s.inputs == inputs
  {
    forall s, t | Framed(s) && Next(s, t) ensures Framed(t) && t.inputs == s.inputs {
      var a :| Step(s, a, t);
      FramedKept(s, a, t);
    }
    InvariantReachable(Next, (u: State) => Framed(u) && u.inputs == inputs, Init(inputs), s);
  }

  // ---- what a step does

  /** A write appends the frame's line to the output of one client, and does nothing else. */
  lemma WriteAppendsLine(s: State, f: Frame, j: nat, t: State)
    requires Framed(s) && WriteStep(s, f, j, t)
    ensures |t.connections| == |s.connections| && t.frames == s.frames && t.inputs == s.inputs
    ensures f.message.Message?
    ensures var c, d := s.connections[j], t.connections[j];
            && d.output == c.output + ("MESSAGE " + f.message.name + " " + f.message.message + "\n")
            && d.delivered == c.delivered + [f]
            && d.unread == c.unread && d.name == c.name && d.serving == c.serving && d.history == c.history
    ensures forall k | 0 <= k < |s.connections| && k != j :: t.connections[k] == s.connections[k]
  {
  }

  /** A `Read` of a `serve` loop consumes input of its own client, sends nothing to anybody, and starts a broadcast
      exactly if it reads a SEND. */
  lemma ServeReads(s: State, j: nat, t: State)
    requires Framed(s) && ServeStep(s, j, t)
    ensures |t.connections| == |s.connections| && t.inputs == s.inputs
    ensures var c, d, r := s.connections[j], t.connections[j], Parse(s.connections[j].unread);
            && d.unread == r.rest && d.serving == (r.error != EOF)
            && d.output == c.output && d.delivered == c.delivered
            && d.history == c.history + (if r.command.Some? then [r.command.value] else [])
            && d.name == (if r.command.Some? && r.command.value.Name? then r.command.value.name else c.name)
            && t.frames == s.frames + if r.command.Some? && r.command.value.Send?
                                      then [Frame(j, |c.history|, Message(c.name, r.command.value.message))] else []
    ensures forall k | 0 <= k < |s.connections| && k != j :: t.connections[k] == s.connections[k]
  {
  }

  /** A `serve` loop can read until it has seen the end of its input, and a broadcast can write to any client. */
  lemma StepsExactlyWhile(s: State, j: nat, f: Frame)
    requires j < |s.connections|
    ensures (exists t :: ServeStep(s, j, t)) <==> s.connections[j].serving
    ensures (exists t :: WriteStep(s, f, j, t)) <==> f in s.frames
  {
    var c := s.connections[j];
    var r := Parse(c.unread);
    var frames := match Broadcasts(c, r)
                  case None => s.frames
                  case Some(message) => s.frames + [Frame(j, |c.history|, message)];
    var served := s.(connections := s.connections[j := Served(c, r)], frames := frames);
    assert c.serving ==> ServeStep(s, j, served);
    var written := s.(connections := s.connections[j := Delivered(c, f)]);
    assert f in s.frames ==> WriteStep(s, f, j, written);
  }

  // ---- every SEND is broadcast

  /** The messages that the `serve` loop of client `j` has started to broadcast, in order. */
  function FramesFrom(frames: seq<Frame>, j: nat): seq<Command> {
    if frames == [] then []
    else
      var last := |frames| - 1;
      FramesFrom(frames[..last], j) + if frames[last].from == j then [frames[last].message] else []
  }

  ghost predicate AllStarted(s: State) {
    && |s.connections| == |s.inputs|
    && forall j | 0 <= j < |s.inputs| :: FramesFrom(s.frames, j) == Relayed(s.connections[j].history)
  }

  lemma FramesFromMore(frames: seq<Frame>, f: Frame, j: nat)
    ensures FramesFrom(frames + [f], j) == FramesFrom(frames, j) + if f.from == j then [f.message] else []
  {
    assert (frames + [f])[..|frames|] == frames;
  }

  lemma StartedByServe(s: State, j: nat, t: State)
    requires Framed(s) && AllStarted(s) && ServeStep(s, j, t)
    ensures AllStarted(t)
  {
    var c, r := s.connections[j], Parse(s.connections[j].unread);
    ServeReads(s, j, t);
    assert ServeOk(c, s.inputs[j]);
    if r.command.Some? {
      RelayedStep(c.history, r.command.value);
    }
    forall k | 0 <= k < |s.inputs| ensures FramesFrom(t.frames, k) == Relayed(t.connections[k].history) {
      if r.command.Some? && r.command.value.Send? {
        FramesFromMore(s.frames, Frame(j, |c.history|, Message(c.name, r.command.value.message)), k);
      }
    }
  }

  lemma StartedKept(s: State, a: Action, t: State)
    requires Framed(s) && AllStarted(s) && Step(s, a, t)
    ensures AllStarted(t)
  {
    match a
    case Serve(j) => StartedByServe(s, j, t);
    case Write(f, j) => WriteAppendsLine(s, f, j, t);
  }

  ghost predicate Complete(s: State, inputs: seq<string>) {
    Framed(s) && AllStarted(s) && s.inputs == inputs
  }

  lemma CompleteKept(s: State, t: State, inputs: seq<string>)
    requires Complete(s, inputs) && Next(s, t)
    ensures Complete(t, inputs)
  {
    var a :| Step(s, a, t);
    FramedKept(s, a, t);
    StartedKept(s, a, t);
  }

  lemma AlwaysComplete(inputs: seq<string>, s: State)
    requires Reaches(Next, Init(inputs), s)
    ensures Complete(s, inputs)
  {
    forall s, t | Complete(s, inputs) && Next(s, t) ensures Complete(t, inputs) {
      CompleteKept(s, t, inputs);
    }
    InvariantReachable(Next, (u: State) => Complete(u, inputs), Init(inputs), s);
  }

  /** In every reachable state a `serve` loop has started exactly the broadcasts that what it has read calls for, which
      is a first part of what it reads in all, and all of it once the loop has ended. */
  lemma EverySendIsBroadcast(inputs: seq<string>, s: State, j: nat)
    requires Reaches(Next, Init(inputs), s) && j < |inputs|
    ensures |s.connections| == |inputs| && FramesFrom(s.frames, j) == Relayed(s.connections[j].history)
    ensures s.connections[j].history <= ReadByServe(inputs[j])
    ensures !s.connections[j].serving ==> FramesFrom(s.frames, j) == Relayed(ReadByServe(inputs[j]))
  {
    AlwaysComplete(inputs, s);
    var c := s.connections[j];
    assert ServeOk(c, inputs[j]);
    assert !c.serving ==> c.history + [] == c.history;
  }

  // ---- every write is delivered

  /** The frames that the steps of a run write to client `j`, in order. */
  function WrittenTo(actions: seq<Action>, j: nat): seq<Frame> {
    if actions == [] then []
    else
      var last := |actions| - 1;
      WrittenTo(actions[..last], j)
      + if actions[last].Write? && actions[last].j == j then [actions[last].f] else []
  }

  lemma DeliveredByStep(s: State, a: Action, t: State, j: nat)
    requires Framed(s) && j < |s.inputs| && Step(s, a, t)
    ensures Framed(t) && t.inputs == s.inputs && t.connections[j].output == Written(t.connections[j].delivered)
    ensures t.connections[j].delivered == s.connections[j].delivered + if a.Write? && a.j == j then [a.f] else []
  {
    FramedKept(s, a, t);
    match a {
      case Serve(k) => ServeReads(s, k, t);
      case Write(f, k) => WriteAppendsLine(s, f, k, t);
    }
    assert OutputOk(t.connections[j], t.inputs);
  }

  /** What a client is sent in a run is the line of each frame that the run writes to it, in order. */
  lemma {:induction false} DeliveredOverRun(inputs: seq<string>, run: seq<State>, actions: seq<Action>, j: nat)
    requires Performs(Step, run, actions) && run[0] == Init(inputs) && j < |inputs|
    ensures var s := run[|actions|];
            && Framed(s) && s.inputs == inputs
            && s.connections[j].delivered == WrittenTo(actions, j)
            && s.connections[j].output == Written(WrittenTo(actions, j))
  {
    if actions != [] {
      var last := |actions| - 1;
      PerformsLess(Step, run, actions);
      DeliveredOverRun(inputs, run[..last + 1], actions[..last], j);
      DeliveredByStep(run[last], actions[last], run[last + 1], j);
    }
  }

  // ---- end to end

  lemma ParseAllFrame(message: Command, rest: string) returns (read: Command)
    requires OneLine(message)
    ensures read.Message? && Text(read) == Text(message)
    ensures ParseAll(Encode(message) + rest) == ([read] + ParseAll(rest).0, ParseAll(rest).1)
  {
    read := ParseFrame(message, rest);
    ParseAllStep(Encode(message) + rest);
  }

  /** Messages that show, one by one, the texts of the delivered frames. */
  ghost predicate Shows(cs: seq<Command>, delivered: seq<Frame>) {
    && |cs| == |delivered|
    && forall k | 0 <= k < |cs| ::
         cs[k].Message? && delivered[k].message.Message? && Text(cs[k]) == Text(delivered[k].message)
  }

  lemma ShowsCons(c: Command, rest: seq<Command>, delivered: seq<Frame>)
    requires delivered != [] && Shows(rest, delivered[1..])
    requires c.Message? && delivered[0].message.Message? && Text(c) == Text(delivered[0].message)
    ensures Shows([c] + rest, delivered)
  {
    forall k | 0 < k < |delivered| ensures rest[k - 1].Message? && Text(rest[k - 1]) == Text(delivered[k].message) {
      assert delivered[1..][k - 1] == delivered[k];
    }
  }

  lemma {:induction false} ParseWritten(delivered: seq<Frame>) returns (cs: seq<Command>)
    requires forall f | f in delivered :: OneLine(f.message)
    ensures ParseAll(Written(delivered)) == (cs, NoError) && Shows(cs, delivered)
  {
    if delivered == [] {
      cs := [];
      ParseAllEmpty();
    } else {
      var rest := ParseWritten(delivered[1..]);
      var c := ParseAllFrame(delivered[0].message, Written(delivered[1..]));
      cs := [c] + rest;
      ShowsCons(c, rest, delivered);
    }
  }

  /** Whatever bytes the clients send and however the broadcasts interleave, what a client is sent reads, without
      error, as exactly one message for each frame written to it, with the frame's text; and each frame relays a SEND
      that some client's `serve` loop reads from that client's input, under the last NAME it reads before. */
  lemma EndToEnd(inputs: seq<string>, s: State, j: nat) returns (cs: seq<Command>)
    requires Reaches(Next, Init(inputs), s) && j < |inputs|
    ensures |s.connections| == |inputs|
    ensures ParseAll(s.connections[j].output) == (cs, NoError) && Shows(cs, s.connections[j].delivered)
    ensures forall f | f in s.connections[j].delivered :: Relays(f, inputs)
  {
    AlwaysFramed(inputs, s);
    assert OutputOk(s.connections[j], inputs);
    cs := ParseWritten(s.connections[j].delivered);
  }

  /** The same over a run with its steps: one message for each frame that the run writes to the client. */
  lemma EndToEndOverRun(inputs: seq<string>, run: seq<State>, actions: seq<Action>, j: nat) returns (cs: seq<Command>)
    requires Performs(Step, run, actions) && run[0] == Init(inputs) && j < |inputs|
    ensures |run[|actions|].connections| == |inputs|
    ensures ParseAll(run[|actions|].connections[j].output) == (cs, NoError) && Shows(cs, WrittenTo(actions, j))
    ensures forall f | f in WrittenTo(actions, j) :: Relays(f, inputs)
  {
    DeliveredOverRun(inputs, run, actions, j);
    PerformedReaches(Next, Step, run, actions);
    cs := EndToEnd(inputs, run[|actions|], j);
  }
}
