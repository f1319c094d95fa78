/** The line protocol of the chat server: its printer, its parser over a byte stream, and how they fit.
    A character stands for a byte. */
module ChatProtocol {

  datatype Option<+T> = None | Some(value: T)

  datatype Command =
    | Send(message: string)
    | Name(name: string)
    | Message(name: string, message: string)

  datatype Error = NoError | EOF | UnknownCommand

  // ---- what can be sent

  predicate WellFormed(c: Command) {
    match c
    case Send(message) => '\n' !in message
    case Name(name) => '\n' !in name
    case Message(name, message) => ' ' !in name && '\n' !in message
  }

  predicate AllWellFormed(cs: seq<Command>) {
    forall i | 0 <= i < |cs| :: WellFormed(cs[i])
  }

  // ---- the writer

  function Encode(c: Command): string {
    match c
    case Send(message) => "SEND " + message + "\n"
    case Message(name, message) => "MESSAGE " + name + " " + message + "\n"
    case Name(name) => "NAME " + name + "\n"
  }

  function EncodeAll(cs: seq<Command>): string {
    if cs == [] then "" else Encode(cs[0]) + EncodeAll(cs[1..])
  }

  // ---- the reader

  /** Where `delim` first occurs, or the length of the input if it does not. */
  function IndexOf(input: string, delim: char): (k: nat)
    ensures k <= |input|
    ensures k < |input| ==> input[k] == delim
    ensures forall i | 0 <= i < k :: input[i] != delim
  {
    if input == "" || input[0] == delim then 0 else 1 + IndexOf(input[1..], delim)
  }

  datatype Chunk = Chunk(text: string, found: bool, rest: string)

  /** What `ReadString` returns: the input up to and with the delimiter, or all of it and an end-of-file error. */
  function Split(input: string, delim: char): (c: Chunk)
    ensures c.text + c.rest == input
    ensures if c.found then c.text != "" && c.text[|c.text| - 1] == delim && delim !in c.text[..|c.text| - 1]
            else c.rest == "" && delim !in c.text
  {
    var k := IndexOf(input, delim);
    if k < |input| then Chunk(input[..k + 1], true, input[k + 1..]) else Chunk(input, false, "")
  }

  function WithoutLast(text: string): string
    requires text != ""
  {
    text[..|text| - 1]
  }

  datatype Result = Result(command: Option<Command>, error: Error, rest: string)

  /** What one `Read` returns on the given input, and what it leaves unread. It consumes a byte or reports the end of
      the input, so that the loops around it end; and what it returns is well formed, whatever the input. */
  function Parse(input: string): (r: Result)
    ensures if r.error == EOF then r.rest == "" else |r.rest| < |input|
    ensures r.command.Some? <==> r.error == NoError
    ensures r.command.Some? ==> WellFormed(r.command.value)
  {
    var first := Split(input, ' ');
    if !first.found then Result(None, EOF, first.rest) else ParseAs(KindOf(first.text), first.rest)
  }

  datatype Kind = MessageKind | SendKind | NameKind | UnknownKind

  /** The switch on the command's name. */
  function KindOf(commandName: string): Kind {
    if commandName == "MESSAGE " then MessageKind
    else if commandName == "SEND " then SendKind
    else if commandName == "NAME " then NameKind
    else UnknownKind
  }

  /** The cases of the switch, with what follows the name. */
  function ParseAs(kind: Kind, rest: string): (r: Result)
    ensures |r.rest| <= |rest| && (r.error == EOF ==> r.rest == "")
    ensures r.command.Some? <==> r.error == NoError
    ensures r.command.Some? ==> WellFormed(r.command.value)
  {
    match kind
    case MessageKind =>
      var user := Split(rest, ' ');
      if !user.found then Result(None, EOF, user.rest)
      else
        var message := Split(user.rest, '\n');
        if !message.found then Result(None, EOF, message.rest)
        else Result(Some(Message(WithoutLast(user.text), WithoutLast(message.text))), NoError, message.rest)
    case SendKind =>
      var message := Split(rest, '\n');
      if !message.found then Result(None, EOF, message.rest)
      else Result(Some(Send(WithoutLast(message.text))), NoError, message.rest)
    case NameKind =>
      var name := Split(rest, '\n');
      if !name.found then Result(None, EOF, name.rest)
      else Result(Some(Name(WithoutLast(name.text))), NoError, name.rest)
    case UnknownKind => Result(None, UnknownCommand, rest)
  }

  /** What `ReadAll` returns: the commands up to the end of the input or the first unknown one. */
  function ParseAll(input: string): (seq<Command>, Error)
    decreases |input|
  {
    var r := Parse(input);
    match r.error
    case EOF => ([], NoError)
    case UnknownCommand => ([], UnknownCommand)
    case NoError =>
      var (rest, error) := ParseAll(r.rest);
      ([r.command.value] + rest, error)
  }

  lemma ParseAllStep(input: string)
    ensures var r, all := Parse(input), ParseAll(input);
            && (r.error == EOF ==> all == ([], NoError))
            && (r.error == UnknownCommand ==> all == ([], UnknownCommand))
            && (r.error == NoError ==> r.command.Some? && all.0 == [r.command.value] + ParseAll(r.rest).0
                                       && all.1 == ParseAll(r.rest).1)
  {
  }

  // ---- round trips

  lemma Associate<T>(a: seq<T>, b: seq<T>, c: seq<T>)
    ensures a + (b + c) == (a + b) + c
  {
  }

  lemma {:induction false} SplitAt(a: string, delim: char, rest: string)
    requires delim !in a
    ensures Split(a + [delim] + rest, delim) == Chunk(a + [delim], true, rest)
  {
    var input := a + [delim] + rest;
    assert forall i | 0 <= i < |a| :: input[i] == a[i];
    assert input[|a|] == delim;
    assert IndexOf(input, delim) == |a|;
    assert input[..|a| + 1] == a + [delim] && input[|a| + 1..] == rest;
  }

  lemma SplitNowhere(a: string, delim: char)
    requires delim !in a
    ensures Split(a, delim) == Chunk(a, false, "")
  {
  }

  /** The name of a command's kind, and what its encoding holds after the name. */
  function Word(c: Command): string {
    match c
    case Send(_) => "SEND"
    case Message(_, _) => "MESSAGE"
    case Name(_) => "NAME"
  }

  function Payload(c: Command): string {
    match c
    case Send(message) => message + "\n"
    case Message(name, message) => name + " " + message + "\n"
    case Name(name) => name + "\n"
  }

  function CommandKind(c: Command): Kind {
    match c
    case Send(_) => SendKind
    case Message(_, _) => MessageKind
    case Name(_) => NameKind
  }

  lemma EncodeParts(c: Command)
    ensures Encode(c) == Word(c) + " " + Payload(c) && ' ' !in Word(c)
  {
  }

  lemma WordsTellKinds(commandName: string, c: Command)
    ensures KindOf(commandName) == CommandKind(c) <==> commandName == Word(c) + " "
  {
    match c
    case Send(_) => assert Word(c) + " " == "SEND ";
    case Message(_, _) => assert Word(c) + " " == "MESSAGE ";
    case Name(_) =>
      assert Word(c) + " " == "NAME ";
      assert "NAME "[0] == 'N' && "MESSAGE "[0] == 'M' && "SEND "[0] == 'S';
  }

  lemma ParsePayload(c: Command, rest: string)
    requires WellFormed(c)
    ensures ParseAs(CommandKind(c), Payload(c) + rest) == Result(Some(c), NoError, rest)
  {
    match c
    case Send(message) => SplitAt(message, '\n', rest);
    case Name(name) => SplitAt(name, '\n', rest);
    case Message(name, message) =>
      assert Payload(c) + rest == name + " " + (message + "\n" + rest);
      SplitAt(name, ' ', message + "\n" + rest);
      SplitAt(message, '\n', rest);
  }

  lemma ParseEncoded(c: Command, rest: string)
    requires WellFormed(c)
    ensures Parse(Encode(c) + rest) == Result(Some(c), NoError, rest)
  {
    EncodeParts(c);
    assert Encode(c) + rest == Word(c) + " " + (Payload(c) + rest);
    SplitAt(Word(c), ' ', Payload(c) + rest);
    WordsTellKinds(Word(c) + " ", c);
    ParsePayload(c, rest);
  }

  /** A command can be sent through the stream exactly when it is well formed. */
  lemma RoundTripExactly(c: Command, rest: string)
    ensures Parse(Encode(c) + rest) == Result(Some(c), NoError, rest) <==> WellFormed(c)
  {
    if WellFormed(c) {
      ParseEncoded(c, rest);
    }
  }

  lemma ParseAllCons(c: Command, rest: string)
    requires WellFormed(c)
    ensures ParseAll(Encode(c) + rest) == ([c] + ParseAll(rest).0, ParseAll(rest).1)
  {
    ParseEncoded(c, rest);
    ParseAllStep(Encode(c) + rest);
  }

  /** What is left when `ReadAll` returns with the given error: the next `Read` would report the end of the input, or an
      unknown command. */
  predicate EndsWith(tail: string, error: Error) {
    error != EOF && Parse(tail).error == if error == NoError then EOF else error
  }

  lemma {:induction false} ParseAllFollowed(cs: seq<Command>, tail: string, error: Error)
    requires AllWellFormed(cs) && EndsWith(tail, error)
    ensures ParseAll(EncodeAll(cs) + tail) == (cs, error)
  {
    if cs == [] {
      assert EncodeAll(cs) + tail == tail;
      ParseAllStep(tail);
    } else {
      Associate(Encode(cs[0]), EncodeAll(cs[1..]), tail);
      ParseAllFollowed(cs[1..], tail, error);
      ParseAllCons(cs[0], EncodeAll(cs[1..]) + tail);
      assert [cs[0]] + cs[1..] == cs;
    }
  }

  lemma ParseAllEncoded(cs: seq<Command>)
    requires AllWellFormed(cs)
    ensures ParseAll(EncodeAll(cs)) == (cs, NoError)
  {
    SplitNowhere("", ' ');
    ParseAllFollowed(cs, "", NoError);
    assert EncodeAll(cs) + "" == EncodeAll(cs);
  }

  lemma ParseAllEmpty()
    ensures ParseAll("") == ([], NoError)
  {
    ParseAllStep("");
    SplitNowhere("", ' ');
  }

  lemma {:induction false} AllParsedWellFormed(input: string)
    ensures AllWellFormed(ParseAll(input).0)
    decreases |input|
  {
    var r := Parse(input);
    ParseAllStep(input);
    if r.error == NoError {
      AllParsedWellFormed(r.rest);
    }
  }

  /** The same for lists: `ReadAll` gives back what was written exactly when all of it is well formed. */
  lemma RoundTripAllExactly(cs: seq<Command>)
    ensures ParseAll(EncodeAll(cs)) == (cs, NoError) <==> AllWellFormed(cs)
  {
    if AllWellFormed(cs) {
      ParseAllEncoded(cs);
    }
    AllParsedWellFormed(EncodeAll(cs));
  }

  // ---- what was read

  lemma LineRead(text: string, delim: char)
    requires text != "" && text[|text| - 1] == delim
    ensures text == WithoutLast(text) + [delim]
  {
  }

  lemma PayloadRead(kind: Kind, rest: string)
    ensures var r := ParseAs(kind, rest);
            r.command.Some? ==> kind == CommandKind(r.command.value) && rest == Payload(r.command.value) + r.rest
  {
    match kind
    case MessageKind => MessageRead(rest);
    case SendKind =>
      var line := Split(rest, '\n');
      if line.found {
        LineRead(line.text, '\n');
      }
    case NameKind =>
      var line := Split(rest, '\n');
      if line.found {
        LineRead(line.text, '\n');
      }
    case UnknownKind =>
  }

  lemma MessageText(user: string, line: string, rest: string)
    requires user != "" && user[|user| - 1] == ' ' && line != "" && line[|line| - 1] == '\n'
    ensures user + (line + rest) == Payload(Message(WithoutLast(user), WithoutLast(line))) + rest
  {
    LineRead(user, ' ');
    LineRead(line, '\n');
    Associate(user, WithoutLast(line), "\n");
    Associate(user, line, rest);
  }

  lemma MessageRead(rest: string)
    ensures var r := ParseAs(MessageKind, rest);
            r.command.Some? ==> r.command.value.Message? && rest == Payload(r.command.value) + r.rest
  {
    var user := Split(rest, ' ');
    if user.found {
      var line := Split(user.rest, '\n');
      if line.found {
        MessageText(user.text, line.text, line.rest);
      }
    }
  }

  /** Whatever the input, what a `Read` has consumed of it is the encoding of the command that it returns. */
  lemma ReadIsEncoded(input: string)
    ensures var r := Parse(input); r.command.Some? ==> input == Encode(r.command.value) + r.rest
  {
    var first, r := Split(input, ' '), Parse(input);
    if r.command.Some? {
      var c := r.command.value;
      PayloadRead(KindOf(first.text), first.rest);
      WordsTellKinds(first.text, c);
      EncodeParts(c);
      Associate(Word(c) + " ", Payload(c), r.rest);
    }
  }

  /** The reader accepts exactly what the writer prints. */
  lemma ReadExactly(input: string, c: Command, rest: string)
    ensures Parse(input) == Result(Some(c), NoError, rest) <==> WellFormed(c) && input == Encode(c) + rest
  {
    ReadIsEncoded(input);
    if WellFormed(c) && input == Encode(c) + rest {
      ParseEncoded(c, rest);
    }
  }

  // ---- unknown commands, and the end of the input

  /** The three names of commands, without the space that ends them. */
  predicate KnownWord(word: string) {
    word == "MESSAGE" || word == "SEND" || word == "NAME"
  }

  lemma SpaceDropped(a: string, b: string)
    ensures a + " " == b + " " <==> a == b
  {
    assert WithoutLast(a + " ") == a && WithoutLast(b + " ") == b;
  }

  lemma KindUnknown(word: string)
    ensures KindOf(word + " ") == UnknownKind <==> !KnownWord(word)
  {
    SpaceDropped(word, "MESSAGE");
    SpaceDropped(word, "SEND");
    SpaceDropped(word, "NAME");
    assert "MESSAGE" + " " == "MESSAGE " && "SEND" + " " == "SEND " && "NAME" + " " == "NAME ";
  }

  ghost predicate StartsUnknown(input: string, rest: string) {
    exists word :: ' ' !in word && !KnownWord(word) && input == word + " " + rest
  }

  /** A `Read` reports an unknown command exactly on a word that is not one of the three names, and leaves all that
      follows the space. */
  lemma UnknownExactly(input: string, rest: string)
    ensures Parse(input) == Result(None, UnknownCommand, rest) <==> StartsUnknown(input, rest)
  {
    if Parse(input) == Result(None, UnknownCommand, rest) {
      var first := Split(input, ' ');
      var word := WithoutLast(first.text);
      LineRead(first.text, ' ');
      KindUnknown(word);
      assert first.text == word + " ";
      assert ' ' !in word && !KnownWord(word) && input == word + " " + rest;
    }
    if word :| ' ' !in word && !KnownWord(word) && input == word + " " + rest {
      SplitAt(word, ' ', rest);
      KindUnknown(word);
    }
  }

  ghost predicate CutShort(input: string) {
    exists c, n :: WellFormed(c) && 0 <= n < |Encode(c)| && input == Encode(c)[..n]
  }

  lemma CutAt(c: Command, input: string, tail: string)
    requires WellFormed(c) && Encode(c) == input + tail && tail != ""
    ensures CutShort(input)
  {
    assert Encode(c)[..|input|] == input;
  }

  lemma CutPayload(kind: Kind, rest: string)
    requires kind != UnknownKind && ParseAs(kind, rest).error == EOF
    ensures CutShort((match kind case MessageKind => "MESSAGE " case SendKind => "SEND " case _ => "NAME ") + rest)
  {
    match kind
    case SendKind => CutAt(Send(rest), "SEND " + rest, "\n");
    case NameKind => CutAt(Name(rest), "NAME " + rest, "\n");
    case MessageKind =>
      var user := Split(rest, ' ');
      if user.found {
        CutMessage(rest, user);
      } else {
        assert Encode(Message(rest, "")) == "MESSAGE " + rest + " \n";
        CutAt(Message(rest, ""), "MESSAGE " + rest, " \n");
      }
  }

  lemma CutMessage(rest: string, user: Chunk)
    requires user == Split(rest, ' ') && user.found && '\n' !in user.rest
    ensures CutShort("MESSAGE " + rest)
  {
    var c := Message(WithoutLast(user.text), user.rest);
    LineRead(user.text, ' ');
    Associate("MESSAGE ", c.name, " ");
    Associate("MESSAGE ", user.text, user.rest);
    CutAt(c, "MESSAGE " + rest, "\n");
  }

  /** A `Read` reports the end of the input exactly if there is no space or the input is a command cut short; nothing is
      left then. */
  lemma EndExactly(input: string)
    ensures Parse(input) == Result(None, EOF, "") <==> ' ' !in input || CutShort(input)
  {
    if c, n :| WellFormed(c) && 0 <= n < |Encode(c)| && input == Encode(c)[..n] {
      ParseCutShort(c, n);
    }
    if ' ' !in input {
      SplitNowhere(input, ' ');
    } else if Parse(input) == Result(None, EOF, "") {
      var first := Split(input, ' ');
      CutPayload(KindOf(first.text), first.rest);
    }
  }

  /** What the three kinds of lines read as, to the letter. */
  lemma LinesRead(name: string, text: string, rest: string)
    requires '\n' !in text
    ensures Parse("SEND " + text + "\n" + rest) == Result(Some(Send(text)), NoError, rest)
    ensures Parse("NAME " + text + "\n" + rest) == Result(Some(Name(text)), NoError, rest)
    ensures ' ' !in name
        ==> Parse("MESSAGE " + name + " " + text + "\n" + rest) == Result(Some(Message(name, text)), NoError, rest)
  {
    ParseEncoded(Send(text), rest);
    ParseEncoded(Name(text), rest);
    if ' ' !in name {
      ParseEncoded(Message(name, text), rest);
    }
  }

  // ---- all that was read

  lemma {:induction false} ParseAllLeaves(input: string) returns (tail: string)
    ensures input == EncodeAll(ParseAll(input).0) + tail && EndsWith(tail, ParseAll(input).1)
    decreases |input|
  {
    ParseAllStep(input);
    var r := Parse(input);
    if r.error == NoError {
      ReadIsEncoded(input);
      tail := ParseAllLeaves(r.rest);
      EncodeAllCons(r.command.value, ParseAll(r.rest).0);
      Associate(Encode(r.command.value), EncodeAll(ParseAll(r.rest).0), tail);
    } else {
      tail := input;
    }
  }

  lemma {:induction false} EncodeAllAppend(cs: seq<Command>, c: Command)
    ensures EncodeAll(cs + [c]) == EncodeAll(cs) + Encode(c)
  {
    if cs == [] {
      assert Encode(c) + "" == "" + Encode(c);
    } else {
      assert cs + [c] == [cs[0]] + (cs[1..] + [c]);
      EncodeAllCons(cs[0], cs[1..] + [c]);
      EncodeAllAppend(cs[1..], c);
      Associate(Encode(cs[0]), EncodeAll(cs[1..]), Encode(c));
    }
  }

  lemma EncodeAllCons(c: Command, cs: seq<Command>)
    ensures EncodeAll([c] + cs) == Encode(c) + EncodeAll(cs)
  {
    assert ([c] + cs)[1..] == cs;
  }

  /** The same for `ReadAll`, on any input: it returns what was written, up to a rest that it cannot read. */
  lemma ReadAllExactly(input: string, cs: seq<Command>, error: Error)
    ensures ParseAll(input) == (cs, error)
       <==> AllWellFormed(cs) && exists tail :: input == EncodeAll(cs) + tail && EndsWith(tail, error)
  {
    AllParsedWellFormed(input);
    var tail := ParseAllLeaves(input);
    if AllWellFormed(cs) {
      if tail :| input == EncodeAll(cs) + tail && EndsWith(tail, error) {
        ParseAllFollowed(cs, tail, error);
      }
    }
  }

  /** The commands were read from the input, which is down to `left`. */
  ghost predicate AllRead(input: string, commands: seq<Command>, left: string) {
    AllWellFormed(commands) && input == EncodeAll(commands) + left
  }

  lemma AllReadNext(input: string, commands: seq<Command>, left: string)
    requires AllRead(input, commands, left) && Parse(left).command.Some?
    ensures AllRead(input, commands + [Parse(left).command.value], Parse(left).rest)
  {
    var r := Parse(left);
    ReadIsEncoded(left);
    EncodeAllAppend(commands, r.command.value);
    Associate(EncodeAll(commands), Encode(r.command.value), r.rest);
  }

  // ---- truncated streams

  /** The commands whose whole encodings fit into the first `n` bytes of the stream. */
  function Fitting(cs: seq<Command>, n: nat): seq<Command> {
    if cs == [] || |Encode(cs[0])| > n then [] else [cs[0]] + Fitting(cs[1..], n - |Encode(cs[0])|)
  }

  /** They are a prefix of the commands, and the longest that fits. */
  lemma {:induction false} FittingIsLongest(cs: seq<Command>, n: nat)
    ensures Fitting(cs, n) <= cs && |EncodeAll(Fitting(cs, n))| <= n
    ensures var k := |Fitting(cs, n)|; k < |cs| ==> |EncodeAll(cs[..k + 1])| > n
  {
    if cs != [] && |Encode(cs[0])| <= n {
      FittingIsLongest(cs[1..], n - |Encode(cs[0])|);
      var rest := Fitting(cs[1..], n - |Encode(cs[0])|);
      assert ([cs[0]] + rest)[1..] == rest;
      if |rest| < |cs[1..]| {
        assert cs[..|rest| + 2][1..] == cs[1..][..|rest| + 1];
      }
    } else if cs != [] {
      assert cs[..1] == [cs[0]];
    }
  }

  lemma PartialPayload(c: Command, n: nat)
    requires WellFormed(c) && n < |Payload(c)|
    ensures ParseAs(CommandKind(c), Payload(c)[..n]) == Result(None, EOF, "")
  {
    var part := Payload(c)[..n];
    match c
    case Send(message) =>
      assert part == message[..n];
      SplitNowhere(part, '\n');
    case Name(name) =>
      assert part == name[..n];
      SplitNowhere(part, '\n');
    case Message(name, message) =>
      if n <= |name| {
        assert part == name[..n];
        SplitNowhere(part, ' ');
      } else {
        var tail := message[..n - |name| - 1];
        assert part == name + " " + tail;
        SplitAt(name, ' ', tail);
        SplitNowhere(tail, '\n');
      }
  }

  /** A command cut short reads as the end of the input, never as an unknown command. */
  lemma ParseCutShort(c: Command, n: nat)
    requires WellFormed(c) && n < |Encode(c)|
    ensures Parse(Encode(c)[..n]) == Result(None, EOF, "")
  {
    EncodeParts(c);
    var word := Word(c);
    if n <= |word| {
      assert Encode(c)[..n] == word[..n];
      SplitNowhere(word[..n], ' ');
    } else {
      var m := n - |word| - 1;
      assert Encode(c)[..n] == word + " " + Payload(c)[..m];
      SplitAt(word, ' ', Payload(c)[..m]);
      WordsTellKinds(word + " ", c);
      PartialPayload(c, m);
    }
  }

  lemma CutStep(first: string, rest: string, n: nat, whole: string, tail: string)
    requires |first| <= n <= |first| + |rest| && rest[..n - |first|] == whole + tail
    ensures (first + rest)[..n] == (first + whole) + tail
  {
    assert (first + rest)[..n] == first + rest[..n - |first|];
    Associate(first, whole, tail);
  }

  /** A prefix of a stream is the encodings of the commands that fit, and a part, not the whole, of the next. */
  lemma {:induction false} CutStream(cs: seq<Command>, n: nat) returns (tail: string, m: nat)
    requires n <= |EncodeAll(cs)|
    ensures Fitting(cs, n) <= cs && EncodeAll(cs)[..n] == EncodeAll(Fitting(cs, n)) + tail
    ensures var k := |Fitting(cs, n)|;
            if k < |cs| then m < |Encode(cs[k])| && tail == Encode(cs[k])[..m] else tail == ""
  {
    if cs == [] {
      tail, m := "", 0;
    } else {
      var first, rest := Encode(cs[0]), EncodeAll(cs[1..]);
      if |first| <= n {
        tail, m := CutStream(cs[1..], n - |first|);
        EncodeAllCons(cs[0], Fitting(cs[1..], n - |first|));
        CutStep(first, rest, n, EncodeAll(Fitting(cs[1..], n - |first|)), tail);
      } else {
        tail, m := first[..n], n;
        assert (first + rest)[..n] == first[..n];
      }
    }
  }

  /** On any prefix of a well-formed stream `ReadAll` returns, without an error, exactly the commands that fit. */
  lemma ParseTruncated(cs: seq<Command>, n: nat)
    requires AllWellFormed(cs) && n <= |EncodeAll(cs)|
    ensures ParseAll(EncodeAll(cs)[..n]) == (Fitting(cs, n), NoError)
  {
    var tail, m := CutStream(cs, n);
    if |Fitting(cs, n)| < |cs| {
      ParseCutShort(cs[|Fitting(cs, n)|], m);
    } else {
      SplitNowhere("", ' ');
    }
    ParseAllFollowed(Fitting(cs, n), tail, NoError);
  }

  // ---- the reader and the writer as objects

  /** A reader over a connection; `unread` is what the connection still has to give. */
  class CommandReader {
    var unread: string

    constructor (input: string)
      ensures unread == input
    {
      unread := input;
    }

    /** `bufio.Reader.ReadString`. */
    method ReadString(delim: char) returns (text: string, eof: bool)
      modifies this
      ensures Chunk(text, !eof, unread) == Split(old(unread), delim)
    {
      var k := 0;
      while k < |unread| && unread[k] != delim
        invariant k <= |unread| && unread == old(unread)
        invariant forall i | 0 <= i < k :: unread[i] != delim
      {
        k := k + 1;
      }
      if k < |unread| {
        text, eof := unread[..k + 1], false;
        unread := unread[k + 1..];
      } else {
        text, eof := unread, true;
        unread := "";
      }
    }

    method Read() returns (command: Option<Command>, error: Error)
      modifies this
      ensures Result(command, error, unread) == Parse(old(unread))
    {
      var commandName, eof := ReadString(' ');
      if eof {
        return None, EOF;
      }
      if commandName == "MESSAGE " {
        var user, message;
        user, eof := ReadString(' ');
        if eof {
          return None, EOF;
        }
        message, eof := ReadString('\n');
        if eof {
          return None, EOF;
        }
        return Some(Message(user[..|user| - 1], message[..|message| - 1])), NoError;
      } else if commandName == "SEND " {
        var message;
        message, eof := ReadString('\n');
        if eof {
          return None, EOF;
        }
        return Some(Send(message[..|message| - 1])), NoError;
      } else if commandName == "NAME " {
        var name;
        name, eof := ReadString('\n');
        if eof {
          return None, EOF;
        }
        return Some(Name(name[..|name| - 1])), NoError;
      }
      return None, UnknownCommand;
    }

    method ReadAll() returns (commands: seq<Command>, error: Error)
      modifies this
      ensures (commands, error) == ParseAll(old(unread))
      ensures exists tail :: AllRead(old(unread), commands, tail)
                          && EndsWith(tail, error) && unread == Parse(tail).rest
    {
      commands := [];
      while true
        invariant AllRead(old(unread), commands, unread)
        decreases |unread|
      {
        ghost var tail := unread;
        var command, err := Read();
        if command.Some? {
          AllReadNext(old(unread), commands, tail);
          commands := commands + [command.value];
        }
        if err == EOF {
          ParseAllFollowed(commands, tail, NoError);
          return commands, NoError;
        } else if err != NoError {
          ParseAllFollowed(commands, tail, err);
          return commands, err;
        }
      }
    }
  }

  /** A writer to a connection; `written` is all that has been written to it. */
  class CommandWriter {
    var written: string

    constructor ()
      ensures written == ""
    {
      written := "";
    }

    /** `Write`; `None` stands for a value that is not a command. */
    method Write(command: Option<Command>) returns (error: Error)
      modifies this
      ensures error == if command.None? then UnknownCommand else NoError
      ensures written == old(written) + if command.None? then "" else Encode(command.value)
      ensures match command
              case Some(Send(message)) => written == old(written) + ("SEND " + message + "\n")
              case Some(Message(name, message)) => written == old(written) + ("MESSAGE " + name + " " + message + "\n")
              case Some(Name(name)) => written == old(written) + ("NAME " + name + "\n")
              case None => written == old(written)
    {
      match command
      case Some(Send(message)) =>
        written, error := written + ("SEND " + message + "\n"), NoError;
      case Some(Message(name, message)) =>
        written, error := written + ("MESSAGE " + name + " " + message + "\n"), NoError;
      case Some(Name(name)) =>
        written, error := written + ("NAME " + name + "\n"), NoError;
      case None =>
        error := UnknownCommand;
    }
  }
}
