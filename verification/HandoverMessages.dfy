/** How one process hands its sockets to the next: the text and the descriptors it
    writes, and what the reader makes of them. */
module HandoverMessages {
  import opened Prelude
  import opened Text

  const SOCKETS_PER_MESSAGE: nat := 64
  const RECEIVED := "received"
  const READY := "ready"

  /** A descriptor, by the socket it stands for. */
  type Fd = nat

  datatype Protocol = Protocol(name: string, version: nat) {
    function Header(): string {
      name + " " + ShowNat(version)
    }
  }

  datatype Socket<A> = Socket(role: string, addr: A, fd: Fd)

  /** How addresses are written and read, by code not part of this model. */
  datatype Codec<!A> = Codec(show: A -> string, parse: string -> Option<A>)

  /** What is written is read back, and is on one line. */
  ghost predicate Faithful<A(!new)>(codec: Codec<A>) {
    forall a :: codec.parse(codec.show(a)) == Some(a) && IsLine(codec.show(a))
  }

  predicate IsLine(s: string) {
    '\n' !in s && '\r' !in s
  }

  predicate IsOneWord(word: string) {
    word != "" && forall i :: 0 <= i < |word| ==> !IsWhitespace(word[i])
  }

  // ---------------------------------------------------------------------------
  // Sending

  function Line<A>(codec: Codec<A>, s: Socket<A>): string {
    s.role + " " + codec.show(s.addr)
  }

  function Body<A>(codec: Codec<A>, sockets: seq<Socket<A>>): string {
    if sockets == [] then "" else Line(codec, sockets[0]) + "\n" + Body(codec, sockets[1..])
  }

  function Fds<A>(sockets: seq<Socket<A>>): seq<Fd> {
    seq(|sockets|, i requires 0 <= i < |sockets| => sockets[i].fd)
  }

  lemma {:induction false} BodyAppend<A>(codec: Codec<A>, a: seq<Socket<A>>, b: seq<Socket<A>>)
    ensures Body(codec, a + b) == Body(codec, a) + Body(codec, b)
  {
    if a == [] {
      assert a + b == b;
    } else {
      assert (a + b)[1..] == a[1..] + b;
      BodyAppend(codec, a[1..], b);
      ConcatAssoc(Line(codec, a[0]) + "\n", Body(codec, a[1..]), Body(codec, b));
    }
  }

  /** What one `sendmsg` (and the write of whatever it left) puts on the channel. */
  datatype Message = Message(text: string, fds: seq<Fd>)

  function TextOf(messages: seq<Message>): string {
    if messages == [] then "" else messages[0].text + TextOf(messages[1..])
  }

  function FdsOf(messages: seq<Message>): seq<Fd> {
    if messages == [] then [] else messages[0].fds + FdsOf(messages[1..])
  }

  lemma {:induction false} MessagesPush(messages: seq<Message>, m: Message)
    ensures TextOf(messages + [m]) == TextOf(messages) + m.text
    ensures FdsOf(messages + [m]) == FdsOf(messages) + m.fds
  {
    if messages == [] {
      assert [m][1..] == [];
    } else {
      assert (messages + [m])[1..] == messages[1..] + [m];
      MessagesPush(messages[1..], m);
      ConcatAssoc(messages[0].text, TextOf(messages[1..]), m.text);
      ConcatAssoc(messages[0].fds, FdsOf(messages[1..]), m.fds);
    }
  }

  ghost predicate Sendable<A>(protocol: Protocol, sockets: seq<Socket<A>>) {
    IsOneWord(protocol.name) && forall i :: 0 <= i < |sockets| ==> IsOneWord(sockets[i].role)
  }

  method CheckWords<A>(protocol: Protocol, sockets: seq<Socket<A>>) returns (ok: bool)
    ensures ok == Sendable(protocol, sockets)
  {
    if !IsOneWord(protocol.name) {
      return false;
    }
    for i := 0 to |sockets|
      invariant forall j :: 0 <= j < i ==> IsOneWord(sockets[j].role)
    {
      if !IsOneWord(sockets[i].role) {
        return false;
      }
    }
    ok := true;
  }

  /** `messages` carry the header and the first `i` sockets. */
  ghost predicate SentUpTo<A>(
    codec: Codec<A>, sockets: seq<Socket<A>>, header: string, i: nat, messages: seq<Message>)
    requires i <= |sockets|
  {
    && TextOf(messages) == header + Body(codec, sockets[..i])
    && FdsOf(messages) == Fds(sockets[..i])
    && forall k :: 0 <= k < |messages| ==> |messages[k].fds| <= SOCKETS_PER_MESSAGE
  }

  lemma SentHeader<A>(codec: Codec<A>, sockets: seq<Socket<A>>, header: string)
    ensures SentUpTo(codec, sockets, header, 0, [Message(header, [])])
  {
    var m := Message(header, []);
    MessagesPush([], m);
    assert [] + [m] == [m];
    assert Body(codec, sockets[..0]) == "";
  }

  lemma BodySplit<A>(codec: Codec<A>, sockets: seq<Socket<A>>, i: nat, j: nat)
    requires i <= j <= |sockets|
    ensures Body(codec, sockets[..j]) == Body(codec, sockets[..i]) + Body(codec, sockets[i..j])
    ensures Fds(sockets[..j]) == Fds(sockets[..i]) + Fds(sockets[i..j])
  {
    BodyAppend(codec, sockets[..i], sockets[i..j]);
    assert sockets[..i] + sockets[i..j] == sockets[..j];
  }

  lemma SentNext<A>(
    codec: Codec<A>, sockets: seq<Socket<A>>, header: string, i: nat, j: nat, messages: seq<Message>)
    requires i <= j <= |sockets| && j - i <= SOCKETS_PER_MESSAGE && SentUpTo(codec, sockets, header, i, messages)
    ensures SentUpTo(codec, sockets, header, j, messages + [Message(Body(codec, sockets[i..j]), Fds(sockets[i..j]))])
  {
    var m := Message(Body(codec, sockets[i..j]), Fds(sockets[i..j]));
    MessagesPush(messages, m);
    BodySplit(codec, sockets, i, j);
    ConcatAssoc(header, Body(codec, sockets[..i]), m.text);
  }

  /** Nothing is sent unless every word is one; then the header, and the sockets
      with their lines, no more to a message than the receiver makes room for. */
  method Send<A>(codec: Codec<A>, protocol: Protocol, sockets: seq<Socket<A>>)
    returns (sent: Option<seq<Message>>)
    ensures sent.Some? <==> Sendable(protocol, sockets)
    ensures sent.Some? ==>
              && TextOf(sent.value) == protocol.Header() + "\n" + Body(codec, sockets)
              && FdsOf(sent.value) == Fds(sockets)
              && forall i :: 0 <= i < |sent.value| ==> |sent.value[i].fds| <= SOCKETS_PER_MESSAGE
  {
    var ok := CheckWords(protocol, sockets);
    if !ok {
      return None;
    }
    var header := protocol.Header() + "\n";
    var messages := [Message(header, [])];
    SentHeader(codec, sockets, header);
    var i := 0;
    while i < |sockets|
      invariant 0 <= i <= |sockets|
      invariant SentUpTo(codec, sockets, header, i, messages)
    {
      var j := Min(i + SOCKETS_PER_MESSAGE, |sockets|);
      var chunk := sockets[i..j];
      SentNext(codec, sockets, header, i, j, messages);
      messages := messages + [Message(Body(codec, chunk), Fds(chunk))];
      i := j;
    }
    assert sockets[..i] == sockets;
    sent := Some(messages);
  }

  // ---------------------------------------------------------------------------
  // Receiving

  datatype Failure =
    | SocketsLost | NotText | WrongHeader | NoAddress | MalformedAddress | FewerSockets | UnknownRole | MoreSockets

  function StripCr(s: string): string {
    if s != "" && s[|s| - 1] == '\r' then s[..|s| - 1] else s
  }

  /** `str::lines`. */
  function Lines(s: string): seq<string>
    decreases |s|
  {
    if s == "" then []
    else
      var i := Find(s, '\n');
      if i == |s| then [s] else [StripCr(s[..i])] + Lines(s[i + 1..])
  }

  /** `split_once(' ')`. */
  function SplitOnce(s: string): Option<(string, string)> {
    var i := Find(s, ' ');
    if i == |s| then None else Some((s[..i], s[i + 1..]))
  }

  function ParseLine<A>(codec: Codec<A>, roles: seq<string>, line: string, fds: seq<Fd>): Result<Socket<A>, Failure> {
    match SplitOnce(line)
    case None => Err(NoAddress)
    case Some((role, text)) =>
      match codec.parse(text)
      case None => Err(MalformedAddress)
      case Some(addr) =>
        if fds == [] then Err(FewerSockets)
        else if role !in roles then Err(UnknownRole)
        else Ok(Socket(role, addr, fds[0]))
  }

  function ParseLines<A>(codec: Codec<A>, roles: seq<string>, lines: seq<string>, fds: seq<Fd>)
    : Result<seq<Socket<A>>, Failure>
    decreases |lines|
  {
    if lines == [] then (if fds == [] then Ok([]) else Err(MoreSockets))
    else
      match ParseLine(codec, roles, lines[0], fds)
      case Err(e) => Err(e)
      case Ok(socket) =>
        match ParseLines(codec, roles, lines[1..], fds[1..])
        case Err(e) => Err(e)
        case Ok(rest) => Ok([socket] + rest)
  }

  function Parse<A>(codec: Codec<A>, protocol: Protocol, roles: seq<string>, text: string, fds: seq<Fd>)
    : Result<seq<Socket<A>>, Failure>
  {
    var lines := Lines(text);
    if lines == [] || lines[0] != protocol.Header() then Err(WrongHeader)
    else ParseLines(codec, roles, lines[1..], fds)
  }

  /** What one `recvmsg` gives: some bytes (none at the end), the descriptors that
      came with them, and whether any were lost. */
  datatype Read = Read(text: string, fds: seq<Fd>, truncated: bool)

  function AsMessages(received: seq<Read>): seq<Message> {
    seq(|received|, i requires 0 <= i < |received| => Message(received[i].text, received[i].fds))
  }

  /** The reads up to the end of the stream are `received`, whatever their sizes,
      and `isText` says of bytes whether they are UTF-8. A receipt, with this
      process's id, is sent only for what is returned. */
  method Receive<A>(
    codec: Codec<A>, protocol: Protocol, roles: seq<string>, received: seq<Read>, isText: string -> bool, pid: nat)
    returns (result: Result<seq<Socket<A>>, Failure>, receipt: Option<string>)
    requires forall i :: 0 <= i < |received| ==> received[i].text != ""
    ensures var text, fds := TextOf(AsMessages(received)), FdsOf(AsMessages(received));
            result ==
              if exists i :: 0 <= i < |received| && received[i].truncated then Err(SocketsLost)
              else if !isText(text) then Err(NotText)
              else Parse(codec, protocol, roles, text, fds)
    ensures receipt == if result.Ok? then Some(ReceiptOf(pid) + "\n") else None
  {
    receipt := None;
    var collected := ReadToEnd(received);
    if collected.None? {
      return Err(SocketsLost), None;
    }
    var Message(text, fds) := collected.value;
    if !isText(text) {
      return Err(NotText), None;
    }
    var lines := Lines(text);
    if lines == [] || lines[0] != protocol.Header() {
      return Err(WrongHeader), None;
    }
    result := PairUp(codec, roles, lines[1..], fds);
    if result.Ok? {
      receipt := Some(ReceiptOf(pid) + "\n");
    }
  }

  /** All the text and descriptors there are, unless some were lost on the way. */
  method ReadToEnd(received: seq<Read>) returns (collected: Option<Message>)
    ensures collected.None? <==> exists i :: 0 <= i < |received| && received[i].truncated
    ensures collected.Some? ==> collected.value == Message(TextOf(AsMessages(received)), FdsOf(AsMessages(received)))
  {
    var text, fds := "", [];
    for i := 0 to |received|
      invariant forall j :: 0 <= j < i ==> !received[j].truncated
      invariant text == TextOf(AsMessages(received[..i])) && fds == FdsOf(AsMessages(received[..i]))
    {
      if received[i].truncated {
        return None;
      }
      fds := fds + received[i].fds;
      text := text + received[i].text;
      MessagesPush(AsMessages(received[..i]), Message(received[i].text, received[i].fds));
      assert AsMessages(received[..i + 1]) == AsMessages(received[..i]) + [Message(received[i].text, received[i].fds)];
    }
    assert received[..|received|] == received;
    collected := Some(Message(text, fds));
  }

  /** Each line takes the next descriptor. */
  method PairUp<A>(codec: Codec<A>, roles: seq<string>, lines: seq<string>, fds: seq<Fd>)
    returns (result: Result<seq<Socket<A>>, Failure>)
    ensures result == ParseLines(codec, roles, lines, fds)
  {
    var sockets: seq<Socket<A>> := [];
    PrependedNothing(ParseLines(codec, roles, lines, fds));
    var i := 0;
    while i < |lines|
      invariant 0 <= i <= |lines| && i <= |fds|
      invariant Prepended(sockets, ParseLines(codec, roles, lines[i..], fds[i..])) ==
                ParseLines(codec, roles, lines, fds)
    {
      var one := ParseLine(codec, roles, lines[i], fds[i..]);
      if one.Err? {
        return Err(one.error);
      }
      assert lines[i..][1..] == lines[i + 1..] && fds[i..][1..] == fds[i + 1..];
      PrependedNext(sockets, one.value, ParseLines(codec, roles, lines[i + 1..], fds[i + 1..]));
      sockets := sockets + [one.value];
      i := i + 1;
    }
    assert lines[i..] == [];
    if i < |fds| {
      return Err(MoreSockets);
    }
    assert sockets + [] == sockets;
    result := Ok(sockets);
  }

  lemma PrependedNothing<A>(rest: Result<seq<Socket<A>>, Failure>)
    ensures Prepended([], rest) == rest
  {
    if rest.Ok? {
      assert [] + rest.value == rest.value;
    }
  }

  function Prepended<A>(first: seq<Socket<A>>, rest: Result<seq<Socket<A>>, Failure>): Result<seq<Socket<A>>, Failure> {
    if rest.Ok? then Ok(first + rest.value) else rest
  }

  lemma PrependedNext<A>(first: seq<Socket<A>>, one: Socket<A>, rest: Result<seq<Socket<A>>, Failure>)
    ensures Prepended(first, Prepended([one], rest)) == Prepended(first + [one], rest)
  {
    if rest.Ok? {
      assert first + ([one] + rest.value) == first + [one] + rest.value;
    }
  }

  // ---------------------------------------------------------------------------
  // The round trip

  lemma LinesOf(line: string, rest: string)
    requires IsLine(line)
    ensures Lines(line + "\n" + rest) == [line] + Lines(rest)
  {
    var s := line + "\n" + rest;
    assert s[..|line|] == line && s[|line|] == '\n' && s[|line| + 1..] == rest;
    FindIs(s, '\n', |line|);
  }

  lemma WordIsLine(word: string)
    requires IsOneWord(word)
    ensures IsLine(word) && ' ' !in word
  {
  }

  lemma LineParses<A(!new)>(codec: Codec<A>, roles: seq<string>, s: Socket<A>, fds: seq<Fd>)
    requires Faithful(codec) && IsOneWord(s.role) && s.role in roles && fds != [] && fds[0] == s.fd
    ensures IsLine(Line(codec, s))
    ensures ParseLine(codec, roles, Line(codec, s), fds) == Ok(s)
  {
    WordIsLine(s.role);
    var line := Line(codec, s);
    assert line[..|s.role|] == s.role && line[|s.role|] == ' ' && line[|s.role| + 1..] == codec.show(s.addr);
    FindIs(line, ' ', |s.role|);
    assert IsLine(codec.show(s.addr));
  }

  /** In a role the receiver knows, and can be told. */
  predicate Known<A>(roles: seq<string>, s: Socket<A>) {
    IsOneWord(s.role) && s.role in roles
  }

  lemma LinesOfBody<A(!new)>(codec: Codec<A>, roles: seq<string>, sockets: seq<Socket<A>>)
    requires Faithful(codec) && sockets != [] && Known(roles, sockets[0])
    ensures Lines(Body(codec, sockets)) == [Line(codec, sockets[0])] + Lines(Body(codec, sockets[1..]))
    ensures ParseLine(codec, roles, Line(codec, sockets[0]), Fds(sockets)) == Ok(sockets[0])
    ensures Fds(sockets)[1..] == Fds(sockets[1..])
  {
    LineParses(codec, roles, sockets[0], Fds(sockets));
    LinesOf(Line(codec, sockets[0]), Body(codec, sockets[1..]));
  }

  ghost predicate Parses<A>(codec: Codec<A>, roles: seq<string>, sockets: seq<Socket<A>>) {
    ParseLines(codec, roles, Lines(Body(codec, sockets)), Fds(sockets)) == Ok(sockets)
  }

  lemma {:induction false} BodyParses<A(!new)>(codec: Codec<A>, roles: seq<string>, sockets: seq<Socket<A>>)
    requires Faithful(codec) && forall i :: 0 <= i < |sockets| ==> Known(roles, sockets[i])
    ensures Parses(codec, roles, sockets)
  {
    if sockets != [] {
      BodyParses(codec, roles, sockets[1..]);
      LinesOfBody(codec, roles, sockets);
      var line, lines := Line(codec, sockets[0]), Lines(Body(codec, sockets[1..]));
      ParsedFirst(codec, roles, line, lines, Fds(sockets), Fds(sockets[1..]), sockets);
    }
  }

  lemma ParsedFirst<A>(
    codec: Codec<A>, roles: seq<string>, line: string, lines: seq<string>, fds: seq<Fd>, others: seq<Fd>,
    sockets: seq<Socket<A>>)
    requires fds != [] && fds[1..] == others && sockets != []
    requires ParseLine(codec, roles, line, fds) == Ok(sockets[0])
    requires ParseLines(codec, roles, lines, others) == Ok(sockets[1..])
    ensures ParseLines(codec, roles, [line] + lines, fds) == Ok(sockets)
  {
    assert ([line] + lines)[1..] == lines;
    assert [sockets[0]] + sockets[1..] == sockets;
  }

  lemma HeaderIsLine(protocol: Protocol)
    requires IsOneWord(protocol.name)
    ensures IsLine(protocol.Header())
  {
    WordIsLine(protocol.name);
    var digits := ShowNat(protocol.version);
    assert forall i :: 0 <= i < |digits| ==> IsDigit(digits[i]);
  }

  /** Handover messages round-trip: whatever sockets could be sent, in roles the
      receiver knows, are received as they were sent, in order and each with its
      own descriptor, however the stream is cut into reads. */
  lemma {:induction false} RoundTrip<A(!new)>(
    codec: Codec<A>, protocol: Protocol, roles: seq<string>, sockets: seq<Socket<A>>, received: seq<Read>)
    requires Faithful(codec) && Sendable(protocol, sockets)
    requires forall i :: 0 <= i < |sockets| ==> sockets[i].role in roles
    requires TextOf(AsMessages(received)) == protocol.Header() + "\n" + Body(codec, sockets)
    requires FdsOf(AsMessages(received)) == Fds(sockets)
    ensures Parse(codec, protocol, roles, TextOf(AsMessages(received)), FdsOf(AsMessages(received))) == Ok(sockets)
  {
    HeaderIsLine(protocol);
    LinesOf(protocol.Header(), Body(codec, sockets));
    var lines := Lines(protocol.Header() + "\n" + Body(codec, sockets));
    assert lines[1..] == Lines(Body(codec, sockets));
    assert forall i :: 0 <= i < |sockets| ==> Known(roles, sockets[i]);
    BodyParses(codec, roles, sockets);
  }

  ghost predicate WellFormed<A>(codec: Codec<A>, roles: seq<string>, line: string) {
    SplitOnce(line).Some? && codec.parse(SplitOnce(line).value.1).Some? && SplitOnce(line).value.0 in roles
  }

  /** What is accepted, exactly: lines that each say a known role and an address,
      and a descriptor for each line. Anything else is refused, and what is
      accepted pairs the lines and the descriptors in the order they came. */
  lemma {:induction false} AcceptedIff<A>(codec: Codec<A>, roles: seq<string>, lines: seq<string>, fds: seq<Fd>)
    ensures ParseLines(codec, roles, lines, fds).Ok? <==>
            |lines| == |fds| && forall i :: 0 <= i < |lines| ==> WellFormed(codec, roles, lines[i])
    ensures ParseLines(codec, roles, lines, fds).Ok? ==>
              var sockets := ParseLines(codec, roles, lines, fds).value;
              && |sockets| == |lines|
              && forall i :: 0 <= i < |lines| ==>
                   && sockets[i].fd == fds[i]
                   && SplitOnce(lines[i]).Some? && sockets[i].role == SplitOnce(lines[i]).value.0
                   && codec.parse(SplitOnce(lines[i]).value.1) == Some(sockets[i].addr)
    decreases |lines|
  {
    if lines != [] {
      if fds != [] {
        AcceptedIff(codec, roles, lines[1..], fds[1..]);
        assert forall i :: 0 < i < |lines| ==> lines[i] == lines[1..][i - 1];
        if ParseLines(codec, roles, lines, fds).Ok? {
          var rest := ParseLines(codec, roles, lines[1..], fds[1..]).value;
          var sockets := ParseLines(codec, roles, lines, fds).value;
          assert forall i :: 0 < i < |lines| ==> sockets[i] == rest[i - 1] && fds[i] == fds[1..][i - 1];
        }
      }
    }
  }

  // ---------------------------------------------------------------------------
  // The answers

  /** One attempt at reading a byte: at what time, and how it came out. */
  datatype Outcome = Byte(c: char) | TryAgain | EndOfStream | Broken

  datatype Attempt = Attempt(now: int, outcome: Outcome)

  datatype ReadFailure = TimedOut | WentAway | ReadError | LineNotText

  /** The bytes that attempts read. */
  function ByteOf(attempt: Attempt): string {
    if attempt.outcome.Byte? then [attempt.outcome.c] else []
  }

  function Bytes(attempts: seq<Attempt>): string {
    if attempts == [] then "" else ByteOf(attempts[0]) + Bytes(attempts[1..])
  }

  lemma {:induction false} BytesAppend(a: seq<Attempt>, b: seq<Attempt>)
    ensures Bytes(a + b) == Bytes(a) + Bytes(b)
  {
    if a == [] {
      assert a + b == b;
    } else {
      assert (a + b)[1..] == a[1..] + b;
      BytesAppend(a[1..], b);
      ConcatAssoc(ByteOf(a[0]), Bytes(a[1..]), Bytes(b));
    }
  }

  lemma BytesPush(attempts: seq<Attempt>, a: Attempt)
    ensures Bytes(attempts + [a]) == Bytes(attempts) + ByteOf(a)
  {
    BytesAppend(attempts, [a]);
    assert [a][1..] == [];
  }

  lemma BytesPrefix(attempts: seq<Attempt>, u: nat, v: nat)
    requires u <= v <= |attempts|
    ensures Bytes(attempts[..u]) <= Bytes(attempts[..v])
  {
    BytesAppend(attempts[..u], attempts[u..v]);
    assert attempts[..u] + attempts[u..v] == attempts[..v];
  }

  /** The first `used` attempts, all before the deadline, read `line` and its break
      and nothing after it. */
  ghost predicate Delivers(attempts: seq<Attempt>, deadline: int, used: nat, line: string) {
    && 0 < used <= |attempts| && '\n' !in line
    && (forall i :: 0 <= i < used ==>
          attempts[i].now < deadline && (attempts[i].outcome.Byte? || attempts[i].outcome.TryAgain?))
    && attempts[used - 1].outcome == Byte('\n')
    && Bytes(attempts[..used]) == line + "\n"
  }

  /** No line is delivered any more after attempts that read no line break and one
      that ends the wait. */
  lemma DeliversNothing(attempts: seq<Attempt>, deadline: int, used: nat, u: nat, line: string)
    requires used <= |attempts| && '\n' !in Bytes(attempts[..used]) && Delivers(attempts, deadline, u, line)
    ensures used < u
  {
    assert Bytes(attempts[..u])[|line|] == '\n';
    if u <= used {
      BytesPrefix(attempts, u, used);
    }
  }

  lemma NeverDelivers(attempts: seq<Attempt>, deadline: int, used: nat)
    requires used <= |attempts| && '\n' !in Bytes(attempts[..used])
    requires used < |attempts| ==>
               || attempts[used].now >= deadline
               || attempts[used].outcome.EndOfStream? || attempts[used].outcome.Broken?
    ensures forall u, l :: !Delivers(attempts, deadline, u, l)
  {
    forall u, l | Delivers(attempts, deadline, u, l) ensures false {
      DeliversNothing(attempts, deadline, used, u, l);
    }
  }

  /** A line that is delivered is delivered once. */
  lemma DeliversOnce(attempts: seq<Attempt>, deadline: int, used: nat, line: string, u: nat, other: string)
    requires Delivers(attempts, deadline, used, line) && Delivers(attempts, deadline, u, other)
    ensures u == used && other == line
  {
    NoBreakBefore(attempts, deadline, used, line);
    NoBreakBefore(attempts, deadline, u, other);
    if u < used {
      DeliversNothing(attempts, deadline, used - 1, u, other);
    } else if used < u {
      DeliversNothing(attempts, deadline, u - 1, used, line);
    }
    assert (line + "\n")[..|line|] == line && (other + "\n")[..|other|] == other;
  }

  lemma NoBreakBefore(attempts: seq<Attempt>, deadline: int, used: nat, line: string)
    requires Delivers(attempts, deadline, used, line)
    ensures Bytes(attempts[..used - 1]) == line
  {
    BytesPush(attempts[..used - 1], attempts[used - 1]);
    assert attempts[..used - 1] + [attempts[used - 1]] == attempts[..used];
    assert (Bytes(attempts[..used - 1]) + "\n")[..|line|] == (line + "\n")[..|line|];
  }

  ghost predicate InTime(attempts: seq<Attempt>, deadline: int) {
    forall i :: 0 <= i < |attempts| ==>
      attempts[i].now < deadline && (attempts[i].outcome.Byte? || attempts[i].outcome.TryAgain?)
  }

  /** A line sent is delivered, in however many attempts, and what follows it is
      left for those that come after. */
  lemma {:induction false} SentIsDelivered(attempts: seq<Attempt>, deadline: int, line: string, rest: string)
    returns (used: nat)
    requires InTime(attempts, deadline) && '\n' !in line && Bytes(attempts) == line + "\n" + rest
    ensures Delivers(attempts, deadline, used, line) && Bytes(attempts[used..]) == rest
    decreases |attempts|
  {
    var all, first := line + "\n" + rest, ByteOf(attempts[0]);
    if first == "\n" {
      assert all[0] == '\n' && line == "";
      used := 1;
      assert attempts[..1] == [attempts[0]] && [attempts[0]][1..] == [];
      assert all[1..] == rest;
    } else {
      assert first <= line;
      var left := line[|first|..];
      assert Bytes(attempts[1..]) == all[|first|..] == left + "\n" + rest;
      var later := SentIsDelivered(attempts[1..], deadline, left, rest);
      DeliversLater(attempts, deadline, later, left);
      used := later + 1;
      assert first + left == line && attempts[used..] == attempts[1..][later..];
    }
  }

  lemma TwoLinesDelivered(attempts: seq<Attempt>, deadline: int, first: string, second: string)
    returns (used: nat, later: nat)
    requires InTime(attempts, deadline) && '\n' !in first && '\n' !in second
    requires Bytes(attempts) == first + "\n" + (second + "\n")
    ensures Delivers(attempts, deadline, used, first) && Delivers(attempts[used..], deadline, later, second)
  {
    used := SentIsDelivered(attempts, deadline, first, second + "\n");
    assert second + "\n" + "" == second + "\n";
    later := SentIsDelivered(attempts[used..], deadline, second, "");
  }

  lemma DeliversLater(attempts: seq<Attempt>, deadline: int, used: nat, line: string)
    requires attempts != [] && InTime(attempts[..1], deadline) && ByteOf(attempts[0]) != "\n"
    requires Delivers(attempts[1..], deadline, used, line)
    ensures Delivers(attempts, deadline, used + 1, ByteOf(attempts[0]) + line)
  {
    var now := attempts[..used + 1];
    assert now[1..] == attempts[1..][..used] && now[0] == attempts[0] == attempts[..1][0];
    assert forall i :: 1 <= i < used + 1 ==> attempts[i] == attempts[1..][i - 1];
    ConcatAssoc(ByteOf(attempts[0]), line, "\n");
  }

  /** `read_line`: reads byte by byte, and so takes a line and its break and no
      more; the wait ends with the line, with the stream, with an
      error, or at the deadline, when the attempts there were are over too. */
  method ReadLine(attempts: seq<Attempt>, deadline: int, isText: string -> bool)
    returns (line: Result<string, ReadFailure>, used: nat)
    ensures used <= |attempts|
    // What is delivered is what is read, and nothing else is.
    ensures forall u, l :: Delivers(attempts, deadline, u, l) ==>
              used == u && line == if isText(l) then Ok(l) else Err(LineNotText)
    ensures line.Ok? ==> Delivers(attempts, deadline, used, line.value) && isText(line.value)
    ensures line == Err(LineNotText) ==> exists l :: Delivers(attempts, deadline, used, l)
    ensures line == Err(TimedOut) && used < |attempts| ==> deadline <= attempts[used].now
    ensures line == Err(WentAway) ==> used < |attempts| && attempts[used].outcome.EndOfStream?
    ensures line == Err(ReadError) ==> used < |attempts| && attempts[used].outcome.Broken?
  {
    var read := "";
    used := 0;
    while used < |attempts|
      invariant used <= |attempts|
      invariant Bytes(attempts[..used]) == read && '\n' !in read
      invariant forall i :: 0 <= i < used ==>
                  attempts[i].now < deadline && (attempts[i].outcome.Byte? || attempts[i].outcome.TryAgain?)
    {
      var Attempt(now, outcome) := attempts[used];
      if deadline <= now {
        NeverDelivers(attempts, deadline, used);
        return Err(TimedOut), used;
      }
      BytesPush(attempts[..used], attempts[used]);
      assert attempts[..used + 1] == attempts[..used] + [attempts[used]];
      match outcome {
        case TryAgain =>
        case EndOfStream =>
          NeverDelivers(attempts, deadline, used);
          return Err(WentAway), used;
        case Broken =>
          NeverDelivers(attempts, deadline, used);
          return Err(ReadError), used;
        case Byte(c) =>
          if c == '\n' {
            assert Delivers(attempts, deadline, used + 1, read);
            forall u, l | Delivers(attempts, deadline, u, l)
              ensures u == used + 1 && l == read
            {
              DeliversOnce(attempts, deadline, used + 1, read, u, l);
            }
            return if isText(read) then Ok(read) else Err(LineNotText), used + 1;
          }
          read := read + [c];
      }
      used := used + 1;
    }
    NeverDelivers(attempts, deadline, used);
    line := Err(TimedOut);
  }

  /** `await_receipt`, of the line read: the process id it names. */
  function ParseReceipt(line: string): Option<nat> {
    if StartsWith(line, RECEIVED) then ParseNat(Trim(line[|RECEIVED|..]), TWO_TO_THE_32) else None
  }

  function ReceiptOf(pid: nat): string {
    RECEIVED + " " + ShowNat(pid)
  }

  lemma ReceiptIsLine(pid: nat)
    ensures '\n' !in ReceiptOf(pid)
  {
    var digits := ShowNat(pid);
    assert forall i :: 0 <= i < |digits| ==> IsDigit(digits[i]);
    assert '\n' !in digits && '\n' !in RECEIVED + " ";
  }

  lemma AfterReceived(digits: string)
    ensures StartsWith(RECEIVED + " " + digits, RECEIVED)
    ensures (RECEIVED + " " + digits)[|RECEIVED|..] == " " + digits
  {
  }

  /** The receipt a successor sends names it to whoever reads it. */
  lemma ReceiptReadsBack(pid: nat)
    requires pid < TWO_TO_THE_32
    ensures ParseReceipt(ReceiptOf(pid)) == Some(pid)
  {
    var digits := ShowNat(pid);
    AfterReceived(digits);
    assert IsDigit(digits[0]) && IsDigit(digits[|digits| - 1]);
    TrimAfterSpace(digits);
    ParseShown(pid, TWO_TO_THE_32);
  }

  lemma TrimAfterSpace(s: string)
    requires s != "" && !IsWhitespace(s[0]) && !IsWhitespace(s[|s| - 1])
    ensures Trim(" " + s) == s
  {
    var padded := " " + s;
    assert padded[0] == ' ' && padded[1..] == s;
    assert TrimStart(padded) == TrimStart(s);
    assert TrimStart(s) == s;
    assert TrimEnd(s) == s;
  }

  /** Two lines one after the other are read one after the other: the first read
      leaves the second whole. Here the receipt, and the word that follows it. */
  lemma LinesAreKeptApart(attempts: seq<Attempt>, used: nat, line: string, first: string, second: string)
    requires used <= |attempts| && '\n' !in line && '\n' !in first
    requires Bytes(attempts[..used]) == line + "\n"
    requires Bytes(attempts) == first + "\n" + second
    ensures line == first && Bytes(attempts[used..]) == second
  {
    BytesAppend(attempts[..used], attempts[used..]);
    assert attempts[..used] + attempts[used..] == attempts;
    var all := first + "\n" + second;
    assert all == line + "\n" + Bytes(attempts[used..]);
    assert all[|line|] == '\n' && all[|first|] == '\n';
    assert all[..|line|] == line && all[..|first|] == first;
    FindIs(all, '\n', |line|);
    FindIs(all, '\n', |first|);
    assert all[|line| + 1..] == Bytes(attempts[used..]) && all[|first| + 1..] == second;
  }
}
