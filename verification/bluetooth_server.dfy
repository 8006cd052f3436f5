/**
  The line protocol of bluetooth_server.py: `handle_client` reassembles
  newline-terminated commands from the chunks `recv` returns, hands each
  non-blank one to the command callback, and writes the reply back; plus the
  connection bookkeeping of `close_client` and `stop`.

  Sockets are not modelled. A read is already decoded (or known not to
  decode); the engine is a fold over the reads. The callback is any function
  of an application state `S` and the command; it may raise.
 */
module BluetoothServer {
  import opened Common
  import opened Text

  /** What one `recv` yields. */
  datatype Read =
    | Received(text: string)   // a non-empty chunk, decoded as UTF-8
    | Undecodable              // a chunk that is not valid UTF-8
    | PeerClosed               // a zero-length read: the client disconnected
    | ReadFailed               // `recv` raised `OSError`

  /** What the command callback does with one command. */
  datatype Answer = Answered(text: string) | Raised

  type Callback<!S> = (S, string) -> (Answer, S)

  /** The reply sent when the callback raises (line 196). */
  const InternalError: string := "ERR:INTERNAL_ERROR\n"

  /**
    The bytes written for a callback's reply (lines 186-191): nothing for an
    empty reply, otherwise the reply with a newline added unless it already
    ends in one.
   */
  function WireText(reply: string): (w: string)
    ensures reply == "" <==> w == ""
    ensures reply != "" ==> EndsWith(w, "\n") && StartsWith(w, reply) && |w| <= |reply| + 1
    ensures EndsWith(reply, "\n") ==> w == reply
  {
    if reply == "" then ""
    else if EndsWith(reply, "\n") then reply
    else reply + "\n"
  }

  /** Framing a framed reply adds nothing. */
  lemma WireTextIdempotent(reply: string)
    ensures WireText(WireText(reply)) == WireText(reply)
  {
  }

  /** The effect of handling some lines: commands dispatched, text sent, new state. */
  datatype Outcome<S> = Outcome(commands: seq<string>, sent: string, app: S)

  /** One complete line (lines 175-199). */
  function HandleLine<S>(callback: Option<Callback<S>>, line: string, app: S): (o: Outcome<S>)
    ensures Strip(line) == "" ==> o == Outcome([], "", app)
    ensures Strip(line) != "" ==> o.commands == [Strip(line)]
    ensures callback.None? ==> o.sent == "" && o.app == app
  {
    var command := Strip(line);
    if command == "" then Outcome([], "", app)
    else
      match callback
      case None => Outcome([command], "", app)
      case Some(f) =>
        var (answer, next) := f(app, command);
        match answer
        case Answered(text) => Outcome([command], WireText(text), next)
        case Raised => Outcome([command], InternalError, next)
  }

  /** The buffer left over and the effect of the lines taken from it. */
  datatype Drained<S> = Drained(rest: string, commands: seq<string>, sent: string, app: S)

  /**
    The inner loop (lines 170-172): while the buffer holds a newline, take
    the text before the first one as a line and keep the text after it.
   */
  function Drain<S>(callback: Option<Callback<S>>, buffer: string, app: S): (d: Drained<S>)
    ensures '\n' !in d.rest
    ensures callback.None? ==> d.sent == "" && d.app == app
    decreases |buffer|
  {
    if '\n' !in buffer then Drained(buffer, [], "", app)
    else
      var i := IndexOf(buffer, '\n');
      var o := HandleLine(callback, buffer[..i], app);
      var d := Drain(callback, buffer[i + 1..], o.app);
      Drained(d.rest, o.commands + d.commands, o.sent + d.sent, d.app)
  }

  /** The non-blank stripped lines, in order: what the loop dispatches. */
  function Commands(lines: seq<string>): (cs: seq<string>)
    ensures forall k :: 0 <= k < |cs| ==> cs[k] != ""
  {
    if lines == [] then []
    else (if Strip(lines[0]) == "" then [] else [Strip(lines[0])]) + Commands(lines[1..])
  }

  /**
    The loop takes exactly the lines `buffer.split('\n')` yields except the
    last, and keeps the last piece (the text after the final newline) as the
    new buffer.
   */
  ghost predicate DrainsAsSplit<S>(callback: Option<Callback<S>>, buffer: string, app: S) {
    var pieces := Split(buffer, '\n');
    var d := Drain(callback, buffer, app);
    && d.rest == pieces[|pieces| - 1]
    && d.commands == Commands(pieces[..|pieces| - 1])
  }

  /** Every buffer drains as it splits, whatever the callback does. */
  lemma {:induction false} DrainIsSplit<S>(callback: Option<Callback<S>>, buffer: string, app: S)
    ensures DrainsAsSplit(callback, buffer, app)
    decreases |buffer|
  {
    if '\n' in buffer {
      var i := IndexOf(buffer, '\n');
      var line, rest := buffer[..i], buffer[i + 1..];
      AroundLine(buffer);
      DrainIsSplit(callback, rest, HandleLine(callback, line, app).app);
      DrainIsSplitCons(callback, line, rest, app);
    } else {
      DrainIsSplitNoLine(callback, buffer, app);
    }
  }

  /** A buffer holding a newline is its first line, the newline and the rest. */
  lemma AroundLine(buffer: string)
    requires '\n' in buffer
    ensures var i := IndexOf(buffer, '\n'); buffer == buffer[..i] + "\n" + buffer[i + 1..]
  {
    AroundFirst(buffer, '\n');
  }

  /** The case of `DrainIsSplit` where the buffer holds no newline: one piece, kept whole. */
  lemma DrainIsSplitNoLine<S>(callback: Option<Callback<S>>, buffer: string, app: S)
    requires '\n' !in buffer
    ensures DrainsAsSplit(callback, buffer, app)
  {
    var pieces := Split(buffer, '\n');
    assert pieces == [buffer];
    assert pieces[..|pieces| - 1] == [];
    DrainNoLine(callback, buffer, app);
  }

  /** A line in front of a buffer that drains as it splits gives a buffer that drains as it splits. */
  lemma DrainIsSplitCons<S>(callback: Option<Callback<S>>, line: string, rest: string, app: S)
    requires '\n' !in line
    requires DrainsAsSplit(callback, rest, HandleLine(callback, line, app).app)
    ensures DrainsAsSplit(callback, line + "\n" + rest, app)
  {
    var o := HandleLine(callback, line, app);
    var e := Drain(callback, rest, o.app);
    DrainCons(callback, line, rest, app);
    SplitCons(line, rest, '\n');
    var buffer := line + "\n" + rest;
    ConsShape(line, o, e, Split(rest, '\n'), Drain(callback, buffer, app), Split(buffer, '\n'));
  }

  /**
    The list fact behind `DrainIsSplitCons`, over plain values: putting a
    line's outcome in front of a drain that matches `tail` matches `[line] + tail`.
   */
  lemma ConsShape<S>(line: string, o: Outcome<S>, e: Drained<S>, tail: seq<string>, d: Drained<S>, pieces: seq<string>)
    requires |tail| >= 1 && e.rest == tail[|tail| - 1] && e.commands == Commands(tail[..|tail| - 1])
    requires o.commands == if Strip(line) == "" then [] else [Strip(line)]
    requires pieces == [line] + tail && d.rest == e.rest && d.commands == o.commands + e.commands
    ensures d.rest == pieces[|pieces| - 1] && d.commands == Commands(pieces[..|pieces| - 1])
  {
    CommandsOfInit(line, tail);
  }

  /** Draining a buffer that starts with a complete line handles that line, then drains the rest. */
  lemma DrainCons<S>(callback: Option<Callback<S>>, line: string, rest: string, app: S)
    requires '\n' !in line
    ensures var o := HandleLine(callback, line, app);
      var e := Drain(callback, rest, o.app);
      Drain(callback, line + "\n" + rest, app) == Drained(e.rest, o.commands + e.commands, o.sent + e.sent, e.app)
  {
    var buffer := line + "\n" + rest;
    assert buffer == (line + "\n") + rest;
    IndexOfAppend(line + "\n", rest, '\n');
    assert (line + "\n")[|line|] == '\n';
    assert buffer[..|line|] == line;
    assert buffer[|line| + 1..] == rest;
    DrainStep(callback, buffer, app);
  }

  /** Dropping the last line of `[line] + tail` keeps `line` as the first command candidate. */
  lemma CommandsOfInit(line: string, tail: seq<string>)
    requires |tail| >= 1
    ensures var pieces := [line] + tail;
      && pieces[|pieces| - 1] == tail[|tail| - 1]
      && Commands(pieces[..|pieces| - 1])
         == (if Strip(line) == "" then [] else [Strip(line)]) + Commands(tail[..|tail| - 1])
  {
    var pieces := [line] + tail;
    var init := pieces[..|pieces| - 1];
    assert init == [line] + tail[..|tail| - 1];
    assert init[0] == line && init[1..] == tail[..|tail| - 1];
  }

  /** What `DrainAppend` promises for `x` and `y`. */
  ghost predicate DrainsInTwo<S>(callback: Option<Callback<S>>, x: string, y: string, app: S) {
    var d1 := Drain(callback, x, app);
    var d2 := Drain(callback, d1.rest + y, d1.app);
    Drain(callback, x + y, app) == Drained(d2.rest, d1.commands + d2.commands, d1.sent + d2.sent, d2.app)
  }

  /**
    Draining `x + y` is draining `x` and then draining what `x` left over
    followed by `y`.
   */
  lemma {:induction false} DrainAppend<S>(callback: Option<Callback<S>>, x: string, y: string, app: S)
    ensures DrainsInTwo(callback, x, y, app)
    decreases |x|, 1
  {
    if '\n' in x {
      DrainAppendLine(callback, x, y, app);
    } else {
      DrainAppendNoLine(callback, x, y, app);
    }
  }

  /** The case of `DrainAppend` where `x` holds no complete line: all of it is carried over. */
  lemma DrainAppendNoLine<S>(callback: Option<Callback<S>>, x: string, y: string, app: S)
    requires '\n' !in x
    ensures DrainsInTwo(callback, x, y, app)
  {
    DrainNoLine(callback, x, app);
    var d2 := Drain(callback, x + y, app);
    assert [] + d2.commands == d2.commands;
    assert "" + d2.sent == d2.sent;
  }

  /** A buffer without a newline is carried over whole. */
  lemma DrainNoLine<S>(callback: Option<Callback<S>>, x: string, app: S)
    requires '\n' !in x
    ensures Drain(callback, x, app) == Drained(x, [], "", app)
  {
  }

  /** The case of `DrainAppend` where `x` holds a complete line. */
  lemma {:induction false} DrainAppendLine<S>(callback: Option<Callback<S>>, x: string, y: string, app: S)
    requires '\n' in x
    ensures DrainsInTwo(callback, x, y, app)
    decreases |x|, 0
  {
    var i := IndexOf(x, '\n');
    var o := HandleLine(callback, x[..i], app);
    var e := Drain(callback, x[i + 1..], o.app);
    var d2 := Drain(callback, e.rest + y, e.app);
    var f := Drain(callback, x[i + 1..] + y, o.app);
    DrainAppend(callback, x[i + 1..], y, o.app);
    assert f == Drained(d2.rest, e.commands + d2.commands, e.sent + d2.sent, d2.app);
    SplitAfterLine(x, y, i);
    DrainStep(callback, x, app);
    DrainStep(callback, x + y, app);
    Associative(o.commands, e.commands, d2.commands);
    Associative(o.sent, e.sent, d2.sent);
  }

  /** The first newline of `x` is the first of `x + y`, and `x + y` falls apart around it. */
  lemma SplitAfterLine(x: string, y: string, i: nat)
    requires '\n' in x && i == IndexOf(x, '\n')
    ensures '\n' in x + y && IndexOf(x + y, '\n') == i
    ensures (x + y)[..i] == x[..i] && (x + y)[i + 1..] == x[i + 1..] + y
  {
    IndexOfAppend(x, y, '\n');
  }

  /** One step of the loop: the first line is handled, then the rest is drained. */
  lemma DrainStep<S>(callback: Option<Callback<S>>, buffer: string, app: S)
    requires '\n' in buffer
    ensures var i := IndexOf(buffer, '\n');
      var o := HandleLine(callback, buffer[..i], app);
      var e := Drain(callback, buffer[i + 1..], o.app);
      Drain(callback, buffer, app) == Drained(e.rest, o.commands + e.commands, o.sent + e.sent, e.app)
  {
  }

  lemma Associative<T>(a: seq<T>, b: seq<T>, c: seq<T>)
    ensures a + (b + c) == (a + b) + c
  {
  }

  /** A buffer holding exactly one line handles that line and keeps nothing. */
  lemma DrainOneLine<S>(callback: Option<Callback<S>>, line: string, app: S)
    requires '\n' !in line
    ensures var o := HandleLine(callback, line, app);
      Drain(callback, line + "\n", app) == Drained("", o.commands, o.sent, o.app)
  {
    var buf := line + "\n";
    var i := IndexOf(buf, '\n');
    assert buf[..|line|] == line;
    assert buf[|line|] == '\n';
    assert i == |line|;
    assert buf[..i] == line && buf[i + 1..] == "";
    var o := HandleLine(callback, line, app);
    assert o.commands + [] == o.commands;
    assert o.sent + "" == o.sent;
  }

  /** The connection: pending text, whether it is still served, and what happened so far. */
  datatype Session<S> = Session(buffer: string, open: bool, commands: seq<string>, sent: string, app: S)

  /** A fresh connection: empty buffer (line 152). */
  function NewSession<S>(app: S): Session<S> {
    Session("", true, [], "", app)
  }

  /**
    One pass of the read loop (lines 155-204). A zero-length read or a
    socket error ends the connection; a chunk that does not decode discards
    the whole buffer and the connection goes on; text is appended and every
    complete line is handled.
   */
  function Feed<S>(callback: Option<Callback<S>>, s: Session<S>, r: Read): (t: Session<S>)
    ensures !s.open ==> t == s
    ensures s.open && r.Undecodable? ==> t == s.(buffer := "")
    ensures s.open && (r.PeerClosed? || r.ReadFailed?) ==> t == s.(open := false)
    ensures s.open && r.Received? ==> t.open
    ensures '\n' !in s.buffer ==> '\n' !in t.buffer
  {
    if !s.open then s
    else
      match r
      case PeerClosed => s.(open := false)
      case ReadFailed => s.(open := false)
      case Undecodable => s.(buffer := "")
      case Received(text) =>
        var d := Drain(callback, s.buffer + text, s.app);
        Session(d.rest, true, s.commands + d.commands, s.sent + d.sent, d.app)
  }

  /** The read loop over a sequence of chunks. */
  function Run<S>(callback: Option<Callback<S>>, s: Session<S>, chunks: seq<Read>): (t: Session<S>)
    ensures !s.open ==> t == s
    decreases |chunks|
  {
    if chunks == [] then s else Run(callback, Feed(callback, s, chunks[0]), chunks[1..])
  }

  /** Once the client has gone, nothing more is read, dispatched or sent. */
  lemma RunStopsAtClose<S>(callback: Option<Callback<S>>, s: Session<S>, chunks: seq<Read>)
    requires s.open
    ensures Run(callback, s, [PeerClosed] + chunks) == s.(open := false)
  {
    assert ([PeerClosed] + chunks)[1..] == chunks;
  }

  /** Two chunks received one after the other act as their concatenation. */
  lemma FeedAppend<S>(callback: Option<Callback<S>>, s: Session<S>, a: string, b: string)
    ensures Feed(callback, Feed(callback, s, Received(a)), Received(b)) == Feed(callback, s, Received(a + b))
  {
    if s.open {
      var d1 := Drain(callback, s.buffer + a, s.app);
      var d2 := Drain(callback, d1.rest + b, d1.app);
      DrainAppend(callback, s.buffer + a, b, s.app);
      Associative(s.buffer, a, b);
      var g := Drain(callback, s.buffer + (a + b), s.app);
      assert g == Drained(d2.rest, d1.commands + d2.commands, d1.sent + d2.sent, d2.app);
      Associative(s.commands, d1.commands, d2.commands);
      Associative(s.sent, d1.sent, d2.sent);
    }
  }

  predicate AllReceived(chunks: seq<Read>) {
    forall k :: 0 <= k < |chunks| ==> chunks[k].Received?
  }

  function Concat(chunks: seq<Read>): string
    requires AllReceived(chunks)
  {
    if chunks == [] then "" else chunks[0].text + Concat(chunks[1..])
  }

  /**
    Chunking invariance: when every chunk decodes, the commands dispatched,
    the text sent, the pending buffer and the application state depend only
    on the concatenation of the chunks, not on where `recv` split them.
   */
  lemma {:induction false} RunDependsOnConcatenation<S>(callback: Option<Callback<S>>, s: Session<S>, chunks: seq<Read>)
    requires '\n' !in s.buffer
    requires AllReceived(chunks)
    ensures Run(callback, s, chunks) == Feed(callback, s, Received(Concat(chunks)))
    decreases |chunks|
  {
    if chunks == [] {
      if s.open {
        assert s.buffer + "" == s.buffer;
        assert s.commands + [] == s.commands;
        assert s.sent + "" == s.sent;
      }
    } else {
      var a := chunks[0].text;
      RunDependsOnConcatenation(callback, Feed(callback, s, chunks[0]), chunks[1..]);
      FeedAppend(callback, s, a, Concat(chunks[1..]));
    }
  }

  /** A partial line followed by a chunk that does not decode leaves a fresh buffer. */
  lemma PartialLineThenDecodeError<S>(callback: Option<Callback<S>>, app: S, partial: string)
    requires '\n' !in partial
    ensures Feed(callback, Feed(callback, NewSession(app), Received(partial)), Undecodable) == NewSession(app)
  {
    assert NewSession(app).buffer + partial == partial;
  }

  /** On an open connection with nothing pending, one line and its newline are handled and nothing is kept. */
  lemma FeedOneLine<S>(callback: Option<Callback<S>>, s: Session<S>, line: string)
    requires s.open && s.buffer == "" && '\n' !in line
    ensures var o := HandleLine(callback, line, s.app);
      Feed(callback, s, Received(line + "\n")) == Session("", true, s.commands + o.commands, s.sent + o.sent, o.app)
  {
    assert s.buffer + (line + "\n") == line + "\n";
    DrainOneLine(callback, line, s.app);
  }

  /** On a fresh connection, one line and its newline are handled and nothing is kept. */
  lemma FreshLine<S>(callback: Option<Callback<S>>, app: S, line: string)
    requires '\n' !in line
    ensures var o := HandleLine(callback, line, app);
      Feed(callback, NewSession(app), Received(line + "\n")) == Session("", true, o.commands, o.sent, o.app)
  {
    var s := NewSession(app);
    FeedOneLine(callback, s, line);
    var o := HandleLine(callback, line, app);
    SessionAfterFresh(Feed(callback, s, Received(line + "\n")), s, o);
  }

  /** A session built on a fresh one holds exactly what was added to it. */
  lemma SessionAfterFresh<S>(t: Session<S>, s: Session<S>, o: Outcome<S>)
    requires s.commands == [] && s.sent == ""
    requires t == Session("", true, s.commands + o.commands, s.sent + o.sent, o.app)
    ensures t == Session("", true, o.commands, o.sent, o.app)
  {
    assert s.commands + o.commands == o.commands;
    assert s.sent + o.sent == o.sent;
  }

  /** A trimmed line sent on a fresh connection is dispatched as it is. */
  lemma FreshLineDispatched<S>(callback: Option<Callback<S>>, app: S, line: string)
    requires line != [] && '\n' !in line
    requires !IsSpace(line[0]) && !IsSpace(line[|line| - 1])
    ensures Feed(callback, NewSession(app), Received(line + "\n")).commands == [line]
  {
    StripOfTrimmed(line);
    FreshLine(callback, app, line);
  }

  /**
    A trimmed line on a fresh connection is dispatched once, and exactly its
    framed reply (or the internal-error line) goes back.
   */
  lemma FreshLineAnswered<S>(f: Callback<S>, app: S, line: string)
    requires line != [] && '\n' !in line
    requires !IsSpace(line[0]) && !IsSpace(line[|line| - 1])
    ensures var t := Feed(Some(f), NewSession(app), Received(line + "\n"));
      && t.open && t.buffer == "" && t.commands == [line] && t.app == f(app, line).1
      && t.sent == (match f(app, line).0 case Answered(x) => WireText(x) case Raised => InternalError)
  {
    StripOfTrimmed(line);
    FreshLine(Some(f), app, line);
    var o := HandleLine(Some(f), line, app);
    assert o.commands == [line] && o.app == f(app, line).1;
    assert o.sent == (match f(app, line).0 case Answered(x) => WireText(x) case Raised => InternalError);
  }

  /**
    A chunk that fails to decode throws away the partial line before it:
    "PI", a bad chunk, then "NG\n" dispatches "NG", not "PING".
   */
  lemma DecodeErrorDiscardsPartialLine<S>(callback: Option<Callback<S>>, app: S)
    ensures Run(callback, NewSession(app), [Received("PI"), Undecodable, Received("NG\n")]).commands == ["NG"]
  {
    var chunks := [Received("PI"), Undecodable, Received("NG\n")];
    PartialLineThenDecodeError(callback, app, "PI");
    assert "NG\n" == "NG" + "\n";
    FreshLineDispatched(callback, app, "NG");
    var s2 := Feed(callback, Feed(callback, NewSession(app), chunks[0]), chunks[1]);
    assert chunks[1..][1..] == [Received("NG\n")];
    assert Run(callback, NewSession(app), chunks) == Run(callback, s2, chunks[1..][1..]);
  }

  /** With no callback set, commands are consumed and nothing is ever sent. */
  lemma {:induction false} NoCallbackSendsNothing<S>(s: Session<S>, chunks: seq<Read>)
    ensures Run(None, s, chunks).sent == s.sent
    decreases |chunks|
  {
    if chunks != [] {
      NoCallbackSendsNothing(Feed(None, s, chunks[0]), chunks[1..]);
    }
  }

  /** A callback that raises makes exactly `ERR:INTERNAL_ERROR\n` go out, and the connection stays open. */
  lemma RaisingCallbackReportsInternalError<S>(f: Callback<S>, s: Session<S>, command: string)
    requires s.open && s.buffer == "" && command != []
    requires !IsSpace(command[0]) && !IsSpace(command[|command| - 1]) && '\n' !in command
    requires f(s.app, command).0 == Raised
    ensures var t := Feed(Some(f), s, Received(command + "\n"));
      t.open && t.commands == s.commands + [command] && t.sent == s.sent + InternalError
  {
    StripOfTrimmed(command);
    FeedOneLine(Some(f), s, command);
    var o := HandleLine(Some(f), command, s.app);
    assert o.commands == [command] && o.sent == InternalError;
  }

  /** The server's connection bookkeeping. */
  datatype Server = Server(running: bool, clientConnected: bool, clientAddress: Option<string>, listening: bool)

  /**
    `close_client` (lines 217-229): when a client is connected, its socket
    and address are cleared even when closing raises; with no client it does
    nothing, and a stale address stays.
   */
  function CloseClient(sv: Server): (t: Server)
    ensures !t.clientConnected
    ensures sv.clientConnected ==> t.clientAddress == None
    ensures t.running == sv.running && t.listening == sv.listening
    ensures !sv.clientConnected ==> t == sv
  {
    if sv.clientConnected then sv.(clientConnected := false, clientAddress := None) else sv
  }

  /** `stop` (lines 257-276): not running, no client, no listening socket. */
  function Stop(sv: Server): (t: Server)
    ensures !t.running && !t.clientConnected && !t.listening
    ensures t.clientAddress == (if sv.clientConnected then None else sv.clientAddress)
  {
    CloseClient(sv.(running := false)).(listening := false)
  }

  lemma CloseClientIdempotent(sv: Server)
    ensures CloseClient(CloseClient(sv)) == CloseClient(sv)
  {
  }

  lemma StopIdempotent(sv: Server)
    ensures Stop(Stop(sv)) == Stop(sv)
  {
  }

  /**
    `handle_client` (lines 143-215): with no client it returns at once;
    otherwise it serves a fresh session over the chunks and closes the client
    once the session has ended.
   */
  function HandleClient<S>(callback: Option<Callback<S>>, sv: Server, app: S, chunks: seq<Read>): (r: (Server, Session<S>))
    ensures !sv.clientConnected ==> r.0 == sv && r.1 == NewSession(app)
    ensures sv.clientConnected && !r.1.open ==> !r.0.clientConnected && r.0.clientAddress == None
  {
    if !sv.clientConnected then (sv, NewSession(app))
    else
      var session := Run(callback, NewSession(app), chunks);
      if session.open then (sv, session) else (CloseClient(sv), session)
  }
}
