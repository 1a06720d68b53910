/**
 * The client's session logic without its threads and sockets: the name
 * handshake, the send loop over the user's input, the receive pipeline
 * over the peer's lines, the join-then-close order and the reconnect choice.
 */
module Client {
  import opened Wrappers
  import opened Text

  /** A chat message as the client sends and shows it. */
  datatype Message = Message(sender: string, content: string)

  /**
   * One answer of the terminal to a request for a line: a line, a null
   * line, or one of the two exceptions the terminal raises.
   */
  datatype UserInput = Line(text: string) | NoLine | EndOfFile | UserInterrupt

  /** Why the send loop ended. */
  datatype SendExit = Quit | NullLine | InputEnded | Interrupted

  /** How the peer's line stream ends: closed by the peer, or broken by an I/O error. */
  datatype StreamEnd = PeerClosed | ConnectionError

  /** Everything the peer sends in one session, in order, and how it stops. */
  datatype Peer = Peer(lines: seq<string>, end: StreamEnd)

  /** What the application does after a session. */
  datatype RunOutcome = Reconnect | EndApplication

  /** The points of a session whose order matters. */
  datatype Event = ReceiveLoopEnded | SendLoopEnded | ConnectionClosed | ReconnectPrompted

  /**
   * How the scheduler orders the two loops of a session. The receive task is
   * submitted first. If it ends, and so shuts the executor down, before the
   * send task is submitted, that submission is rejected.
   */
  datatype Schedule = ReceiveEndsFirst | SendEndsFirst | ReceiveEndsBeforeSendSubmitted

  // ---------------------------------------------------------------------
  // Send loop

  /** An input after which the send loop asks for another line. */
  predicate Continues(u: UserInput) {
    u.Line? && u.text != "quit"
  }

  /** The position of the input that ends the send loop, or the length if none does. */
  function StopIndex(inputs: seq<UserInput>): (k: nat)
    ensures k <= |inputs|
    ensures forall j :: 0 <= j < k ==> Continues(inputs[j])
    ensures k < |inputs| ==> !Continues(inputs[k])
  {
    if inputs == [] || !Continues(inputs[0]) then 0 else 1 + StopIndex(inputs[1..])
  }

  /**
   * The messages the send loop writes for the given inputs: one per
   * non-blank line before the stop, in order, from the local name.
   */
  function Outgoing(name: string, inputs: seq<UserInput>): (r: seq<Message>)
    ensures |r| <= StopIndex(inputs)
    decreases |inputs|
  {
    if inputs == [] || !Continues(inputs[0]) then []
    else
      var t := inputs[0].text;
      (if IsBlank(t) then [] else [Message(name, t)]) + Outgoing(name, inputs[1..])
  }

  /** The reason the send loop ends on these inputs; running out of inputs is end-of-file. */
  function SendExitOf(inputs: seq<UserInput>): (r: SendExit)
    ensures r == Quit <==> StopIndex(inputs) < |inputs| && inputs[StopIndex(inputs)] == Line("quit")
    ensures r == NullLine <==> StopIndex(inputs) < |inputs| && inputs[StopIndex(inputs)] == NoLine
    ensures r == Interrupted <==> StopIndex(inputs) < |inputs| && inputs[StopIndex(inputs)] == UserInterrupt
  {
    var k := StopIndex(inputs);
    if k == |inputs| then InputEnded
    else
      match inputs[k]
      case Line(_) => Quit
      case NoLine => NullLine
      case EndOfFile => InputEnded
      case UserInterrupt => Interrupted
  }

  /** One continuing input is handled before the rest. */
  lemma OutgoingUnfold(name: string, inputs: seq<UserInput>)
    requires inputs != [] && Continues(inputs[0])
    ensures Outgoing(name, inputs) ==
      (if IsBlank(inputs[0].text) then [] else [Message(name, inputs[0].text)]) + Outgoing(name, inputs[1..])
  {
  }

  /** Every written message is from the local name and has a non-blank content other than "quit". */
  lemma {:induction false} OutgoingWellFormed(name: string, inputs: seq<UserInput>)
    ensures forall m :: m in Outgoing(name, inputs) ==>
      m.sender == name && !IsBlank(m.content) && m.content != "quit"
  {
    if inputs != [] && Continues(inputs[0]) {
      OutgoingUnfold(name, inputs);
      OutgoingWellFormed(name, inputs[1..]);
    }
  }

  /** A position where only continuing inputs come before and the loop stops is the stop index. */
  lemma StoppedAt(name: string, inputs: seq<UserInput>, i: nat)
    requires i <= |inputs|
    requires forall j :: 0 <= j < i ==> Continues(inputs[j])
    requires i < |inputs| ==> !Continues(inputs[i])
    ensures i == StopIndex(inputs)
    ensures Outgoing(name, inputs[i..]) == []
  {
  }

  /** The stopping input and everything after it are never written. */
  lemma {:induction false} OutgoingStopsAt(name: string, pre: seq<UserInput>, stop: UserInput, rest: seq<UserInput>)
    requires forall j :: 0 <= j < |pre| ==> Continues(pre[j])
    requires !Continues(stop)
    ensures Outgoing(name, pre + [stop] + rest) == Outgoing(name, pre)
  {
    if pre == [] {
      assert (pre + [stop] + rest)[0] == stop;
    } else {
      assert (pre + [stop] + rest)[1..] == pre[1..] + [stop] + rest;
      OutgoingStopsAt(name, pre[1..], stop, rest);
    }
  }

  /** Before the stop, the inputs are handled one after another, in order. */
  lemma {:induction false} OutgoingAppend(name: string, pre: seq<UserInput>, post: seq<UserInput>)
    requires forall j :: 0 <= j < |pre| ==> Continues(pre[j])
    ensures Outgoing(name, pre + post) == Outgoing(name, pre) + Outgoing(name, post)
  {
    if pre == [] {
      assert pre + post == post;
    } else {
      assert (pre + post)[0] == pre[0];
      assert (pre + post)[1..] == pre[1..] + post;
      OutgoingAppend(name, pre[1..], post);
    }
  }

  /**
   * A message is written exactly when its content is a non-blank line
   * typed before the stop and its sender is the local name.
   */
  lemma {:induction false} OutgoingMembers(name: string, inputs: seq<UserInput>, m: Message)
    ensures m in Outgoing(name, inputs) <==>
      m.sender == name && !IsBlank(m.content)
      && exists j :: 0 <= j < StopIndex(inputs) && inputs[j] == Line(m.content)
  {
    if inputs != [] && Continues(inputs[0]) {
      OutgoingMembers(name, inputs[1..], m);
      var t := inputs[0].text;
      assert Outgoing(name, inputs) == (if IsBlank(t) then [] else [Message(name, t)]) + Outgoing(name, inputs[1..]);
      if exists j :: 0 <= j < StopIndex(inputs) && inputs[j] == Line(m.content) {
        var j :| 0 <= j < StopIndex(inputs) && inputs[j] == Line(m.content);
        if j > 0 {
          assert inputs[1..][j - 1] == inputs[j];
        }
      }
      if exists j :: 0 <= j < StopIndex(inputs[1..]) && inputs[1..][j] == Line(m.content) {
        var j :| 0 <= j < StopIndex(inputs[1..]) && inputs[1..][j] == Line(m.content);
        assert inputs[j + 1] == Line(m.content);
      }
    }
  }

  /** The send loop's step: a continuing input moves from the rest to what is sent. */
  lemma SendStep(name: string, inputs: seq<UserInput>, i: nat, sent: seq<Message>)
    requires i < |inputs| && Continues(inputs[i])
    requires sent + Outgoing(name, inputs[i..]) == Outgoing(name, inputs)
    ensures (if IsBlank(inputs[i].text) then sent else sent + [Message(name, inputs[i].text)])
      + Outgoing(name, inputs[i + 1..]) == Outgoing(name, inputs)
  {
    OutgoingUnfold(name, inputs[i..]);
    assert inputs[i..][1..] == inputs[i + 1..];
  }

  /**
   * The send loop: asks for lines until a null line, "quit", end-of-file or
   * an interrupt, and hands on every non-blank line as a message from the
   * local name. Returns those messages in order and why the loop ended.
   */
  method SendLoop(name: string, inputs: seq<UserInput>) returns (sent: seq<Message>, exit: SendExit)
    ensures sent == Outgoing(name, inputs)
    ensures exit == SendExitOf(inputs)
  {
    var i := 0;
    sent := [];
    var line := if i < |inputs| then inputs[i] else EndOfFile;
    while line.Line?
      invariant 0 <= i <= |inputs|
      invariant line == if i < |inputs| then inputs[i] else EndOfFile
      invariant forall j :: 0 <= j < i ==> Continues(inputs[j])
      invariant sent + Outgoing(name, inputs[i..]) == Outgoing(name, inputs)
      decreases |inputs| - i
    {
      if line.text == "quit" {
        break;
      }
      SendStep(name, inputs, i, sent);
      if !IsBlank(line.text) {
        sent := sent + [Message(name, line.text)];
      }
      i := i + 1;
      line := if i < |inputs| then inputs[i] else EndOfFile;
    }
    StoppedAt(name, inputs, i);
    exit := match line
      case Line(_) => Quit
      case NoLine => NullLine
      case EndOfFile => InputEnded
      case UserInterrupt => Interrupted;
  }

  // ---------------------------------------------------------------------
  // Receive pipeline

  /**
   * The messages the receive pipeline shows: each line through the decoder,
   * the failures dropped, the rest in arrival order.
   */
  function Decoded(decode: string -> Option<Message>, lines: seq<string>): (r: seq<Message>)
    ensures |r| <= |lines|
    ensures forall i :: 0 <= i < |r| ==> exists j :: 0 <= j < |lines| && decode(lines[j]) == Some(r[i])
  {
    if lines == [] then []
    else
      var rest := Decoded(decode, lines[1..]);
      assert forall i :: 0 <= i < |rest| ==> exists j :: 0 <= j < |lines| && decode(lines[j]) == Some(rest[i]) by {
        forall i | 0 <= i < |rest|
          ensures exists j :: 0 <= j < |lines| && decode(lines[j]) == Some(rest[i])
        {
          var j :| 0 <= j < |lines[1..]| && decode(lines[1..][j]) == Some(rest[i]);
          assert lines[j + 1] == lines[1..][j];
        }
      }
      match decode(lines[0])
      case None => rest
      case Some(m) => [m] + rest
  }

  /** A line that fails to decode is dropped without ending the pipeline, and order is kept. */
  lemma {:induction false} DecodedAppend(decode: string -> Option<Message>, a: seq<string>, b: seq<string>)
    ensures Decoded(decode, a + b) == Decoded(decode, a) + Decoded(decode, b)
  {
    if a == [] {
      assert a + b == b;
    } else {
      assert (a + b)[0] == a[0];
      assert (a + b)[1..] == a[1..] + b;
      DecodedAppend(decode, a[1..], b);
    }
  }

  /** One line shows its message when it decodes and nothing when it does not. */
  lemma DecodedLine(decode: string -> Option<Message>, line: string)
    ensures Decoded(decode, [line]) == if decode(line).Some? then [decode(line).value] else []
  {
  }

  // ---------------------------------------------------------------------
  // Name handshake

  /**
   * The peer name the handshake returns: the first line the peer sends;
   * Java's null (`None`) when the stream ends first; the empty string
   * when the read fails with an I/O error.
   */
  function PeerName(peer: Peer): (r: Option<string>)
    ensures r == Some("") <==> (peer.lines == [] && peer.end == ConnectionError) || (peer.lines != [] && peer.lines[0] == "")
    ensures r.None? <==> peer.lines == [] && peer.end == PeerClosed
    ensures peer.lines != [] ==> r == Some(peer.lines[0])
  {
    if peer.lines != [] then Some(peer.lines[0])
    else
      match peer.end
      case ConnectionError => Some("")
      case PeerClosed => None
  }

  /** The lines the receive loop gets: those after the one the handshake consumed. */
  function RemainingLines(peer: Peer): (r: seq<string>)
    ensures PeerName(peer).Some? && peer.lines != [] ==> [PeerName(peer).value] + r == peer.lines
    ensures peer.lines == [] ==> r == []
  {
    if peer.lines == [] then [] else peer.lines[1..]
  }

  /** A peer that sends its name and closes: that name, and no message shown afterwards. */
  lemma NameThenClose(decode: string -> Option<Message>, peerName: string)
    ensures PeerName(Peer([peerName], PeerClosed)) == Some(peerName)
    ensures Decoded(decode, RemainingLines(Peer([peerName], PeerClosed))) == []
  {
  }

  // ---------------------------------------------------------------------
  // Reconnect prompt

  /** Reconnect when the answer equals "Y" ignoring case; anything else ends the application. */
  function ReconnectDecision(answer: UserInput): (r: RunOutcome)
    ensures r == Reconnect <==> answer == Line("y") || answer == Line("Y")
  {
    if answer.Line? && EqualsIgnoreCase("Y", answer.text) then
      assert answer.text == [answer.text[0]];
      Reconnect
    else
      assert EqualsIgnoreCase("Y", "y") && EqualsIgnoreCase("Y", "Y");
      EndApplication
  }

  // ---------------------------------------------------------------------
  // Session order

  /** The events of one session, for either order in which the two loops end. */
  function SessionEvents(receiveEndsFirst: bool): (r: seq<Event>)
    ensures |r| == 4
    ensures {r[0], r[1]} == {ReceiveLoopEnded, SendLoopEnded}
    ensures r[0] == ReceiveLoopEnded <==> receiveEndsFirst
    ensures r[2..] == [ConnectionClosed, ReconnectPrompted]
  {
    (if receiveEndsFirst then [ReceiveLoopEnded, SendLoopEnded] else [SendLoopEnded, ReceiveLoopEnded])
    + [ConnectionClosed, ReconnectPrompted]
  }

  /**
   * The connection is closed exactly once, after both loops ended and
   * before the reconnect prompt, which comes only after it.
   */
  predicate ClosedOnceAfterBothLoops(t: seq<Event>) {
    exists c :: 0 <= c < |t| && t[c] == ConnectionClosed
      && (forall i :: 0 <= i < |t| && i != c ==> t[i] != ConnectionClosed)
      && ReceiveLoopEnded in t[..c] && SendLoopEnded in t[..c]
      && ReconnectPrompted !in t[..c] && ReconnectPrompted in t[c + 1..]
  }

  /** Whichever loop ends first, a session keeps the close-once order. */
  lemma SessionEventsOrdered(receiveEndsFirst: bool)
    ensures ClosedOnceAfterBothLoops(SessionEvents(receiveEndsFirst))
  {
    var t := SessionEvents(receiveEndsFirst);
    assert t[2] == ConnectionClosed;
    assert t[..2][0] == t[0] && t[..2][1] == t[1];
    assert t[3..][0] == ReconnectPrompted;
  }

  /** The prompt, after both loops and the close, completes a session in the close-once order. */
  lemma PromptCompletesSession(before: seq<Event>, receiveEndsFirst: bool)
    ensures before + SessionEvents(receiveEndsFirst)[..3] + [ReconnectPrompted]
            == before + SessionEvents(receiveEndsFirst)
    ensures ClosedOnceAfterBothLoops(
              (before + SessionEvents(receiveEndsFirst)[..3] + [ReconnectPrompted])[|before|..])
  {
    var events := SessionEvents(receiveEndsFirst);
    assert events == events[..3] + [ReconnectPrompted];
    assert (before + events)[|before|..] == events;
    SessionEventsOrdered(receiveEndsFirst);
  }

  /**
   * A client: its local name, its executor, and what its session has done.
   * Once a session has ended, the executor is shut down for good, so the
   * same client cannot run another session.
   */
  class Session {
    /** The local display name from the client's configuration. */
    const name: string
    /** The lines the handshake wrote: the local name. */
    var namesSent: seq<string>
    /** The messages the send loop handed to the connection. */
    var written: seq<Message>
    /** The messages the receive loop handed to the display. */
    var shown: seq<Message>
    /** Whether the executor has been told to shut down; it never restarts. */
    var executorShutdown: bool
    /** The order-relevant events so far. */
    var trace: seq<Event>

    constructor (name: string)
      ensures this.name == name
      ensures namesSent == [] && written == [] && shown == [] && trace == []
      ensures !executorShutdown
    {
      this.name := name;
      namesSent, written, shown, trace := [], [], [], [];
      executorShutdown := false;
    }

    /**
     * Sends the local name as one line and takes the peer's first line as
     * its name. Both tasks are submitted to the executor, so a shut-down
     * executor rejects them before anything is sent.
     */
    method ExchangeNames(peer: Peer) returns (peerName: Result<Option<string>, JavaException>)
      modifies this
      ensures old(executorShutdown) ==> peerName == Failure(RejectedExecutionException)
      ensures old(executorShutdown) ==> namesSent == old(namesSent)
      ensures !old(executorShutdown) ==> peerName == Success(PeerName(peer))
      ensures !old(executorShutdown) ==> namesSent == old(namesSent) + [name]
      ensures written == old(written) && shown == old(shown)
      ensures executorShutdown == old(executorShutdown) && trace == old(trace)
    {
      if executorShutdown {
        peerName := Failure(RejectedExecutionException);
      } else {
        namesSent := namesSent + [name];
        peerName := Success(PeerName(peer));
      }
    }

    /**
     * Asks for lines until a null line, "quit", end-of-file or an interrupt;
     * writes every non-blank line from the local name; shuts the executor
     * down on every exit.
     */
    method SendMessages(inputs: seq<UserInput>) returns (exit: SendExit)
      modifies this
      ensures written == old(written) + Outgoing(name, inputs)
      ensures exit == SendExitOf(inputs)
      ensures executorShutdown
      ensures trace == old(trace) + [SendLoopEnded]
      ensures namesSent == old(namesSent) && shown == old(shown)
    {
      var sent;
      sent, exit := SendLoop(name, inputs);
      written := written + sent;
      executorShutdown := true;
      trace := trace + [SendLoopEnded];
    }

    /**
     * Shows every peer line that decodes, in arrival order, until the stream
     * ends or breaks; shuts the executor down on either exit.
     */
    method ReceiveMessages(decode: string -> Option<Message>, lines: seq<string>, end: StreamEnd) returns (exit: StreamEnd)
      modifies this
      ensures shown == old(shown) + Decoded(decode, lines)
      ensures exit == end
      ensures executorShutdown
      ensures trace == old(trace) + [ReceiveLoopEnded]
      ensures namesSent == old(namesSent) && written == old(written)
    {
      shown := shown + Decoded(decode, lines);
      exit := end;
      executorShutdown := true;
      trace := trace + [ReceiveLoopEnded];
    }

    /** The client's `close`: shuts the executor down. */
    method Close()
      modifies this
      ensures executorShutdown
      ensures namesSent == old(namesSent) && written == old(written)
      ensures shown == old(shown) && trace == old(trace)
    {
      executorShutdown := true;
    }

    /**
     * The active part of a session. When both tasks are submitted, both
     * loops run to their end in the order the scheduler gives, they are
     * joined, and the connection is closed once. When the receive loop
     * ends before the send task is submitted, that submission throws
     * RejectedExecutionException: nothing is sent and nothing is closed.
     */
    method RunLoops(peer: Peer, decode: string -> Option<Message>, inputs: seq<UserInput>,
                    schedule: Schedule)
      returns (joined: Result<(), JavaException>)
      modifies this
      ensures shown == old(shown) + Decoded(decode, RemainingLines(peer))
      ensures executorShutdown
      ensures namesSent == old(namesSent)
      ensures schedule.ReceiveEndsBeforeSendSubmitted? ==> joined == Failure(RejectedExecutionException)
      ensures schedule.ReceiveEndsBeforeSendSubmitted? ==> written == old(written)
      ensures schedule.ReceiveEndsBeforeSendSubmitted? ==> trace == old(trace) + [ReceiveLoopEnded]
      ensures !schedule.ReceiveEndsBeforeSendSubmitted? ==> joined == Success(())
      ensures !schedule.ReceiveEndsBeforeSendSubmitted? ==> written == old(written) + Outgoing(name, inputs)
      ensures !schedule.ReceiveEndsBeforeSendSubmitted? ==>
              trace == old(trace) + SessionEvents(schedule.ReceiveEndsFirst?)[..3]
    {
      match schedule
      case ReceiveEndsFirst =>
        var _ := ReceiveMessages(decode, RemainingLines(peer), peer.end);
        var _ := SendMessages(inputs);
        trace := trace + [ConnectionClosed];
        joined := Success(());
      case SendEndsFirst =>
        var _ := SendMessages(inputs);
        var _ := ReceiveMessages(decode, RemainingLines(peer), peer.end);
        trace := trace + [ConnectionClosed];
        joined := Success(());
      case ReceiveEndsBeforeSendSubmitted =>
        var _ := ReceiveMessages(decode, RemainingLines(peer), peer.end);
        // The executor is now shut down, so submitting the send task fails.
        joined := Failure(RejectedExecutionException);
    }

    /**
     * One session: the handshake, both loops and the close, then the
     * prompt. On a client whose executor is already shut down, the
     * handshake's RejectedExecutionException leaves the run and nothing
     * else happens. When the receive loop ends before the send task is
     * submitted, the rejected submission leaves the run after the receive
     * loop, without the close and without the prompt.
     */
    method Run(peer: Peer, decode: string -> Option<Message>, inputs: seq<UserInput>,
               answer: UserInput, schedule: Schedule)
      returns (peerName: Option<string>, outcome: Result<RunOutcome, JavaException>)
      modifies this
      ensures executorShutdown
      ensures old(executorShutdown) ==> outcome == Failure(RejectedExecutionException)
      ensures old(executorShutdown) ==> namesSent == old(namesSent) && trace == old(trace)
      ensures old(executorShutdown) ==> written == old(written) && shown == old(shown)
      ensures !old(executorShutdown) ==> peerName == PeerName(peer)
      ensures !old(executorShutdown) ==> namesSent == old(namesSent) + [name]
      ensures !old(executorShutdown) ==> shown == old(shown) + Decoded(decode, RemainingLines(peer))
      ensures !old(executorShutdown) && schedule.ReceiveEndsBeforeSendSubmitted? ==>
              outcome == Failure(RejectedExecutionException)
      ensures !old(executorShutdown) && schedule.ReceiveEndsBeforeSendSubmitted? ==>
              written == old(written) && trace == old(trace) + [ReceiveLoopEnded]
      ensures !old(executorShutdown) && !schedule.ReceiveEndsBeforeSendSubmitted? ==>
              written == old(written) + Outgoing(name, inputs)
      ensures !old(executorShutdown) && !schedule.ReceiveEndsBeforeSendSubmitted? ==>
              trace == old(trace) + SessionEvents(schedule.ReceiveEndsFirst?)
      ensures !old(executorShutdown) && !schedule.ReceiveEndsBeforeSendSubmitted? ==>
              ClosedOnceAfterBothLoops(trace[|old(trace)|..])
      ensures !old(executorShutdown) && !schedule.ReceiveEndsBeforeSendSubmitted? ==>
              outcome == Success(ReconnectDecision(answer))
    {
      ghost var before := trace;
      var handshake := ExchangeNames(peer);
      if handshake.Failure? {
        peerName := None;
        outcome := Failure(handshake.error);
        return;
      }
      peerName := handshake.value;
      var joined := RunLoops(peer, decode, inputs, schedule);
      if joined.Failure? {
        outcome := Failure(joined.error);
        return;
      }
      PromptCompletesSession(before, schedule.ReceiveEndsFirst?);
      trace := trace + [ReconnectPrompted];
      outcome := Success(ReconnectDecision(answer));
    }
  }

  /**
   * A client runs one session; a second run on the same client is rejected
   * whatever the schedule, because the first run leaves the executor shut
   * down.
   */
  method SecondRunRejected(name: string, peer: Peer, decode: string -> Option<Message>,
                           inputs: seq<UserInput>, answer: UserInput, schedule: Schedule)
    returns (first: Result<RunOutcome, JavaException>, second: Result<RunOutcome, JavaException>)
    ensures !schedule.ReceiveEndsBeforeSendSubmitted? ==> first == Success(ReconnectDecision(answer))
    ensures schedule.ReceiveEndsBeforeSendSubmitted? ==> first == Failure(RejectedExecutionException)
    ensures second == Failure(RejectedExecutionException)
  {
    var client := new Session(name);
    var peerName;
    peerName, first := client.Run(peer, decode, inputs, answer, schedule);
    peerName, second := client.Run(peer, decode, inputs, answer, schedule);
  }
}
