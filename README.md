# Terminal chat: messages, server configuration and the client session

This project models three parts of a two-party terminal chat program and
proves properties about them:

- **`ConnectionMessages`** (`connection_message.dfy`) models the chat message
  record. It holds a sender name and a content. It has a validating
  constructor, a wire form `sender,content` and a display form
  `sender: content`. The lemmas show where the first comma of the wire form
  falls. They also show that splitting the wire form there gives back the
  message when the sender has no comma. A sender *with* a comma makes two
  messages share one wire form.
- **`ServerConfigs`** (`server_config.dfy`) models the server configuration
  record. It holds a name and a port. The canonical constructor and the
  no-argument constructor both go through the same validation.
- **`Client`** (`client.dfy`) models the client's session logic without its
  threads and sockets:
  - the name handshake;
  - the send loop over the user's terminal input;
  - the receive pipeline over the peer's lines;
  - the order "both loops end, then one close, then the reconnect prompt";
  - the reconnect decision.

  The session's observable state (names sent, messages written, messages
  shown, executor shut down, and an ordered trace of events) lives in the
  class `Client.Session`, and its methods update that state. A client runs
  one session: its loops shut its executor down for good, so a second run
  on the same client is rejected. The pure decisions are functions over
  sequences, and the lemmas are about those functions.

Two helper modules are shared. `Wrappers` holds `Option` (also used for a
Java `null`), `Result`, and the exceptions that escape: the two the
constructors throw and the one a shut-down executor throws.
`Text` holds the blank test, first-index search, splitting at the first
separator, and case-insensitive comparison.

How the model represents things:

- **Blankness.** Blankness is one predicate, `Text.IsBlank`: every character
  is whitespace, so the empty string counts as blank. It stands for both
  `String.isBlank` and `Validate.notBlank`. `Text.IsWhitespace` gives the
  character set of Java's `Character.isWhitespace`. Two members depend on
  which characters are in that set: `ServerConfigs.DefaultName` (that
  `"Server"` is not blank) and
  `ConnectionMessages.RawStringAmbiguousWithCommaInSender` (that its two
  messages have non-blank senders).
- **Port constants.** The constants of `environment.Port` are not part of
  this model. They are a `PortRange(min, max, default)` parameter.
  `PortRange.Consistent()` is the condition `min <= default <= max`. The
  no-argument constructor succeeds exactly when it holds.
- **Client messages.** The client's messages are an abstract
  `Message(sender, content)` pair, not `ConnectionMessage`.
- **Decoder.** The line decoder `ConnectionMessageFactory.createFromString`
  is not part of this model. It is a parameter `decode: string ->
  Option<Message>`; `None` means the decode failed.
- **Terminal input.** The terminal is a finite sequence of `UserInput`
  values: a line, a `null` line, end-of-file, or an interrupt. When the
  sequence runs out, the model reads it as end-of-file.
- **The peer.** The peer is the sequence of lines it sends plus how its
  stream ends: closed by the peer, or broken by an I/O error. The
  handshake takes the first line. The receive loop gets the rest.
- **Concurrency.** The scheduler is a `Schedule` parameter of `Session.Run`
  with three cases. The receive loop ends first, or the send loop ends
  first, or the receive loop ends (and shuts the executor down) before the
  send task is submitted, which makes that submission throw
  `RejectedExecutionException`. The run is sequential.

When the peer closes before sending a name, `readLine` returns `null`, so
the handshake result is `null` (`None`). When the read throws an
`IOException`, the result is the empty string, the same as when the peer's
first line is empty (`Client.java:245-254`).

## Model

| member | source | states |
|---|---|---|
| ConnectionMessages.Create | src/main/java/org/gladiator/app/util/connection/ConnectionMessage.java:20-23 | Construction succeeds iff the sender is non-null and non-blank and the content is non-null. The message then keeps both values unchanged. A null sender is a NullPointerException. A blank sender is an IllegalArgumentException, checked before the content. A null content after that is a NullPointerException. |
| ConnectionMessages.EmptySenderRejected | src/main/java/org/gladiator/app/util/connection/ConnectionMessage.java:21 | The empty sender is rejected with IllegalArgumentException, whatever the content. |
| ConnectionMessages.ConnectionMessage.ToRawString | src/main/java/org/gladiator/app/util/connection/ConnectionMessage.java:31-33 | The wire form has length sender + 1 + content. It starts with the sender, has a comma at index sender-length, and ends with the content. |
| ConnectionMessages.ConnectionMessage.ToString | src/main/java/org/gladiator/app/util/connection/ConnectionMessage.java:40-43 | The display form is the sender, then ": ", then the content, with length sender + 2 + content. |
| ConnectionMessages.RawStringFirstComma | src/main/java/org/gladiator/app/util/connection/ConnectionMessage.java:26-33 | The first comma of the wire form is at index sender-length iff the sender contains no comma (both directions). |
| ConnectionMessages.RawStringSplits | src/main/java/org/gladiator/app/util/connection/ConnectionMessage.java:26-33 | If the sender has no comma, splitting the wire form at its first comma gives back exactly (sender, content), even when the content contains commas. |
| ConnectionMessages.RawStringInjective | src/main/java/org/gladiator/app/util/connection/ConnectionMessage.java:6-33 | Among messages whose senders have no comma, equal wire forms mean equal messages. Because the record is immutable, the wire form determines the message. |
| ConnectionMessages.RawStringAmbiguousWithCommaInSender | src/main/java/org/gladiator/app/util/connection/ConnectionMessage.java:31-33 | Two different valid messages, ("a,b", "c") and ("a", "b,c"), have the same wire form. |
| ConnectionMessages.DisplayFromRaw | src/main/java/org/gladiator/app/util/connection/ConnectionMessage.java:31-43 | The display form is the wire form with its separating comma replaced by ": ". |
| ServerConfigs.DefaultName | src/main/java/org/gladiator/app/server/config/ServerConfig.java:35-37 | The default name is "Server", and it is not blank. |
| ServerConfigs.Create | src/main/java/org/gladiator/app/server/config/ServerConfig.java:40-44 | Construction succeeds iff the name is non-null and non-blank and min <= port <= max. It then stores exactly that name and port, and the result satisfies the validity invariant. A null name is a NullPointerException. Every other failure is an IllegalArgumentException. |
| ServerConfigs.CreateDefault | src/main/java/org/gladiator/app/server/config/ServerConfig.java:30-32 | The no-argument constructor goes through the same validation. It gives ("Server", default) exactly when min <= default <= max. Otherwise it fails with IllegalArgumentException. |
| ServerConfigs.PortBoundsInclusive | src/main/java/org/gladiator/app/server/config/ServerConfig.java:43 | Both ends of the port range are accepted. min - 1 and max + 1 are rejected with IllegalArgumentException. |
| Client.StopIndex | src/main/java/org/gladiator/client/Client.java:184-189 | The stop position is the first input that is not a line, or is the line "quit". Every earlier input is a line other than "quit". |
| Client.SendExitOf | src/main/java/org/gladiator/client/Client.java:184-198 | The send loop ends by Quit iff the stopping input is the line "quit". It ends by NullLine iff that input is a null line. It ends by Interrupted iff that input is an interrupt. Otherwise it ends at end-of-input. |
| Client.Outgoing | src/main/java/org/gladiator/client/Client.java:186-196 | The messages the send loop writes, as a function of the inputs. There are never more of them than inputs before the stop. Its meaning is stated by the lemmas OutgoingWellFormed, OutgoingStopsAt, OutgoingAppend and OutgoingMembers. |
| Client.SendLoop | src/main/java/org/gladiator/client/Client.java:183-196 | The while loop returns exactly the messages given by Outgoing, and the exit reason given by SendExitOf. |
| Client.OutgoingWellFormed | src/main/java/org/gladiator/client/Client.java:186-194 | Every written message has the local name as sender and a content that is neither blank nor "quit". |
| Client.OutgoingStopsAt | src/main/java/org/gladiator/client/Client.java:184-189 | The first "quit", null line, end-of-file or interrupt, and everything after it, contribute nothing to what is written. |
| Client.OutgoingAppend | src/main/java/org/gladiator/client/Client.java:186-196 | Before the stop, the inputs are written one after another, in input order. |
| Client.OutgoingMembers | src/main/java/org/gladiator/client/Client.java:186-196 | A message is written iff its sender is the local name and its content is a non-blank line typed before the stop (both directions). |
| Client.Decoded | src/main/java/org/gladiator/client/Client.java:211-221 | The pipeline shows no more messages than it received lines. Every shown message is the successful decode of some received line. |
| Client.DecodedAppend | src/main/java/org/gladiator/client/Client.java:211-221 | Showing a stream is showing its first part, then its second part. A failed decode drops only its own line, and arrival order is kept. |
| Client.DecodedLine | src/main/java/org/gladiator/client/Client.java:212-220 | One line shows its decoded message if the decode succeeds, and nothing if it fails. |
| Client.PeerName | src/main/java/org/gladiator/client/Client.java:244-255 | The peer name is the peer's first line. It is null if the stream ends first. It is "" if the read fails with an I/O error. |
| Client.RemainingLines | src/main/java/org/gladiator/client/Client.java:150-152 | The handshake's line followed by the receive loop's lines is exactly what the peer sent on the shared reader. |
| Client.NameThenClose | src/main/java/org/gladiator/client/Client.java:244-259 | A peer that sends its name and then closes gives that name, and no message is shown afterwards. |
| Client.ReconnectDecision | src/main/java/org/gladiator/client/Client.java:267-276 | The session reconnects iff the answer is the line "y" or "Y". Any other line, a null line, end-of-file or an interrupt ends the application. |
| Client.SessionEvents | src/main/java/org/gladiator/client/Client.java:158-167 | A session has four events. The first two are the ends of the two loops, one each, with the receive loop first exactly when it ends first. Then comes the close, then the prompt. |
| Client.SessionEventsOrdered | src/main/java/org/gladiator/client/Client.java:164-167 | Whichever loop ends first, the connection is closed exactly once. The close comes after both loops have ended. The reconnect prompt comes only after the close. |
| Client.PromptCompletesSession | src/main/java/org/gladiator/client/Client.java:164-167 | Appending the prompt to the loops' ends and the close yields exactly a session's events, and the events appended to any earlier trace keep the close-once order. |
| Client.Session.constructor | src/main/java/org/gladiator/client/Client.java:45-50 | A new client has its configured name, nothing sent or shown, and a running executor. |
| Client.Session.ExchangeNames | src/main/java/org/gladiator/client/Client.java:236-260 | With a live executor, the handshake writes the local name as one line and returns PeerName of the peer. With a shut-down executor, submitting its tasks fails with RejectedExecutionException and nothing is sent. Nothing else changes. |
| Client.Session.SendMessages | src/main/java/org/gladiator/client/Client.java:181-202 | Appends exactly Outgoing(name, inputs) to the written messages and returns why the loop ended. The executor is shut down on every exit. Records that the send loop ended. |
| Client.Session.ReceiveMessages | src/main/java/org/gladiator/client/Client.java:209-227 | Appends exactly the decoded lines to the shown messages. The executor is shut down whether the stream closed or broke. Records that the receive loop ended. |
| Client.Session.Close | src/main/java/org/gladiator/client/Client.java:280-283 | Shuts the executor down and changes nothing else. |
| Client.Session.RunLoops | src/main/java/org/gladiator/client/Client.java:158-166 | When both tasks are submitted, both loops run with their full effects, in either order; they are joined, then the connection is closed once. When the receive loop ends before the send task is submitted, the submission fails with RejectedExecutionException: the receive loop's effects stay, nothing is sent and nothing is closed. The executor is shut down afterwards in every case. |
| Client.Session.Run | src/main/java/org/gladiator/client/Client.java:150-167 | With a live executor, one session does the handshake, then both loops with their full effects, then one close, then the prompt. The new trace satisfies the close-once order, and the outcome is ReconnectDecision of the answer. If the receive loop ends before the send task is submitted, the run fails with RejectedExecutionException after the handshake and the receive loop, with no message sent, no close and no prompt. With a shut-down executor, the run fails with RejectedExecutionException and nothing changes. |
| Client.SecondRunRejected | src/main/java/org/gladiator/client/Client.java:42 | The executor is a final field that the loops shut down. So on one client, a first run reaches the reconnect decision (or fails with RejectedExecutionException when the send task is submitted too late), and a second run fails with RejectedExecutionException whatever the schedule. |

## Left out

- Socket creation and the mapping of connection failures to user messages
  (`createSocket`, `handleException`). These are operating-system networking.
- Building the reader and writer over the socket, and the `IOException`
  that `run` turns into an end of the application. These are stream I/O.
- `createClient`. `ClientConfigProvider` and `NamedVirtualThreadExecutorFactory`
  are not part of this model. The client's configuration is reduced to its
  name.
- Real concurrency. This covers `runAsync`/`supplyAsync`, the thread
  interleavings of the two loops and of the two handshake tasks, and what
  `shutdownNow` does to running work. The model keeps only the sequential
  outcome; the executor is a flag.
- What `Connection` does. `Connection`, `writeOutput`, `readStream` and
  `close` are not part of this model. Only the fact that `close` is called
  once, and where, is recorded.
- The concrete decoder `ConnectionMessageFactory` and the type `SimpleMessage`.
  Both are not part of this model.
- Terminal display (`displayBanner`, `displayOnScreen`, `showNewMessage`) and
  all logging. These are presentation.
- An input source that never ends or blocks forever. The model's input is
  finite.
- Client.Session.Run: the loops' collaborators (the terminal's
  `getUserInput`, the decoder, `writeOutput`, `showNewMessage`) are assumed to throw only the exceptions the loops
  catch. In the source, any other runtime exception makes `join` throw, and
  then `run` skips both the close and the reconnect prompt. The model's
  decoder is a total function and its loops cannot fail, so this path is
  not modelled.
- Client.ReconnectDecision: the case-insensitive comparison uses ASCII case
  mapping only. Java's `equalsIgnoreCase` also applies Unicode case mapping.
  For the one-character target `"Y"` that is not expected to add any other
  accepted answer, but the model does not prove this.
