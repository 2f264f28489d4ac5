# DemoChatApplication chat core, modelled in Dafny

DemoChatApplication is a small JavaFX chat: one server window and several client windows.
They talk over TCP, and every message is one length-prefixed string.
This project models the logic between the sockets and the windows:

- **The server's per-connection handler** (`ClientHandler`). The first string a client
  sends is its name. Every later string is relayed until the client sends "exit" in any
  case, a read fails, or the server closes the connection. On every path the handler
  reports its disconnect exactly once.
- **The server controller** (`ServerController`). It keeps a registry of open handlers and
  relays each chat line, as `name: message`, to every registered handler, the sender
  included. It also sends the operator's `Server: ...` messages and stops by sending
  "exit" and closing everything. Its client list is filled by parsing log lines that
  contain "connected from".
- **The client controller** (`ClientController`). It connects under a trimmed, non-blank
  user name and writes that name first. It shows what the server sends until the server
  says "exit", sends trimmed non-blank text, and leaves by writing "exit" and closing.

Modules:

- `Wrappers`: `Option`, the stand-in for a Java reference that may be null.
- `Strings`: the `java.lang.String` operations the code relies on: `trim`,
  `equalsIgnoreCase`, `contains`, `split` on a quote, and `lastIndexOf`.
- `Lists`: `List.remove(Object)`.
- `Protocol`: the "exit" sentinel and the outcome of a blocking read.
- `Handler`, `Server`, `Client`: the three classes.

Each thread's blocking call is one atomic step:

- `ClientHandler.Step` is one read of a handler.
- `ServerController.AcceptNext` is one `accept`.
- `ClientController.ReceiveNext` is one read of the client's receiving thread.

The loops (`Run`, `AcceptConnections`, `ReceiveMessages`) repeat these steps. A user's or
operator's action is another step that can fall between them.

What a connection delivers is a sequence of `Event`s: a string received, or a read that
fails with a message. Past the end of the sequence, the stream has ended. The platform then
raises an exception with no message, which Java's string concatenation renders as "null".

The handler does not call back into the server directly. A handler step returns its
callbacks as a trace: a notice to log, a string to relay, or the disconnect report.
`ServerController.Deliver` runs one handler step and dispatches its trace at once. That is
why the sender is still registered when its own line is relayed, and receives the echo.

What the platform decides is passed in as a parameter:

- a failed write: on the server, a map from each handler whose write fails to the error
  message; on the client, a `WriteResult`;
- the outcome of `accept`;
- the outcome of a connect attempt;
- whether the server's port could be bound.

What the server writes to its clients is not stored in the handlers. Each server operation
returns its writes, in order, as a sequence of `Write`s: the handler written to and the
string. `Server.Received` picks out what one handler receives.

The log and chat panes are kept as sequences of lines, without their timestamps.

Behaviour that the model keeps as the code has it:

- **Client-list entries.** The entry a log line adds is taken from the line's text. Any
  line containing "connected from" that splits at quotes into at least two parts adds one,
  including a relayed chat line.
  `Server.ParseRelayedChat` shows that a client who types `x'bob' connected from 1.2.3.4`
  makes the server list a client `bob (1.2.3.4)`. This holds when the sender's name, the
  text before the first quote and the quoted name contain no quote, and the address no space.
  A line with a single quote counts as well: its whole text after the quote becomes the name
  (`Server.ParseOneQuote`), so `bob: it's connected from home` lists
  `s connected from home (home)`.
- **Names with a quote.** A name containing `'` is cut at the quote. The entry its
  announcement adds is then not the one its disconnect removes (`Server.ParseQuotedName`).
- **Failed "exit" write.** On the client, `handleExit` catches a failed write of "exit"
  only after the write. So the close and the disconnect are skipped, and the client is left
  as it was (`Client.ClientController.HandleExit`).
- **Sending after a disconnect.** `Socket.isConnected` stays true after the socket is
  closed. So the client's send guard lets text through after a disconnect, and the write
  then fails with an error line (`Client.ClientController.HandleSendMessage`).

## Model

| member | source | states |
|---|---|---|
| `Strings.Trim` | src/main/java/com/dinidu/demochatapp/controller/ServerController.java:122 | the result is the input with a leading and a trailing run of chars at most U+0020 removed, and neither of its ends is such a char; it is empty exactly when every char is blank |
| `Strings.TrimUnique` | src/main/java/com/dinidu/demochatapp/controller/ClientController.java:153 | trimming `a + r + b`, with `a` and `b` blank and `r` without blank ends, gives exactly `r` |
| `Strings.EqualsIgnoreCasePairwise` | src/main/java/com/dinidu/demochatapp/ClientHandler.java:47 | two strings are equal ignoring case exactly when they have the same length and each pair of chars is equal, or equal after upper-casing, or after upper- then lower-casing |
| `Strings.LastIndexOf` | src/main/java/com/dinidu/demochatapp/controller/ServerController.java:184 | the result is -1 or an index holding the char, and no later index holds it |
| `Strings.LastIndexOfAfter` | src/main/java/com/dinidu/demochatapp/controller/ServerController.java:184 | in `a + [c] + b` with no `c` in `b`, the last `c` is at index `|a|` |
| `Strings.Pieces` | src/main/java/com/dinidu/demochatapp/controller/ServerController.java:181 | the pieces between separators hold no separator, there is at least one, and joining them back with the separator gives the input |
| `Strings.PiecesOfJoin` | src/main/java/com/dinidu/demochatapp/controller/ServerController.java:181 | cutting a join of separator-free pieces gives back those pieces |
| `Strings.PiecesAfter` | src/main/java/com/dinidu/demochatapp/controller/ServerController.java:181 | the first separator ends the first piece |
| `Strings.DropTrailingEmpty` | src/main/java/com/dinidu/demochatapp/controller/ServerController.java:181 | the result is a prefix of the pieces, only empty pieces are dropped, and it does not end with an empty piece |
| `Strings.SplitSecond` | src/main/java/com/dinidu/demochatapp/controller/ServerController.java:181-183 | splitting `p'n'rest` at quotes, with no quote in `p` or `n` and some char other than a quote in `rest`, gives at least two parts, the second being `n` |
| `Strings.SplitOne` | src/main/java/com/dinidu/demochatapp/controller/ServerController.java:181 | splitting `p'rest` at quotes, with no quote in `p` or `rest` and `rest` not empty, gives exactly the two parts `p` and `rest` |
| `Lists.FirstIndex` | src/main/java/com/dinidu/demochatapp/controller/ServerController.java:100 | the index holds the element and no earlier index does |
| `Lists.RemoveFirst` | src/main/java/com/dinidu/demochatapp/controller/ServerController.java:100 | removing an absent element changes nothing; otherwise exactly the first occurrence is cut out and the rest keep their order |
| `Lists.RemoveFirstMultiset` | src/main/java/com/dinidu/demochatapp/controller/ServerController.java:100 | removal takes away exactly one copy of the element, if there is one, and nothing else |
| `Lists.RemoveFromDistinct` | src/main/java/com/dinidu/demochatapp/controller/ServerController.java:98-100 | in a list without repetitions, the removed element is gone afterwards, no repetition appears, and every other member stays |
| `Lists.AddThenRemove` | src/main/java/com/dinidu/demochatapp/controller/ServerController.java:185 | adding an absent element at the end and then removing it gives back the list |
| `Protocol.ExitSpellings` | src/main/java/com/dinidu/demochatapp/ClientHandler.java:47 | the strings that end a session are exactly the four-letter spellings of "exit" in any case, with the dotless i and the dotted capital I also accepted for the i |
| `Protocol.ChatPrefix` | src/main/java/com/dinidu/demochatapp/ClientHandler.java:45-53 | the chat prefix of a stream is its leading run of received non-exit strings, and the read after it is a failure or an exit |
| `Protocol.ChatPrefixOfReceives` | src/main/java/com/dinidu/demochatapp/ClientHandler.java:45-53 | non-exit strings followed by anything: the chat prefix is those strings followed by the chat prefix of the rest |
| `Handler.Transition` | src/main/java/com/dinidu/demochatapp/ClientHandler.java:41-61 | one read: the handler ends exactly when it reports a disconnect, which is its last call; a handler closed from outside or without an input stream reports only the disconnect; a failed read always ends it; the first string becomes the name; a string is relayed only after the name, while open, unchanged and on its own |
| `Handler.ClientHandler.constructor` | src/main/java/com/dinidu/demochatapp/ClientHandler.java:20-35 | a new handler is open and has no name; its output stream exists only when both streams could be opened |
| `Handler.ClientHandler.Step` | src/main/java/com/dinidu/demochatapp/ClientHandler.java:41-61 | one read changes the handler's state and yields the calls exactly as `Transition` says |
| `Handler.ClientHandler.Run` | src/main/java/com/dinidu/demochatapp/ClientHandler.java:37-63 | `run` ends closed, and its calls are the trace `RunCalls` of the inbound strings; the name it leaves is the first string read, when that read receives one on an open handler with an input stream, and otherwise the name it started with |
| `Handler.ClientHandler.SendMessage` | src/main/java/com/dinidu/demochatapp/ClientHandler.java:65-74 | the message is written, unchanged, exactly when the handler is open, has an output stream and the write does not fail; a failed write on such a handler yields instead the "Failed to send message to '<name>': <error>" notice; a closed handler or one without an output stream does neither |
| `Handler.ClientHandler.CloseConnection` | src/main/java/com/dinidu/demochatapp/ClientHandler.java:76-85 | afterwards the handler is not running |
| `Handler.DisconnectOnceAtEnd` | src/main/java/com/dinidu/demochatapp/ClientHandler.java:59-62 | every run reports the disconnect exactly once, as its last call |
| `Handler.ListenerForwardsChat` | src/main/java/com/dinidu/demochatapp/ClientHandler.java:45-53 | once the name is read, the strings relayed are exactly the chat prefix of the rest of the stream, in order |
| `Handler.RunForwardsChat` | src/main/java/com/dinidu/demochatapp/ClientHandler.java:41-53 | a whole run relays exactly the chat prefix of the strings after the name; the name itself is never relayed |
| `Handler.ListenerOverChat` | src/main/java/com/dinidu/demochatapp/ClientHandler.java:45-53 | each non-exit string produces one relay call, and the handler goes on unchanged |
| `Handler.SessionOpening` | src/main/java/com/dinidu/demochatapp/ClientHandler.java:41-53 | a run opens with the announcement "Client '<name>' connected from <address>" followed by one relay per chat string |
| `Handler.SessionEndsOnExit` | src/main/java/com/dinidu/demochatapp/ClientHandler.java:47-50 | "exit" in any case yields the "has left the chat" notice and the disconnect; neither it nor any later string is relayed |
| `Handler.SessionEndsOnReadError` | src/main/java/com/dinidu/demochatapp/ClientHandler.java:55-58 | a read error on an open handler yields one "Connection lost with client '<name>': <error>" notice and the disconnect |
| `Handler.SessionEndsAtEndOfStream` | src/main/java/com/dinidu/demochatapp/ClientHandler.java:55-58 | a client that hangs up without "exit" is reported lost with the message "null" |
| `Handler.NameNeverRead` | src/main/java/com/dinidu/demochatapp/ClientHandler.java:41 | a connection that fails before the name arrives is reported under the name "null" |
| `Handler.ClosedHandlerOnlyDisconnects` | src/main/java/com/dinidu/demochatapp/ClientHandler.java:55-61 | a handler closed from outside, or one without an input stream, reports no notice, only the disconnect |
| `Server.ParseClientEntry` | src/main/java/com/dinidu/demochatapp/controller/ServerController.java:180-185 | an entry is produced exactly for the lines containing "connected from" that split at quotes into at least two parts |
| `Server.ParseQuotedLine` | src/main/java/com/dinidu/demochatapp/controller/ServerController.java:180-185 | any line `p'n'q address` that contains the marker, with no quote in `p` or `n` and no space in the address, yields the entry `n (address)`, whatever `q` holds |
| `Server.ParseAnnouncement` | src/main/java/com/dinidu/demochatapp/controller/ServerController.java:180-185 | a handler's announcement, with a quote-free name and a space-free address, yields exactly the entry `name (address)` that its disconnect removes |
| `Server.ParseRelayedChat` | src/main/java/com/dinidu/demochatapp/controller/ServerController.java:180-185 | a relayed chat line `sender: p'n' connected from a`, with no quote in `sender`, `p` or `n` and no space in `a`, yields the entry `n (a)` though no such client connected |
| `Server.ParseQuotedName` | src/main/java/com/dinidu/demochatapp/controller/ServerController.java:180-185 | a name `first'second` with no further quote, announced from a space-free address, yields only `first`, so the listed entry differs from the one its disconnect removes |
| `Server.ParseOneQuote` | src/main/java/com/dinidu/demochatapp/controller/ServerController.java:180-185 | a line `p'q address` containing the marker, with a single quote and no space in the address, yields the entry `q address (address)`: the name runs from the quote to the end of the line |
| `Server.AppendedLogs` | src/main/java/com/dinidu/demochatapp/controller/ServerController.java:174-177 | every appended line is logged at the end, and the status is untouched |
| `Server.AppendedPlainLine` | src/main/java/com/dinidu/demochatapp/controller/ServerController.java:180 | a line without "connected from" changes nothing but the log |
| `Server.AnnouncementListsClient` | src/main/java/com/dinidu/demochatapp/controller/ServerController.java:180-186 | for a quote-free name and a space-free address, an announcement adds its client's entry at the end of the list and sets the count to the number of registered clients |
| `Server.AnnounceThenDepart` | src/main/java/com/dinidu/demochatapp/controller/ServerController.java:101-103 | for a quote-free name, a space-free address and an entry not listed before, announcing a client and then reporting its disconnect leaves the client list as it was |
| `Server.AnnounceThenDepartSameEntries` | src/main/java/com/dinidu/demochatapp/controller/ServerController.java:101-103 | for a quote-free name and a space-free address, even with an equal entry listed before, announcing and then departing leaves the same entries (as a multiset); `remove` drops the older copy, so the order may change |
| `Server.LeadingConnections` | src/main/java/com/dinidu/demochatapp/controller/ServerController.java:57-77 | the number of accepts before the first error: all of those succeeded and the next one failed |
| `Server.ServerController.constructor` | src/main/java/com/dinidu/demochatapp/controller/ServerController.java:31-35 | a new controller is running, with no clients, nothing logged and the accept loop not started |
| `Server.ServerController.StartServer` | src/main/java/com/dinidu/demochatapp/controller/ServerController.java:50-82 | a bound port sets the status "Server started on port 5000", logs the waiting line and starts accepting; a bind error sets "Failed to start server: <error>", logs "Server error: <error>" and stops |
| `Server.ServerController.AcceptNext` | src/main/java/com/dinidu/demochatapp/controller/ServerController.java:57-77 | a new handler is registered at the end of the list and handed to the executor; an accept error stops the loop and is logged only while running; a stopped server accepts nothing |
| `Server.ServerController.AcceptConnections` | src/main/java/com/dinidu/demochatapp/controller/ServerController.java:57-78 | the loop registers one fresh handler per accepted connection, in order, up to the first error, which it logs and after which it stops; each new handler has its connection's address, starts unnamed and open, and has an input and an output stream exactly as its connection's streams opened (`MadeForEach`) |
| `Server.ServerController.AppendMessage` | src/main/java/com/dinidu/demochatapp/controller/ServerController.java:174-190 | the view becomes `Appended`: the line logged, and the parsed entry listed with the count refreshed |
| `Server.ServerController.Broadcast` | src/main/java/com/dinidu/demochatapp/controller/ServerController.java:112-118 | the writes are one per registered handler that is open and whose write succeeds, in list order (`Writes`); each failed write's notice is logged in list order; no handler's state changes |
| `Server.BroadcastReachesEach` | src/main/java/com/dinidu/demochatapp/controller/ServerController.java:112-118 | in a registry without repetitions, a broadcast delivers the message exactly once to each registered handler that is open and whose write succeeds, and nothing to any other handler |
| `Server.ServerController.HandleClientMessage` | src/main/java/com/dinidu/demochatapp/controller/ServerController.java:85-96 | "<name>: <message>" is logged first and then broadcast to every registered handler, the source included, with the failures logged after it |
| `Server.ServerController.HandleClientDisconnect` | src/main/java/com/dinidu/demochatapp/controller/ServerController.java:98-106 | the handler's first occurrence leaves the registry, its entry leaves the client list, and the count becomes the registry's size; removing a stopped handler restores the rule that exactly the open handlers are registered |
| `Server.ServerController.HandleSendMessage` | src/main/java/com/dinidu/demochatapp/controller/ServerController.java:120-129 | blank text writes and logs nothing; otherwise "Server: <trimmed text>" is broadcast to every registered handler, and logged after the failure notices |
| `Server.ServerController.HandleStopServer` | src/main/java/com/dinidu/demochatapp/controller/ServerController.java:131-146 | "exit" is broadcast to every registered handler while they are still open, and then all of them are closed, keeping their names and phases; afterwards the server is stopped and the registry is empty |
| `Server.ServerController.Shutdown` | src/main/java/com/dinidu/demochatapp/controller/ServerController.java:148-157 | running becomes false, every registered handler is closed and the registry is emptied, keeping the invariant that exactly the open handlers are registered |
| `Server.ServerController.Deliver` | src/main/java/com/dinidu/demochatapp/controller/ServerController.java:60-65 | one handler read with its calls dispatched: a relayed string reaches every registered handler including its sender; a disconnect removes the handler from the registry and the client list; a handler is registered exactly while it is open |
| `Client.ShownIsChatThenClosing` | src/main/java/com/dinidu/demochatapp/controller/ClientController.java:124-149 | a session shows exactly the chat prefix of what the server sent, then one closing line, and ends with the matching status |
| `Client.ServerExitEndsSession` | src/main/java/com/dinidu/demochatapp/controller/ClientController.java:129-136 | the server's "exit" in any case is not shown as chat; the session shows the chat before it and "System: Server has closed the connection" |
| `Client.ReadErrorEndsSession` | src/main/java/com/dinidu/demochatapp/controller/ClientController.java:139-146 | a failed read shows the chat before it and "System: Connection lost - <error>", with the status "Connection lost: <error>" |
| `Client.ClientController.constructor` | src/main/java/com/dinidu/demochatapp/controller/ClientController.java:25-29 | a new controller is not running, has no socket and no user name |
| `Client.ClientController.HandleConnect` | src/main/java/com/dinidu/demochatapp/controller/ClientController.java:52-76 | a connect while running changes nothing; otherwise the trimmed field becomes the user name, and a blank one shows "System: Please enter a username" and opens no connection |
| `Client.ClientController.ConnectToServer` | src/main/java/com/dinidu/demochatapp/controller/ClientController.java:78-121 | a refused connection keeps the old socket; a failed name write leaves the new socket open, with nothing written and the client not running; on success the user name is the first string written, and the client runs only once it is written |
| `Client.ClientController.ReceiveNext` | src/main/java/com/dinidu/demochatapp/controller/ClientController.java:127-146 | a chat string is shown and the loop goes on; the server's "exit" or a read error shows its line, sets its status and disconnects; once the client is not running nothing is shown |
| `Client.ClientController.ReceiveMessages` | src/main/java/com/dinidu/demochatapp/controller/ClientController.java:124-149 | the loop shows exactly `Shown(events)`, ends with `FinalStatus(events)`, and leaves the client disconnected |
| `Client.ClientController.HandleSendMessage` | src/main/java/com/dinidu/demochatapp/controller/ClientController.java:151-163 | only trimmed non-blank text is written, and only when a socket was connected; a failed write shows "System: Failed to send message - <error>" |
| `Client.ClientController.HandleExit` | src/main/java/com/dinidu/demochatapp/controller/ClientController.java:165-183 | "exit" is written before the connection is closed and the client stops; a failed write leaves the client as it was |
| `Client.ClientController.HandleDisconnect` | src/main/java/com/dinidu/demochatapp/controller/ClientController.java:185-197 | afterwards the client is not running and an open socket is closed |
| `Client.ClientController.CloseConnection` | src/main/java/com/dinidu/demochatapp/controller/ClientController.java:199-208 | afterwards the client is not running and an open socket is closed |

## Left out

- Sockets, streams and the `writeUTF`/`readUTF` framing belong to the platform. A message
  is a whole string; a read yields a string or fails with a message; a write succeeds or
  fails as a parameter says.
- Threads, the executor, `synchronized` and `volatile` are left out. Each blocking call is
  one atomic step, so races at a finer grain are not captured. Examples: an `accept` that
  returns just after `shutdown` cleared the registry; a second connect clicked while the
  first attempt is still pending; the client's disconnect running later on the UI thread.
- `Platform.runLater`, buttons, fields, window titles, window closing and the callback run
  after a successful connect are UI. So are `ClientController.initialize` (the default user
  name from the window title) and `ServerController.initialize`, whose starting of
  `startServer` on the executor is the constructor plus `StartServer` here.
- Timestamps on log lines depend on the clock, and are left out.
- `ClientApp.java` and `ServerApp.java` (application launch) are not part of this model.
- `ClientHandler.getClientName` and `getClientAddress` are the fields `clientName` and
  `address`. The server reads them directly, through `EntryOf` and `NameText`.
- Handler.ClientHandler.Step: the disconnect report comes before `closeConnection` in the
  source. Both happen within one step, so the model cannot observe that order.
- Client.ClientController.ConnectToServer: a failure while opening the client's streams is
  not modelled. `HandshakeFails` is a failure writing the name once both streams exist.
- Client.ClientController.HandleSendMessage: the message of a write on a closed socket is
  taken to be the platform's "Socket closed".
- Server.ServerController.Shutdown: closing the server socket and shutting down the
  executor are not modelled. The accept loop stops at its next step because the server is
  no longer running.
- Strings.EqualsIgnoreCase: Java's full Unicode case tables are reduced to the mappings
  that land on ASCII letters. This is exact whenever one side is ASCII, and so exact for
  "exit".
- Java strings are UTF-16 code units, while Dafny chars are Unicode scalar values, so
  surrogate pairs are not modelled.
