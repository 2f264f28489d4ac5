/**
 * The chat server: a registry of connected handlers, the fan-out of every chat line to all of
 * them (the sender included), the operator's own messages, the stop command, and the log view
 * with its list of connected clients, which is kept up to date by parsing the log lines.
 *
 * Each thread's blocking call is one atomic step (`AcceptNext`, `Deliver`); the operator's
 * actions (`HandleSendMessage`, `HandleStopServer`) are other steps that may fall between them.
 * A write to a client that fails is given by a `failures` map from handler to error message.
 */
module Server {
  import opened Wrappers
  import opened Strings
  import opened Lists
  import opened Protocol
  import opened Handler

  // ---------------------------------------------------------------- log lines and their parse

  /** A client's chat string as relayed to everyone: the sender's name first. */
  function ChatLine(name: string, message: string): string {
    name + ": " + message
  }

  /** The operator's message as relayed to everyone. */
  function ServerLine(message: string): string {
    "Server: " + message
  }

  /** A connected client as the server's client list shows it. */
  function DisplayEntry(name: string, address: string): string {
    name + " (" + address + ")"
  }

  const ConnectedMarker := "connected from"
  const StartedStatus := "Server started on port 5000"
  const WaitingLine := "Server started and waiting for connections..."

  function StartFailedStatus(reason: string): string {
    "Failed to start server: " + reason
  }

  function ServerErrorLine(reason: string): string {
    "Server error: " + reason
  }

  function AcceptErrorLine(reason: string): string {
    "Error accepting client connection: " + reason
  }

  /**
   * The client-list entry a log line adds. Any line containing "connected from" that splits at
   * single quotes into at least two pieces qualifies, not only a handler's announcement: the
   * name is the second piece, and the address is everything after the line's last space.
   */
  function ParseClientEntry(message: string): (entry: Option<string>)
    ensures entry.Some? <==> Contains(message, ConnectedMarker) && |Split(message, '\'')| >= 2
  {
    if !Contains(message, ConnectedMarker) then None
    else
      var parts := Split(message, '\'');
      if |parts| >= 2 then
        Some(DisplayEntry(parts[1], message[LastIndexOf(message, ' ') + 1..]))
      else None
  }

  /** A line `p'n'q address` holding the marker names `n` at `address`, when `p` and `n` hold no quote and `address` no space. */
  lemma ParseQuotedLine(p: string, n: string, q: string, address: string)
    requires '\'' !in p && '\'' !in n && ' ' !in address
    requires Contains(p + "'" + n + "'" + q + " " + address, ConnectedMarker)
    ensures ParseClientEntry(p + "'" + n + "'" + q + " " + address) == Some(DisplayEntry(n, address))
  {
    var line := p + "'" + n + "'" + q + " " + address;
    assert line == p + ['\''] + n + ['\''] + (q + " " + address);
    SplitSecond(p, n, '\'', q + " " + address, |q|);
    assert line == (p + "'" + n + "'" + q) + [' '] + address;
    LastIndexOfAfter(p + "'" + n + "'" + q, ' ', address);
    assert line[|p + "'" + n + "'" + q| + 1..] == address;
  }

  lemma MarkerBetween(a: string, b: string)
    ensures Contains(a + ConnectedMarker + b, ConnectedMarker)
  {
    var line := a + ConnectedMarker + b;
    assert line[|a|..|a| + |ConnectedMarker|] == ConnectedMarker;
    assert OccursAt(line, ConnectedMarker, |a|);
  }

  /**
   * A handler's announcement yields exactly the entry that its disconnect later removes,
   * when the name holds no quote and the address no space.
   */
  lemma ParseAnnouncement(name: string, address: string)
    requires '\'' !in name && ' ' !in address
    ensures ParseClientEntry(Announcement(name, address)) == Some(DisplayEntry(name, address))
  {
    var line := Announcement(name, address);
    assert line == "Client " + "'" + name + "'" + " connected from" + " " + address;
    assert line == ("Client '" + name + "' ") + ConnectedMarker + (" " + address);
    MarkerBetween("Client '" + name + "' ", " " + address);
    ParseQuotedLine("Client ", name, " connected from", address);
  }

  /**
   * A relayed chat line is parsed too: a client named `sender` who writes `p'n' connected from a`
   * puts the entry `n (a)` in the client list, though no such client connected.
   */
  lemma ParseRelayedChat(sender: string, p: string, n: string, address: string)
    requires '\'' !in sender && '\'' !in p && '\'' !in n && ' ' !in address
    ensures ParseClientEntry(ChatLine(sender, p + "'" + n + "' connected from " + address))
         == Some(DisplayEntry(n, address))
  {
    var line := ChatLine(sender, p + "'" + n + "' connected from " + address);
    var p' := sender + ": " + p;
    assert '\'' !in ": ";
    assert line == p' + "'" + n + "'" + " connected from" + " " + address;
    assert line == (p' + "'" + n + "' ") + ConnectedMarker + (" " + address);
    MarkerBetween(p' + "'" + n + "' ", " " + address);
    ParseQuotedLine(p', n, " connected from", address);
  }

  /**
   * A name holding a quote is cut at it: the entry its announcement adds is not the entry its
   * disconnect removes, so the client stays listed after it leaves.
   */
  lemma ParseQuotedName(first: string, second: string, address: string)
    requires '\'' !in first && '\'' !in second && ' ' !in address
    ensures ParseClientEntry(Announcement(first + "'" + second, address)) == Some(DisplayEntry(first, address))
    ensures ParseClientEntry(Announcement(first + "'" + second, address)) != Some(DisplayEntry(first + "'" + second, address))
  {
    var name := first + "'" + second;
    var line := Announcement(name, address);
    assert line == "Client " + "'" + first + "'" + (second + "' connected from") + " " + address;
    assert line == ("Client '" + name + "' ") + ConnectedMarker + (" " + address);
    MarkerBetween("Client '" + name + "' ", " " + address);
    ParseQuotedLine("Client ", first, second + "' connected from", address);
    assert |DisplayEntry(first, address)| < |DisplayEntry(name, address)|;
  }

  /**
   * A line with a single quote is parsed as well: the name is all of the text after the quote,
   * address included, so `bob: it's connected from home` lists `s connected from home (home)`.
   */
  lemma ParseOneQuote(p: string, q: string, address: string)
    requires '\'' !in p && '\'' !in q && '\'' !in address && ' ' !in address
    requires Contains(p + "'" + q + " " + address, ConnectedMarker)
    ensures ParseClientEntry(p + "'" + q + " " + address) == Some(DisplayEntry(q + " " + address, address))
  {
    var line := p + "'" + q + " " + address;
    assert line == p + ['\''] + (q + " " + address);
    SplitOne(p, '\'', q + " " + address);
    assert line == (p + "'" + q) + [' '] + address;
    LastIndexOfAfter(p + "'" + q, ' ', address);
    assert line[|p + "'" + q| + 1..] == address;
  }

  /** The log pane: its lines (timestamps left out), the client list, the client count and the status label. */
  datatype ServerView = ServerView(log: seq<string>, clientList: seq<string>, clientCount: Option<nat>, status: Option<string>)

  /** The view before anything is shown; absent labels keep the text the window was laid out with. */
  const EmptyView := ServerView([], [], None, None)

  /** `appendMessage` with `size` clients registered: the line is logged, and a parsed entry is listed and the count refreshed. */
  function Appended(v: ServerView, message: string, size: nat): ServerView {
    match ParseClientEntry(message)
    case Some(entry) => v.(log := v.log + [message], clientList := v.clientList + [entry], clientCount := Some(size))
    case None => v.(log := v.log + [message])
  }

  /** Several `appendMessage` calls in order. */
  function AppendedAll(v: ServerView, messages: seq<string>, size: nat): ServerView {
    if messages == [] then v
    else Appended(AppendedAll(v, messages[..|messages| - 1], size), messages[|messages| - 1], size)
  }

  lemma AppendedAllSnoc(v: ServerView, messages: seq<string>, m: string, size: nat)
    ensures AppendedAll(v, messages + [m], size) == Appended(AppendedAll(v, messages, size), m, size)
  {
    assert (messages + [m])[..|messages|] == messages;
  }

  /** What a disconnect does to the view: the client's entry leaves the list and the count is refreshed. */
  function Departed(v: ServerView, entry: string, size: nat): ServerView {
    v.(clientList := RemoveFirst(v.clientList, entry), clientCount := Some(size))
  }

  /** A line appended is logged at the end, whatever else it does. */
  lemma AppendedLogs(v: ServerView, message: string, size: nat)
    ensures Appended(v, message, size).log == v.log + [message]
    ensures Appended(v, message, size).status == v.status
  {}

  /** A line without the marker changes nothing but the log. */
  lemma AppendedPlainLine(v: ServerView, message: string, size: nat)
    requires !Contains(message, ConnectedMarker)
    ensures Appended(v, message, size) == v.(log := v.log + [message])
  {}

  /** An announcement lists its client and sets the count to the number of registered clients. */
  lemma AnnouncementListsClient(v: ServerView, name: string, address: string, size: nat)
    requires '\'' !in name && ' ' !in address
    ensures Appended(v, Announcement(name, address), size).clientList == v.clientList + [DisplayEntry(name, address)]
    ensures Appended(v, Announcement(name, address), size).clientCount == Some(size)
  {
    ParseAnnouncement(name, address);
  }

  /**
   * Announcing a client and then reporting its disconnect leaves the client list as it was,
   * when the name holds no quote, the address no space, and the entry was not listed before.
   */
  lemma AnnounceThenDepart(v: ServerView, name: string, address: string, size: nat, size': nat)
    requires '\'' !in name && ' ' !in address
    requires DisplayEntry(name, address) !in v.clientList
    ensures Departed(Appended(v, Announcement(name, address), size), DisplayEntry(name, address), size').clientList == v.clientList
  {
    AnnouncementListsClient(v, name, address, size);
    AddThenRemove(v.clientList, DisplayEntry(name, address));
  }

  /**
   * With the entry possibly listed already (a second client of the same name on the same host),
   * announcing and then departing still leaves the same entries, though `remove` takes out the
   * older copy, so their order may change.
   */
  lemma AnnounceThenDepartSameEntries(v: ServerView, name: string, address: string, size: nat, size': nat)
    requires '\'' !in name && ' ' !in address
    ensures multiset(Departed(Appended(v, Announcement(name, address), size), DisplayEntry(name, address), size').clientList)
         == multiset(v.clientList)
  {
    var e := DisplayEntry(name, address);
    AnnouncementListsClient(v, name, address, size);
    RemoveFirstMultiset(v.clientList + [e], e);
    assert multiset(v.clientList + [e]) == multiset(v.clientList) + multiset{e};
  }

  // ---------------------------------------------------------------- the controller

  /** Where the accept loop is: not started, waiting in `accept`, or finished. */
  datatype Acceptor = Idle | Accepting | Stopped

  /** What one `accept` yields: a connection (and whether its streams open), or an error. */
  datatype AcceptOutcome = Connection(address: string, inputOk: bool, outputOk: bool) | AcceptFails(reason: string)

  /** The number of connections the accept loop registers before its first error. */
  function LeadingConnections(outcomes: seq<AcceptOutcome>): (n: nat)
    ensures n <= |outcomes|
    ensures forall i :: 0 <= i < n ==> outcomes[i].Connection?
    ensures n < |outcomes| ==> outcomes[n].AcceptFails?
  {
    if outcomes == [] || outcomes[0].AcceptFails? then 0 else 1 + LeadingConnections(outcomes[1..])
  }

  /** The leading connections are characterised by where the first error is. */
  lemma {:induction false} LeadingConnectionsAt(outcomes: seq<AcceptOutcome>, n: nat)
    requires n <= |outcomes|
    requires forall i :: 0 <= i < n ==> outcomes[i].Connection?
    requires n < |outcomes| ==> outcomes[n].AcceptFails?
    ensures LeadingConnections(outcomes) == n
  {
    if n > 0 {
      assert outcomes[0].Connection?;
      LeadingConnectionsAt(outcomes[1..], n - 1);
    }
  }

  /** `h` is the handler the constructor makes for the connection `outcome`: fresh in state, with its address and streams. */
  ghost predicate MadeFor(h: ClientHandler, outcome: AcceptOutcome)
    reads h
  {
    && outcome.Connection? && h.State() == Fresh && h.address == outcome.address
    && h.hasInput == outcome.inputOk && h.hasOutput == (outcome.inputOk && outcome.outputOk)
  }

  /** Each handler in `added` was made for the accept outcome at the same position. */
  ghost predicate MadeForEach(added: seq<ClientHandler>, outcomes: seq<AcceptOutcome>)
    reads added
  {
    |added| <= |outcomes| && forall i :: 0 <= i < |added| ==> MadeFor(added[i], outcomes[i])
  }

  /** One more handler made for the next outcome extends the correspondence. */
  lemma MadeForNext(added: seq<ClientHandler>, outcomes: seq<AcceptOutcome>, h: ClientHandler)
    requires MadeForEach(added, outcomes) && |added| < |outcomes| && MadeFor(h, outcomes[|added|])
    ensures MadeForEach(added + [h], outcomes)
  {
    var next := added + [h];
    assert forall i :: 0 <= i < |added| ==> next[i] == added[i];
  }

  /** The client-list entry of a handler, under the name it has read ("null" before that). */
  function EntryOf(h: ClientHandler): string
    reads h
  {
    DisplayEntry(NameText(h.clientName), h.address)
  }

  /** A string written to the output stream of handler `to`. */
  datatype Write = Write(to: ClientHandler, text: string)

  /** What a broadcast writes to `h`: the message, unless the handler is closed or the write fails. */
  function Copy(h: ClientHandler, message: string, failures: map<ClientHandler, string>): seq<string>
    reads h
  {
    if h.Writable() && h !in failures then [message] else []
  }

  /** The writes of a broadcast of `message` to `hs`, in list order. */
  function Writes(hs: seq<ClientHandler>, message: string, failures: map<ClientHandler, string>): seq<Write>
    reads hs
  {
    if hs == [] then []
    else
      var h := hs[|hs| - 1];
      Writes(hs[..|hs| - 1], message, failures) + (if Copy(h, message, failures) != [] then [Write(h, message)] else [])
  }

  /** The strings `writes` sends to `h`, in order. */
  function Received(writes: seq<Write>, h: ClientHandler): seq<string> {
    if writes == [] then []
    else
      var w := writes[|writes| - 1];
      Received(writes[..|writes| - 1], h) + (if w.to == h then [w.text] else [])
  }

  lemma {:induction false} ReceivedAppend(a: seq<Write>, b: seq<Write>, h: ClientHandler)
    ensures Received(a + b, h) == Received(a, h) + Received(b, h)
  {
    if b == [] {
      assert a + b == a;
    } else {
      assert (a + b)[..|a + b| - 1] == a + b[..|b| - 1];
      ReceivedAppend(a, b[..|b| - 1], h);
    }
  }

  /**
   * A broadcast to handlers without repetitions reaches each of them exactly once, with what
   * `Copy` says, and nobody else.
   */
  lemma {:induction false} BroadcastReachesEach(hs: seq<ClientHandler>, message: string, failures: map<ClientHandler, string>, h: ClientHandler)
    requires Distinct(hs)
    ensures Received(Writes(hs, message, failures), h) == if h in hs then Copy(h, message, failures) else []
  {
    if hs != [] {
      var init, last := hs[..|hs| - 1], hs[|hs| - 1];
      assert hs == init + [last];
      assert Distinct(init);
      assert last !in init;
      assert h in hs <==> h in init || h == last;
      BroadcastReachesEach(init, message, failures, h);
      var mine := if Copy(last, message, failures) != [] then [Write(last, message)] else [];
      ReceivedAppend(Writes(init, message, failures), mine, h);
      assert Received(mine, h) == if last == h then Copy(last, message, failures) else [] by {
        if mine != [] {
          assert mine[..0] == [];
        }
      }
    }
  }

  /** The notice a broadcast's write to `h` reports when it fails. */
  function NoticeFor(h: ClientHandler, failures: map<ClientHandler, string>): seq<string>
    reads h
  {
    if h.Writable() && h in failures then [SendFailedNotice(NameText(h.clientName), failures[h])] else []
  }

  /** The failure notices of a broadcast to `hs`, in list order. */
  function FailureNotices(hs: seq<ClientHandler>, failures: map<ClientHandler, string>): seq<string>
    reads hs
  {
    if hs == [] then []
    else FailureNotices(hs[..|hs| - 1], failures) + NoticeFor(hs[|hs| - 1], failures)
  }

  class ServerController {
    /** `clients`: the registered handlers, in registration order. */
    var clients: seq<ClientHandler>
    /** The handlers handed to the executor to run, in submission order. */
    var tasks: seq<ClientHandler>
    var view: ServerView
    var running: bool
    var acceptor: Acceptor

    /**
     * Every registered handler has been handed to the executor; a handler is registered exactly
     * while it is open; after shutdown nothing is registered.
     */
    ghost predicate Valid()
      reads this`clients, this`tasks, this`running, tasks
    {
      && Distinct(tasks) && Distinct(clients)
      && (forall h :: h in clients ==> h in tasks)
      && (forall h :: h in tasks ==> h.Valid() && (h in clients <==> h.running))
      && (!running ==> clients == [])
    }

    /** The registry while `h` has stopped but is still listed: only `h` may break the running rule. */
    ghost predicate ValidBut(h: ClientHandler)
      reads this`clients, this`tasks, this`running, tasks
    {
      && Distinct(tasks) && Distinct(clients)
      && (forall t :: t in clients ==> t in tasks)
      && (forall t :: t in tasks ==> t.Valid() && (t != h ==> (t in clients <==> t.running)))
      && (!running ==> clients == [])
      && h in tasks && !h.running
    }

    constructor ()
      ensures Valid() && running && acceptor == Idle
      ensures clients == [] && tasks == [] && view == EmptyView
    {
      clients := [];
      tasks := [];
      view := EmptyView;
      running := true;
      acceptor := Idle;
    }

    /** `startServer` up to its accept loop: bind the port, or report why it could not be bound. */
    method StartServer(bindError: Option<string>)
      requires acceptor == Idle
      modifies this`view, this`acceptor
      ensures bindError.None? ==>
        acceptor == Accepting && view == Appended(old(view).(status := Some(StartedStatus)), WaitingLine, |clients|)
      ensures bindError.Some? ==>
        acceptor == Stopped
        && view == Appended(old(view).(status := Some(StartFailedStatus(bindError.value))), ServerErrorLine(bindError.value), |clients|)
    {
      match bindError
      case None =>
        view := view.(status := Some(StartedStatus));
        AppendMessage(WaitingLine);
        acceptor := Accepting;
      case Some(reason) =>
        view := view.(status := Some(StartFailedStatus(reason)));
        AppendMessage(ServerErrorLine(reason));
        acceptor := Stopped;
    }

    /**
     * One turn of the accept loop: the loop test, then one `accept`. A new handler is
     * registered before it is handed to the executor; an error ends the loop, and is logged
     * only while the server is running.
     */
    method AcceptNext(outcome: AcceptOutcome) returns (h: ClientHandler?)
      requires Valid()
      modifies this`clients, this`tasks, this`view, this`acceptor
      ensures Valid()
      ensures old(acceptor) != Accepting ==>
        h == null && clients == old(clients) && tasks == old(tasks) && view == old(view) && acceptor == old(acceptor)
      ensures old(acceptor) == Accepting && !running ==>
        h == null && clients == old(clients) && tasks == old(tasks) && view == old(view) && acceptor == Stopped
      ensures old(acceptor) == Accepting && running && outcome.AcceptFails? ==>
        h == null && clients == old(clients) && tasks == old(tasks) && acceptor == Stopped
        && view == Appended(old(view), AcceptErrorLine(outcome.reason), |clients|)
      ensures old(acceptor) == Accepting && running && outcome.Connection? ==>
        h != null && fresh(h) && MadeFor(h, outcome)
        && clients == old(clients) + [h] && tasks == old(tasks) + [h] && view == old(view) && acceptor == Accepting
    {
      h := null;
      if acceptor != Accepting {
        return;
      }
      if !running {
        acceptor := Stopped;
        return;
      }
      match outcome
      case AcceptFails(reason) =>
        AppendMessage(AcceptErrorLine(reason));
        acceptor := Stopped;
      case Connection(address, inputOk, outputOk) =>
        h := new ClientHandler(address, inputOk, outputOk);
        clients := clients + [h];
        tasks := tasks + [h];
    }

    /** The accept loop over the outcomes of successive `accept` calls. */
    method AcceptConnections(outcomes: seq<AcceptOutcome>) returns (added: seq<ClientHandler>)
      requires Valid() && acceptor == Accepting
      modifies this`clients, this`tasks, this`view, this`acceptor
      ensures Valid()
      ensures clients == old(clients) + added && tasks == old(tasks) + added
      ensures MadeForEach(added, outcomes) && fresh(added)
      ensures running ==> |added| == LeadingConnections(outcomes)
      ensures running && |added| < |outcomes| ==>
        acceptor == Stopped && view == Appended(old(view), AcceptErrorLine(outcomes[|added|].reason), |clients|)
      ensures running && |added| == |outcomes| ==> acceptor == Accepting && view == old(view)
      ensures !running ==> added == [] && view == old(view) && acceptor == Stopped
    {
      added := [];
      if !running {
        // the loop test fails before the first `accept`
        acceptor := Stopped;
        return;
      }
      var i := 0;
      while i < |outcomes|
        invariant Valid() && running && acceptor == Accepting
        invariant i <= |outcomes| && |added| == i
        invariant clients == old(clients) + added && tasks == old(tasks) + added && view == old(view)
        invariant MadeForEach(added, outcomes) && fresh(added)
      {
        var h := AcceptNext(outcomes[i]);
        if h == null {
          // the first failed `accept` ends the loop
          break;
        }
        MadeForNext(added, outcomes, h);
        added := added + [h];
        i := i + 1;
      }
      LeadingConnectionsAt(outcomes, i);
    }

    /** `appendMessage`: log the line, and list the client it names, if any. */
    method AppendMessage(message: string)
      modifies this`view
      ensures view == Appended(old(view), message, |clients|)
    {
      match ParseClientEntry(message)
      case Some(entry) =>
        view := view.(log := view.log + [message], clientList := view.clientList + [entry], clientCount := Some(|clients|));
      case None =>
        view := view.(log := view.log + [message]);
    }

    /**
     * `broadcastMessage`: one write to every registered handler, in list order; a failed write
     * is reported as a notice in the log.
     */
    method Broadcast(message: string, failures: map<ClientHandler, string>) returns (writes: seq<Write>)
      modifies this`view
      ensures writes == Writes(clients, message, failures)
      ensures view == AppendedAll(old(view), FailureNotices(clients, failures), |clients|)
    {
      writes := [];
      var i := 0;
      while i < |clients|
        invariant 0 <= i <= |clients|
        invariant writes == old(Writes(clients[..i], message, failures))
        invariant view == AppendedAll(old(view), old(FailureNotices(clients[..i], failures)), |clients|)
      {
        var h := clients[i];
        ghost var noticed := old(FailureNotices(clients[..i], failures));
        assert clients[..i + 1][..i] == clients[..i];
        assert old(FailureNotices(clients[..i + 1], failures)) == noticed + old(NoticeFor(h, failures));
        assert old(Writes(clients[..i + 1], message, failures)) == writes + old(if Copy(h, message, failures) != [] then [Write(h, message)] else []);
        var written, notice := h.SendMessage(message, if h in failures then Some(failures[h]) else None);
        if written.Some? {
          writes := writes + [Write(h, written.value)];
        }
        if notice.Some? {
          AppendMessage(notice.value);
          AppendedAllSnoc(old(view), noticed, notice.value, |clients|);
        } else {
          assert noticed + old(NoticeFor(h, failures)) == noticed;
        }
        i := i + 1;
      }
      assert clients[..i] == clients;
    }

    /**
     * `handleClientMessage`: the chat string, prefixed with its sender's name, is logged and
     * then written to every registered handler, the sender included.
     */
    method HandleClientMessage(message: string, source: ClientHandler, failures: map<ClientHandler, string>) returns (writes: seq<Write>)
      modifies this`view
      ensures var line := ChatLine(NameText(source.clientName), message);
        && writes == Writes(clients, line, failures)
        && view == AppendedAll(Appended(old(view), line, |clients|), FailureNotices(clients, failures), |clients|)
    {
      var line := ChatLine(NameText(source.clientName), message);
      AppendMessage(line);
      writes := Broadcast(line, failures);
    }

    /** `handleClientDisconnect`: the handler leaves the registry, and its entry the client list. */
    method HandleClientDisconnect(h: ClientHandler)
      modifies this`clients, this`view
      ensures clients == RemoveFirst(old(clients), h)
      ensures view == Departed(old(view), EntryOf(h), |clients|)
      ensures old(ValidBut(h)) ==> Valid()
    {
      if ValidBut(h) {
        RemoveFromDistinct(clients, h);
      }
      clients := RemoveFirst(clients, h);
      view := view.(clientList := RemoveFirst(view.clientList, EntryOf(h)), clientCount := Some(|clients|));
    }

    /**
     * `handleSendMessage`: the operator's text, trimmed, goes to every registered handler as
     * "Server: ..." and is then logged; blank text does nothing.
     */
    method HandleSendMessage(text: string, failures: map<ClientHandler, string>) returns (writes: seq<Write>)
      modifies this`view
      ensures Trim(text) == [] ==> writes == [] && view == old(view)
      ensures Trim(text) != [] ==>
        && writes == Writes(clients, ServerLine(Trim(text)), failures)
        && view == Appended(AppendedAll(old(view), FailureNotices(clients, failures), |clients|), ServerLine(Trim(text)), |clients|)
    {
      writes := [];
      var message := Trim(text);
      if message != [] {
        var line := ServerLine(message);
        writes := Broadcast(line, failures);
        AppendMessage(line);
      }
    }

    /** `handleStopServer`: tell every registered client "exit", then shut down. */
    method HandleStopServer(failures: map<ClientHandler, string>) returns (writes: seq<Write>)
      requires Valid()
      modifies this`view, this`clients, this`running, clients
      ensures Valid() && !running && clients == []
      ensures forall h :: h in old(clients) ==> !h.running && h.phase == old(h.phase) && h.clientName == old(h.clientName)
      ensures writes == old(Writes(clients, ExitCommand, failures))
      ensures view == AppendedAll(old(view), old(FailureNotices(clients, failures)), |old(clients)|)
    {
      writes := Broadcast(ExitCommand, failures);
      Shutdown();
    }

    /** `shutdown`: stop accepting, close every registered handler and empty the registry. */
    method Shutdown()
      requires Valid()
      modifies this`running, this`clients, clients
      ensures Valid() && !running && clients == []
      ensures forall h :: h in old(clients) ==>
        !h.running && h.phase == old(h.phase) && h.clientName == old(h.clientName)
    {
      running := false;
      var i := 0;
      while i < |clients|
        invariant 0 <= i <= |clients| && clients == old(clients) && !running
        invariant forall j :: 0 <= j < i ==> !clients[j].running
        invariant forall j :: i <= j < |clients| ==> clients[j].running == old(clients[j].running)
        invariant forall j :: 0 <= j < |clients| ==>
          clients[j].phase == old(clients[j].phase) && clients[j].clientName == old(clients[j].clientName)
      {
        clients[i].CloseConnection();
        i := i + 1;
      }
      forall g | g in tasks ensures g.Valid() && !g.running {
        assert old(g.Valid()) && (g in clients <==> old(g.running));
        if g in clients {
          var j :| 0 <= j < |clients| && clients[j] == g;
        }
      }
      clients := [];
    }

    /**
     * One read by handler `h`, with the calls it makes dispatched as they are made: a notice is
     * logged, a chat string is relayed to every registered handler (`h` too), and the disconnect
     * report takes `h` out of the registry.
     */
    method Deliver(h: ClientHandler, e: Event, failures: map<ClientHandler, string>) returns (calls: seq<Callback>, writes: seq<Write>)
      requires Valid() && h in tasks && h.phase != Ended
      modifies this`clients, this`view, h
      ensures Valid()
      ensures (h.State(), calls) == Transition(old(h.State()), h.hasInput, h.address, e)
      ensures Disconnect in calls <==> h !in clients
      ensures clients == if Disconnect in calls then RemoveFirst(old(clients), h) else old(clients)
      ensures |calls| == 1 && calls[0].Forward? ==>
        var line := ChatLine(NameText(h.clientName), calls[0].text);
        && h in clients
        && writes == Writes(clients, line, failures)
        && view == AppendedAll(Appended(old(view), line, |clients|), FailureNotices(clients, failures), |clients|)
      ensures !(|calls| == 1 && calls[0].Forward?) ==> writes == []
      ensures |calls| == 1 && calls[0].Notice? ==> view == Appended(old(view), calls[0].text, |clients|)
      ensures calls == [Disconnect] ==> view == Departed(old(view), EntryOf(h), |clients|)
      ensures |calls| == 2 ==> view == Departed(Appended(old(view), calls[0].text, |old(clients)|), EntryOf(h), |clients|)
    {
      calls := h.Step(e);
      writes := [];
      if calls == [Disconnect] {
        assert ValidBut(h);
        HandleClientDisconnect(h);
      } else if |calls| == 2 {
        assert ValidBut(h);
        AppendMessage(calls[0].text);
        HandleClientDisconnect(h);
      } else {
        assert Valid();
        if calls[0].Notice? {
          AppendMessage(calls[0].text);
        } else {
          writes := HandleClientMessage(calls[0].text, h, failures);
        }
      }
    }
  }
}
