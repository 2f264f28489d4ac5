/**
 * The chat client: connect under a user name, show what the server sends until it says "exit",
 * send the user's text, and leave by sending "exit".
 *
 * The receiving thread's blocking read is one atomic step (`ReceiveNext`); the user's actions
 * (`HandleSendMessage`, `HandleExit`) are other steps that may fall between them. What the
 * platform does on a connect or a write is given as a parameter.
 */
module Client {
  import opened Wrappers
  import opened Strings
  import opened Protocol

  /** The client's socket: none yet, connected, or closed. A closed socket still counts as connected for `isConnected`. */
  datatype SocketState = NoSocket | Open | Closed

  /** How a connection attempt goes: refused, connected but the name cannot be written, or established. */
  datatype ConnectOutcome = Refused(reason: string) | HandshakeFails(reason: string) | Established

  /** What a write on an open socket does. */
  datatype WriteResult = Written | WriteFails(reason: string)

  /** The message of the error a write on a closed socket raises. */
  const SocketClosedReason := "Socket closed"

  const UsernameMissing := "System: Please enter a username"
  const ConnectingStatus := "Connecting to server..."
  const ConnectedLine := "System: Connected to the chat server!"
  const ServerClosedLine := "System: Server has closed the connection"
  const DisconnectedStatus := "Disconnected from server"

  function ConnectedStatus(name: string): string {
    "Connected as: " + name
  }

  function ConnectFailedStatus(reason: string): string {
    "Failed to connect: " + reason
  }

  function ConnectFailedLine(reason: string): string {
    "System: Connection failed - " + reason
  }

  function LostStatus(reason: string): string {
    "Connection lost: " + reason
  }

  function LostLine(reason: string): string {
    "System: Connection lost - " + reason
  }

  function SendFailedLine(reason: string): string {
    "System: Failed to send message - " + reason
  }

  /** The line the chat area shows for the read that ends a session. */
  function ClosingLine(e: Event): string {
    match e
    case Receive(_) => ServerClosedLine
    case ReadFails(reason) => LostLine(reason)
  }

  /** The status the read that ends a session leaves. */
  function ClosingStatus(e: Event): string {
    match e
    case Receive(_) => DisconnectedStatus
    case ReadFails(reason) => LostStatus(reason)
  }

  /** The lines a session shows, read by read, until the server says "exit" or a read fails. */
  function Shown(events: seq<Event>): seq<string> {
    if events == [] then [ClosingLine(ReadFails(EndOfStream))]
    else if events[0].Receive? && !IsExit(events[0].text) then [events[0].text] + Shown(events[1..])
    else [ClosingLine(events[0])]
  }

  /** The status a session ends with. */
  function FinalStatus(events: seq<Event>): string {
    if events == [] then ClosingStatus(ReadFails(EndOfStream))
    else if events[0].Receive? && !IsExit(events[0].text) then FinalStatus(events[1..])
    else ClosingStatus(events[0])
  }

  /** A session shows exactly the chat the server sent, then one line for how it ended. */
  lemma {:induction false} ShownIsChatThenClosing(events: seq<Event>)
    ensures var chat := ChatPrefix(events);
      Shown(events) == chat + [ClosingLine(EventAt(events, |chat|))]
      && FinalStatus(events) == ClosingStatus(EventAt(events, |chat|))
  {
    if events != [] && events[0].Receive? && !IsExit(events[0].text) {
      ShownIsChatThenClosing(events[1..]);
      var chat := ChatPrefix(events);
      assert chat == [events[0].text] + ChatPrefix(events[1..]);
      assert EventAt(events, |chat|) == EventAt(events[1..], |chat| - 1);
    }
  }

  /** The server's "exit" ends the session: the chat before it is shown, then the closing line. */
  lemma ServerExitEndsSession(chat: seq<string>, x: string, later: seq<Event>)
    requires forall i :: 0 <= i < |chat| ==> !IsExit(chat[i])
    requires IsExit(x)
    ensures Shown(Receives(chat) + ([Receive(x)] + later)) == chat + [ServerClosedLine]
    ensures FinalStatus(Receives(chat) + ([Receive(x)] + later)) == DisconnectedStatus
  {
    var events := Receives(chat) + ([Receive(x)] + later);
    ChatPrefixOfReceives(chat, [Receive(x)] + later);
    assert ChatPrefix([Receive(x)] + later) == [];
    assert chat + [] == chat;
    ReceivesLength(chat);
    assert events[|chat|] == Receive(x);
    ShownIsChatThenClosing(events);
  }

  /** A failed read ends the session with the error's message. */
  lemma ReadErrorEndsSession(chat: seq<string>, reason: string, later: seq<Event>)
    requires forall i :: 0 <= i < |chat| ==> !IsExit(chat[i])
    ensures Shown(Receives(chat) + ([ReadFails(reason)] + later)) == chat + [LostLine(reason)]
    ensures FinalStatus(Receives(chat) + ([ReadFails(reason)] + later)) == LostStatus(reason)
  {
    var events := Receives(chat) + ([ReadFails(reason)] + later);
    ChatPrefixOfReceives(chat, [ReadFails(reason)] + later);
    assert ChatPrefix([ReadFails(reason)] + later) == [];
    assert chat + [] == chat;
    ReceivesLength(chat);
    assert events[|chat|] == ReadFails(reason);
    ShownIsChatThenClosing(events);
  }

  lemma {:induction false} ReceivesLength(texts: seq<string>)
    ensures |Receives(texts)| == |texts|
  {
    if texts != [] {
      ReceivesLength(texts[1..]);
    }
  }

  class ClientController {
    /** Set once the name is written, cleared by a disconnect. */
    var running: bool
    /** `username`: absent until the first connect attempt. */
    var username: Option<string>
    var socket: SocketState
    /** The strings written on the current socket, in order. */
    var sent: seq<string>
    /** The chat area's lines, without their timestamps. */
    var display: seq<string>
    /** The status label; absent while it keeps the text the window was laid out with. */
    var status: Option<string>

    /** While running, the socket is open and the first string written on it was the user name. */
    ghost predicate Valid()
      reads this
    {
      running ==> socket == Open && username.Some? && sent != [] && sent[0] == username.value
    }

    constructor ()
      ensures Valid() && !running && username == None && socket == NoSocket
      ensures sent == [] && display == [] && status == None
    {
      running := false;
      username := None;
      socket := NoSocket;
      sent := [];
      display := [];
      status := None;
    }

    /**
     * `handleConnect`: ignored while running; otherwise the trimmed field becomes the user
     * name, and a blank one is refused with a message instead of a connection attempt.
     */
    method HandleConnect(field: string, outcome: ConnectOutcome)
      requires Valid()
      modifies this
      ensures Valid()
      ensures old(running) ==>
        running && username == old(username) && socket == old(socket) && sent == old(sent)
        && display == old(display) && status == old(status)
      ensures !old(running) ==> username == Some(Trim(field))
      ensures !old(running) && Trim(field) == [] ==>
        !running && socket == old(socket) && sent == old(sent)
        && display == old(display) + [UsernameMissing] && status == old(status)
      ensures !old(running) && Trim(field) != [] ==> Connected(old(socket), old(sent), old(display), outcome)
    {
      if running {
        return;
      }
      var name := Trim(field);
      username := Some(name);
      if name == [] {
        display := display + [UsernameMissing];
        return;
      }
      ConnectToServer(outcome);
    }

    /** The state `connectToServer` leaves, from the socket, written strings and display it started with. */
    ghost predicate Connected(socket0: SocketState, sent0: seq<string>, display0: seq<string>, outcome: ConnectOutcome)
      reads this
    {
      match outcome
      case Refused(reason) =>
        !running && socket == socket0 && sent == sent0
        && status == Some(ConnectFailedStatus(reason)) && display == display0 + [ConnectFailedLine(reason)]
      case HandshakeFails(reason) =>
        !running && socket == Open && sent == []
        && status == Some(ConnectFailedStatus(reason)) && display == display0 + [ConnectFailedLine(reason)]
      case Established =>
        running && socket == Open && username.Some? && sent == [username.value]
        && status == Some(ConnectedStatus(username.value)) && display == display0 + [ConnectedLine]
    }

    /**
     * `connectToServer`: open a socket, write the user name as the first string, and only then
     * count as running.
     */
    method ConnectToServer(outcome: ConnectOutcome)
      requires Valid() && !running && username.Some?
      modifies this`running, this`socket, this`sent, this`display, this`status
      ensures Valid()
      ensures Connected(old(socket), old(sent), old(display), outcome)
    {
      status := Some(ConnectingStatus);
      match outcome
      case Refused(reason) =>
        status := Some(ConnectFailedStatus(reason));
        display := display + [ConnectFailedLine(reason)];
      case HandshakeFails(reason) =>
        socket := Open;
        sent := [];
        status := Some(ConnectFailedStatus(reason));
        display := display + [ConnectFailedLine(reason)];
      case Established =>
        socket := Open;
        sent := [username.value];
        running := true;
        status := Some(ConnectedStatus(username.value));
        display := display + [ConnectedLine];
    }

    /**
     * One turn of the receive loop: the loop test, then one read. A chat string is shown; the
     * server's "exit" or a failed read ends the session with a line and a status; a read that
     * fails after the client stopped running ends the loop silently. The result says whether
     * the loop goes on.
     */
    method ReceiveNext(e: Event) returns (more: bool)
      requires Valid()
      modifies this`running, this`socket, this`display, this`status
      ensures Valid()
      ensures !old(running) ==>
        !more && !running && socket == old(socket) && display == old(display) && status == old(status)
      ensures old(running) && e.Receive? && !IsExit(e.text) ==>
        more && running && socket == old(socket) && display == old(display) + [e.text] && status == old(status)
      ensures old(running) && !(e.Receive? && !IsExit(e.text)) ==>
        !more && !running && socket == Closed
        && display == old(display) + [ClosingLine(e)] && status == Some(ClosingStatus(e))
    {
      if !running {
        return false;
      }
      match e
      case Receive(message) =>
        if IsExit(message) {
          display := display + [ServerClosedLine];
          status := Some(DisconnectedStatus);
          HandleDisconnect();
          more := false;
        } else {
          display := display + [message];
          more := true;
        }
      case ReadFails(reason) =>
        status := Some(LostStatus(reason));
        display := display + [LostLine(reason)];
        HandleDisconnect();
        more := false;
    }

    /** `receiveMessages`: the receive loop over the strings the server sends. */
    method ReceiveMessages(events: seq<Event>)
      requires Valid() && running
      modifies this`running, this`socket, this`display, this`status
      ensures Valid() && !running && socket == Closed
      ensures display == old(display) + Shown(events)
      ensures status == Some(FinalStatus(events))
    {
      var i := 0;
      var more := true;
      while more
        invariant Valid() && i <= |events|
        invariant more ==> running && display + Shown(events[i..]) == old(display) + Shown(events)
        invariant more ==> FinalStatus(events[i..]) == FinalStatus(events)
        invariant !more ==> !running && socket == Closed
        invariant !more ==> display == old(display) + Shown(events) && status == Some(FinalStatus(events))
        decreases |events| - i + (if more then 1 else 0)
      {
        var e := EventAt(events, i);
        more := ReceiveNext(e);
        if more {
          assert events[i..] == [e] + events[i + 1..];
          i := i + 1;
        } else {
          assert Shown(events[i..]) == [ClosingLine(e)] && FinalStatus(events[i..]) == ClosingStatus(e);
        }
      }
    }

    /**
     * `handleSendMessage`: the trimmed text is written when it is not blank and a socket was
     * ever connected; a failed write (always the case once the socket is closed) is shown as a
     * line instead.
     */
    method HandleSendMessage(text: string, io: WriteResult)
      requires Valid()
      modifies this`sent, this`display
      ensures Valid()
      ensures Trim(text) == [] || socket == NoSocket ==> sent == old(sent) && display == old(display)
      ensures Trim(text) != [] && socket == Open && io == Written ==>
        sent == old(sent) + [Trim(text)] && display == old(display)
      ensures Trim(text) != [] && socket == Open && io.WriteFails? ==>
        sent == old(sent) && display == old(display) + [SendFailedLine(io.reason)]
      ensures Trim(text) != [] && socket == Closed ==>
        sent == old(sent) && display == old(display) + [SendFailedLine(SocketClosedReason)]
    {
      var message := Trim(text);
      if message != [] && socket != NoSocket {
        var outcome := if socket == Closed then WriteFails(SocketClosedReason) else io;
        match outcome
        case Written =>
          sent := sent + [message];
        case WriteFails(reason) =>
          display := display + [SendFailedLine(reason)];
      }
    }

    /**
     * `handleExit`: write "exit", then close the connection and disconnect. A failed write
     * raises an error that skips both, so the client stays as it was.
     */
    method HandleExit(io: WriteResult)
      requires Valid()
      modifies this`running, this`socket, this`sent
      ensures Valid()
      ensures old(socket) == Closed || (old(socket) == Open && io.WriteFails?) ==>
        running == old(running) && socket == old(socket) && sent == old(sent)
      ensures old(socket) == NoSocket ==> !running && socket == NoSocket && sent == old(sent)
      ensures old(socket) == Open && io == Written ==>
        !running && socket == Closed && sent == old(sent) + [ExitCommand]
    {
      if socket != NoSocket {
        if socket == Closed || io.WriteFails? {
          return;
        }
        sent := sent + [ExitCommand];
      }
      CloseConnection();
      HandleDisconnect();
    }

    /** `handleDisconnect`: stop running and close the connection. */
    method HandleDisconnect()
      modifies this`running, this`socket
      ensures !running
      ensures socket == if old(socket) == Open then Closed else old(socket)
    {
      running := false;
      CloseConnection();
    }

    /** `closeConnection`: stop running and close the streams and the socket. */
    method CloseConnection()
      modifies this`running, this`socket
      ensures !running
      ensures socket == if old(socket) == Open then Closed else old(socket)
    {
      running := false;
      if socket == Open {
        socket := Closed;
      }
    }
  }
}
