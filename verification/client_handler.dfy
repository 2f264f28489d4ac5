/**
 * The server's per-connection worker. It reads the client's name, announces it, then reads
 * chat strings and hands each to the server until the client says "exit", the read fails, or
 * the connection is closed from outside; in every case it then reports the disconnect once
 * and closes the connection.
 *
 * The three callbacks the server installs are not called from here: each read step returns
 * the calls it makes, in order, as a trace of `Callback`s, and the server dispatches them.
 */
module Handler {
  import opened Wrappers
  import opened Strings
  import opened Protocol

  /** A call a handler makes into the server: a notice for the log, a chat string to relay, or the disconnect report. */
  datatype Callback = Notice(text: string) | Forward(text: string) | Disconnect

  /** Where the `run` loop is: waiting for the name, reading chat, or finished. */
  datatype Phase = ReadingName | Listening | Ended

  /** What decides the next read step: the phase, the name read so far, and whether the connection is still open. */
  datatype HandlerState = HandlerState(phase: Phase, name: Option<string>, running: bool)

  /** A handler as the server creates it: no name yet, and open. */
  const Fresh := HandlerState(ReadingName, None, true)

  /** How a name renders in a notice; a name never read renders as "null". */
  function NameText(name: Option<string>): string {
    name.GetOr("null")
  }

  /** The notice of a new client, naming the address the connection comes from. */
  function Announcement(name: string, address: string): string {
    "Client '" + name + "' connected from " + address
  }

  function LeftNotice(name: string): string {
    "Client '" + name + "' has left the chat"
  }

  function LostNotice(name: string, reason: string): string {
    "Connection lost with client '" + name + "': " + reason
  }

  function SendFailedNotice(name: string, reason: string): string {
    "Failed to send message to '" + name + "': " + reason
  }

  /** States the loop can be in: a name has been read once chat is read, and a finished handler is closed. */
  predicate Consistent(s: HandlerState, hasInput: bool) {
    && (s.phase == Listening ==> s.name.Some? && hasInput)
    && (s.phase == Ended ==> !s.running)
  }

  /**
   * One blocking read of the `run` loop and what follows from it. A handler without an input
   * stream fails on its first read without a notice; a handler closed from outside (its
   * `running` flag cleared) either leaves the loop at its test or has its read fail, and in
   * both cases reports only the disconnect.
   */
  function Transition(s: HandlerState, hasInput: bool, address: string, e: Event): (r: (HandlerState, seq<Callback>))
    requires Consistent(s, hasInput) && s.phase != Ended
    ensures Consistent(r.0, hasInput)
    ensures r.0.running <==> r.0.phase != Ended
    ensures r.0.phase == Ended <==> Disconnect in r.1
    ensures r.1 == [Disconnect]
         || (|r.1| == 2 && r.1[0].Notice? && r.1[1] == Disconnect)
         || (|r.1| == 1 && !r.1[0].Disconnect?)
    ensures !s.running || !hasInput ==> r.1 == [Disconnect]
    ensures e.ReadFails? ==> r.0.phase == Ended
    ensures r.0.phase == Listening ==> r.0.name == (if s.phase == ReadingName then Some(e.text) else s.name)
    ensures Disconnect !in r.1 ==> r.0.running == s.running
    ensures |r.1| == 1 && r.1[0].Forward? ==> r.0 == s && s.phase == Listening && r.1[0].text == e.text
    ensures r.0.phase != ReadingName
    ensures r.0.name == if s.phase == ReadingName && s.running && hasInput && e.Receive? then Some(e.text) else s.name
  {
    if !hasInput || !s.running then
      (s.(phase := Ended, running := false), [Disconnect])
    else
      match e
      case ReadFails(reason) =>
        (s.(phase := Ended, running := false), [Notice(LostNotice(NameText(s.name), reason)), Disconnect])
      case Receive(t) =>
        if s.phase == ReadingName then
          (s.(phase := Listening, name := Some(t)), [Notice(Announcement(t, address))])
        else if IsExit(t) then
          (s.(phase := Ended, running := false), [Notice(LeftNotice(NameText(s.name))), Disconnect])
        else
          (s, [Forward(t)])
  }

  /** The whole trace of `run` from state `s` over the inbound strings `events`. */
  function RunCalls(s: HandlerState, hasInput: bool, address: string, events: seq<Event>): seq<Callback>
    requires Consistent(s, hasInput)
    decreases |events|, if s.phase == Ended then 0 else 1
  {
    if s.phase == Ended then []
    else
      var (s', calls) := Transition(s, hasInput, address, EventAt(events, 0));
      calls + RunCalls(s', hasInput, address, if events == [] then [] else events[1..])
  }

  /** The chat strings a trace relays, in order. */
  function Forwarded(calls: seq<Callback>): seq<string> {
    if calls == [] then []
    else (if calls[0].Forward? then [calls[0].text] else []) + Forwarded(calls[1..])
  }

  /** One `Forward` call for each string of `chat`. */
  function Forwards(chat: seq<string>): seq<Callback> {
    if chat == [] then [] else [Forward(chat[0])] + Forwards(chat[1..])
  }

  /** A handler reading chat under the name `name`. */
  function Listener(name: string): HandlerState {
    HandlerState(Listening, Some(name), true)
  }

  /**
   * The trace from the `i`-th read on: that read's calls `more`, which leave the loop in `s'`,
   * then the trace of the reads after it. Reading past the end of `events` ends the loop.
   */
  lemma RunCallsFrom(s: HandlerState, hasInput: bool, address: string, events: seq<Event>, i: nat, s': HandlerState, more: seq<Callback>)
    requires Consistent(s, hasInput) && s.phase != Ended && i <= |events|
    requires (s', more) == Transition(s, hasInput, address, EventAt(events, i))
    ensures s'.running ==> i < |events|
    ensures RunCalls(s, hasInput, address, events[i..])
         == more + (if s'.running then RunCalls(s', hasInput, address, events[i + 1..]) else [])
  {
    assert EventAt(events[i..], 0) == EventAt(events, i);
    if i < |events| {
      assert events[i..][1..] == events[i + 1..];
    } else {
      assert events[i..] == [];
    }
  }

  /** Associativity of trace concatenation; a proof step for `Run`, not a fact about the handler. */
  lemma Regroup(a: seq<Callback>, b: seq<Callback>, c: seq<Callback>)
    ensures a + b + c == a + (b + c)
  {
  }

  class ClientHandler {
    /** The host address of the peer, as the socket reports it. */
    const address: string
    /** Whether the input stream could be opened. */
    const hasInput: bool
    /** Whether the output stream could be opened; it is opened after the input stream. */
    const hasOutput: bool

    /** `clientName`: absent until the first read succeeds. */
    var clientName: Option<string>
    /** Cleared by `closeConnection`, which also closes the socket: the flag and "socket open" are the same fact. */
    var running: bool
    var phase: Phase

    ghost predicate Valid()
      reads this
    {
      Consistent(State(), hasInput)
    }

    function State(): HandlerState
      reads this
    {
      HandlerState(phase, clientName, running)
    }

    /** The guard of `sendMessage`: the socket is open and there is an output stream. */
    predicate Writable()
      reads this
    {
      running && hasOutput
    }

    /** The constructor opens the input stream and then the output stream; a failure leaves the rest unopened. */
    constructor (address: string, inputOk: bool, outputOk: bool)
      ensures Valid() && State() == Fresh
      ensures this.address == address && hasInput == inputOk && hasOutput == (inputOk && outputOk)
    {
      this.address := address;
      hasInput := inputOk;
      hasOutput := inputOk && outputOk;
      clientName := None;
      running := true;
      phase := ReadingName;
    }

    /** One read of the `run` loop; `e` is what the read yields. */
    method Step(e: Event) returns (calls: seq<Callback>)
      requires Valid() && phase != Ended
      modifies this`clientName, this`running, this`phase
      ensures Valid()
      ensures (State(), calls) == Transition(old(State()), hasInput, address, e)
    {
      if !hasInput || !running {
        calls := [Disconnect];
        phase := Ended;
        CloseConnection();
        return;
      }
      match e
      case ReadFails(reason) =>
        calls := [Notice(LostNotice(NameText(clientName), reason)), Disconnect];
        phase := Ended;
        CloseConnection();
      case Receive(t) =>
        if phase == ReadingName {
          clientName := Some(t);
          phase := Listening;
          calls := [Notice(Announcement(t, address))];
        } else if IsExit(t) {
          calls := [Notice(LeftNotice(NameText(clientName))), Disconnect];
          phase := Ended;
          CloseConnection();
        } else {
          calls := [Forward(t)];
        }
    }

    /** `run`: the name read, then chat reads while the connection is open. */
    method Run(events: seq<Event>) returns (calls: seq<Callback>)
      requires Valid() && phase == ReadingName
      modifies this`clientName, this`running, this`phase
      ensures Valid() && phase == Ended && !running
      ensures calls == RunCalls(old(State()), hasInput, address, events)
      ensures clientName == if old(running) && hasInput && EventAt(events, 0).Receive? then Some(EventAt(events, 0).text) else old(clientName)
    {
      ghost var total := RunCalls(State(), hasInput, address, events);
      ghost var before := State();
      calls := Step(EventAt(events, 0));
      RunCallsFrom(before, hasInput, address, events, 0, State(), calls);
      var i := 1;
      while running
        invariant Valid() && 1 <= i && phase != ReadingName
        invariant clientName == if old(running) && hasInput && EventAt(events, 0).Receive? then Some(EventAt(events, 0).text) else old(clientName)
        invariant running ==> phase != Ended && i <= |events| && calls + RunCalls(State(), hasInput, address, events[i..]) == total
        invariant !running ==> phase == Ended && calls == total
        decreases |events| - i + (if running then 1 else 0)
      {
        before := State();
        var more := Step(EventAt(events, i));
        RunCallsFrom(before, hasInput, address, events, i, State(), more);
        ghost var later := if running then RunCalls(State(), hasInput, address, events[i + 1..]) else [];
        Regroup(calls, more, later);
        calls := calls + more;
        i := i + 1;
      }
    }

    /**
     * `sendMessage`: when the socket is open and there is an output stream, the message is
     * written, or the write fails with `failure` and the failure becomes a notice. A closed
     * connection drops the message silently. `written` is what reaches the output stream.
     */
    method SendMessage(message: string, failure: Option<string>) returns (written: Option<string>, notice: Option<string>)
      ensures written.Some? ==> written.value == message
      ensures written.Some? <==> Writable() && failure.None?
      ensures notice.Some? <==> Writable() && failure.Some?
      ensures notice.Some? ==> notice.value == SendFailedNotice(NameText(clientName), failure.value)
    {
      written, notice := None, None;
      if running && hasOutput {
        match failure
        case None =>
          written := Some(message);
        case Some(reason) =>
          notice := Some(SendFailedNotice(NameText(clientName), reason));
      }
    }

    /** `closeConnection`: clears the flag and closes the streams and the socket. */
    method CloseConnection()
      modifies this`running
      ensures !running
    {
      running := false;
    }
  }

  // ---------------------------------------------------------------- properties of a run

  /** Every run reports the disconnect exactly once, and as its last call. */
  lemma {:induction false} DisconnectOnceAtEnd(s: HandlerState, hasInput: bool, address: string, events: seq<Event>)
    requires Consistent(s, hasInput) && s.phase != Ended
    ensures var calls := RunCalls(s, hasInput, address, events);
      calls != [] && calls[|calls| - 1] == Disconnect && Disconnect !in calls[..|calls| - 1]
    decreases |events|
  {
    var (s', c) := Transition(s, hasInput, address, EventAt(events, 0));
    var tail := if events == [] then [] else events[1..];
    var rest := RunCalls(s', hasInput, address, tail);
    var calls := c + rest;
    assert calls == RunCalls(s, hasInput, address, events);
    if s'.phase == Ended {
      assert rest == [];
      assert calls == c;
      assert calls[..|calls| - 1] == [] || calls[..|calls| - 1] == [c[0]];
    } else {
      DisconnectOnceAtEnd(s', hasInput, address, tail);
      assert |c| == 1 && c[0] != Disconnect;
      assert calls[..|calls| - 1] == c + rest[..|rest| - 1];
    }
  }

  lemma {:induction false} ForwardedAppend(a: seq<Callback>, b: seq<Callback>)
    ensures Forwarded(a + b) == Forwarded(a) + Forwarded(b)
  {
    if a == [] {
      assert a + b == b;
    } else {
      assert (a + b)[1..] == a[1..] + b;
      ForwardedAppend(a[1..], b);
    }
  }

  /** While reading chat, the strings relayed are exactly the chat prefix of the inbound strings. */
  lemma {:induction false} ListenerForwardsChat(name: string, address: string, events: seq<Event>)
    ensures Forwarded(RunCalls(Listener(name), true, address, events)) == ChatPrefix(events)
    decreases |events|
  {
    var s := Listener(name);
    var e := EventAt(events, 0);
    var (s', c) := Transition(s, true, address, e);
    var tail := if events == [] then [] else events[1..];
    ForwardedAppend(c, RunCalls(s', true, address, tail));
    if s'.phase != Ended {
      ListenerForwardsChat(name, address, tail);
      assert c == [Forward(events[0].text)];
    } else {
      assert Forwarded(c) == [] by {
        assert c[0].Notice? && c[1] == Disconnect;
        assert c[1..][1..] == [];
      }
    }
  }

  /** A run relays exactly the chat strings that follow the name, up to the first exit or failed read. */
  lemma RunForwardsChat(name: string, address: string, rest: seq<Event>)
    ensures Forwarded(RunCalls(Fresh, true, address, [Receive(name)] + rest)) == ChatPrefix(rest)
  {
    var events := [Receive(name)] + rest;
    assert events[1..] == rest;
    var c := [Notice(Announcement(name, address))];
    assert RunCalls(Fresh, true, address, events) == c + RunCalls(Listener(name), true, address, rest);
    ForwardedAppend(c, RunCalls(Listener(name), true, address, rest));
    ListenerForwardsChat(name, address, rest);
  }

  /** Chat strings are relayed one for one, and the run then goes on from the same state. */
  lemma {:induction false} ListenerOverChat(name: string, address: string, chat: seq<string>, tail: seq<Event>)
    requires forall i :: 0 <= i < |chat| ==> !IsExit(chat[i])
    ensures RunCalls(Listener(name), true, address, Receives(chat) + tail)
         == Forwards(chat) + RunCalls(Listener(name), true, address, tail)
    decreases |chat|
  {
    if chat == [] {
      assert Receives(chat) + tail == tail;
      assert Forwards(chat) == [];
    } else {
      var events := Receives(chat) + tail;
      assert events == [Receive(chat[0])] + (Receives(chat[1..]) + tail);
      assert events[1..] == Receives(chat[1..]) + tail;
      ListenerOverChat(name, address, chat[1..], tail);
    }
  }

  /** The opening of a session: the name is announced, then the chat is relayed. */
  lemma SessionOpening(name: string, address: string, chat: seq<string>, tail: seq<Event>)
    requires forall i :: 0 <= i < |chat| ==> !IsExit(chat[i])
    ensures RunCalls(Fresh, true, address, [Receive(name)] + Receives(chat) + tail)
         == [Notice(Announcement(name, address))] + Forwards(chat) + RunCalls(Listener(name), true, address, tail)
  {
    var events := [Receive(name)] + Receives(chat) + tail;
    assert events[1..] == Receives(chat) + tail;
    ListenerOverChat(name, address, chat, tail);
  }

  /** A session the client ends with "exit": the name, the chat, the leaving notice, the disconnect; later strings are never read. */
  lemma SessionEndsOnExit(name: string, address: string, chat: seq<string>, x: string, later: seq<Event>)
    requires forall i :: 0 <= i < |chat| ==> !IsExit(chat[i])
    requires IsExit(x)
    ensures RunCalls(Fresh, true, address, [Receive(name)] + Receives(chat) + ([Receive(x)] + later))
         == [Notice(Announcement(name, address))] + Forwards(chat) + [Notice(LeftNotice(name)), Disconnect]
  {
    SessionOpening(name, address, chat, [Receive(x)] + later);
  }

  /** A session whose read fails: the name, the chat, a lost-connection notice with the error's message, the disconnect. */
  lemma SessionEndsOnReadError(name: string, address: string, chat: seq<string>, reason: string, later: seq<Event>)
    requires forall i :: 0 <= i < |chat| ==> !IsExit(chat[i])
    ensures RunCalls(Fresh, true, address, [Receive(name)] + Receives(chat) + ([ReadFails(reason)] + later))
         == [Notice(Announcement(name, address))] + Forwards(chat) + [Notice(LostNotice(name, reason)), Disconnect]
  {
    SessionOpening(name, address, chat, [ReadFails(reason)] + later);
  }

  /** A client that hangs up without "exit": the lost-connection notice carries "null". */
  lemma SessionEndsAtEndOfStream(name: string, address: string, chat: seq<string>)
    requires forall i :: 0 <= i < |chat| ==> !IsExit(chat[i])
    ensures RunCalls(Fresh, true, address, [Receive(name)] + Receives(chat))
         == [Notice(Announcement(name, address))] + Forwards(chat) + [Notice(LostNotice(name, "null")), Disconnect]
  {
    assert [Receive(name)] + Receives(chat) == [Receive(name)] + Receives(chat) + [];
    SessionOpening(name, address, chat, []);
  }

  /** A connection that fails before the name arrives is reported under the name "null". */
  lemma NameNeverRead(address: string, reason: string, later: seq<Event>)
    ensures RunCalls(Fresh, true, address, [ReadFails(reason)] + later)
         == [Notice(LostNotice("null", reason)), Disconnect]
  {}

  /** A handler closed from outside, or one without an input stream, reports only the disconnect. */
  lemma ClosedHandlerOnlyDisconnects(s: HandlerState, hasInput: bool, address: string, events: seq<Event>)
    requires Consistent(s, hasInput) && s.phase != Ended
    requires !s.running || !hasInput
    ensures RunCalls(s, hasInput, address, events) == [Disconnect]
  {}
}
