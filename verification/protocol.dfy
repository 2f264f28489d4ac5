/**
 * What both ends of a chat connection agree on: every message is one whole string, and the
 * string "exit" (compared ignoring case) ends the session. The length-prefixed framing of
 * each string is the platform's and is not modelled; a read yields a whole string or fails.
 */
module Protocol {
  import opened Strings

  /** The sentinel a peer sends to end the session. */
  const ExitCommand := "exit"

  /** `message.equalsIgnoreCase("exit")`. */
  predicate IsExit(s: string) {
    EqualsIgnoreCase(s, ExitCommand)
  }

  lemma ExitLetterE(c: char)
    ensures CharEqualsIgnoreCase(c, 'e') <==> c == 'e' || c == 'E'
  {}

  lemma ExitLetterX(c: char)
    ensures CharEqualsIgnoreCase(c, 'x') <==> c == 'x' || c == 'X'
  {}

  lemma ExitLetterI(c: char)
    ensures CharEqualsIgnoreCase(c, 'i') <==> c == 'i' || c == 'I' || c == '\U{131}' || c == '\U{130}'
  {}

  lemma ExitLetterT(c: char)
    ensures CharEqualsIgnoreCase(c, 't') <==> c == 't' || c == 'T'
  {}

  /**
   * The strings that end a session are exactly the four-letter spellings of "exit" in any
   * mix of cases, where the i may also be the dotless i (U+0131) or the dotted capital I
   * (U+0130), because Java folds those onto i.
   */
  lemma ExitSpellings(s: string)
    ensures IsExit(s) <==>
      |s| == 4 && s[0] in "eE" && s[1] in "xX" && s[2] in "iI\U{131}\U{130}" && s[3] in "tT"
  {
    EqualsIgnoreCasePairwise(s, ExitCommand);
    if |s| == 4 {
      ExitLetterE(s[0]);
      ExitLetterX(s[1]);
      ExitLetterI(s[2]);
      ExitLetterT(s[3]);
      assert ExitCommand == ['e', 'x', 'i', 't'];
    }
  }

  /** The outcome of one blocking read on a connection: a whole string, or an I/O error with its message. */
  datatype Event = Receive(text: string) | ReadFails(reason: string)

  /**
   * The message of the error a read raises at the end of the stream. The platform raises an
   * EOFException without a message, and Java's string concatenation renders it as "null".
   */
  const EndOfStream := "null"

  /** The `i`-th read on a connection whose inbound strings are `events`: past them, the stream has ended. */
  function EventAt(events: seq<Event>, i: nat): Event {
    if i < |events| then events[i] else ReadFails(EndOfStream)
  }

  /** The reads of the strings `texts`, one after another. */
  function Receives(texts: seq<string>): seq<Event> {
    if texts == [] then [] else [Receive(texts[0])] + Receives(texts[1..])
  }

  /** The leading strings of `events` that are chat: read successfully and not the exit sentinel. */
  function ChatPrefix(events: seq<Event>): (chat: seq<string>)
    ensures |chat| <= |events|
    ensures forall i :: 0 <= i < |chat| ==> events[i] == Receive(chat[i]) && !IsExit(chat[i])
    ensures |chat| < |events| ==> events[|chat|].ReadFails? || IsExit(events[|chat|].text)
  {
    if events == [] || events[0].ReadFails? || IsExit(events[0].text) then []
    else [events[0].text] + ChatPrefix(events[1..])
  }

  lemma ChatPrefixCons(t: string, rest: seq<Event>)
    requires !IsExit(t)
    ensures ChatPrefix([Receive(t)] + rest) == [t] + ChatPrefix(rest)
  {
    assert ([Receive(t)] + rest)[1..] == rest;
  }

  /** Re-associating a sequence's head; a proof step for `ChatPrefixOfReceives`, not a fact about the protocol. */
  lemma ConsAppend<T>(s: seq<T>, x: seq<T>)
    requires s != []
    ensures [s[0]] + (s[1..] + x) == s + x
  {
    assert s == [s[0]] + s[1..];
  }

  /** Chat strings followed by anything: the chat prefix is those strings and then the chat prefix of the rest. */
  lemma {:induction false} ChatPrefixOfReceives(chat: seq<string>, tail: seq<Event>)
    requires forall i :: 0 <= i < |chat| ==> !IsExit(chat[i])
    ensures ChatPrefix(Receives(chat) + tail) == chat + ChatPrefix(tail)
  {
    if chat != [] {
      var events := Receives(chat) + tail;
      assert events == [Receive(chat[0])] + (Receives(chat[1..]) + tail);
      ChatPrefixCons(chat[0], Receives(chat[1..]) + tail);
      ChatPrefixOfReceives(chat[1..], tail);
      ConsAppend(chat, ChatPrefix(tail));
    } else {
      assert Receives(chat) + tail == tail;
    }
  }
}
