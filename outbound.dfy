/**
 * What `main` writes once the ready latch is released: a `JOIN` per
 * configured channel, then every stdin line that parses, then (deferred)
 * `QUIT`, and finally the deferred close of the connection.
 */
module Outbound {
  import opened Wrappers
  import opened Irc
  import opened Text

  /** What the connection observes: a message write, or the close. */
  datatype Event = Write(msg: Message) | Close

  /** The calls `main` defers: `conn.Close()` and `client.WriteMessage(QUIT)`. */
  datatype Deferred = DeferClose | DeferQuit

  /** What `main` logs as an error while writing; none of these stops it. */
  datatype LogEntry = JoinFailed(channel: string) | ParseFailed(line: string) | SendFailed(line: string)

  /** The `JOIN` messages, one per configured channel, in configured order. */
  function JoinWrites(join: seq<string>): seq<Message> {
    seq(|join|, i requires 0 <= i < |join| => Join(join[i]))
  }

  /** The message sent for one stdin line: the line, trimmed, if it parses; nothing otherwise. */
  function SentFor(line: string, parse: string -> Option<Message>): (ms: seq<Message>)
    ensures |ms| <= 1
  {
    match parse(TrimSpace(line))
    case None => []
    case Some(m) => [m]
  }

  /**
   * The messages sent for the stdin lines: each line is trimmed and parsed,
   * and only the lines that parse are sent, in input order.
   */
  function LineWrites(lines: seq<string>, parse: string -> Option<Message>): (ms: seq<Message>)
    ensures |ms| <= |lines|
  {
    if lines == [] then [] else LineWrites(lines[..|lines| - 1], parse) + SentFor(lines[|lines| - 1], parse)
  }

  function Writes(ms: seq<Message>): seq<Event> {
    seq(|ms|, i requires 0 <= i < |ms| => Write(ms[i]))
  }

  function Perform(d: Deferred): Event {
    match d
    case DeferClose => Close
    case DeferQuit => Write(Quit)
  }

  /** Go runs deferred calls last-in, first-out when `main` returns. */
  function Unwind(stack: seq<Deferred>): (es: seq<Event>)
    ensures |es| == |stack|
    ensures forall i :: 0 <= i < |stack| ==> es[i] == Perform(stack[|stack| - 1 - i])
  {
    if stack == [] then [] else [Perform(stack[|stack| - 1])] + Unwind(stack[..|stack| - 1])
  }

  /** `main` defers `conn.Close()` first and `WriteMessage(QUIT)` second. */
  const DeferStack: seq<Deferred> := [DeferClose, DeferQuit]

  /** Everything the connection observes after the latch released, in order. */
  function OutboundEvents(join: seq<string>, lines: seq<string>, parse: string -> Option<Message>): seq<Event> {
    Writes(JoinWrites(join) + LineWrites(lines, parse)) + Unwind(DeferStack)
  }

  /** The errors logged while joining; `joinFails(i)` says whether the write for channel `i` fails. */
  function JoinLog(join: seq<string>, joinFails: nat -> bool): seq<LogEntry> {
    if join == [] then []
    else
      var i := |join| - 1;
      JoinLog(join[..i], joinFails) + (if joinFails(i) then [JoinFailed(join[i])] else [])
  }

  /** What one stdin line logs, given whether its write fails (if it gets written). */
  function LineEntry(line: string, parse: string -> Option<Message>, writeFails: bool): seq<LogEntry> {
    var t := TrimSpace(line);
    match parse(t)
    case None => [ParseFailed(t)]
    case Some(_) => if writeFails then [SendFailed(t)] else []
  }

  /** The errors logged while forwarding stdin; `sendFails(j)` says whether the write for line `j` fails. */
  function LineLog(lines: seq<string>, parse: string -> Option<Message>, sendFails: nat -> bool): seq<LogEntry> {
    if lines == [] then []
    else
      var j := |lines| - 1;
      LineLog(lines[..j], parse, sendFails) + LineEntry(lines[j], parse, sendFails(j))
  }

  function OutboundLog(join: seq<string>, lines: seq<string>, parse: string -> Option<Message>,
                       joinFails: nat -> bool, sendFails: nat -> bool): seq<LogEntry> {
    JoinLog(join, joinFails) + LineLog(lines, parse, sendFails)
  }

  lemma WritesAppend(a: seq<Message>, b: seq<Message>)
    ensures Writes(a + b) == Writes(a) + Writes(b)
  {
  }

  lemma JoinWritesStep(join: seq<string>, i: nat)
    requires i < |join|
    ensures JoinWrites(join[..i + 1]) == JoinWrites(join[..i]) + [Join(join[i])]
  {
  }

  lemma LineStep(lines: seq<string>, j: nat, parse: string -> Option<Message>, sendFails: nat -> bool)
    requires j < |lines|
    ensures LineWrites(lines[..j + 1], parse) == LineWrites(lines[..j], parse) + SentFor(lines[j], parse)
    ensures LineLog(lines[..j + 1], parse, sendFails) == LineLog(lines[..j], parse, sendFails) + LineEntry(lines[j], parse, sendFails(j))
  {
    assert lines[..j + 1][..j] == lines[..j];
  }

  /** The `for _, c := range cfg.Join` loop: one `JOIN` write per channel; a failed write is only logged. */
  method JoinChannels(join: seq<string>, joinFails: nat -> bool) returns (events: seq<Event>, log: seq<LogEntry>)
    ensures events == Writes(JoinWrites(join))
    ensures log == JoinLog(join, joinFails)
  {
    events, log := [], [];
    for i := 0 to |join|
      invariant events == Writes(JoinWrites(join[..i]))
      invariant log == JoinLog(join[..i], joinFails)
    {
      var c := join[i];
      events := events + [Write(Join(c))];
      if joinFails(i) {
        log := log + [JoinFailed(c)];
      }
      JoinWritesStep(join, i);
      WritesAppend(JoinWrites(join[..i]), [Join(c)]);
      assert join[..i + 1][..i] == join[..i];
    }
    assert join[..|join|] == join;
  }

  /**
   * The `for scanner.Scan()` loop: trim and parse each line; a line that does
   * not parse is logged and skipped, one that does is written, and a failed
   * write is only logged.
   */
  method ForwardStdin(lines: seq<string>, parse: string -> Option<Message>, sendFails: nat -> bool)
    returns (events: seq<Event>, log: seq<LogEntry>)
    ensures events == Writes(LineWrites(lines, parse))
    ensures log == LineLog(lines, parse, sendFails)
  {
    events, log := [], [];
    for j := 0 to |lines|
      invariant events == Writes(LineWrites(lines[..j], parse))
      invariant log == LineLog(lines[..j], parse, sendFails)
    {
      ghost var sent := LineWrites(lines[..j], parse);
      LineStep(lines, j, parse, sendFails);
      var line := TrimSpace(lines[j]);
      match parse(line) {
        case None =>
          log := log + [ParseFailed(line)];
          assert SentFor(lines[j], parse) == [];
          assert sent + [] == sent;
        case Some(msg) =>
          events := events + [Write(msg)];
          if sendFails(j) {
            log := log + [SendFailed(line)];
          }
          assert SentFor(lines[j], parse) == [msg];
          WritesAppend(sent, [msg]);
          assert Writes([msg]) == [Write(msg)];
      }
    }
    assert lines[..|lines|] == lines;
  }

  /**
   * `main` after `connEstablished.Wait()` returned: the deferred calls are
   * registered, the two loops run, and the deferred calls run as `main`
   * returns. Whether a write fails is up to the connection (`joinFails`,
   * `sendFails`); a failure is logged and changes nothing else.
   */
  method RunOutbound(join: seq<string>, lines: seq<string>, parse: string -> Option<Message>,
                     joinFails: nat -> bool, sendFails: nat -> bool)
    returns (events: seq<Event>, log: seq<LogEntry>)
    ensures events == OutboundEvents(join, lines, parse)
    ensures log == OutboundLog(join, lines, parse, joinFails, sendFails)
  {
    var deferred := [DeferClose];
    deferred := deferred + [DeferQuit];
    var joinEvents, joinLog := JoinChannels(join, joinFails);
    var lineEvents, lineLog := ForwardStdin(lines, parse, sendFails);
    WritesAppend(JoinWrites(join), LineWrites(lines, parse));
    events := joinEvents + lineEvents + Unwind(deferred);
    log := joinLog + lineLog;
  }

  /**
   * The order of writes after the latch: the `JOIN`s in configured order,
   * then the forwarded stdin messages in input order, then `QUIT`, and the
   * connection is closed last.
   */
  lemma OutboundOrder(join: seq<string>, lines: seq<string>, parse: string -> Option<Message>)
    ensures var e := OutboundEvents(join, lines, parse);
      && |e| == |join| + |LineWrites(lines, parse)| + 2
      && (forall i :: 0 <= i < |join| ==> e[i] == Write(Join(join[i])))
      && (forall k :: 0 <= k < |LineWrites(lines, parse)| ==> e[|join| + k] == Write(LineWrites(lines, parse)[k]))
      && e[|e| - 2] == Write(Quit)
      && e[|e| - 1] == Close
  {
    EventsLayout(join, LineWrites(lines, parse));
  }

  /** The layout of a run's events for any sequence `sent` of forwarded messages. */
  lemma EventsLayout(join: seq<string>, sent: seq<Message>)
    ensures var e := Writes(JoinWrites(join) + sent) + Unwind(DeferStack);
      && |e| == |join| + |sent| + 2
      && (forall i :: 0 <= i < |join| ==> e[i] == Write(Join(join[i])))
      && (forall k :: 0 <= k < |sent| ==> e[|join| + k] == Write(sent[k]))
      && e[|e| - 2] == Write(Quit)
      && e[|e| - 1] == Close
  {
    var ms := JoinWrites(join) + sent;
    var w := Writes(ms);
    assert Unwind(DeferStack) == [Write(Quit), Close];
    assert |w| == |join| + |sent|;
    assert forall i :: 0 <= i < |join| ==> w[i] == Write(Join(join[i])) by {
      assert forall i :: 0 <= i < |join| ==> ms[i] == Join(join[i]);
    }
    assert forall k :: 0 <= k < |sent| ==> w[|join| + k] == Write(sent[k]) by {
      assert forall k :: 0 <= k < |sent| ==> ms[|join| + k] == sent[k];
    }
  }

  /** Forwarding is compositional: the messages for `a + b` are those for `a`, then those for `b`. */
  lemma {:induction false} LineWritesAppend(a: seq<string>, b: seq<string>, parse: string -> Option<Message>)
    ensures LineWrites(a + b, parse) == LineWrites(a, parse) + LineWrites(b, parse)
  {
    if b != [] {
      var b' := b[..|b| - 1];
      LineWritesAppend(a, b', parse);
      assert (a + b)[..|a + b| - 1] == a + b';
      assert (a + b)[|a + b| - 1] == b[|b| - 1];
    } else {
      assert a + b == a;
    }
  }

  lemma LineWritesSingle(line: string, parse: string -> Option<Message>)
    ensures LineWrites([line], parse) == SentFor(line, parse)
  {
    assert [line][..0] == [];
  }

  /** A stdin line that does not parse is skipped: the output is as if it were absent. */
  lemma UnparseableLineSkipped(a: seq<string>, line: string, b: seq<string>, parse: string -> Option<Message>)
    requires parse(TrimSpace(line)) == None
    ensures LineWrites(a + [line] + b, parse) == LineWrites(a + b, parse)
  {
    calc {
      LineWrites(a + [line] + b, parse);
    == { LineWritesAppend(a + [line], b, parse); }
      LineWrites(a + [line], parse) + LineWrites(b, parse);
    == { LineWritesAppend(a, [line], parse); LineWritesSingle(line, parse); }
      LineWrites(a, parse) + LineWrites(b, parse);
    == { LineWritesAppend(a, b, parse); }
      LineWrites(a + b, parse);
    }
  }

  /** A stdin line that parses is sent exactly once, after everything before it and before everything after it. */
  lemma ParsedLineSent(a: seq<string>, line: string, b: seq<string>, parse: string -> Option<Message>, m: Message)
    requires parse(TrimSpace(line)) == Some(m)
    ensures LineWrites(a + [line] + b, parse) == LineWrites(a, parse) + [m] + LineWrites(b, parse)
  {
    calc {
      LineWrites(a + [line] + b, parse);
    == { LineWritesAppend(a + [line], b, parse); }
      LineWrites(a + [line], parse) + LineWrites(b, parse);
    == { LineWritesAppend(a, [line], parse); LineWritesSingle(line, parse); }
      LineWrites(a, parse) + [m] + LineWrites(b, parse);
    }
  }

  /** Every forwarded message is what some stdin line, trimmed, parsed to. */
  lemma {:induction false} LineWritesFromInput(lines: seq<string>, parse: string -> Option<Message>)
    ensures forall m | m in LineWrites(lines, parse) ::
      exists j :: 0 <= j < |lines| && parse(TrimSpace(lines[j])) == Some(m)
  {
    if lines != [] {
      var init := lines[..|lines| - 1];
      LineWritesFromInput(init, parse);
      forall m | m in LineWrites(lines, parse)
        ensures exists j :: 0 <= j < |lines| && parse(TrimSpace(lines[j])) == Some(m)
      {
        if m in LineWrites(init, parse) {
          var j :| 0 <= j < |init| && parse(TrimSpace(init[j])) == Some(m);
          assert lines[j] == init[j];
        } else {
          assert parse(TrimSpace(lines[|lines| - 1])) == Some(m);
        }
      }
    }
  }

  /** When every line parses, every line is sent, one message per line, in order. */
  lemma AllLinesSent(lines: seq<string>, parse: string -> Option<Message>)
    requires forall j :: 0 <= j < |lines| ==> parse(TrimSpace(lines[j])).Some?
    ensures |LineWrites(lines, parse)| == |lines|
    ensures forall j :: 0 <= j < |lines| ==> Some(LineWrites(lines, parse)[j]) == parse(TrimSpace(lines[j]))
  {
    AllPrefixLinesSent(lines, |lines|, parse);
    assert lines[..|lines|] == lines;
  }

  lemma {:induction false} AllPrefixLinesSent(lines: seq<string>, k: nat, parse: string -> Option<Message>)
    requires k <= |lines|
    requires forall j :: 0 <= j < k ==> parse(TrimSpace(lines[j])).Some?
    ensures |LineWrites(lines[..k], parse)| == k
    ensures forall j :: 0 <= j < k ==> Some(LineWrites(lines[..k], parse)[j]) == parse(TrimSpace(lines[j]))
  {
    if k > 0 {
      AllPrefixLinesSent(lines, k - 1, parse);
      var m := parse(TrimSpace(lines[k - 1])).value;
      var sent := LineWrites(lines[..k - 1], parse);
      assert LineWrites(lines[..k], parse) == sent + [m] by {
        assert lines[..k][..k - 1] == lines[..k - 1];
        assert SentFor(lines[k - 1], parse) == [m];
      }
    }
  }

  /** White space around a stdin line does not change what is sent for it. */
  lemma PaddedLineSame(head: string, line: string, tail: string, parse: string -> Option<Message>)
    requires AllSpace(head) && AllSpace(tail)
    ensures SentFor(head + line + tail, parse) == SentFor(line, parse)
  {
    TrimSpacePadded(head, line, tail);
  }

  /** Without parse errors or failed writes, nothing is logged. */
  lemma {:induction false} QuietRunLogsNothing(join: seq<string>, lines: seq<string>, parse: string -> Option<Message>,
                                            joinFails: nat -> bool, sendFails: nat -> bool)
    requires forall j :: 0 <= j < |lines| ==> parse(TrimSpace(lines[j])).Some? && !sendFails(j)
    requires forall i :: 0 <= i < |join| ==> !joinFails(i)
    ensures OutboundLog(join, lines, parse, joinFails, sendFails) == []
  {
    JoinLogEmpty(join, joinFails);
    LineLogEmpty(lines, parse, sendFails);
  }

  lemma {:induction false} JoinLogEmpty(join: seq<string>, joinFails: nat -> bool)
    requires forall i :: 0 <= i < |join| ==> !joinFails(i)
    ensures JoinLog(join, joinFails) == []
  {
    if join != [] {
      JoinLogEmpty(join[..|join| - 1], joinFails);
    }
  }

  lemma {:induction false} LineLogEmpty(lines: seq<string>, parse: string -> Option<Message>, sendFails: nat -> bool)
    requires forall j :: 0 <= j < |lines| ==> parse(TrimSpace(lines[j])).Some? && !sendFails(j)
    ensures LineLog(lines, parse, sendFails) == []
  {
    if lines != [] {
      LineLogEmpty(lines[..|lines| - 1], parse, sendFails);
    }
  }
}
