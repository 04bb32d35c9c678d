/**
 * `printMessage`, the handler the IRC client calls for every inbound message:
 * it releases the ready latch on the first welcome reply and decides whether
 * and what to print.
 */
module Inbound {
  import opened Wrappers
  import opened Irc
  import opened Numeric
  import opened Text

  /**
   * The latch: whether the `sync.Once` has run, and the `sync.WaitGroup`
   * counter that `main` raised to one before connecting.
   */
  datatype LatchState = LatchState(onceDone: bool, pending: int)

  /** The latch once `main` has called `connEstablished.Add(1)`. */
  const Armed: LatchState := LatchState(false, 1)

  /** The counter is one until the once-guarded `Done` ran, and zero after. */
  predicate Consistent(st: LatchState) {
    st.pending == if st.onceDone then 0 else 1
  }

  /** `connEstablished.Wait()` returns exactly when the counter is zero. */
  predicate Released(st: LatchState) {
    st.pending == 0
  }

  /**
   * The latch after the handler saw a message with `command`: only the
   * welcome reply acts, and only the first one, through `connWaitOnce`.
   */
  function Observe(st: LatchState, command: string): (st': LatchState)
    ensures Consistent(st) ==> Consistent(st') && st'.pending >= 0
    ensures command != Welcome ==> st' == st
    ensures st.onceDone ==> st' == st
    ensures command == Welcome ==> st'.onceDone
    ensures Consistent(st) ==> (Released(st') <==> Released(st) || command == Welcome)
  {
    if command == Welcome && !st.onceDone then LatchState(true, st.pending - 1) else st
  }

  /** The latch after the handler has seen every message of `ms`, in order. */
  function ObserveAll(st: LatchState, ms: seq<Message>): LatchState {
    if ms == [] then st else Observe(ObserveAll(st, ms[..|ms| - 1]), ms[|ms| - 1].command)
  }

  /**
   * From the armed latch, a stream of messages releases `main` exactly when
   * it contains a welcome reply, and the counter never drops below zero, so
   * `Done` runs at most once and never panics.
   */
  lemma {:induction false} ReleasedIffWelcome(ms: seq<Message>)
    ensures Consistent(ObserveAll(Armed, ms))
    ensures Released(ObserveAll(Armed, ms)) <==> exists i :: 0 <= i < |ms| && ms[i].command == Welcome
  {
    if ms != [] {
      var init := ms[..|ms| - 1];
      ReleasedIffWelcome(init);
      assert forall i :: 0 <= i < |init| ==> init[i] == ms[i];
    }
  }

  /** Once released, no later message changes the latch: later welcome replies have no effect. */
  lemma {:induction false} ReleasedIsFinal(st: LatchState, ms: seq<Message>)
    requires Consistent(st) && Released(st)
    ensures ObserveAll(st, ms) == st
  {
    if ms != [] {
      ReleasedIsFinal(st, ms[..|ms| - 1]);
    }
  }

  /**
   * The printing decision: numeric commands (those `strconv.Atoi` accepts)
   * are never printed, nothing is printed when quiet, and anything else is
   * printed as its trimmed rendering.
   */
  function Printed(quiet: bool, m: Message, render: Message -> string): (r: Option<string>)
    ensures Atoi(m.command).Some? ==> r == None
    ensures quiet ==> r == None
    ensures !quiet && Atoi(m.command).None? ==> r == Some(TrimSpace(render(m)))
  {
    if Atoi(m.command).Some? then None
    else if quiet then None
    else Some(TrimSpace(render(m)))
  }

  /** What one message contributes to standard output. */
  function LinesOf(p: Option<string>): seq<string> {
    match p
    case None => []
    case Some(line) => [line]
  }

  /** Standard output after the handler has seen every message of `ms`, in order. */
  function Transcript(quiet: bool, ms: seq<Message>, render: Message -> string): (out: seq<string>)
    ensures |out| <= |ms|
  {
    if ms == [] then []
    else Transcript(quiet, ms[..|ms| - 1], render) + LinesOf(Printed(quiet, ms[|ms| - 1], render))
  }

  /** With the quiet flag, no message reaches standard output. */
  lemma {:induction false} QuietTranscriptEmpty(ms: seq<Message>, render: Message -> string)
    ensures Transcript(true, ms, render) == []
  {
    if ms != [] {
      QuietTranscriptEmpty(ms[..|ms| - 1], render);
    }
  }

  /** Every printed line is already trimmed: it neither starts nor ends with white space. */
  lemma {:induction false} TranscriptTrimmed(quiet: bool, ms: seq<Message>, render: Message -> string)
    ensures forall line | line in Transcript(quiet, ms, render) :: TrimSpace(line) == line
  {
    if ms != [] {
      var init, m := ms[..|ms| - 1], ms[|ms| - 1];
      TranscriptTrimmed(quiet, init, render);
      var p := Printed(quiet, m, render);
      assert Transcript(quiet, ms, render) == Transcript(quiet, init, render) + LinesOf(p);
      if p.Some? {
        TrimSpaceIdempotent(render(m));
      }
    }
  }

  /** Without the quiet flag, exactly the non-numeric messages are printed, one line each, in order. */
  lemma {:induction false} TranscriptNotQuiet(ms: seq<Message>, render: Message -> string)
    requires forall i :: 0 <= i < |ms| ==> Atoi(ms[i].command).None?
    ensures |Transcript(false, ms, render)| == |ms|
    ensures forall i :: 0 <= i < |ms| ==> Transcript(false, ms, render)[i] == TrimSpace(render(ms[i]))
  {
    if ms != [] {
      var init, m := ms[..|ms| - 1], ms[|ms| - 1];
      TranscriptNotQuiet(init, render);
      assert Printed(false, m, render) == Some(TrimSpace(render(m)));
      assert Transcript(false, ms, render) == Transcript(false, init, render) + [TrimSpace(render(m))];
    }
  }

  /** The transcript of a stream is the transcript of its first part followed by that of the rest. */
  lemma {:induction false} TranscriptAppend(quiet: bool, a: seq<Message>, b: seq<Message>, render: Message -> string)
    ensures Transcript(quiet, a + b, render) == Transcript(quiet, a, render) + Transcript(quiet, b, render)
  {
    if b != [] {
      var b' := b[..|b| - 1];
      TranscriptAppend(quiet, a, b', render);
      assert (a + b)[..|a + b| - 1] == a + b';
      assert (a + b)[|a + b| - 1] == b[|b| - 1];
    } else {
      assert a + b == a;
    }
  }

  lemma TranscriptSingle(quiet: bool, m: Message, render: Message -> string)
    ensures Transcript(quiet, [m], render) == LinesOf(Printed(quiet, m, render))
  {
    assert [m][..0] == [];
  }

  /** A numeric message, wherever it arrives, leaves standard output as if it had not arrived. */
  lemma NumericMessageSilent(quiet: bool, a: seq<Message>, m: Message, b: seq<Message>, render: Message -> string)
    requires Atoi(m.command).Some?
    ensures Transcript(quiet, a + [m] + b, render) == Transcript(quiet, a + b, render)
  {
    TranscriptAppend(quiet, a + [m], b, render);
    TranscriptAppend(quiet, a, [m], render);
    TranscriptAppend(quiet, a, b, render);
    TranscriptSingle(quiet, m, render);
  }

  /** Without the quiet flag, a non-numeric message prints its trimmed rendering in its place in the stream. */
  lemma NonNumericMessagePrinted(a: seq<Message>, m: Message, b: seq<Message>, render: Message -> string)
    requires Atoi(m.command).None?
    ensures Transcript(false, a + [m] + b, render)
         == Transcript(false, a, render) + [TrimSpace(render(m))] + Transcript(false, b, render)
  {
    TranscriptAppend(false, a + [m], b, render);
    TranscriptAppend(false, a, [m], render);
    TranscriptSingle(false, m, render);
  }

  /** A three-digit reply, the welcome reply among them, is never printed. */
  lemma ThreeDigitReplySilent(quiet: bool, m: Message, render: Message -> string)
    requires |m.command| == 3 && AllDigits(m.command)
    ensures Printed(quiet, m, render) == None
  {
    ThreeDigitReplyIsNumeric(m.command);
  }

  /** The welcome reply both releases the armed latch and stays off standard output. */
  lemma WelcomeReleasesSilently(quiet: bool, m: Message, render: Message -> string)
    requires m.command == Welcome
    ensures Released(Observe(Armed, m.command))
    ensures Printed(quiet, m, render) == None
  {
    ThreeDigitReplySilent(quiet, m, render);
  }

  /**
   * The handler with its state: the latch and standard output. `quiet` is
   * the configuration flag, fixed for the run.
   */
  class Handler {
    const quiet: bool
    var onceDone: bool
    var pending: int
    var stdout: seq<string>

    function Latch(): LatchState
      reads this
    {
      LatchState(onceDone, pending)
    }

    ghost predicate Valid()
      reads this
    {
      Consistent(Latch())
    }

    /** The handler as registered, after `main` armed the latch. */
    constructor (quiet: bool)
      ensures Valid() && this.quiet == quiet
      ensures Latch() == Armed && stdout == []
    {
      this.quiet := quiet;
      onceDone := false;
      pending := 1;
      stdout := [];
    }

    /** `printMessage`: advance the latch, then print the message unless it is numeric or quiet. */
    method PrintMessage(m: Message, render: Message -> string)
      requires Valid()
      modifies this
      ensures Valid() && pending >= 0
      ensures Latch() == Observe(old(Latch()), m.command)
      ensures stdout == old(stdout) + LinesOf(Printed(quiet, m, render))
    {
      if m.command == Welcome {
        // the once-guarded `Done`: only the first welcome releases the latch
        if !onceDone {
          onceDone := true;
          pending := pending - 1;
        }
      }
      if Atoi(m.command).Some? {
        return;
      }
      if quiet {
        return;
      }
      stdout := stdout + [TrimSpace(render(m))];
    }

    /** Whether `connEstablished.Wait()` would return now. */
    method Established() returns (ready: bool)
      requires Valid()
      ensures ready <==> onceDone
      ensures ready == Released(Latch())
    {
      ready := pending == 0;
    }
  }
}
