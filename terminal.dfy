/**
 * The emulated-console component (src/components/EnigmaOSTerminal.tsx):
 * the serial listener that assembles output bytes into lines and detects the
 * login prompt, and the gateway that sends a pending command to the console.
 *
 * The listener is specified by `Step` on a `Listener` value; `Run` folds it
 * over a byte stream, and the lemmas below state what a whole stream does.
 * The class `EnigmaOSTerminal` holds the same state as the source's closure
 * and implements one byte per call.
 */
module Serial {
  import opened Types
  import opened JsString

  /** A byte of the serial port, as the listener receives it. */
  newtype byte = x: int | 0 <= x < 256

  const CR: byte := 13
  const LF: byte := 10

  /** `String.fromCharCode(byte)`. */
  function CharOf(b: byte): (c: char)
    ensures (c == '\r') <==> b == CR
    ensures (c == '\n') <==> b == LF
  {
    (b as int) as char
  }

  /** The prompt marker looked for in the lower-cased, trimmed line. */
  const LoginMarker: string := "login:"

  /** The state the listener closure captures: `lineBuffer` and `readyNotified`. */
  datatype Listener = Listener(lineBuffer: string, readyNotified: bool)

  /** One call of `onOutput`; `forced` marks the forced flush of a login prompt line. */
  datatype Emission = Emission(text: string, forced: bool)

  /** What one byte does: the new state, the call of `onOutput` if any, and whether `onEmulatorReady` ran. */
  datatype StepResult = StepResult(next: Listener, emitted: Option<Emission>, readyFired: bool)

  /** The readiness test: the lower-cased, trimmed line contains the marker. */
  predicate PromptSeen(line: string) {
    Contains(Lower(Trim(line)), LoginMarker)
  }

  /** The forced-flush test, with both suffixes the source checks. */
  predicate PromptAtEnd(line: string) {
    EndsWith(Lower(Trim(line)), LoginMarker) || EndsWith(Lower(Trim(line)), "login: ")
  }

  /** The second suffix of the forced-flush test can never match after a trim. */
  lemma PromptAtEndIsColonEnd(line: string)
    ensures PromptAtEnd(line) <==> EndsWith(Lower(Trim(line)), LoginMarker)
  {
    TrimmedNeverEndsWithSpace(line, "login: ");
  }

  /** Containment of the marker does not depend on the trim. */
  lemma PromptSeenIgnoresTrim(line: string)
    ensures PromptSeen(line) <==> Contains(Lower(line), LoginMarker)
  {
    ContainsIgnoresTrim(line, LoginMarker);
  }

  /** A line that ends with the marker after trimming also contains it. */
  lemma PromptAtEndIsSeen(line: string)
    ensures PromptAtEnd(line) ==> PromptSeen(line)
  {
    PromptAtEndIsColonEnd(line);
    if EndsWith(Lower(Trim(line)), LoginMarker) {
      EndsWithContains(Lower(Trim(line)), LoginMarker);
    }
  }

  /** An empty line never shows the prompt. */
  lemma EmptyLineShowsNoPrompt()
    ensures !PromptSeen("")
  {
    assert Trim("") == [];
  }

  /** The listener's reaction to one byte, given whether the emulator reference is set. */
  function Step(s: Listener, b: byte, emulatorPresent: bool): (r: StepResult)
    ensures b == CR ==> r == StepResult(s, None, false)
    ensures b == LF ==>
      r == StepResult(Listener("", s.readyNotified), Some(Emission(s.lineBuffer + "\n", false)), false)
    ensures b != CR && b != LF ==>
      r.next.lineBuffer == s.lineBuffer + [CharOf(b)] &&
      (r.emitted.Some? ==> r.emitted.value == Emission(r.next.lineBuffer + "\n", true))
    ensures r.next.readyNotified <==> s.readyNotified || r.readyFired
    ensures r.readyFired ==> !s.readyNotified && emulatorPresent
  {
    if b == CR then StepResult(s, None, false)
    else
      var lineFlush := if b == LF then Some(Emission(s.lineBuffer + "\n", false)) else None;
      var line := if b == LF then "" else s.lineBuffer + [CharOf(b)];
      if !s.readyNotified && PromptSeen(line) then
        var flush := if PromptAtEnd(line) then Some(Emission(line + "\n", true)) else lineFlush;
        assert b != LF by { EmptyLineShowsNoPrompt(); }
        StepResult(Listener(line, emulatorPresent), flush, emulatorPresent)
      else
        StepResult(Listener(line, s.readyNotified), lineFlush, false)
  }

  /**
   * Readiness fires on a byte other than CR and LF, exactly when the listener
   * is not ready yet, the emulator reference is set and the new line contains
   * the marker once lower-cased and trimmed.
   */
  lemma StepReadiness(s: Listener, b: byte, emulatorPresent: bool)
    ensures Step(s, b, emulatorPresent).readyFired <==>
      b != CR && b != LF && !s.readyNotified && emulatorPresent &&
      PromptSeen(s.lineBuffer + [CharOf(b)])
  {
    EmptyLineShowsNoPrompt();
  }

  /**
   * The forced flush happens exactly when the listener is not ready yet and
   * the new line ends with the marker once lower-cased and trimmed; with the
   * emulator reference set, readiness fires on the same byte.
   */
  lemma StepForcedFlush(s: Listener, b: byte, emulatorPresent: bool)
    ensures var r := Step(s, b, emulatorPresent);
      (r.emitted.Some? && r.emitted.value.forced) <==>
      b != CR && b != LF && !s.readyNotified &&
      EndsWith(Lower(Trim(s.lineBuffer + [CharOf(b)])), LoginMarker)
    ensures var r := Step(s, b, emulatorPresent);
      r.emitted.Some? && r.emitted.value.forced && emulatorPresent ==> r.readyFired
  {
    if b != CR && b != LF {
      var line := s.lineBuffer + [CharOf(b)];
      PromptAtEndIsColonEnd(line);
      PromptAtEndIsSeen(line);
    }
  }

  /** The calls of `onOutput` one byte makes, as a sequence. */
  function Calls(r: StepResult): seq<Emission> {
    if r.emitted.Some? then [r.emitted.value] else []
  }

  /** The outcome of a whole byte stream. */
  datatype Trace = Trace(final: Listener, emitted: seq<Emission>, readyCount: nat)

  function Run(s: Listener, bs: seq<byte>, emulatorPresent: bool): Trace
    decreases |bs|
  {
    if bs == [] then Trace(s, [], 0)
    else
      var r := Step(s, bs[0], emulatorPresent);
      var t := Run(r.next, bs[1..], emulatorPresent);
      Trace(t.final, Calls(r) + t.emitted, (if r.readyFired then 1 else 0) + t.readyCount)
  }

  /** The characters of a byte stream with every carriage return removed. */
  function WithoutCr(bs: seq<byte>): string {
    if bs == [] then ""
    else (if bs[0] == CR then "" else [CharOf(bs[0])]) + WithoutCr(bs[1..])
  }

  /** Everything passed to `onOutput`, in order. */
  function Texts(es: seq<Emission>): string {
    if es == [] then "" else es[0].text + Texts(es[1..])
  }

  /** Only the line flushes (the calls a newline byte makes). */
  function LineTexts(es: seq<Emission>): string {
    if es == [] then "" else (if es[0].forced then "" else es[0].text) + LineTexts(es[1..])
  }

  function ForcedCount(es: seq<Emission>): nat {
    if es == [] then 0 else (if es[0].forced then 1 else 0) + ForcedCount(es[1..])
  }

  lemma {:induction false} LineTextsAppend(a: seq<Emission>, b: seq<Emission>)
    ensures LineTexts(a + b) == LineTexts(a) + LineTexts(b)
  {
    if a == [] {
      assert a + b == b;
    } else {
      assert (a + b)[0] == a[0] && (a + b)[1..] == a[1..] + b;
      LineTextsAppend(a[1..], b);
    }
  }

  lemma {:induction false} ForcedCountAppend(a: seq<Emission>, b: seq<Emission>)
    ensures ForcedCount(a + b) == ForcedCount(a) + ForcedCount(b)
  {
    if a == [] {
      assert a + b == b;
    } else {
      assert (a + b)[0] == a[0] && (a + b)[1..] == a[1..] + b;
      ForcedCountAppend(a[1..], b);
    }
  }

  lemma {:induction false} TextsWithoutForced(es: seq<Emission>)
    requires ForcedCount(es) == 0
    ensures Texts(es) == LineTexts(es)
  {
    if es != [] { TextsWithoutForced(es[1..]); }
  }

  /** One byte: its line flush followed by the new buffer is the old buffer plus the byte, CR dropped. */
  lemma StepReassembles(s: Listener, b: byte, emulatorPresent: bool)
    ensures var r := Step(s, b, emulatorPresent);
      LineTexts(Calls(r)) + r.next.lineBuffer == s.lineBuffer + WithoutCr([b])
  {
    var r := Step(s, b, emulatorPresent);
    assert [b][1..] == [];
    assert WithoutCr([b]) == (if b == CR then "" else [CharOf(b)]);
    if b == LF {
      assert Calls(r) == [Emission(s.lineBuffer + "\n", false)];
    } else if b != CR {
      assert Calls(r) == [] || Calls(r) == [Emission(r.next.lineBuffer + "\n", true)];
    }
  }

  /**
   * The line flushes followed by the pending line buffer are exactly the
   * bytes received, without carriage returns: nothing is lost or reordered.
   */
  lemma {:induction false} LinesReassemble(s: Listener, bs: seq<byte>, emulatorPresent: bool)
    ensures LineTexts(Run(s, bs, emulatorPresent).emitted) + Run(s, bs, emulatorPresent).final.lineBuffer
            == s.lineBuffer + WithoutCr(bs)
    decreases |bs|
  {
    if bs == [] {
      assert WithoutCr(bs) == [] && LineTexts(Run(s, bs, emulatorPresent).emitted) == [];
    } else {
      var next := Step(s, bs[0], emulatorPresent).next;
      LinesReassemble(next, bs[1..], emulatorPresent);
      LinesReassembleCons(s, bs, emulatorPresent);
    }
  }

  /** The inductive step of `LinesReassemble`: the first byte, then the rest of the stream. */
  lemma LinesReassembleCons(s: Listener, bs: seq<byte>, emulatorPresent: bool)
    requires bs != []
    requires var t := Run(Step(s, bs[0], emulatorPresent).next, bs[1..], emulatorPresent);
      LineTexts(t.emitted) + t.final.lineBuffer == Step(s, bs[0], emulatorPresent).next.lineBuffer + WithoutCr(bs[1..])
    ensures LineTexts(Run(s, bs, emulatorPresent).emitted) + Run(s, bs, emulatorPresent).final.lineBuffer
            == s.lineBuffer + WithoutCr(bs)
  {
    var r := Step(s, bs[0], emulatorPresent);
    var t := Run(r.next, bs[1..], emulatorPresent);
    var whole := Run(s, bs, emulatorPresent);
    assert LineTexts(whole.emitted) == LineTexts(Calls(r)) + LineTexts(t.emitted) && whole.final == t.final by {
      RunCons(s, bs, emulatorPresent);
      LineTextsAppend(Calls(r), t.emitted);
    }
    assert LineTexts(Calls(r)) + r.next.lineBuffer == s.lineBuffer + WithoutCr([bs[0]]) by {
      StepReassembles(s, bs[0], emulatorPresent);
    }
    assert WithoutCr(bs) == WithoutCr([bs[0]]) + WithoutCr(bs[1..]) by {
      WithoutCrCons(bs);
    }
    Glue(LineTexts(Calls(r)), r.next.lineBuffer, LineTexts(t.emitted), t.final.lineBuffer,
         WithoutCr(bs[1..]), s.lineBuffer, WithoutCr([bs[0]]));
  }

  /** Re-association of the two equations `LinesReassemble` chains together. */
  lemma Glue(head: string, mid: string, lines: string, last: string, rest: string, buf: string, first: string)
    requires lines + last == mid + rest
    requires head + mid == buf + first
    ensures (head + lines) + last == buf + (first + rest)
  {
    calc {
      (head + lines) + last;
      head + (lines + last);
      head + (mid + rest);
      (head + mid) + rest;
      (buf + first) + rest;
      buf + (first + rest);
    }
  }

  lemma RunCons(s: Listener, bs: seq<byte>, emulatorPresent: bool)
    requires bs != []
    ensures var r := Step(s, bs[0], emulatorPresent);
      Run(s, bs, emulatorPresent).emitted == Calls(r) + Run(r.next, bs[1..], emulatorPresent).emitted &&
      Run(s, bs, emulatorPresent).final == Run(r.next, bs[1..], emulatorPresent).final
  {
  }

  lemma WithoutCrCons(bs: seq<byte>)
    requires bs != []
    ensures WithoutCr(bs) == WithoutCr([bs[0]]) + WithoutCr(bs[1..])
  {
    assert [bs[0]][1..] == [];
  }

  /** Without a forced flush, everything emitted plus the pending line is the input without CRs. */
  lemma NoForcedFlushReassembles(s: Listener, bs: seq<byte>, emulatorPresent: bool)
    requires ForcedCount(Run(s, bs, emulatorPresent).emitted) == 0
    ensures Texts(Run(s, bs, emulatorPresent).emitted) + Run(s, bs, emulatorPresent).final.lineBuffer
            == s.lineBuffer + WithoutCr(bs)
  {
    LinesReassemble(s, bs, emulatorPresent);
    TextsWithoutForced(Run(s, bs, emulatorPresent).emitted);
  }

  /**
   * The ready notification fires at most once per listener, never after it
   * already fired, and only when the emulator reference is set; the flag
   * never goes back to false.
   */
  lemma {:induction false} ReadyAtMostOnce(s: Listener, bs: seq<byte>, emulatorPresent: bool)
    ensures Run(s, bs, emulatorPresent).readyCount <= (if s.readyNotified then 0 else 1)
    ensures Run(s, bs, emulatorPresent).readyCount > 0 ==> emulatorPresent
    ensures Run(s, bs, emulatorPresent).final.readyNotified <==>
            s.readyNotified || Run(s, bs, emulatorPresent).readyCount > 0
    decreases |bs|
  {
    if bs != [] {
      var r := Step(s, bs[0], emulatorPresent);
      ReadyAtMostOnce(r.next, bs[1..], emulatorPresent);
    }
  }

  /**
   * With the emulator reference set, the forced flush of the prompt line
   * happens at most once, and never once the listener is ready.
   */
  lemma {:induction false} ForcedFlushAtMostOnce(s: Listener, bs: seq<byte>)
    ensures ForcedCount(Run(s, bs, true).emitted) <= (if s.readyNotified then 0 else 1)
    decreases |bs|
  {
    if bs != [] {
      var r := Step(s, bs[0], true);
      ForcedFlushAtMostOnce(r.next, bs[1..]);
      ForcedCountAppend(Calls(r), Run(r.next, bs[1..], true).emitted);
      StepForcedFlush(s, bs[0], true);
    }
  }

  /** Feeding two chunks one after the other ends in the same listener as feeding them joined. */
  lemma {:induction false} RunAppendFinal(s: Listener, a: seq<byte>, b: seq<byte>, emulatorPresent: bool)
    ensures Run(s, a + b, emulatorPresent).final == Run(Run(s, a, emulatorPresent).final, b, emulatorPresent).final
    decreases |a|
  {
    if a == [] {
      assert a + b == b;
    } else {
      assert (a + b)[0] == a[0] && (a + b)[1..] == a[1..] + b;
      RunAppendFinal(Step(s, a[0], emulatorPresent).next, a[1..], b, emulatorPresent);
    }
  }

  /** Feeding two chunks one after the other emits what feeding them joined emits. */
  lemma {:induction false} RunAppend(s: Listener, a: seq<byte>, b: seq<byte>, emulatorPresent: bool)
    ensures Run(s, a + b, emulatorPresent).emitted ==
            Run(s, a, emulatorPresent).emitted + Run(Run(s, a, emulatorPresent).final, b, emulatorPresent).emitted
    decreases |a|
  {
    if a == [] {
      assert a + b == b;
    } else {
      var ab := a + b;
      assert ab[0] == a[0] && ab[1..] == a[1..] + b;
      var next := Step(s, a[0], emulatorPresent).next;
      RunCons(s, ab, emulatorPresent);
      RunCons(s, a, emulatorPresent);
      RunAppend(next, a[1..], b, emulatorPresent);
      var x := Run(next, a[1..], emulatorPresent);
      AppendAssoc(Calls(Step(s, a[0], emulatorPresent)), x.emitted, Run(x.final, b, emulatorPresent).emitted);
    }
  }

  lemma AppendAssoc(c: seq<Emission>, x: seq<Emission>, y: seq<Emission>)
    ensures c + (x + y) == (c + x) + y
  {
  }

  /** Bytes without a newline flush no line: only forced flushes, if any. */
  lemma {:induction false} LinesAreOnNewline(s: Listener, bs: seq<byte>, emulatorPresent: bool)
    requires LF !in bs
    ensures LineTexts(Run(s, bs, emulatorPresent).emitted) == ""
    decreases |bs|
  {
    if bs != [] {
      var r := Step(s, bs[0], emulatorPresent);
      assert bs[0] != LF;
      LinesAreOnNewline(r.next, bs[1..], emulatorPresent);
      LineTextsAppend(Calls(r), Run(r.next, bs[1..], emulatorPresent).emitted);
    }
  }

  /**
   * Because the forced flush does not clear the buffer, the next newline
   * emits the whole pending line again: after bytes without a newline, the
   * newline's line flush is the old buffer, the new bytes and "\n".
   */
  lemma NextLineRepeatsBuffer(s: Listener, bs: seq<byte>, emulatorPresent: bool)
    requires LF !in bs
    ensures LineTexts(Run(s, bs + [LF], emulatorPresent).emitted) == s.lineBuffer + WithoutCr(bs) + "\n"
    ensures Run(s, bs + [LF], emulatorPresent).final.lineBuffer == ""
  {
    var first := Run(s, bs, emulatorPresent);
    var last := Run(first.final, [LF], emulatorPresent);
    RunAppendFinal(s, bs, [LF], emulatorPresent);
    RunAppend(s, bs, [LF], emulatorPresent);
    LinesReassemble(s, bs, emulatorPresent);
    LinesAreOnNewline(s, bs, emulatorPresent);
    assert [LF][1..] == [];
    LineTextsAppend(first.emitted, last.emitted);
  }

  /** What the command effect can observe of the emulator object. */
  datatype Emulator = Emulator(isRunningIsFunction: bool, running: bool, serial0SendIsFunction: bool)

  /** The outcome of the command effect: the string given to `serial0_send`, and whether `onCommandSent` ran. */
  datatype Delivery = Delivery(sent: Option<string>, commandSent: bool)

  predicate CanSend(emulator: Option<Emulator>) {
    emulator.Some? && emulator.value.isRunningIsFunction && emulator.value.running &&
    emulator.value.serial0SendIsFunction
  }

  /**
   * The command effect: a non-empty command is sent with one newline, and
   * `onCommandSent` called once, exactly when the emulator exists, is
   * running and can receive serial input; otherwise nothing happens.
   */
  function Gateway(commandToRun: Option<string>, emulator: Option<Emulator>): (d: Delivery)
    ensures d.commandSent <==> d.sent.Some?
    ensures d.sent.Some? <==> commandToRun.Some? && commandToRun.value != "" && CanSend(emulator)
    ensures d.sent.Some? ==> d.sent.value == commandToRun.value + "\n"
  {
    match commandToRun
    case Some(command) =>
      if command != "" && CanSend(emulator) then Delivery(Some(command + "\n"), true)
      else Delivery(None, false)
    case None => Delivery(None, false)
  }

  class EnigmaOSTerminal {
    /** `emulatorRef.current` */
    var emulator: Option<Emulator>
    var lineBuffer: string
    var readyNotified: bool
    /** Every string given to the emulator's `serial0_send`, in order. */
    var serialInput: seq<string>

    /** The emulator has just been created and its serial listener attached. */
    constructor (engine: Emulator)
      ensures emulator == Some(engine) && lineBuffer == "" && !readyNotified && serialInput == []
    {
      emulator := Some(engine);
      lineBuffer := "";
      readyNotified := false;
      serialInput := [];
    }

    function State(): Listener
      reads this
    {
      Listener(lineBuffer, readyNotified)
    }

    /** The `serial0-output-byte` listener: returns the strings given to `onOutput` and whether `onEmulatorReady` ran. */
    method OnSerialByte(b: byte) returns (outputs: seq<string>, ready: bool)
      modifies this`lineBuffer, this`readyNotified
      ensures var r := Step(old(State()), b, emulator.Some?);
              State() == r.next && outputs == (if r.emitted.Some? then [r.emitted.value.text] else []) &&
              ready == r.readyFired
    {
      outputs, ready := [], false;
      var c := CharOf(b);
      if c == '\r' {
        return;
      }
      if c == '\n' {
        outputs := [lineBuffer + "\n"];
        lineBuffer := "";
        assert Trim(lineBuffer) == [];
      } else {
        lineBuffer := lineBuffer + [c];
      }
      if !readyNotified {
        var trimmedLine := Lower(Trim(lineBuffer));
        if Contains(trimmedLine, LoginMarker) {
          if EndsWith(Lower(Trim(lineBuffer)), "login:") || EndsWith(Lower(Trim(lineBuffer)), "login: ") {
            outputs := outputs + [lineBuffer + "\n"];
          }
          if emulator.Some? {
            ready := true;
            readyNotified := true;
          }
        }
      }
    }

    /** The unmount cleanup: the emulator is destroyed and the reference cleared. */
    method Destroy()
      modifies this`emulator
      ensures emulator == None
    {
      emulator := None;
    }

    /** The command effect, run when `commandToRun` changes; returns whether `onCommandSent` ran. */
    method RunCommand(commandToRun: Option<string>) returns (commandSent: bool)
      modifies this`serialInput
      ensures var d := Gateway(commandToRun, emulator);
              commandSent == d.commandSent &&
              serialInput == old(serialInput) + (if d.sent.Some? then [d.sent.value] else [])
    {
      commandSent := false;
      if commandToRun.Some? && commandToRun.value != "" && emulator.Some? &&
         emulator.value.isRunningIsFunction && emulator.value.running &&
         emulator.value.serial0SendIsFunction {
        serialInput := serialInput + [commandToRun.value + "\n"];
        commandSent := true;
      }
    }
  }
}
