/**
 * The calculator keypad: a string-level state machine over the display, the
 * pending operand and operator, and a short history, which also recognises
 * the date-dependent unlock code and judges the challenge answer.
 *
 * Floating-point arithmetic is abstract: `FloatOps` supplies the number
 * formatting of `String(parseFloat(s))`, the result text of an operation and
 * the comparison of the display with the expected answer. The day of the
 * month is a parameter.
 */
module Keypad {
  import opened Types
  import opened JsString

  /** The display length at which digit entry stops. */
  const MaxDisplayDigits: nat := 15
  /** The number of operations the history keeps. */
  const HistorySize: nat := 5
  const PiBase: string := "3.1415926535"
  const EBase: string := "2.7182818284"
  const DivByZero: string := "Error: Div by 0"
  const InfinityText: string := "Infinity"

  /** The arithmetic the keypad delegates to the engine's numbers. */
  datatype FloatOps = FloatOps(
    /** `String(parseFloat(s))` */
    normalize: string -> string,
    /** `String(calculate(parseFloat(a), parseFloat(b), op))` */
    calculate: (string, string, string) -> string,
    /** `!isNaN(parseFloat(s)) && parseFloat(s) === answer` */
    equalsAnswer: (string, real) -> bool)

  /** The component's state. */
  datatype Panel = Panel(
    displayValue: string,
    previousValue: Option<string>,
    operator: Option<string>,
    waitingForOperand: bool,
    isMaxDigits: bool,
    history: seq<CalculatorHistoryEntry>)

  /** What `=` reports to the session. */
  datatype Event = NoEvent | UnlockSuccess | ChallengeSolved | ChallengeFailed

  /**
   * The bounds the keypad keeps: at most five history entries, and a display
   * being typed is at most 15 characters long, shorter than that unless the
   * max-digits flag is set.
   */
  predicate Bounded(p: Panel) {
    |p.history| <= HistorySize &&
    (!p.waitingForOperand ==>
      |p.displayValue| <= MaxDisplayDigits && (!p.isMaxDigits ==> |p.displayValue| < MaxDisplayDigits))
  }

  function Initial(): (p: Panel)
    ensures Bounded(p) && p.displayValue == "0" && p.history == []
  {
    Panel("0", None, None, false, false, [])
  }

  predicate IsDigit(c: char) {
    '0' <= c <= '9'
  }

  /** `inputDigit` */
  function InputDigit(s: Panel, digit: char): (r: Panel)
    ensures s.isMaxDigits && !s.waitingForOperand ==> r == s
    ensures !(s.isMaxDigits && !s.waitingForOperand) ==>
      !r.waitingForOperand && r.isMaxDigits == (|s.displayValue| + 1 >= MaxDisplayDigits) &&
      r.previousValue == s.previousValue && r.operator == s.operator && r.history == s.history
    ensures !s.waitingForOperand && s.displayValue != "0" && !s.isMaxDigits ==>
      r.displayValue == s.displayValue + [digit]
    ensures s.waitingForOperand || (s.displayValue == "0" && !s.isMaxDigits) ==> r.displayValue == [digit]
    ensures Bounded(s) ==> Bounded(r)
  {
    if s.isMaxDigits && !s.waitingForOperand then s
    else
      var display := if s.waitingForOperand || s.displayValue == "0" then [digit] else s.displayValue + [digit];
      s.(displayValue := display, waitingForOperand := false,
         isMaxDigits := |s.displayValue + [digit]| >= MaxDisplayDigits)
  }

  /** `inputDecimal` */
  function InputDecimal(s: Panel): (r: Panel)
    ensures s.isMaxDigits && !s.waitingForOperand ==> r == s
    ensures s.waitingForOperand ==> r == s.(displayValue := "0.", waitingForOperand := false)
    ensures !s.waitingForOperand && !s.isMaxDigits ==>
      r.displayValue == (if '.' in s.displayValue then s.displayValue else s.displayValue + ".") &&
      r.isMaxDigits == (|s.displayValue| + 1 >= MaxDisplayDigits) &&
      r.previousValue == s.previousValue && r.operator == s.operator && r.history == s.history &&
      !r.waitingForOperand
    ensures Bounded(s) ==> Bounded(r)
  {
    if s.isMaxDigits && !s.waitingForOperand then s
    else if s.waitingForOperand then s.(displayValue := "0.", waitingForOperand := false)
    else
      var display := if !Contains(s.displayValue, ".") then s.displayValue + "." else s.displayValue;
      assert Contains(s.displayValue, ".") <==> '.' in s.displayValue by {
        DotContained(s.displayValue);
      }
      s.(displayValue := display, isMaxDigits := |s.displayValue + "."| >= MaxDisplayDigits)
  }

  lemma DotContained(t: string)
    ensures Contains(t, ".") <==> '.' in t
  {
    if '.' in t {
      var i :| 0 <= i < |t| && t[i] == '.';
      assert t[i..i + 1] == ".";
      assert OccursAt(t, ".", i);
    }
    if Contains(t, ".") {
      var i :| 0 <= i <= |t| - 1 && OccursAt(t, ".", i);
      assert t[i] == t[i..i + 1][0];
    }
  }

  /** `clearDisplay`: a fresh display; the history stays. */
  function ClearDisplay(s: Panel): (r: Panel)
    ensures r == Initial().(history := s.history)
    ensures Bounded(s) ==> Bounded(r)
  {
    Panel("0", None, None, false, false, s.history)
  }

  /** `clearAll`: a fresh display and history; giving up is reported outside the two calculator phases. */
  function ClearAll(s: Panel, phase: AppPhase): (r: (Panel, bool))
    ensures r.0 == Initial()
    ensures r.1 <==> phase != CalculatorNormal && phase != CalculatorUnlockPrompt
  {
    (Initial(), phase != CalculatorNormal && phase != CalculatorUnlockPrompt)
  }

  /** Appending to the history keeps the newest five entries, newest last. */
  function Remember(h: seq<CalculatorHistoryEntry>, e: CalculatorHistoryEntry): (r: seq<CalculatorHistoryEntry>)
    ensures |r| == if |h| + 1 < HistorySize then |h| + 1 else HistorySize
    ensures r[|r| - 1] == e
    ensures r == (h + [e])[|h| + 1 - |r|..]
  {
    var all := h + [e];
    if |all| <= HistorySize then all else all[|all| - HistorySize..]
  }

  /** `performOperation` */
  function PerformOperation(s: Panel, nextOperator: string, phase: AppPhase, ops: FloatOps): (r: Panel)
    ensures r.waitingForOperand && !r.isMaxDigits && r.operator == Some(nextOperator)
    ensures s.previousValue.None? ==> r == s.(previousValue := Some(ops.normalize(s.displayValue)),
      waitingForOperand := true, operator := Some(nextOperator), isMaxDigits := false)
    ensures s.previousValue.Some? && s.operator.Some? && s.operator.value != "" ==>
      var result := ops.calculate(s.previousValue.value, s.displayValue, s.operator.value);
      r.displayValue == result && r.previousValue == Some(result) &&
      r.history == if phase == CalculatorNormal || phase == CalculatorUnlockPrompt then
        Remember(s.history, CalculatorHistoryEntry(
          ops.normalize(s.previousValue.value) + " " + s.operator.value + " " + ops.normalize(s.displayValue), result))
      else s.history
    ensures s.previousValue.Some? && (s.operator.None? || s.operator.value == "") ==>
      r == s.(waitingForOperand := true, operator := Some(nextOperator), isMaxDigits := false)
    ensures Bounded(s) ==> Bounded(r)
  {
    var inputValue := ops.normalize(s.displayValue);
    var t :=
      if s.previousValue.None? then s.(previousValue := Some(inputValue))
      else if s.operator.Some? && s.operator.value != "" then
        var prevValue := ops.normalize(s.previousValue.value);
        var result := ops.calculate(s.previousValue.value, s.displayValue, s.operator.value);
        var history :=
          if phase == CalculatorNormal || phase == CalculatorUnlockPrompt then
            Remember(s.history, CalculatorHistoryEntry(prevValue + " " + s.operator.value + " " + inputValue, result))
          else s.history;
        s.(displayValue := result, previousValue := Some(result), history := history)
      else s;
    t.(waitingForOperand := true, operator := Some(nextOperator), isMaxDigits := false)
  }

  /** `day < 10 ? "0" + day : String(day)` for a day of the month. */
  function TwoDigits(day: int): (r: string)
    requires 1 <= day <= 31
    ensures |r| == 2 && IsDigit(r[0]) && IsDigit(r[1])
    ensures (r[0] as int - '0' as int) * 10 + (r[1] as int - '0' as int) == day
  {
    var tens := ('0' as int + day / 10) as char;
    var units := ('0' as int + day % 10) as char;
    [tens, units]
  }

  /** The two codes that unlock on a given day. */
  predicate IsUnlockCode(display: string, day: int)
    requires 1 <= day <= 31
  {
    display == PiBase + TwoDigits(day) || display == EBase + TwoDigits(day)
  }

  /** `handleEquals`: the new state and what it reports. */
  function Equals(s: Panel, phase: AppPhase, problem: Option<MathProblem>, day: int, ops: FloatOps): (r: (Panel, Event))
    requires 1 <= day <= 31
    ensures r.1 != NoEvent ==> r.0 == ClearDisplay(s)
    ensures Bounded(s) ==> Bounded(r.0)
  {
    if (phase == CalculatorNormal || phase == CalculatorUnlockPrompt) && IsUnlockCode(s.displayValue, day) then
      (ClearDisplay(s), UnlockSuccess)
    else if phase == LlmChallengeSolve && problem.Some? then
      (ClearDisplay(s), if ops.equalsAnswer(s.displayValue, problem.value.answer) then ChallengeSolved else ChallengeFailed)
    else if s.operator.Some? && s.operator.value != "" && s.previousValue.Some? then
      (Evaluate(s, ops), NoEvent)
    else (s, NoEvent)
  }

  /** The pending operation completed by `=`, its result shown and remembered. */
  function Evaluate(s: Panel, ops: FloatOps): (r: Panel)
    requires s.operator.Some? && s.previousValue.Some?
    ensures Bounded(s) ==> Bounded(r)
  {
    var currentValue := ops.normalize(s.displayValue);
    var prevValue := ops.normalize(s.previousValue.value);
    var result := ops.calculate(s.previousValue.value, s.displayValue, s.operator.value);
    var shown := if result == InfinityText then DivByZero else result;
    var entry := CalculatorHistoryEntry(prevValue + " " + s.operator.value + " " + currentValue, shown);
    Panel(shown, None, None, true, |result| >= MaxDisplayDigits, Remember(s.history, entry))
  }

  /**
   * `=` unlocks exactly on the day's code in a calculator phase; with a
   * problem to solve it reports exactly one of solved and failed.
   */
  lemma EqualsEvents(s: Panel, phase: AppPhase, problem: Option<MathProblem>, day: int, ops: FloatOps)
    requires 1 <= day <= 31
    ensures var e := Equals(s, phase, problem, day, ops).1;
      (e == UnlockSuccess <==>
        (phase == CalculatorNormal || phase == CalculatorUnlockPrompt) && IsUnlockCode(s.displayValue, day)) &&
      (e == ChallengeSolved <==>
        phase == LlmChallengeSolve && problem.Some? && ops.equalsAnswer(s.displayValue, problem.value.answer)) &&
      (e == ChallengeFailed <==>
        phase == LlmChallengeSolve && problem.Some? && !ops.equalsAnswer(s.displayValue, problem.value.answer))
  {
  }

  /**
   * A pending operation is completed by `=`: the display shows the result
   * (division by zero as an error text), the newest history entry records
   * it, and the operand and operator are cleared.
   */
  lemma EqualsCalculates(s: Panel, phase: AppPhase, problem: Option<MathProblem>, day: int, ops: FloatOps)
    requires 1 <= day <= 31
    requires !((phase == CalculatorNormal || phase == CalculatorUnlockPrompt) && IsUnlockCode(s.displayValue, day))
    requires !(phase == LlmChallengeSolve && problem.Some?)
    requires s.operator.Some? && s.operator.value != "" && s.previousValue.Some?
    ensures var r := Equals(s, phase, problem, day, ops);
      var result := ops.calculate(s.previousValue.value, s.displayValue, s.operator.value);
      r.1 == NoEvent && r.0.previousValue.None? && r.0.operator.None? && r.0.waitingForOperand &&
      r.0.displayValue == (if result == InfinityText then DivByZero else result) &&
      r.0.isMaxDigits == (|result| >= MaxDisplayDigits) &&
      r.0.history ==
        Remember(s.history,
                 CalculatorHistoryEntry(ops.normalize(s.previousValue.value) + " " + s.operator.value + " " +
                                        ops.normalize(s.displayValue), r.0.displayValue))
  {
  }

  /** Without an unlock, a problem or a pending operation, `=` does nothing. */
  lemma EqualsIdle(s: Panel, phase: AppPhase, problem: Option<MathProblem>, day: int, ops: FloatOps)
    requires 1 <= day <= 31
    requires !((phase == CalculatorNormal || phase == CalculatorUnlockPrompt) && IsUnlockCode(s.displayValue, day))
    requires !(phase == LlmChallengeSolve && problem.Some?)
    requires !(s.operator.Some? && s.operator.value != "" && s.previousValue.Some?)
    ensures Equals(s, phase, problem, day, ops) == (s, NoEvent)
  {
  }

  /** The phase effect: entering a calculator phase clears the display. */
  function OnPhaseChange(s: Panel, phase: AppPhase): (r: Panel)
    ensures phase == CalculatorNormal || phase == CalculatorUnlockPrompt ==> r == ClearDisplay(s)
    ensures !(phase == CalculatorNormal || phase == CalculatorUnlockPrompt) ==> r == s
  {
    if phase == CalculatorNormal || phase == CalculatorUnlockPrompt then ClearDisplay(s) else s
  }

  /** Every button is disabled while the challenge is being prepared and at the unlock prompt. */
  function ButtonsEnabled(phase: AppPhase): (r: bool)
    ensures !r <==> phase == LlmChallengePrompt || phase == CalculatorUnlockPrompt
  {
    !(phase == LlmChallengePrompt || phase == CalculatorUnlockPrompt)
  }

  /**
   * What a live `=` button can report: an unlock only from the ordinary
   * keypad, a verdict only while a problem is up. The unlock branch kept for
   * the unlock prompt lies behind disabled buttons.
   */
  lemma EnabledEquals(s: Panel, phase: AppPhase, problem: Option<MathProblem>, day: int, ops: FloatOps)
    requires 1 <= day <= 31
    requires ButtonsEnabled(phase)
    ensures var e := Equals(s, phase, problem, day, ops).1;
      (e == UnlockSuccess <==> phase == CalculatorNormal && IsUnlockCode(s.displayValue, day)) &&
      (e == ChallengeSolved || e == ChallengeFailed <==> phase == LlmChallengeSolve && problem.Some?)
  {
    EqualsEvents(s, phase, problem, day, ops);
  }

  // ---------------------------------------------------------------------
  // Typing
  // ---------------------------------------------------------------------

  datatype Key = DigitKey(digit: char) | PointKey

  function Press(s: Panel, k: Key): Panel {
    match k
    case DigitKey(d) => InputDigit(s, d)
    case PointKey => InputDecimal(s)
  }

  /** The state after a sequence of digit and point keys. */
  function TypeKeys(s: Panel, ks: seq<Key>): Panel
    decreases |ks|
  {
    if ks == [] then s else TypeKeys(Press(s, ks[0]), ks[1..])
  }

  /** The keys that spell a text of digits and points. */
  function KeysOf(text: string): (ks: seq<Key>)
    ensures |ks| == |text|
  {
    if text == [] then [] else [if text[0] == '.' then PointKey else DigitKey(text[0])] + KeysOf(text[1..])
  }

  /** Typing digits onto a display being edited appends them while the total stays under the limit. */
  lemma {:induction false} DigitsAppend(s: Panel, digits: string)
    requires !s.waitingForOperand && !s.isMaxDigits && |s.displayValue| >= 2
    requires forall i :: 0 <= i < |digits| ==> IsDigit(digits[i])
    requires |s.displayValue| + |digits| < MaxDisplayDigits
    ensures TypeKeys(s, KeysOf(digits)) ==
            s.(displayValue := s.displayValue + digits)
    decreases |digits|
  {
    if digits == [] {
      assert s.displayValue + digits == s.displayValue;
    } else {
      var t := InputDigit(s, digits[0]);
      assert KeysOf(digits)[0] == DigitKey(digits[0]) && KeysOf(digits)[1..] == KeysOf(digits[1..]);
      assert t == s.(displayValue := s.displayValue + [digits[0]]);
      DigitsAppend(t, digits[1..]);
      assert (s.displayValue + [digits[0]]) + digits[1..] == s.displayValue + digits;
    }
  }

  /** An unlock code is a digit, a point and twelve more digits. */
  lemma CodeShape(base: string, day: int)
    requires base == PiBase || base == EBase
    requires 1 <= day <= 31
    ensures var code := base + TwoDigits(day);
      |code| == 14 && IsDigit(code[0]) && code[1] == '.' && forall i :: 2 <= i < |code| ==> IsDigit(code[i])
  {
    var code := base + TwoDigits(day);
    assert forall i :: 2 <= i < 12 ==> IsDigit(base[i]);
    assert forall i :: 12 <= i < 14 ==> code[i] == TwoDigits(day)[i - 12];
  }

  /** Typing an unlock code on a cleared keypad shows that code. */
  lemma TypeCode(s: Panel, base: string, day: int)
    requires base == PiBase || base == EBase
    requires 1 <= day <= 31
    requires s == ClearDisplay(s)
    ensures TypeKeys(s, KeysOf(base + TwoDigits(day))).displayValue == base + TwoDigits(day)
  {
    var code := base + TwoDigits(day);
    var rest := code[2..];
    CodeShape(base, day);
    assert code[0] != '.' && code[1] == '.';
    var two := InputDecimal(InputDigit(s, code[0]));
    assert two.displayValue == [code[0], '.'];
    assert forall i :: 0 <= i < |rest| ==> rest[i] == code[i + 2];
    DigitsAppend(two, rest);
    assert [code[0], '.'] + rest == code;
    TypeDigitPoint(s, code);
  }

  /** Typing a digit and a point, then the rest of the text. */
  lemma TypeDigitPoint(s: Panel, code: string)
    requires |code| >= 2 && code[0] != '.' && code[1] == '.'
    ensures TypeKeys(s, KeysOf(code)) == TypeKeys(InputDecimal(InputDigit(s, code[0])), KeysOf(code[2..]))
  {
    var ks := KeysOf(code);
    assert ks[1..] == KeysOf(code[1..]);
    assert code[1..][1..] == code[2..];
    assert ks[0] == DigitKey(code[0]) && ks[1..][0] == PointKey && ks[1..][1..] == KeysOf(code[2..]);
  }

  /**
   * Either unlock code of any day can be typed on a cleared keypad: the
   * 14 characters stay under the 15-character limit, and `=` then unlocks.
   */
  lemma UnlockCodeCanBeTyped(s: Panel, useE: bool, day: int, ops: FloatOps)
    requires 1 <= day <= 31
    requires s == ClearDisplay(s)
    ensures var code := (if useE then EBase else PiBase) + TwoDigits(day);
      |code| == 14 &&
      TypeKeys(s, KeysOf(code)).displayValue == code &&
      Equals(TypeKeys(s, KeysOf(code)), CalculatorNormal, None, day, ops).1 == UnlockSuccess
  {
    var base := if useE then EBase else PiBase;
    TypeCode(s, base, day);
    assert IsUnlockCode(TypeKeys(s, KeysOf(base + TwoDigits(day))).displayValue, day);
  }

  /**
   * After a result, the first digit replaces the display but the max-digits
   * flag is computed from the old display: a result of 14 or more characters
   * leaves the new one-digit display locked against further digits.
   */
  lemma DigitAfterLongResultLocks(s: Panel, d: char, e: char)
    requires s.waitingForOperand && |s.displayValue| + 1 >= MaxDisplayDigits
    ensures InputDigit(s, d).displayValue == [d] && InputDigit(s, d).isMaxDigits
    ensures InputDigit(InputDigit(s, d), e) == InputDigit(s, d)
  {
  }

  // ---------------------------------------------------------------------
  // The Calculator component's state
  // ---------------------------------------------------------------------

  class Calculator {
    var displayValue: string
    var previousValue: Option<string>
    var operator: Option<string>
    var waitingForOperand: bool
    var isMaxDigits: bool
    var history: seq<CalculatorHistoryEntry>

    function State(): Panel
      reads this
    {
      Panel(displayValue, previousValue, operator, waitingForOperand, isMaxDigits, history)
    }

    constructor ()
      ensures State() == Initial()
    {
      displayValue := "0";
      previousValue := None;
      operator := None;
      waitingForOperand := false;
      isMaxDigits := false;
      history := [];
    }

    method InputDigitKey(digit: char)
      modifies this
      ensures State() == InputDigit(old(State()), digit)
    {
      if isMaxDigits && !waitingForOperand {
        return;
      }
      var before := displayValue;
      if waitingForOperand {
        displayValue := [digit];
        waitingForOperand := false;
      } else {
        displayValue := if displayValue == "0" then [digit] else displayValue + [digit];
      }
      if |before + [digit]| >= MaxDisplayDigits {
        isMaxDigits := true;
      } else {
        isMaxDigits := false;
      }
    }

    method InputDecimalKey()
      modifies this
      ensures State() == InputDecimal(old(State()))
    {
      if isMaxDigits && !waitingForOperand {
        return;
      }
      if waitingForOperand {
        displayValue := "0.";
        waitingForOperand := false;
        return;
      }
      var before := displayValue;
      if !Contains(displayValue, ".") {
        displayValue := displayValue + ".";
      }
      if |before + "."| >= MaxDisplayDigits {
        isMaxDigits := true;
      } else {
        isMaxDigits := false;
      }
    }

    method Clear()
      modifies this
      ensures State() == ClearDisplay(old(State()))
    {
      displayValue := "0";
      previousValue := None;
      operator := None;
      waitingForOperand := false;
      isMaxDigits := false;
    }

    /** `clearAll`; returns whether `onLlmChallengeFailed` ran. */
    method AllClear(phase: AppPhase) returns (failed: bool)
      modifies this
      ensures (State(), failed) == ClearAll(old(State()), phase)
    {
      Clear();
      history := [];
      failed := phase != CalculatorNormal && phase != CalculatorUnlockPrompt;
    }

    method Operate(nextOperator: string, phase: AppPhase, ops: FloatOps)
      modifies this
      ensures State() == PerformOperation(old(State()), nextOperator, phase, ops)
    {
      var inputValue := ops.normalize(displayValue);
      if previousValue.None? {
        previousValue := Some(inputValue);
      } else if operator.Some? && operator.value != "" {
        var prevValue := ops.normalize(previousValue.value);
        var result := ops.calculate(previousValue.value, displayValue, operator.value);
        displayValue := result;
        previousValue := Some(result);
        if phase == CalculatorNormal || phase == CalculatorUnlockPrompt {
          history := Remember(history, CalculatorHistoryEntry(prevValue + " " + operator.value + " " + inputValue, result));
        }
      }
      waitingForOperand := true;
      operator := Some(nextOperator);
      isMaxDigits := false;
    }

    /** `handleEquals`; returns which callback ran. */
    method HandleEquals(phase: AppPhase, problem: Option<MathProblem>, day: int, ops: FloatOps) returns (event: Event)
      requires 1 <= day <= 31
      modifies this
      ensures State() == Equals(old(State()), phase, problem, day, ops).0
      ensures event == Equals(old(State()), phase, problem, day, ops).1
    {
      var unlock := (phase == CalculatorNormal || phase == CalculatorUnlockPrompt) && IsUnlockCode(displayValue, day);
      if unlock {
        event := UnlockSuccess;
        Clear();
      } else if phase == LlmChallengeSolve && problem.Some? {
        if ops.equalsAnswer(displayValue, problem.value.answer) {
          event := ChallengeSolved;
        } else {
          event := ChallengeFailed;
        }
        Clear();
      } else if operator.Some? && operator.value != "" && previousValue.Some? {
        event := NoEvent;
        EvaluatePending(ops);
      } else {
        event := NoEvent;
      }
    }

    /** The computing part of `handleEquals`. */
    method EvaluatePending(ops: FloatOps)
      requires operator.Some? && previousValue.Some?
      modifies this
      ensures State() == Evaluate(old(State()), ops)
    {
      var currentValue := ops.normalize(displayValue);
      var prevValue := ops.normalize(previousValue.value);
      var result := ops.calculate(previousValue.value, displayValue, operator.value);
      var resultStr := if result == InfinityText then DivByZero else result;
      var entry := CalculatorHistoryEntry(prevValue + " " + operator.value + " " + currentValue, resultStr);
      var newHistory := Remember(history, entry);
      var longResult := |result| >= MaxDisplayDigits;
      assert Evaluate(State(), ops) == Panel(resultStr, None, None, true, longResult, newHistory);
      displayValue := resultStr;
      history := newHistory;
      previousValue := None;
      operator := None;
      waitingForOperand := true;
      isMaxDigits := longResult;
    }

    /** The phase effect. */
    method PhaseChanged(phase: AppPhase)
      modifies this
      ensures State() == OnPhaseChange(old(State()), phase)
    {
      if phase == CalculatorNormal || phase == CalculatorUnlockPrompt {
        Clear();
      }
    }
  }
}
