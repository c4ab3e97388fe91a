/**
 * The session coordinator: the application's phase, the challenge problem,
 * the header message, and the three values it passes between the shell and
 * the terminal (the transcript, the ready flag and the pending command).
 *
 * The 500 ms, 1000 ms, 1500 ms and 2000 ms delays are collapsed: each
 * handler below ends in the state the source reaches once its timers have
 * run. The enigma request is not modelled; `FetchLlmEnigma` receives how it
 * ended, and `JSON.parse` is the parameter `parse`.
 */
module Session {
  import opened Types
  import opened JsString
  import opened JsonText
  import Serial

  const GeneratingMessage: string := "G\U{E9}n\U{E9}ration du challenge IA..."
  const UnlockedMessage: string := "CODE PI/EULER ACCEPT\U{C9}. INITIATION DU CHALLENGE IA..."
  const FallbackNotice: string := "\U{C9}chec de la g\U{E9}n\U{E9}ration du challenge IA. Utilisation d'un challenge standard."
  const ChallengePrefix: string := "CHALLENGE: R\U{E9}solvez "
  const LoadingQuestion: string := "Chargement..."
  const DefaultPrompt: string := "Entrez un calcul ou la s\U{E9}quence de d\U{E9}verrouillage (PI.JJ ou E.JJ)"
  const WaitingHeader: string := "En attente d'entr\U{E9}e..."
  const EnigmaErrorPrefix: string := "Erreur de g\U{E9}n\U{E9}ration du challenge IA: "
  const EnigmaErrorSuffix: string := ". Retour au challenge standard."
  const NoContentError: string := "Le LLM n'a pas retourn\U{E9} de contenu pour l'\U{E9}nigme."
  const FormatError: string :=
    "La r\U{E9}ponse du LLM pour l'\U{E9}nigme n'est pas au format attendu " +
    "(JSON avec 'question' (string) et 'answer' (number))."
  /** The message of the TypeError the engine throws when reading a property of `null`. */
  const NullPropertyError: string := "Cannot read properties of null (reading 'question')"

  // ---------------------------------------------------------------------
  // The fallback problem
  // ---------------------------------------------------------------------

  function DigitChar(n: int): (c: char)
    requires 0 <= n <= 9
    ensures '0' <= c <= '9' && c as int - '0' as int == n
  {
    ('0' as int + n) as char
  }

  /** The three operators, indexed by the random draw. */
  const Operations: seq<char> := ['+', '-', '*']

  /**
   * `generateFallbackMathProblem`, with the two random operands (1 to 9) and
   * the random operator index (0 to 2) as parameters.
   */
  function FallbackProblem(num1: int, num2: int, opIndex: nat): (p: MathProblem)
    requires 1 <= num1 <= 9 && 1 <= num2 <= 9 && opIndex < |Operations|
    ensures |p.question| == 5 && p.question[1] == ' ' && p.question[2] == Operations[opIndex] && p.question[3] == ' '
    ensures opIndex == 0 ==> p.answer == (num1 + num2) as real
    ensures opIndex == 2 ==> p.answer == (num1 * num2) as real
    ensures opIndex == 1 ==> p.answer == (if num1 < num2 then num2 - num1 else num1 - num2) as real
    ensures opIndex != 1 ==> p.question[0] == DigitChar(num1) && p.question[4] == DigitChar(num2)
    ensures opIndex == 1 ==>
      p.question[0] == DigitChar(if num1 < num2 then num2 else num1) &&
      p.question[4] == DigitChar(if num1 < num2 then num1 else num2)
  {
    var operation := Operations[opIndex];
    if operation == '-' && num1 < num2 then
      MathProblem([DigitChar(num2), ' ', operation, ' ', DigitChar(num1)], (num2 - num1) as real)
    else
      var answer := if operation == '+' then num1 + num2 else if operation == '-' then num1 - num2 else num1 * num2;
      MathProblem([DigitChar(num1), ' ', operation, ' ', DigitChar(num2)], answer as real)
  }

  /** The value of a question of the form "d op d", read independently of how it was generated. */
  function EvalQuestion(q: string): (r: Option<real>)
    ensures r.Some? ==> |q| == 5 && q[2] in Operations
  {
    if |q| == 5 && '0' <= q[0] <= '9' && q[1] == ' ' && q[3] == ' ' && '0' <= q[4] <= '9' then
      var a := q[0] as int - '0' as int;
      var b := q[4] as int - '0' as int;
      if q[2] == '+' then Some((a + b) as real)
      else if q[2] == '-' then Some((a - b) as real)
      else if q[2] == '*' then Some((a * b) as real)
      else None
    else None
  }

  /**
   * The fallback question and answer agree, and the answer is never
   * negative: subtraction puts the larger operand first.
   */
  lemma FallbackIsConsistent(num1: int, num2: int, opIndex: nat)
    requires 1 <= num1 <= 9 && 1 <= num2 <= 9 && opIndex < |Operations|
    ensures EvalQuestion(FallbackProblem(num1, num2, opIndex).question) == Some(FallbackProblem(num1, num2, opIndex).answer)
    ensures FallbackProblem(num1, num2, opIndex).answer >= 0.0
  {
    var p := FallbackProblem(num1, num2, opIndex);
    if opIndex == 0 {
      assert p.question == [DigitChar(num1), ' ', '+', ' ', DigitChar(num2)];
      assert EvalQuestion(p.question) == Some((num1 + num2) as real);
    } else if opIndex == 1 {
      var big := if num1 < num2 then num2 else num1;
      var small := if num1 < num2 then num1 else num2;
      assert p.question == [DigitChar(big), ' ', '-', ' ', DigitChar(small)];
      assert EvalQuestion(p.question) == Some((big - small) as real);
    } else {
      assert p.question == [DigitChar(num1), ' ', '*', ' ', DigitChar(num2)];
      assert EvalQuestion(p.question) == Some((num1 * num2) as real);
    }
  }

  // ---------------------------------------------------------------------
  // Accepting the enigma reply
  // ---------------------------------------------------------------------

  /** How the enigma request ended: a reply content (possibly missing), an abort, or another error. */
  datatype EnigmaOutcome = EnigmaReply(content: Option<string>) | EnigmaAborted | EnigmaFailed(message: string)

  /** The problem read from a reply, or the message of the error it throws. */
  datatype Acceptance = Accepted(problem: MathProblem) | Rejected(error: string)

  /**
   * The validation in `fetchLlmEnigma`: a content must be present, the
   * extracted JSON must parse, and it must have a string `question` and a
   * number `answer`.
   */
  function ReadEnigma(content: Option<string>, parse: string -> ParseResult): (r: Acceptance)
    ensures r.Accepted? <==>
      content.Some? && content.value != "" &&
      var v := parse(MatchReply(content.value));
      v.Parsed? && Get(v.value, "question").Found? && Get(v.value, "question").value.JString? &&
      Get(v.value, "answer").Found? && Get(v.value, "answer").value.JNumber?
    ensures r.Accepted? ==>
      var v := parse(MatchReply(content.value)).value;
      Get(v, "question") == Found(JString(r.problem.question)) && Get(v, "answer") == Found(JNumber(r.problem.answer))
    ensures content.None? || content.value == "" ==> r == Rejected(NoContentError)
  {
    if content.None? || content.value == "" then Rejected(NoContentError)
    else
      match parse(MatchReply(content.value))
      case SyntaxError(message) => Rejected(message)
      case Parsed(v) =>
        if v == JNull then Rejected(NullPropertyError)
        else
          match (Get(v, "question"), Get(v, "answer"))
          case (Found(JString(q)), Found(JNumber(n))) => Accepted(MathProblem(q, n))
          case _ => Rejected(FormatError)
  }

  /** The header message `fetchLlmEnigma` leaves after a failure: timeouts are told apart. */
  function EnigmaErrorMessage(outcome: EnigmaOutcome, parse: string -> ParseResult): (m: Option<string>)
    ensures m.None? <==> outcome.EnigmaReply? && ReadEnigma(outcome.content, parse).Accepted?
    ensures outcome.EnigmaAborted? ==> m == Some(EnigmaErrorPrefix + "Timeout" + EnigmaErrorSuffix)
    ensures outcome.EnigmaFailed? ==> m == Some(EnigmaErrorPrefix + outcome.message + EnigmaErrorSuffix)
  {
    match outcome
    case EnigmaAborted => Some(EnigmaErrorPrefix + "Timeout" + EnigmaErrorSuffix)
    case EnigmaFailed(message) => Some(EnigmaErrorPrefix + message + EnigmaErrorSuffix)
    case EnigmaReply(content) =>
      match ReadEnigma(content, parse)
      case Accepted(_) => None
      case Rejected(error) => Some(EnigmaErrorPrefix + error + EnigmaErrorSuffix)
  }

  /** A well-formed enigma object inside a ```json fence is accepted as it stands. */
  lemma FencedEnigmaAccepted(prefix: string, json: string, suffix: string, question: string, answer: real,
                             parse: string -> ParseResult)
    requires forall j :: 0 <= j < |prefix| ==> prefix[j] != '{' && prefix[j] != '`'
    requires |json| > 0 && json[0] == '{' && json[|json| - 1] == '}'
    requires !Contains(json, FenceClose)
    requires parse(json) == Parsed(JObject(map["question" := JString(question), "answer" := JNumber(answer)]))
    ensures ReadEnigma(Some(prefix + FenceOpen + json + FenceClose + suffix), parse) ==
            Accepted(MathProblem(question, answer))
  {
    FencedJsonExtracts(prefix, json, suffix);
  }

  /** An answer given as a string (say "42") is refused: `typeof` must be number. */
  lemma QuotedAnswerRejected(text: string, question: string, answer: string, parse: string -> ParseResult)
    requires text != ""
    requires parse(MatchReply(text)) == Parsed(JObject(map["question" := JString(question), "answer" := JString(answer)]))
    ensures ReadEnigma(Some(text), parse) == Rejected(FormatError)
  {
  }

  // ---------------------------------------------------------------------
  // What is on screen
  // ---------------------------------------------------------------------

  datatype Views = Views(header: Option<string>, calculator: bool, shell: bool, terminal: bool)

  /** The calculator and the header line are shown until the shell is active; shell and terminal only then. */
  function Render(phase: AppPhase, accessMessage: Option<string>): (v: Views)
    ensures v.calculator <==> phase != ShellActive
    ensures v.shell <==> phase == ShellActive
    ensures v.terminal <==> phase == ShellActive
    ensures v.header.Some? <==> phase != ShellActive
    ensures v.header.Some? && accessMessage.Some? && accessMessage.value != "" ==> v.header.value == accessMessage.value
    ensures v.header.Some? && (accessMessage.None? || accessMessage.value == "") ==> v.header.value == WaitingHeader
  {
    var text := if accessMessage.Some? && accessMessage.value != "" then accessMessage.value else WaitingHeader;
    Views(if phase != ShellActive then Some(text) else None, phase != ShellActive,
          phase == ShellActive, phase == ShellActive)
  }

  /**
   * Exactly one of the two screens is up in every phase: the keypad with its
   * header line, or the shell beside the terminal.
   */
  lemma OneScreenAtATime(phase: AppPhase, accessMessage: Option<string>)
    ensures var v := Render(phase, accessMessage);
      (v.calculator != v.shell) && v.terminal == v.shell && (v.header.Some? <==> v.calculator)
    ensures var v := Render(phase, accessMessage);
      v.header.Some? ==> v.header.value != ""
  {
    assert WaitingHeader[0] == 'E';
  }

  // ---------------------------------------------------------------------
  // The App component's state
  // ---------------------------------------------------------------------

  class App {
    var appPhase: AppPhase
    var currentMathProblem: Option<MathProblem>
    var accessMessage: Option<string>
    var isLoadingEnigma: bool
    var commandForEnigmaOS: Option<string>
    var enigmaOSOutputHistory: string
    var isEnigmaOSReady: bool

    /** The challenge can only be solved against a problem. */
    predicate Valid()
      reads this
    {
      appPhase == LlmChallengeSolve ==> currentMathProblem.Some?
    }

    constructor ()
      ensures Valid()
      ensures appPhase == CalculatorNormal && currentMathProblem.None? && accessMessage.None?
      ensures !isLoadingEnigma && commandForEnigmaOS.None? && enigmaOSOutputHistory == "" && !isEnigmaOSReady
    {
      appPhase := CalculatorNormal;
      currentMathProblem := None;
      accessMessage := None;
      isLoadingEnigma := false;
      commandForEnigmaOS := None;
      enigmaOSOutputHistory := "";
      isEnigmaOSReady := false;
    }

    /** `handleEmulatorReady`: the flag is only ever set. */
    method HandleEmulatorReady()
      modifies this`isEnigmaOSReady
      ensures isEnigmaOSReady
    {
      isEnigmaOSReady := true;
    }

    /** `handleEnigmaOSOutput`: the transcript only grows, at its end. */
    method HandleEnigmaOSOutput(outputChunk: string)
      modifies this`enigmaOSOutputHistory
      ensures enigmaOSOutputHistory == old(enigmaOSOutputHistory) + outputChunk
      ensures StartsWith(enigmaOSOutputHistory, old(enigmaOSOutputHistory))
    {
      enigmaOSOutputHistory := enigmaOSOutputHistory + outputChunk;
    }

    /** `handleSetCommandForEnigmaOS`: the slot holds the latest command, delivered or not. */
    method HandleSetCommand(command: string)
      modifies this`commandForEnigmaOS
      ensures commandForEnigmaOS == Some(command)
    {
      commandForEnigmaOS := Some(command);
    }

    /** `handleCommandSentToOS`: the slot is emptied. */
    method HandleCommandSent()
      modifies this`commandForEnigmaOS
      ensures commandForEnigmaOS.None?
    {
      commandForEnigmaOS := None;
    }

    /**
     * The terminal's command effect with this component's callbacks: the
     * pending command is sent when the emulator can take it, and the slot is
     * emptied exactly then.
     */
    method DeliverCommand(terminal: Serial.EnigmaOSTerminal)
      modifies this`commandForEnigmaOS, terminal`serialInput
      ensures var d := Serial.Gateway(old(commandForEnigmaOS), terminal.emulator);
        terminal.serialInput == old(terminal.serialInput) + (if d.sent.Some? then [d.sent.value] else []) &&
        commandForEnigmaOS == (if d.commandSent then None else old(commandForEnigmaOS))
    {
      var sent := terminal.RunCommand(commandForEnigmaOS);
      if sent {
        HandleCommandSent();
      }
    }

    /**
     * One byte from the emulator's serial port, through the terminal's
     * listener and this component's callbacks: what the listener emits is
     * appended to the transcript, and readiness is recorded.
     */
    method ReceiveSerialByte(terminal: Serial.EnigmaOSTerminal, b: Serial.byte)
      modifies this`enigmaOSOutputHistory, this`isEnigmaOSReady, terminal`lineBuffer, terminal`readyNotified
      ensures var r := Serial.Step(old(terminal.State()), b, terminal.emulator.Some?);
        terminal.State() == r.next &&
        enigmaOSOutputHistory == old(enigmaOSOutputHistory) + Serial.Texts(Serial.Calls(r)) &&
        isEnigmaOSReady == (old(isEnigmaOSReady) || r.readyFired)
    {
      var outputs, ready := terminal.OnSerialByte(b);
      if |outputs| == 1 {
        HandleEnigmaOSOutput(outputs[0]);
      }
      if ready {
        HandleEmulatorReady();
      }
      ghost var r := Serial.Step(old(terminal.State()), b, terminal.emulator.Some?);
      assert Serial.Calls(r) == [] ==> Serial.Texts(Serial.Calls(r)) == "";
      assert |Serial.Calls(r)| == 1 ==> Serial.Texts(Serial.Calls(r)) == Serial.Calls(r)[0].text + "";
    }

    /** The synchronous part of `handleUnlockSuccess` and of the enigma request it starts. */
    method HandleUnlockSuccess()
      modifies this`accessMessage, this`appPhase, this`isLoadingEnigma
      ensures Valid()
      ensures appPhase == LlmChallengePrompt && isLoadingEnigma && accessMessage == Some(GeneratingMessage)
      ensures Render(appPhase, accessMessage).calculator &&
              Render(appPhase, accessMessage).header == Some(GeneratingMessage)
    {
      accessMessage := Some(UnlockedMessage);
      appPhase := LlmChallengePrompt;
      isLoadingEnigma := true;
      accessMessage := Some(GeneratingMessage);
    }

    /** The end of `fetchLlmEnigma`: the problem, or nothing with an error message. */
    method FetchLlmEnigma(outcome: EnigmaOutcome, parse: string -> ParseResult) returns (problem: Option<MathProblem>)
      modifies this`accessMessage, this`isLoadingEnigma
      ensures !isLoadingEnigma
      ensures problem.Some? <==> outcome.EnigmaReply? && ReadEnigma(outcome.content, parse).Accepted?
      ensures problem.Some? ==> problem.value == ReadEnigma(outcome.content, parse).problem
      ensures problem.Some? ==> accessMessage == old(accessMessage)
      ensures problem.None? ==> accessMessage == EnigmaErrorMessage(outcome, parse)
    {
      problem := None;
      match outcome {
        case EnigmaAborted =>
          accessMessage := Some(EnigmaErrorPrefix + "Timeout" + EnigmaErrorSuffix);
        case EnigmaFailed(message) =>
          accessMessage := Some(EnigmaErrorPrefix + message + EnigmaErrorSuffix);
        case EnigmaReply(content) =>
          var read := ReadEnigma(content, parse);
          match read {
            case Accepted(p) => problem := Some(p);
            case Rejected(error) => accessMessage := Some(EnigmaErrorPrefix + error + EnigmaErrorSuffix);
          }
      }
      isLoadingEnigma := false;
    }

    /**
     * The rest of `handleUnlockSuccess`: the fetched problem, or the fallback
     * drawn from the random operands, becomes the challenge to solve.
     */
    method StartChallenge(fetched: Option<MathProblem>, num1: int, num2: int, opIndex: nat)
      requires 1 <= num1 <= 9 && 1 <= num2 <= 9 && opIndex < |Operations|
      modifies this`accessMessage, this`appPhase, this`currentMathProblem
      ensures Valid()
      ensures appPhase == LlmChallengeSolve
      ensures currentMathProblem == Some(if fetched.Some? then fetched.value else FallbackProblem(num1, num2, opIndex))
      ensures var q := currentMathProblem.value.question;
        accessMessage == Some(ChallengePrefix + (if q == "" then LoadingQuestion else q))
      ensures Render(appPhase, accessMessage).calculator && Render(appPhase, accessMessage).header == accessMessage
    {
      var problem := fetched;
      if problem.None? {
        accessMessage := Some(FallbackNotice);
        problem := Some(FallbackProblem(num1, num2, opIndex));
      }
      currentMathProblem := problem;
      var question := problem.value.question;
      accessMessage := Some(ChallengePrefix + (if question == "" then LoadingQuestion else question));
      appPhase := LlmChallengeSolve;
    }

    /** `handleLlmChallengeSolved`: the shell opens. */
    method HandleLlmChallengeSolved()
      modifies this`accessMessage, this`appPhase
      ensures Valid()
      ensures appPhase == ShellActive && accessMessage.None?
      ensures Render(appPhase, accessMessage).shell && !Render(appPhase, accessMessage).calculator
    {
      accessMessage := Some("CHALLENGE R\U{C9}USSI. ACC\U{C8}S \U{C0} ENIGMA SHELL & OS...");
      appPhase := ShellActive;
      accessMessage := None;
    }

    /** `handleLlmChallengeFailed`: back to the calculator, the problem dropped. */
    method HandleLlmChallengeFailed()
      modifies this`accessMessage, this`appPhase, this`currentMathProblem
      ensures Valid()
      ensures appPhase == CalculatorNormal && currentMathProblem.None? && accessMessage.None?
      ensures Render(appPhase, accessMessage) == Views(Some(WaitingHeader), true, false, false)
    {
      accessMessage := Some("CHALLENGE \U{C9}CHOU\U{C9}. RETOUR \U{C0} LA CALCULATRICE.");
      currentMathProblem := None;
      appPhase := CalculatorNormal;
      accessMessage := None;
    }

    /** The default-prompt effect: only on the plain calculator, with no message and nothing loading. */
    method DefaultPromptEffect()
      modifies this`accessMessage
      ensures var fires := appPhase == CalculatorNormal && (old(accessMessage).None? || old(accessMessage).value == "") &&
                           !isLoadingEnigma;
        accessMessage == if fires then Some(DefaultPrompt) else old(accessMessage)
    {
      if appPhase == CalculatorNormal && (accessMessage.None? || accessMessage.value == "") && !isLoadingEnigma {
        accessMessage := Some(DefaultPrompt);
      }
    }
  }
}
