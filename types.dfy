/** Value types shared by the front-end components (src/types.ts). */
module Types {

  datatype Option<+T> = None | Some(value: T)

  /** The five screens of the application, in the order they are reached. */
  datatype AppPhase =
    | CalculatorNormal
    | CalculatorUnlockPrompt
    | LlmChallengePrompt
    | LlmChallengeSolve
    | ShellActive

  /** One line of the calculator's history panel. */
  datatype CalculatorHistoryEntry = CalculatorHistoryEntry(expression: string, result: string)

  /** The four tags a shell entry can carry. */
  datatype EntryType = Command | Response | Error | System

  /** One entry of the shell's history; `id` and `timestamp` come from the clock. */
  datatype ShellEntry = ShellEntry(id: string, entryType: EntryType, text: string, timestamp: string)

  /** A challenge: the question shown to the user and its numeric answer. */
  datatype MathProblem = MathProblem(question: string, answer: real)
}
