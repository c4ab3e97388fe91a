# Enigma Shell front-end, modelled in Dafny

Enigma Shell is a browser front-end with three stages. A calculator keypad
unlocks when the user types the day's code: the first digits of pi or of e,
then the two-digit day of the month. The user then solves a challenge that
a local language model generates, with a built-in arithmetic problem as the
fallback. After that the application opens a chat shell. In the shell a
language model reads the output of an emulated Alpine Linux console
("enigma-os") and may answer with a JSON object that asks the front-end to
type a command into that console.

This project models the sequential logic of the four components that make
up that core:

- `terminal.dfy` (module `Serial`, from `src/components/EnigmaOSTerminal.tsx`):
  - the serial listener, which assembles output bytes into lines, detects
    the login prompt and force-flushes the prompt line;
  - the command gateway, which sends a pending command to the console.

  The listener is specified by a step function `Step` on a `Listener`
  value, and `Run` folds it over a byte stream. The class `EnigmaOSTerminal`
  holds the same state as the source's closure and is proved against
  `Step` one byte at a time.
- `shell.dfy` (module `Conversation`, from `src/components/Shell.tsx`):
  - the request a command becomes: the system instruction with the last
    2000 transcript characters, then up to six eligible history entries,
    then the command;
  - how a reply becomes a history entry and perhaps a forwarded command;
  - the one-shot login self-trigger, the status line and the submit guard.

  The class `Shell` holds `input`, `history`, `isLoading` and
  `initialOsInteractionDone`.
- `app.dfy` (module `Session`, from `src/App.tsx`):
  - the session coordinator: the application phase, the challenge problem,
    the header message, the transcript, the ready flag and the one-slot
    command mailbox between shell and terminal;
  - the built-in fallback problem;
  - the acceptance of the generated enigma.
- `calculator.dfy` (module `Keypad`, from `src/components/Calculator.tsx`):
  the keypad as a string-level state machine with the 15-character limit,
  the five-entry history, the unlock code and the judging of the challenge
  answer. The class `Calculator` is proved against the functions on a
  `Panel` value.

Supporting modules:

- `types.dfy` (module `Types`) mirrors `src/types.ts`.
- `jsstring.dfy` (module `JsString`) models the JavaScript string operations
  the components use: `trim`, `toLowerCase`, `includes`, `startsWith`,
  `endsWith` and `slice(-n)`.
- `jsontext.dfy` (module `JsonText`) models the regular expression that both
  the shell and the enigma fetch use to find JSON in a reply. It uses
  leftmost-first search: at each start position the fenced alternative is
  tried first, with the shortest body, then the brace alternative, which is
  greedy up to the last `}`. The module also models the values `JSON.parse`
  yields and the JavaScript property reads on them.

Some behaviours of the code that a reader might not expect:

- The reply extraction does not prefer a fenced block. The leftmost match
  wins, so a `{` before the fence captures everything up to the last `}`
  (`JsonText.EarlierBraceBeatsFence`).
- A reply that is not a command is shown as the extracted substring when the
  expression matched, not as the whole raw reply (`Conversation.Complete`,
  `Conversation.ShownTextComesFromReply`).
- The context filter excludes the prefix `LLM (vers enigma-os):`. The entry
  the shell writes for a forwarded command starts with `LLM -> enigma-os: `,
  so forwarded-command entries do reach the context, as assistant messages
  (`Conversation.ForwardedEntryInContext`).
- The listener force-flushes a line only when the trimmed, lower-cased line
  ends with `login:`; containment alone is not enough. The flush does not
  clear the buffer, so the next newline sends the prompt line again
  (`Serial.StepForcedFlush`, `Serial.NextLineRepeatsBuffer`). Readiness
  also needs the emulator reference to be set.

## Model

| member | source | states |
|---|---|---|
| JsString.Trim | src/components/Shell.tsx:62 | the trimmed command has no white space at either end |
| JsString.TrimIsInner | src/components/Shell.tsx:62 | trimming removes only a run of leading and a run of trailing white space; the result is the part of the input between them |
| JsString.Lower | src/components/EnigmaOSTerminal.tsx:109 | lower-casing keeps the length and maps each character on its own |
| JsString.LowerTrim | src/components/EnigmaOSTerminal.tsx:109 | lower-casing and trimming commute, so the order of `.trim().toLowerCase()` does not matter |
| JsString.ContainsIgnoresTrim | src/components/EnigmaOSTerminal.tsx:109-112 | a marker without surrounding white space occurs in the trimmed, lower-cased line iff it occurs in the lower-cased line |
| JsString.TrimmedNeverEndsWithSpace | src/components/EnigmaOSTerminal.tsx:116 | a trimmed line never ends with a suffix whose last character is white space |
| JsString.SliceLast | src/components/Shell.tsx:74 | `slice(-n)` yields a suffix of the input of length min(n, length) |
| JsonText.Get | src/components/Shell.tsx:127 | reading a property throws exactly on `null`, and finds a value exactly when the value is an object holding that key |
| JsonText.IndexFrom | src/components/Shell.tsx:119 | the result is the first occurrence at or after the start position, and there is none when the search fails |
| JsonText.LastIndex | src/components/Shell.tsx:119 | the result is the last position of the character, and there is none when the search fails |
| JsonText.MatchAt | src/components/Shell.tsx:119 | at one start position, a fenced match is the opening fence, a body holding no closing fence, and the closing fence; a brace match runs from `{` to the last `}` of the text; no match exactly when neither alternative applies |
| JsonText.MatchFrom | src/components/Shell.tsx:119 | the search returns the leftmost start position with a match, and reports none only when no later position matches |
| JsonText.MatchReplyAsWritten | src/components/Shell.tsx:119-121 | the code as written yields `undefined` exactly when the leftmost match is a fenced block with an empty body |
| JsonText.MatchReply | src/components/Shell.tsx:119-123 | the extracted reply is a substring of the reply, and is the whole reply when nothing matches |
| JsonText.MatchReplyAgrees | src/components/Shell.tsx:121 | the corrected extraction equals the code as written wherever the latter gives a string, and gives the empty string where it gives `undefined` |
| JsonText.EmptyFenceReplyUndefined | src/components/Shell.tsx:119-121 | the reply "```json\n\n```" turns into `undefined` as written, and into "" in the corrected extraction |
| JsonText.SkipNonStarts | src/components/Shell.tsx:119 | positions holding neither `{` nor a backquote never start a match |
| JsonText.FencedJsonExtracts | src/components/Shell.tsx:119-121 | a JSON object inside a json fence, after text without `{` or a backquote, is extracted exactly |
| JsonText.BareJsonExtracts | src/components/Shell.tsx:119-121 | the same object sent bare, with no `}` after it, is extracted exactly |
| JsonText.EarlierBraceBeatsFence | src/components/Shell.tsx:119 | a `{` before the fence wins: the capture runs from it to the last `}`, fence included |
| Serial.CharOf | src/components/EnigmaOSTerminal.tsx:93 | the decoded character is a carriage return or a newline exactly for bytes 13 and 10 |
| Serial.PromptAtEndIsColonEnd | src/components/EnigmaOSTerminal.tsx:116 | the forced-flush test with two suffixes is equivalent to the `login:` suffix alone, because the line is trimmed first |
| Serial.PromptSeenIgnoresTrim | src/components/EnigmaOSTerminal.tsx:109-112 | the readiness test does not depend on the trim |
| Serial.PromptAtEndIsSeen | src/components/EnigmaOSTerminal.tsx:109-116 | a line that passes the forced-flush test also passes the readiness test |
| Serial.EmptyLineShowsNoPrompt | src/components/EnigmaOSTerminal.tsx:100-112 | the empty buffer left by a newline never shows the prompt |
| Serial.Step | src/components/EnigmaOSTerminal.tsx:92-130 | a CR changes nothing and emits nothing; a newline emits the buffer plus a newline and empties the buffer; any other byte is appended and may force-flush the new buffer; the ready flag only goes from false to true, and only when the emulator reference is set |
| Serial.StepReadiness | src/components/EnigmaOSTerminal.tsx:108-127 | readiness fires iff the byte is neither CR nor newline, the listener is not ready, the emulator reference is set, and the new line contains `login:` once trimmed and lower-cased |
| Serial.StepForcedFlush | src/components/EnigmaOSTerminal.tsx:116-124 | a forced flush happens iff the listener is not ready and the new trimmed, lower-cased line ends with `login:`; with the emulator reference set, readiness fires on the same byte |
| Serial.StepReassembles | src/components/EnigmaOSTerminal.tsx:96-106 | for one byte, the line flush followed by the new buffer is the old buffer plus the byte, with CR dropped |
| Serial.LinesReassemble | src/components/EnigmaOSTerminal.tsx:92-106 | over a whole stream, the newline flushes followed by the pending buffer are the input without CRs: nothing is lost or reordered |
| Serial.NoForcedFlushReassembles | src/components/EnigmaOSTerminal.tsx:92-106 | without a forced flush, everything emitted followed by the buffer is the input without CRs |
| Serial.ReadyAtMostOnce | src/components/EnigmaOSTerminal.tsx:86-127 | the ready notification fires at most once per listener, never once ready, and only with the emulator reference set; the flag never goes back |
| Serial.ForcedFlushAtMostOnce | src/components/EnigmaOSTerminal.tsx:108-124 | with the emulator reference set, the prompt line is force-flushed at most once |
| Serial.RunAppendFinal | src/components/EnigmaOSTerminal.tsx:92-130 | feeding two chunks in turn leaves the listener in the same state as feeding them joined |
| Serial.RunAppend | src/components/EnigmaOSTerminal.tsx:92-130 | feeding two chunks in turn emits exactly what feeding them joined emits |
| Serial.LinesAreOnNewline | src/components/EnigmaOSTerminal.tsx:100-106 | bytes without a newline produce no line flush |
| Serial.NextLineRepeatsBuffer | src/components/EnigmaOSTerminal.tsx:116-119 | since the forced flush keeps the buffer, the next newline emits the whole pending line again, forced-flushed prefix included, and empties the buffer |
| Serial.Gateway | src/components/EnigmaOSTerminal.tsx:158-176 | a command is sent iff it is non-empty and the emulator exists, is running and can receive serial input; it is sent as the command plus one newline, and `onCommandSent` runs exactly when it is sent |
| Serial.EnigmaOSTerminal.constructor | src/components/EnigmaOSTerminal.tsx:82-86 | a new terminal holds the emulator, an empty buffer, readiness not yet notified and nothing sent |
| Serial.EnigmaOSTerminal.OnSerialByte | src/components/EnigmaOSTerminal.tsx:92-130 | the listener's new state, the strings given to `onOutput` and whether `onEmulatorReady` ran are those of `Step` |
| Serial.EnigmaOSTerminal.Destroy | src/components/EnigmaOSTerminal.tsx:145-156 | the cleanup clears the emulator reference |
| Serial.EnigmaOSTerminal.RunCommand | src/components/EnigmaOSTerminal.tsx:158-176 | the serial input grows by exactly what `Gateway` sends, and the result reports whether `onCommandSent` ran |
| Conversation.FilterKeepsEntries | src/components/Shell.tsx:82 | the filter only keeps history entries that pass it |
| Conversation.FilterAppend | src/components/Shell.tsx:81-83 | filtering a history split in two gives the filtered parts in the same order, so the filter keeps history order |
| Conversation.ToMessage | src/components/Shell.tsx:84-87 | a command speaks as the user and every other entry as the assistant, never as the system, with the entry text as content |
| Conversation.SystemContentShape | src/components/Shell.tsx:74-77 | the system instruction is the base text, the header, exactly the last min(2000, length) transcript characters, and the footer |
| Conversation.BuildMessages | src/components/Shell.tsx:79-89 | the request is the system instruction, then the context window in history order, then the command as the user |
| Conversation.ContextBounded | src/components/Shell.tsx:83 | a request holds between 2 and 8 messages |
| Conversation.WindowFromEligibleEntries | src/components/Shell.tsx:81-87 | every context entry is a history entry: a command, or a response without the excluded prefix |
| Conversation.WindowIsLatest | src/components/Shell.tsx:82-83 | when the history ends with six eligible entries, the window is exactly those six |
| Conversation.AllEligibleKept | src/components/Shell.tsx:82 | a history of eligible entries passes the filter unchanged |
| Conversation.IgnoredEntryChangesNothing | src/components/Shell.tsx:81-87 | an entry outside the filter, wherever it sits in the history, changes no request |
| Conversation.ErrorsAndSystemIgnored | src/components/Shell.tsx:82 | error and system entries never pass the filter |
| Conversation.ForwardedEntryInContext | src/components/Shell.tsx:131 | the entry written for a forwarded command passes the context filter of line 82 and becomes an assistant message |
| Conversation.Classify | src/components/Shell.tsx:126-127 | the reply asks for a console command iff it parses to an object whose `type` is the execute tag and whose `command` is a string, and then that string is the command |
| Conversation.ReplyText | src/components/Shell.tsx:116-123 | a missing or empty reply becomes the default text; otherwise the text used is a substring of the reply |
| Conversation.Complete | src/components/Shell.tsx:110-150 | an abort gives the fixed timeout error; a failure gives the error prefix plus its message; a command reply is forwarded only when ready, with the forward prefix, and gets the not-ready annotation otherwise; any other reply is shown as extracted |
| Conversation.ShownTextComesFromReply | src/components/Shell.tsx:116-141 | text shown as a plain response is a substring of what the model replied |
| Conversation.FencedCommandForwarded | src/components/Shell.tsx:119-131 | a command object inside a json fence is forwarded word for word when ready |
| Conversation.BareCommandForwarded | src/components/Shell.tsx:119-131 | the same command object sent bare is forwarded too |
| Conversation.ForwardedCommandReturnsAsContext | src/components/Shell.tsx:129-131 | the entry written for a forwarded command is eligible context for the next request |
| Conversation.FilterAsWritten | src/components/Shell.tsx:82 | on entries whose text may be `undefined`, the context filter throws iff some response entry has no text |
| Conversation.ReplyTextAsWritten | src/components/Shell.tsx:116-123 | the reply text as written is the corrected one wherever it is a string, and is `undefined` only where the corrected one is empty |
| Conversation.StoredReply | src/components/Shell.tsx:125-141 | the entry an answered turn stores is a response, and has no text exactly when the extracted text is `undefined` |
| Conversation.StartTurnAsWritten | src/components/Shell.tsx:61-89 | a blank command leaves loading cleared; any other sets loading, and makes no request exactly when the filter throws |
| Conversation.EmptyFenceStallsShell | src/components/Shell.tsx:72-82 | after a reply that is an empty fenced block, every later non-blank command ends with no request and loading left set, whatever entries come after |
| Conversation.StatusText | src/components/Shell.tsx:49 | the status line always contains the status marker, so a later refresh recognises it |
| Conversation.Refreshed | src/components/Shell.tsx:47-59 | an empty history gets one status entry; otherwise only a trailing status entry has its text rewritten, and every other entry is unchanged |
| Conversation.RefreshTwice | src/components/Shell.tsx:47-59 | refreshing twice is refreshing once with the latest readiness |
| Conversation.LoginRequestNotBlank | src/components/Shell.tsx:62-66 | the login request survives the trim unchanged and is not blank, so the self-triggered turn does start |
| Conversation.Shell.constructor | src/components/Shell.tsx:34-39 | the shell starts with empty input and history, not loading and the login turn not done |
| Conversation.Shell.SetInput | src/components/Shell.tsx:219 | the input holds the typed text |
| Conversation.Shell.StartTurn | src/components/Shell.tsx:61-89 | a blank command makes no request, adds no entry and clears loading; otherwise the request is built from the history before the turn, a user command adds one command entry with the trimmed text, a system-triggered one adds none, the input is cleared and loading is set, which disables the input whatever the readiness |
| Conversation.Shell.Submit | src/components/Shell.tsx:180-185 | a submission while loading changes nothing; otherwise the typed text starts a user turn; a submission that sends a request leaves the input disabled |
| Conversation.Shell.CompleteTurn | src/components/Shell.tsx:110-154 | a finished turn adds exactly the one entry of `Complete`, forwards its command if any, and always clears loading, so the input is enabled again iff the system is ready or the login turn ran |
| Conversation.Shell.LoginSelfTrigger | src/components/Shell.tsx:157-174 | the trigger fires iff ready, not yet done, and the lower-cased transcript contains `login:`; it then adds one system observation, starts one system-triggered turn and sets done, so it fires at most once, and leaves the input disabled while its turn runs; otherwise nothing changes |
| Conversation.Shell.RefreshStatus | src/components/Shell.tsx:47-59 | the history becomes `Refreshed` of the old history |
| Conversation.Shell.InputDisabled | src/components/Shell.tsx:222 | the input is disabled while loading, and before readiness unless the login turn ran; it is enabled otherwise. Conversation.Shell.StartTurn, Conversation.Shell.Submit and Conversation.Shell.LoginSelfTrigger state that a turn that sends a request leaves it disabled; Conversation.Shell.CompleteTurn states that it is enabled again unless the system is not ready and the login turn has not run |
| Session.DigitChar | src/App.tsx:196 | the character is the decimal digit of the number |
| Session.FallbackProblem | src/App.tsx:191-208 | the question is "a op b" with the drawn operator; `+` gives the sum, `*` the product, `-` the larger minus the smaller; the digits shown are the two drawn operands, the larger first for `-` |
| Session.EvalQuestion | src/App.tsx:196-206 | a question that evaluates has the shape "d op d" with one of the three operators |
| Session.FallbackIsConsistent | src/App.tsx:191-208 | the fallback question evaluates to the fallback answer, and the answer is never negative |
| Session.ReadEnigma | src/App.tsx:160-174 | a reply is accepted iff it is present and non-empty and its extracted JSON parses to a string `question` and a number `answer`, which become the problem; a missing content gives the no-content error |
| Session.EnigmaErrorMessage | src/App.tsx:175-183 | there is an error message iff no problem was accepted; an abort is reported as a timeout, and other failures with their message |
| Session.FencedEnigmaAccepted | src/App.tsx:165-171 | a well-formed enigma inside a json fence is accepted as it stands |
| Session.QuotedAnswerRejected | src/App.tsx:170-174 | an answer given as a string is rejected with the format error |
| Session.Render | src/App.tsx:249-290 | the calculator and the header are shown iff the shell is not active, and the shell and terminal iff it is; the header shows the message or the waiting text |
| Session.OneScreenAtATime | src/App.tsx:249-290 | in every phase exactly one of keypad and shell is shown, the terminal only with the shell, the header exactly with the keypad, and the header is never blank |
| Session.App.constructor | src/App.tsx:12-19 | the session starts on the plain calculator with no problem, no message, nothing loading, no pending command, an empty transcript and the console not ready |
| Session.App.HandleEmulatorReady | src/App.tsx:21-24 | the ready flag is set and never cleared |
| Session.App.HandleEnigmaOSOutput | src/App.tsx:26-29 | the chunk is appended, and the old transcript is a prefix of the new one |
| Session.App.HandleSetCommand | src/App.tsx:37-40 | the mailbox holds the latest command, overwriting any undelivered one |
| Session.App.HandleCommandSent | src/App.tsx:49-52 | the mailbox is emptied |
| Session.App.DeliverCommand | src/App.tsx:49-52 | with the terminal's command effect, the pending command goes to the console exactly when `Gateway` sends it, and the mailbox empties exactly then |
| Session.App.ReceiveSerialByte | src/App.tsx:21-29 | with the terminal's listener, the transcript grows by exactly what the listener emits, and readiness is recorded when it fires |
| Session.App.HandleUnlockSuccess | src/App.tsx:210-212 | an unlock moves to the challenge prompt with the enigma loading and the generating message shown as the keypad's header |
| Session.App.FetchLlmEnigma | src/App.tsx:54-189 | the fetch yields a problem iff the reply is accepted, and then that problem; otherwise the header shows the error message; loading ends on every path |
| Session.App.StartChallenge | src/App.tsx:213-223 | the challenge moves to solving with a problem set: the fetched one, or the fallback; the keypad stays up with a header that asks for the question |
| Session.App.HandleLlmChallengeSolved | src/App.tsx:226-232 | a solved challenge replaces the keypad by the shell and clears the message |
| Session.App.HandleLlmChallengeFailed | src/App.tsx:234-241 | a failed challenge returns to the plain calculator, drops the problem and clears the message, so the keypad shows the waiting header |
| Session.App.DefaultPromptEffect | src/App.tsx:243-247 | the default prompt is set only on the plain calculator with no message and nothing loading; otherwise the message is unchanged |
| Keypad.Initial | src/components/Calculator.tsx:23-28 | the keypad starts at "0" with no history, within bounds |
| Keypad.InputDigit | src/components/Calculator.tsx:32-45 | a digit is ignored at the limit; it replaces the display when waiting or on "0" and is appended otherwise; the limit flag is set iff the old display plus the digit reaches 15 characters; the bounds are kept |
| Keypad.InputDecimal | src/components/Calculator.tsx:47-62 | a point is ignored at the limit; when waiting the display becomes "0." with the limit flag untouched; otherwise a point is added only if there is none; the bounds are kept |
| Keypad.DotContained | src/components/Calculator.tsx:54 | `includes(".")` is membership of the point character |
| Keypad.ClearDisplay | src/components/Calculator.tsx:64-75 | clearing restores the initial display and keeps the history |
| Keypad.ClearAll | src/components/Calculator.tsx:77-83 | all-clear restores the initial state, history included, and gives up the challenge iff the phase is neither calculator phase |
| Keypad.Remember | src/components/Calculator.tsx:98 | as at lines 98 and 152, the history keeps the newest five entries of the old history plus the new entry, newest last |
| Keypad.PerformOperation | src/components/Calculator.tsx:86-105 | an operator key stores the first operand or completes a pending operation, recording it only in the calculator phases, and always waits for the next operand with the new operator; the bounds are kept |
| Keypad.TwoDigits | src/components/Calculator.tsx:120-121 | the day is written as two decimal digits whose value is the day |
| Keypad.Equals | src/components/Calculator.tsx:117-159 | `=` clears the display whenever it reports an event, and keeps the bounds |
| Keypad.Evaluate | src/components/Calculator.tsx:145-158 | completing a pending operation keeps the bounds |
| Keypad.EqualsEvents | src/components/Calculator.tsx:119-142 | `=` unlocks iff in a calculator phase and the display is the day's pi or e code; with a problem to solve it reports solved iff the answer matches and failed otherwise |
| Keypad.EqualsCalculates | src/components/Calculator.tsx:145-158 | otherwise a pending operation is completed: its result is shown, with division by zero as the error text, the history becomes the old one with an entry recording the operation appended and trimmed to five, the max-digits flag is set iff the raw result has 15 or more characters, and operand and operator are cleared |
| Keypad.EqualsIdle | src/components/Calculator.tsx:117-159 | with no unlock, no problem and no pending operation, `=` changes nothing |
| Keypad.OnPhaseChange | src/components/Calculator.tsx:161-165 | entering a calculator phase clears the display; other phases leave it |
| Keypad.ButtonsEnabled | src/components/Calculator.tsx:209 | the buttons are disabled exactly in the challenge-prompt and unlock-prompt phases; Keypad.EnabledEquals states what a live `=` can then report |
| Keypad.EnabledEquals | src/components/Calculator.tsx:117-142 | with the buttons live, `=` unlocks iff on the plain keypad with the day's code displayed, and reports a verdict iff a problem is being solved; the unlock kept for the unlock prompt cannot be reached there |
| Keypad.DigitsAppend | src/components/Calculator.tsx:32-45 | digits typed on an edited display are appended while it stays under the limit |
| Keypad.CodeShape | src/components/Calculator.tsx:13-14 | an unlock code is 14 characters: a digit, a point and twelve digits |
| Keypad.TypeCode | src/components/Calculator.tsx:30-62 | typing an unlock code on a cleared keypad shows that code |
| Keypad.UnlockCodeCanBeTyped | src/components/Calculator.tsx:119-129 | either code of any day fits under the 15-character limit, can be typed, and then unlocks |
| Keypad.DigitAfterLongResultLocks | src/components/Calculator.tsx:34-44 | after a result of 14 or more characters, the first digit replaces the display but sets the limit flag from the old display, so later digits are ignored |
| Keypad.Calculator.constructor | src/components/Calculator.tsx:23-28 | the keypad starts in the initial state |
| Keypad.Calculator.InputDigitKey | src/components/Calculator.tsx:32-45 | the new state is `InputDigit` of the old one |
| Keypad.Calculator.InputDecimalKey | src/components/Calculator.tsx:47-62 | the new state is `InputDecimal` of the old one |
| Keypad.Calculator.Clear | src/components/Calculator.tsx:64-75 | the new state is `ClearDisplay` of the old one |
| Keypad.Calculator.AllClear | src/components/Calculator.tsx:77-83 | the new state and the give-up report are those of `ClearAll` |
| Keypad.Calculator.Operate | src/components/Calculator.tsx:86-105 | the new state is `PerformOperation` of the old one |
| Keypad.Calculator.HandleEquals | src/components/Calculator.tsx:117-159 | the new state and the reported event are those of `Equals` |
| Keypad.Calculator.EvaluatePending | src/components/Calculator.tsx:145-158 | the new state is `Evaluate` of the old one |
| Keypad.Calculator.PhaseChanged | src/components/Calculator.tsx:161-165 | the new state is `OnPhaseChange` of the old one |

## Left out

- The V86 emulator is not modelled: library detection, the WebAssembly and BIOS configuration, the 200 ms settle timer, the `emulator-started` listener and the initialisation error path. The engine is the record `Serial.Emulator`, reduced to three booleans, and a log of the strings sent to it.
- The terminal's status text (`setEmulatorStatus`) and all rendering are left out: JSX, scrolling, focus, the spinner and the history list.
- HTTP is not modelled: `fetch`, the request bodies, `response.ok` and the error-body fallbacks. How a request ended is a parameter: a reply content, an abort, or a failure with its message.
- Timers are collapsed: the 60-second abort becomes the abort outcome. The 500, 1000, 1500 and 2000 ms delays are dropped, and each handler ends in the state the source reaches once its timers have run. In particular, after a failed challenge the source clears the problem at once but stays in the solving phase for 2 s, during which `=` falls through to the normal calculation; the model skips that window, which is why `Session.App.Valid` can require a problem whenever the phase is solving. The intermediate header messages shown during those delays are overwritten in the model as in the source.
- `JSON.parse` is the function parameter `parse`. Only the property checks on its result are modelled.
- Floating-point numbers are abstract. `Keypad.FloatOps` supplies `String(parseFloat(s))`, the result text of `calculate` and the answer comparison. So `calculate` and the `Infinity` test are taken as given.
- `Date` and `Math.random` are parameters:
  - the day of the month;
  - the two operands and the operator index of the fallback problem;
  - the ids and times of shell entries.
- The system instruction text, which embeds the load-time ISO date, is the parameter `base`. The enigma prompt text is left out.
- React scheduling, batching, stale closures and re-renders are left out. Handlers run in the order the model's methods are called, each on the state its own source code reads.
- `toLowerCase` is exact on Latin-1, which covers every character a serial byte decodes to. Characters above U+00FF are left unchanged.
- A reply content that is not a string is not modelled: the content is a string or missing.
- The unreachable `default:` branch of the fallback operator switch is not modelled: the operator index is one of three.
- Console logging is left out.
- The "Max Digits" line of the keypad display is rendering only, so it is left out.
- Conversation.ReplyText: uses the corrected extraction, so an empty fenced block gives the empty string. The code as written gives `undefined`; that path is modelled apart by Conversation.ReplyTextAsWritten.
- Conversation.Complete: on an empty fenced block it shows an empty response. The code as written stores `undefined`, after which the shell no longer takes commands; that path is modelled apart by Conversation.StoredReply and Conversation.EmptyFenceStallsShell.
- Conversation.Shell.StartTurn: works on entries whose text is always a string, so its context filter cannot throw. The throw on an `undefined` text is modelled by Conversation.StartTurnAsWritten.
- Session.ReadEnigma: on an empty fenced block it parses the empty string where the code parses `undefined`. `JSON.parse` rejects both as a syntax error, so only the error message may differ.
- Keypad.Equals: its own contract states only that an event clears the display and that the bounds are kept. The three events, the computation and the idle case are stated by Keypad.EqualsEvents, Keypad.EqualsCalculates and Keypad.EqualsIdle.
- Keypad.Evaluate: its own contract states only that the bounds are kept. What it computes is stated by Keypad.EqualsCalculates: the display, the cleared operand and operator, the max-digits flag and the whole new history.

## Findings

| source | as written | input that shows it | evidently intended | confidence | as-written member | corrected member |
|---|---|---|---|---|---|---|
| src/components/Shell.tsx:119-121 (also src/App.tsx:165-168) | `jsonMatch[1] \|\| jsonMatch[2]` is `undefined` when the fenced body is empty: group 1 is the falsy empty string and group 2 did not take part in the match. In the shell, the `undefined` text is stored as a response entry, and the next command's context filter then calls `startsWith` on it (line 82). That throws after loading was set, and the shell stays loading | the reply "```json\n\n```" | the captured body, empty or not, becomes the reply text | not executed | JsonText.MatchReplyAsWritten, JsonText.EmptyFenceReplyUndefined, Conversation.EmptyFenceStallsShell | JsonText.MatchReply, JsonText.MatchReplyAgrees |
