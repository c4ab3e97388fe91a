/**
 * The conversation orchestrator of the shell screen: how a command becomes a
 * request to the language model, how the reply becomes a history entry and
 * perhaps a command for the operating system, the one-shot login trigger and
 * the status line.
 *
 * The HTTP request itself is not modelled: `StartTurn` returns the messages
 * that would be posted, and `CompleteTurn` receives what came back (a reply
 * content, an abort or an error message). `JSON.parse` is the parameter
 * `parse`; clock readings (entry ids and times) are parameters too.
 */
module Conversation {
  import opened Types
  import opened JsString
  import opened JsonText

  /** `MessageForAPI`: a chat message for the completion endpoint. */
  datatype Role = SystemRole | UserRole | AssistantRole
  datatype Message = Message(role: Role, content: string)

  /** Responses starting with this prefix are kept out of the context. */
  const ExcludedPrefix: string := "LLM (vers enigma-os):"
  /** The prefix the shell actually gives a forwarded command entry. */
  const ForwardPrefix: string := "LLM -> enigma-os: "
  const NotReadySuffix: string := " (ERREUR: Enigma-OS n'est pas signal\U{E9} comme pr\U{EA}t !)"
  const NotReadyPrefix: string := "LLM (commande pour enigma-os): "
  const DefaultReply: string := "Le LLM n'a pas fourni de r\U{E9}ponse valide."
  const TimeoutText: string := "Erreur LLM: La requ\U{EA}te a d\U{E9}pass\U{E9} le d\U{E9}lai d'attente."
  const ErrorPrefix: string := "Erreur LLM: "
  const ContextHeader: string := "\nDERNIER INSTANTAN\U{C9} DE SORTIE D'ENIGMA-OS (utilisez pour le contexte):\n---\n"
  const ContextFooter: string := "\n---"
  const LoginObservation: string :=
    "SYSTEM_OBSERVATION: Enigma-OS est \U{E0} l'invite de connexion. Le LLM va initier la connexion."
  const LoginRequest: string :=
    "L'OS " + "enigma-os affiche une invite de connexion. " +
    "Proc\U{E9}dez \U{E0} la connexion en tant que " + "'root'."
  const StatusMarker: string := "Statut Enigma-OS:"
  /** What the login effect looks for in the lower-cased transcript. */
  const LoginMarker: string := "login:"
  const ExecuteType: string := "execute_in_enigma_os"

  /** The number of history entries the context carries at most. */
  const ContextSize: nat := 6
  /** The number of transcript characters the context carries at most. */
  const TranscriptWindow: nat := 2000

  // ---------------------------------------------------------------------
  // Building the request
  // ---------------------------------------------------------------------

  /** The context filter: commands, and responses other than the excluded prefix. */
  predicate InContext(e: ShellEntry) {
    e.entryType == Command || (e.entryType == Response && !StartsWith(e.text, ExcludedPrefix))
  }

  function Filter(h: seq<ShellEntry>): (r: seq<ShellEntry>)
    ensures |r| <= |h|
  {
    if h == [] then [] else (if InContext(h[0]) then [h[0]] else []) + Filter(h[1..])
  }

  /** The filter only keeps eligible entries of the history. */
  lemma {:induction false} FilterKeepsEntries(h: seq<ShellEntry>)
    ensures forall e :: e in Filter(h) ==> e in h && InContext(e)
  {
    if h != [] {
      FilterKeepsEntries(h[1..]);
    }
  }

  /** `s.slice(-n)` on an array, for a positive `n`: the last `n` elements, or all of them. */
  function LastN<T>(s: seq<T>, n: nat): (r: seq<T>)
    requires n > 0
    ensures |r| == if |s| < n then |s| else n
    ensures r == s[|s| - |r|..]
  {
    if |s| <= n then s else s[|s| - n..]
  }

  /** The history entries that make it into the context, oldest first. */
  function Window(h: seq<ShellEntry>): seq<ShellEntry> {
    LastN(Filter(h), ContextSize)
  }

  /** Commands speak as the user, everything else as the assistant. */
  function ToMessage(e: ShellEntry): (m: Message)
    ensures m.content == e.text
    ensures m.role == UserRole <==> e.entryType == Command
    ensures m.role != SystemRole
  {
    Message(if e.entryType == Command then UserRole else AssistantRole, e.text)
  }

  /** The system instruction: the base text, then the transcript tail between two `---` lines. */
  function SystemContent(base: string, transcript: string): string {
    base + ContextHeader + SliceLast(transcript, TranscriptWindow) + ContextFooter
  }

  /**
   * The instruction holds the base text, at most the last 2000 characters
   * of the transcript, and nothing else besides the two markers.
   */
  lemma SystemContentShape(base: string, transcript: string)
    ensures var r := SystemContent(base, transcript);
      var tail := if |transcript| < TranscriptWindow then |transcript| else TranscriptWindow;
      var start := |base| + |ContextHeader|;
      |r| == start + tail + |ContextFooter| &&
      r[..start] == base + ContextHeader &&
      r[start..start + tail] == transcript[|transcript| - tail..] &&
      r[start + tail..] == ContextFooter
  {
  }

  /**
   * The messages posted for `command`: the system instruction, the context
   * window of the history and the command itself as the user.
   */
  function BuildMessages(base: string, transcript: string, history: seq<ShellEntry>, command: string): (r: seq<Message>)
    ensures |r| == |Window(history)| + 2
    ensures r[0] == Message(SystemRole, SystemContent(base, transcript))
    ensures r[|r| - 1] == Message(UserRole, command)
    ensures forall i :: 1 <= i < |r| - 1 ==> r[i] == ToMessage(Window(history)[i - 1])
  {
    var w := Window(history);
    var turns := seq(|w|, i requires 0 <= i < |w| => ToMessage(w[i]));
    [Message(SystemRole, SystemContent(base, transcript))] + turns + [Message(UserRole, command)]
  }

  lemma {:induction false} FilterAppend(a: seq<ShellEntry>, b: seq<ShellEntry>)
    ensures Filter(a + b) == Filter(a) + Filter(b)
  {
    if a == [] {
      assert a + b == b;
    } else {
      assert (a + b)[0] == a[0] && (a + b)[1..] == a[1..] + b;
      FilterAppend(a[1..], b);
      var head := if InContext(a[0]) then [a[0]] else [];
      assert head + (Filter(a[1..]) + Filter(b)) == (head + Filter(a[1..])) + Filter(b);
    }
  }

  /** At most six history messages sit between the system instruction and the command. */
  lemma ContextBounded(base: string, transcript: string, history: seq<ShellEntry>, command: string)
    ensures 2 <= |BuildMessages(base, transcript, history, command)| <= ContextSize + 2
  {
  }

  /**
   * Every entry of the context window is a history entry that passes the
   * filter: a command, or a response without the excluded prefix; errors and
   * system entries never reach the request.
   */
  lemma WindowFromEligibleEntries(history: seq<ShellEntry>)
    ensures forall e :: e in Window(history) ==>
      e in history && InContext(e) && (e.entryType == Command || e.entryType == Response)
  {
    FilterKeepsEntries(history);
    var f := Filter(history);
    var w := Window(history);
    forall e | e in w
      ensures e in history && InContext(e)
    {
      var k :| 0 <= k < |w| && w[k] == e;
      assert e == f[|f| - |w| + k];
    }
  }

  /**
   * The window holds the latest eligible entries: when the history ends with
   * at least six eligible entries, the window is exactly those six.
   */
  lemma {:induction false} WindowIsLatest(older: seq<ShellEntry>, latest: seq<ShellEntry>)
    requires |latest| == ContextSize
    requires forall i :: 0 <= i < |latest| ==> InContext(latest[i])
    ensures Window(older + latest) == latest
  {
    FilterAppend(older, latest);
    AllEligibleKept(latest);
  }

  lemma {:induction false} AllEligibleKept(h: seq<ShellEntry>)
    requires forall i :: 0 <= i < |h| ==> InContext(h[i])
    ensures Filter(h) == h
  {
    if h != [] {
      AllEligibleKept(h[1..]);
      assert [h[0]] + h[1..] == h;
    }
  }

  /** An entry outside the filter, wherever it sits in the history, changes no request. */
  lemma IgnoredEntryChangesNothing(base: string, transcript: string, a: seq<ShellEntry>, e: ShellEntry,
                                   b: seq<ShellEntry>, command: string)
    requires !InContext(e)
    ensures BuildMessages(base, transcript, a + [e] + b, command) == BuildMessages(base, transcript, a + b, command)
  {
    FilterAppend(a + [e], b);
    FilterAppend(a, [e]);
    FilterAppend(a, b);
    assert Filter([e]) == [] by { assert [e][1..] == []; }
    assert Filter(a) + [] == Filter(a);
  }

  /** Error and system entries are outside the filter. */
  lemma ErrorsAndSystemIgnored(e: ShellEntry)
    requires e.entryType == Error || e.entryType == System
    ensures !InContext(e)
  {
  }

  /**
   * The filter excludes a prefix the shell never writes: a forwarded command
   * entry does reach the context, as an assistant message.
   */
  lemma ForwardedEntryInContext(id: string, command: string, time: string)
    ensures InContext(ShellEntry(id, Response, ForwardPrefix + command, time))
    ensures ToMessage(ShellEntry(id, Response, ForwardPrefix + command, time)) ==
            Message(AssistantRole, ForwardPrefix + command)
  {
    var t := ForwardPrefix + command;
    assert t[4] == '-' && ExcludedPrefix[4] == '(';
    assert |ExcludedPrefix| <= |t| ==> t[..|ExcludedPrefix|][4] == t[4];
  }

  // ---------------------------------------------------------------------
  // Reading the reply
  // ---------------------------------------------------------------------

  /** What the model asked for, according to the parsed reply. */
  datatype Intent = RunInOs(command: string) | ShowText

  /**
   * The check of the parsed reply: an object whose `type` is the execute tag
   * and whose `command` is a string. `null`, a parse error and every other
   * value are shown as text.
   */
  function Classify(p: ParseResult): (v: Intent)
    ensures v.RunInOs? <==>
      p.Parsed? && Get(p.value, "type") == Found(JString(ExecuteType)) &&
      Get(p.value, "command").Found? && Get(p.value, "command").value.JString?
    ensures v.RunInOs? ==> Get(p.value, "command") == Found(JString(v.command))
  {
    if p.Parsed? && Get(p.value, "type") == Found(JString(ExecuteType)) then
      match Get(p.value, "command")
      case Found(JString(c)) => RunInOs(c)
      case _ => ShowText
    else ShowText
  }

  /** The reply content, replaced by the default text when it is missing or empty, then extracted. */
  function ReplyText(content: Option<string>): (r: string)
    ensures content.Some? && content.value != "" ==> Contains(content.value, r)
    ensures content.None? || content.value == "" ==> r == DefaultReply
  {
    var raw := if content.Some? && content.value != "" then content.value else DefaultReply;
    assert content.None? || content.value == "" ==> MatchReply(raw) == raw by {
      if content.None? || content.value == "" {
        SkipNonStarts(raw, 0, |raw|);
      }
    }
    MatchReply(raw)
  }

  /** How a request ended: a reply (its content, possibly missing), an abort, or another error. */
  datatype Outcome = Answered(content: Option<string>) | Aborted | Failed(message: string)

  /** The one history entry a finished turn adds, and the command it forwards, if any. */
  datatype TurnEffect = TurnEffect(entryType: EntryType, text: string, forward: Option<string>)

  function Complete(outcome: Outcome, ready: bool, parse: string -> ParseResult): (r: TurnEffect)
    ensures r.forward.Some? ==>
      ready && outcome.Answered? && r.entryType == Response && r.text == ForwardPrefix + r.forward.value
    ensures outcome.Aborted? ==> r == TurnEffect(Error, TimeoutText, None)
    ensures outcome.Failed? ==> r == TurnEffect(Error, ErrorPrefix + outcome.message, None)
    ensures outcome.Answered? ==>
      var text := ReplyText(outcome.content);
      r.entryType == Response &&
      match Classify(parse(text))
      case RunInOs(c) =>
        if ready then r.forward == Some(c) else r == TurnEffect(Response, NotReadyPrefix + c + NotReadySuffix, None)
      case ShowText => r == TurnEffect(Response, text, None)
  {
    match outcome
    case Aborted => TurnEffect(Error, TimeoutText, None)
    case Failed(message) => TurnEffect(Error, ErrorPrefix + message, None)
    case Answered(content) =>
      var text := ReplyText(content);
      match Classify(parse(text))
      case RunInOs(c) =>
        if ready then TurnEffect(Response, ForwardPrefix + c, Some(c))
        else TurnEffect(Response, NotReadyPrefix + c + NotReadySuffix, None)
      case ShowText => TurnEffect(Response, text, None)
  }

  /** Text shown as a plain response is part of what the model replied (or the default text). */
  lemma ShownTextComesFromReply(content: string, ready: bool, parse: string -> ParseResult)
    requires content != ""
    requires Complete(Answered(Some(content)), ready, parse).forward.None?
    requires Classify(parse(ReplyText(Some(content)))).ShowText?
    ensures Contains(content, Complete(Answered(Some(content)), ready, parse).text)
  {
  }

  /**
   * A command object sent inside a ```json fence, after text with neither '{'
   * nor '`', is forwarded word for word when the system is ready.
   */
  lemma FencedCommandForwarded(prefix: string, json: string, suffix: string, command: string,
                               parse: string -> ParseResult)
    requires forall j :: 0 <= j < |prefix| ==> prefix[j] != '{' && prefix[j] != '`'
    requires |json| > 0 && json[0] == '{' && json[|json| - 1] == '}'
    requires !Contains(json, FenceClose)
    requires parse(json) == Parsed(JObject(map["type" := JString(ExecuteType), "command" := JString(command)]))
    ensures var r := Complete(Answered(Some(prefix + FenceOpen + json + FenceClose + suffix)), true, parse);
      r.forward == Some(command) && r == TurnEffect(Response, ForwardPrefix + command, Some(command))
  {
    FencedJsonExtracts(prefix, json, suffix);
  }

  /** The same command object sent bare, with no '}' after it, is forwarded too. */
  lemma BareCommandForwarded(prefix: string, json: string, suffix: string, command: string,
                             parse: string -> ParseResult)
    requires forall j :: 0 <= j < |prefix| ==> prefix[j] != '{' && prefix[j] != '`'
    requires |json| > 0 && json[0] == '{' && json[|json| - 1] == '}'
    requires forall j :: 0 <= j < |suffix| ==> suffix[j] != '}'
    requires parse(json) == Parsed(JObject(map["type" := JString(ExecuteType), "command" := JString(command)]))
    ensures Complete(Answered(Some(prefix + json + suffix)), true, parse).forward == Some(command)
  {
    BareJsonExtracts(prefix, json, suffix);
  }

  /** A forwarded command entry is always eligible context for the next request. */
  lemma ForwardedCommandReturnsAsContext(outcome: Outcome, ready: bool, parse: string -> ParseResult,
                                         id: string, time: string)
    requires Complete(outcome, ready, parse).forward.Some?
    ensures var r := Complete(outcome, ready, parse);
      InContext(ShellEntry(id, r.entryType, r.text, time))
  {
    ForwardedEntryInContext(id, Complete(outcome, ready, parse).forward.value, time);
  }

  // ---------------------------------------------------------------------
  // An empty fenced block, as the code handles it
  // ---------------------------------------------------------------------

  /** A history entry as the code stores it: its text may be `undefined`. */
  datatype StoredEntry = StoredEntry(entryType: EntryType, text: JsValue)

  /**
   * The context filter on stored entries. It reads the text of every response
   * entry with `startsWith`, which throws on `undefined`: None here.
   */
  function FilterAsWritten(h: seq<StoredEntry>): (r: Option<seq<StoredEntry>>)
    ensures r.None? <==> exists i :: 0 <= i < |h| && h[i].entryType == Response && h[i].text.Undef?
    ensures r.Some? ==> |r.value| <= |h|
  {
    if h == [] then Some([])
    else if h[0].entryType == Response && h[0].text.Undef? then None
    else
      var rest := FilterAsWritten(h[1..]);
      if rest.None? then
        ghost var i :| 0 <= i < |h[1..]| && h[1..][i].entryType == Response && h[1..][i].text.Undef?;
        assert h[i + 1] == h[1..][i];
        None
      else
        var keep := h[0].entryType == Command ||
                    (h[0].entryType == Response && !StartsWith(h[0].text.s, ExcludedPrefix));
        assert forall i :: 1 <= i < |h| ==> h[i] == h[1..][i - 1];
        Some((if keep then [h[0]] else []) + rest.value)
  }

  /** The reply text as the code extracts it: `undefined` when the fenced block is empty. */
  function ReplyTextAsWritten(content: Option<string>): (r: JsValue)
    ensures r.Str? ==> r.s == ReplyText(content)
    ensures r.Undef? ==> ReplyText(content) == ""
  {
    var raw := if content.Some? && content.value != "" then content.value else DefaultReply;
    MatchReplyAgrees(raw);
    MatchReplyAsWritten(raw)
  }

  /**
   * The entry an answered turn stores, as written. `JSON.parse(undefined)`
   * is a syntax error, so an `undefined` text is stored as it is.
   */
  function StoredReply(content: Option<string>, ready: bool, parse: string -> ParseResult): (e: StoredEntry)
    ensures e.entryType == Response
    ensures e.text.Undef? <==> ReplyTextAsWritten(content).Undef?
  {
    match ReplyTextAsWritten(content)
    case Undef => StoredEntry(Response, Undef)
    case Str(_) =>
      var r := Complete(Answered(content), ready, parse);
      StoredEntry(r.entryType, Str(r.text))
  }

  /**
   * `handleCommand` up to the request, on stored entries: the context
   * window, or None when the filter throws, and the loading flag it leaves.
   * The filter runs after the flag is set and outside the `try`, so a throw
   * skips the `finally` that would clear it.
   */
  function StartTurnAsWritten(h: seq<StoredEntry>, command: string): (r: (Option<seq<StoredEntry>>, bool))
    ensures Trim(command) == "" ==> r == (None, false)
    ensures Trim(command) != "" ==> r.1 && (r.0.None? <==> FilterAsWritten(h).None?)
  {
    if Trim(command) == "" then (None, false)
    else
      match FilterAsWritten(h)
      case None => (None, true)
      case Some(f) => (Some(LastN(f, ContextSize)), true)
  }

  const EmptyFenceReply: string := "```json\n\n```"

  /**
   * A reply made of an empty fenced block stores a response without text.
   * From then on, whatever is added after it, every non-blank command stops
   * at the context filter with the loading flag left set. A submission is
   * refused while loading, so the shell takes no further command.
   */
  lemma EmptyFenceStallsShell(h: seq<StoredEntry>, later: seq<StoredEntry>, ready: bool,
                              parse: string -> ParseResult, command: string)
    requires Trim(command) != ""
    ensures var e := StoredReply(Some(EmptyFenceReply), ready, parse);
      e.text.Undef? && StartTurnAsWritten(h + [e] + later, command) == (None, true)
  {
    EmptyFenceReplyUndefined();
    var e := StoredReply(Some(EmptyFenceReply), ready, parse);
    var all := h + [e] + later;
    assert all[|h|] == e;
  }

  // ---------------------------------------------------------------------
  // The status line
  // ---------------------------------------------------------------------

  function StatusText(ready: bool): (r: string)
    ensures Contains(r, StatusMarker)
  {
    var lead := "Interface Enigma Shell AI. Noyau IA local connect\U{E9}. ";
    var r := lead + StatusMarker + " " +
      (if ready then "Pr\U{EA}t (Invite Login d\U{E9}tect\U{E9}e)" else "Initialisation...") + ".";
    assert r[|lead|..|lead| + |StatusMarker|] == StatusMarker;
    assert OccursAt(r, StatusMarker, |lead|);
    r
  }

  predicate IsStatusEntry(e: ShellEntry) {
    e.entryType == System && Contains(e.text, StatusMarker)
  }

  /**
   * The status refresh: an empty history gets the status entry; otherwise
   * only a trailing status entry has its text rewritten.
   */
  function Refreshed(h: seq<ShellEntry>, ready: bool, id: string, time: string): (r: seq<ShellEntry>)
    ensures h == [] ==> r == [ShellEntry(id, System, StatusText(ready), time)]
    ensures h != [] ==> |r| == |h| && r[..|h| - 1] == h[..|h| - 1]
    ensures h != [] && !IsStatusEntry(h[|h| - 1]) ==> r == h
    ensures h != [] && IsStatusEntry(h[|h| - 1]) ==> r[|h| - 1] == h[|h| - 1].(text := StatusText(ready))
  {
    if h == [] then [ShellEntry(id, System, StatusText(ready), time)]
    else
      var last := h[|h| - 1];
      if IsStatusEntry(last) then h[..|h| - 1] + [last.(text := StatusText(ready))] else h
  }

  /** Refreshing again only changes the readiness shown: the entry stays a status entry. */
  lemma RefreshTwice(h: seq<ShellEntry>, a: bool, b: bool, id1: string, t1: string, id2: string, t2: string)
    ensures Refreshed(Refreshed(h, a, id1, t1), b, id2, t2) == Refreshed(h, b, id1, t1)
  {
    var once := Refreshed(h, a, id1, t1);
    assert once != [];
    if h != [] && IsStatusEntry(h[|h| - 1]) {
      assert IsStatusEntry(once[|once| - 1]);
      assert once[..|once| - 1] == h[..|h| - 1];
    } else if h == [] {
      assert IsStatusEntry(once[0]);
      assert once[..0] == [];
    }
  }

  // ---------------------------------------------------------------------
  // The shell component's state
  // ---------------------------------------------------------------------

  class Shell {
    var input: string
    var history: seq<ShellEntry>
    var isLoading: bool
    var initialOsInteractionDone: bool

    constructor ()
      ensures input == "" && history == [] && !isLoading && !initialOsInteractionDone
    {
      input := "";
      history := [];
      isLoading := false;
      initialOsInteractionDone := false;
    }

    /** The input field's `onChange`. */
    method SetInput(text: string)
      modifies this`input
      ensures input == text
    {
      input := text;
    }

    /**
     * The synchronous part of `handleCommand`: up to the request. Returns the
     * messages that are posted, or nothing for a blank command. The context
     * is read from the history as it was before this call.
     */
    method StartTurn(commandStr: string, isSystemTriggered: bool, transcript: string, base: string,
                     id: string, time: string) returns (request: Option<seq<Message>>)
      modifies this`history, this`input, this`isLoading
      ensures var command := Trim(commandStr);
        if command == "" then
          request.None? && !isLoading && history == old(history) && input == old(input)
        else
          request == Some(BuildMessages(base, transcript, old(history), command)) &&
          isLoading && input == "" &&
          history == old(history) + (if isSystemTriggered then [] else [ShellEntry(id, Command, command, time)])
      ensures Trim(commandStr) != "" ==> InputDisabled(true) && InputDisabled(false)
    {
      var command := Trim(commandStr);
      if command == "" {
        isLoading := false;
        request := None;
      } else {
        // The request reads the history the turn started from.
        request := Some(BuildMessages(base, transcript, history, command));
        if !isSystemTriggered {
          history := history + [ShellEntry(id, Command, command, time)];
        }
        input := "";
        isLoading := true;
      }
    }

    /** `handleSubmit`: the typed text starts a turn unless one is under way. */
    method Submit(transcript: string, base: string, id: string, time: string) returns (request: Option<seq<Message>>)
      modifies this`history, this`input, this`isLoading
      ensures old(isLoading) ==> request.None? && history == old(history) && isLoading && input == old(input)
      ensures !old(isLoading) && Trim(old(input)) == "" ==> request.None? && history == old(history) && !isLoading
      ensures !old(isLoading) && Trim(old(input)) != "" ==>
        request == Some(BuildMessages(base, transcript, old(history), Trim(old(input)))) &&
        history == old(history) + [ShellEntry(id, Command, Trim(old(input)), time)] && isLoading && input == ""
      ensures request.Some? ==> InputDisabled(true) && InputDisabled(false)
    {
      request := None;
      if !isLoading {
        request := StartTurn(input, false, transcript, base, id, time);
      }
    }

    /**
     * The asynchronous part of `handleCommand`: one entry for the outcome,
     * the forwarded command (given to `onCommandForEnigmaOS`) if any, and the
     * loading flag cleared on every path.
     */
    method CompleteTurn(outcome: Outcome, ready: bool, parse: string -> ParseResult, id: string, time: string)
      returns (forwarded: Option<string>)
      modifies this`history, this`isLoading
      ensures var r := Complete(outcome, ready, parse);
        history == old(history) + [ShellEntry(id, r.entryType, r.text, time)] && forwarded == r.forward
      ensures !isLoading
      ensures !InputDisabled(ready) <==> ready || initialOsInteractionDone
    {
      var r := Complete(outcome, ready, parse);
      history := history + [ShellEntry(id, r.entryType, r.text, time)];
      forwarded := r.forward;
      isLoading := false;
    }

    /**
     * The login effect: once ready and the transcript shows `login:` in any
     * case, a system observation is added and a system-triggered turn starts,
     * at most once.
     */
    method LoginSelfTrigger(ready: bool, transcript: string, base: string, id: string, time: string)
      returns (request: Option<seq<Message>>)
      modifies this`history, this`input, this`isLoading, this`initialOsInteractionDone
      ensures var fires := ready && !old(initialOsInteractionDone) && Contains(Lower(transcript), LoginMarker);
        if fires then
          request == Some(BuildMessages(base, transcript, old(history), LoginRequest)) &&
          history == old(history) + [ShellEntry(id, System, LoginObservation, time)] &&
          isLoading && input == "" && initialOsInteractionDone
        else
          request.None? && history == old(history) && isLoading == old(isLoading) && input == old(input) &&
          initialOsInteractionDone == old(initialOsInteractionDone)
      ensures request.Some? ==> InputDisabled(true) && InputDisabled(false)
    {
      request := None;
      if ready && !initialOsInteractionDone {
        var normalized := Lower(transcript);
        if Contains(normalized, LoginMarker) {
          // The system-triggered turn adds no entry and reads the history
          // as it was before the observation, so it may run first.
          LoginRequestNotBlank();
          request := StartTurn(LoginRequest, true, transcript, base, id, time);
          history := history + [ShellEntry(id, System, LoginObservation, time)];
          initialOsInteractionDone := true;
        }
      }
    }

    /** The status effect. */
    method RefreshStatus(ready: bool, id: string, time: string)
      modifies this`history
      ensures history == Refreshed(old(history), ready, id, time)
    {
      if |history| == 0 {
        history := [ShellEntry(id, System, StatusText(ready), time)];
      } else {
        var last := history[|history| - 1];
        if last.entryType == System && Contains(last.text, StatusMarker) {
          history := history[..|history| - 1] + [last.(text := StatusText(ready))];
        }
      }
    }

    /** The input is disabled while loading, and before the system is ready unless the login turn ran. */
    function InputDisabled(ready: bool): (r: bool)
      reads this
      ensures !r ==> !isLoading && (ready || initialOsInteractionDone)
      ensures isLoading ==> r
      ensures !ready && !initialOsInteractionDone ==> r
    {
      isLoading || (!ready && !initialOsInteractionDone)
    }
  }

  /** The login request is not blank and has no surrounding white space. */
  lemma LoginRequestNotBlank()
    ensures Trim(LoginRequest) == LoginRequest && LoginRequest != ""
  {
    assert LoginRequest[0] == 'L' && LoginRequest[|LoginRequest| - 1] == '.';
    TrimKeepsUnpadded(LoginRequest);
  }
}
