/**
 * Finding a JSON candidate inside a free-text reply of the language model,
 * and the parsed JSON values the front-end inspects.
 *
 * Both the shell and the enigma fetch run the same regular expression over
 * the reply:  ```json\n([\s\S]*?)\n```  |  ({[\s\S]*})
 * A JavaScript regular-expression search tries every start position from the
 * left; at each one it tries the fenced alternative (shortest body) and then
 * the brace alternative (greedy, so up to the LAST '}' of the text). The first
 * start position where either succeeds gives the match.
 */
module JsonText {
  import opened Types
  import opened JsString

  /** A value produced by `JSON.parse`. Objects are kept after duplicate keys were resolved. */
  datatype Json =
    | JNull
    | JBool(b: bool)
    | JNumber(n: real)
    | JString(s: string)
    | JArray(items: seq<Json>)
    | JObject(members: map<string, Json>)

  /** The outcome of `JSON.parse` on a text: a value, or the SyntaxError it throws. */
  datatype ParseResult = Parsed(value: Json) | SyntaxError(message: string)

  /** Reading `value.key` in JavaScript. */
  datatype Property = Throws | Undefined | Found(value: Json)

  function Get(j: Json, key: string): (r: Property)
    ensures r == Throws <==> j == JNull
    ensures r.Found? <==> j.JObject? && key in j.members
    ensures r.Found? ==> r.value == j.members[key]
  {
    match j
    case JNull => Throws
    case JObject(m) => if key in m then Found(m[key]) else Undefined
    case _ => Undefined
  }

  const FenceOpen: string := "```json\n"
  const FenceClose: string := "\n```"

  /** The first position at or after `from` where `p` occurs in `t`. */
  function IndexFrom(t: string, p: string, from: nat): (r: Option<nat>)
    ensures r.Some? ==> from <= r.value && OccursAt(t, p, r.value)
    ensures r.Some? ==> forall j :: from <= j < r.value ==> !OccursAt(t, p, j)
    ensures r.None? ==> forall j :: from <= j ==> !OccursAt(t, p, j)
    decreases |t| - from
  {
    if from + |p| > |t| then None
    else if t[from..from + |p|] == p then Some(from)
    else IndexFrom(t, p, from + 1)
  }

  /** The last position of `c` in `t`. */
  function LastIndex(t: string, c: char): (r: Option<nat>)
    ensures r.Some? ==> r.value < |t| && t[r.value] == c
    ensures r.Some? ==> forall j :: r.value < j < |t| ==> t[j] != c
    ensures r.None? ==> forall j :: 0 <= j < |t| ==> t[j] != c
  {
    if |t| == 0 then None
    else if t[|t| - 1] == c then Some(|t| - 1)
    else LastIndex(t[..|t| - 1], c)
  }

  /** What the regular expression captured: group 1 (fenced body) or group 2 (braces). */
  datatype Capture = Fenced(body: string) | Braced(text: string)

  /** The match of the regular expression when tried at start position `i`. */
  function MatchAt(t: string, i: nat): (r: Option<Capture>)
    ensures r.Some? && r.value.Fenced? ==>
      OccursAt(t, FenceOpen + r.value.body + FenceClose, i) &&
      forall j :: i + |FenceOpen| <= j < i + |FenceOpen| + |r.value.body| ==> !OccursAt(t, FenceClose, j)
    ensures r.Some? && r.value.Braced? ==>
      var x := r.value.text;
      OccursAt(t, x, i) && |x| >= 2 && x[0] == '{' && x[|x| - 1] == '}' &&
      forall j :: i + |x| <= j < |t| ==> t[j] != '}'
    ensures r.None? <==>
      (i + |FenceOpen| > |t| || t[i..i + |FenceOpen|] != FenceOpen ||
       IndexFrom(t, FenceClose, i + |FenceOpen|).None?) &&
      (i >= |t| || t[i] != '{' || LastIndex(t, '}').None? || LastIndex(t, '}').value <= i)
  {
    var open := i + |FenceOpen|;
    if open <= |t| && t[i..open] == FenceOpen && IndexFrom(t, FenceClose, open).Some? then
      var close := IndexFrom(t, FenceClose, open).value;
      assert t[i..close + |FenceClose|] == FenceOpen + t[open..close] + FenceClose;
      Some(Fenced(t[open..close]))
    else if i < |t| && t[i] == '{' && LastIndex(t, '}').Some? && LastIndex(t, '}').value > i then
      Some(Braced(t[i..LastIndex(t, '}').value + 1]))
    else
      None
  }

  /** The leftmost match at a start position `i` or later, with that position. */
  function MatchFrom(t: string, i: nat): (r: Option<(nat, Capture)>)
    ensures r.Some? ==> i <= r.value.0 && MatchAt(t, r.value.0) == Some(r.value.1)
    ensures r.Some? ==> forall j :: i <= j < r.value.0 ==> MatchAt(t, j).None?
    ensures r.None? ==> forall j :: i <= j ==> MatchAt(t, j).None?
    decreases |t| - i
  {
    if i >= |t| then
      assert forall j :: i <= j ==> MatchAt(t, j).None?;
      None
    else if MatchAt(t, i).Some? then Some((i, MatchAt(t, i).value))
    else MatchFrom(t, i + 1)
  }

  /** `t.match(...)`: the leftmost match of the regular expression, if any. */
  function FindJson(t: string): Option<(nat, Capture)> {
    MatchFrom(t, 0)
  }

  /** A JavaScript value that is either a string or `undefined`. */
  datatype JsValue = Str(s: string) | Undef

  /**
   * The reply text after `if (jsonMatch) raw = jsonMatch[1] || jsonMatch[2]`,
   * AS WRITTEN: an empty fenced body is falsy and group 2 did not take part in
   * the match, so the reply becomes `undefined`.
   */
  function MatchReplyAsWritten(t: string): (r: JsValue)
    ensures r == Undef <==> FindJson(t).Some? && FindJson(t).value.1 == Fenced("")
  {
    match FindJson(t)
    case None => Str(t)
    case Some((_, Fenced(body))) => if body == "" then Undef else Str(body)
    case Some((_, Braced(text))) => Str(text)
  }

  /**
   * The reply text after the match, as evidently intended: the capture of the
   * alternative that matched (possibly empty), or the whole text when nothing
   * matched.
   */
  function MatchReply(t: string): (r: string)
    ensures FindJson(t).None? ==> r == t
    ensures Contains(t, r)
  {
    match FindJson(t)
    case None => assert OccursAt(t, t, 0); t
    case Some((i, Fenced(body))) =>
      assert t[i + |FenceOpen|..i + |FenceOpen| + |body|] == body by {
        assert t[i..i + |FenceOpen + body + FenceClose|] == FenceOpen + body + FenceClose;
      }
      assert OccursAt(t, body, i + |FenceOpen|);
      body
    case Some((i, Braced(text))) => text
  }

  /** The corrected reply agrees with the code as written wherever the latter is a string. */
  lemma MatchReplyAgrees(t: string)
    ensures MatchReplyAsWritten(t).Str? ==> MatchReplyAsWritten(t).s == MatchReply(t)
    ensures MatchReplyAsWritten(t).Undef? ==> MatchReply(t) == ""
  {
  }

  /** A reply whose fenced block is empty turns into `undefined` in the code as written. */
  lemma EmptyFenceReplyUndefined()
    ensures MatchReplyAsWritten("```json\n\n```") == Undef
    ensures MatchReply("```json\n\n```") == ""
  {
    var t := "```json\n\n```";
    assert t[0..8] == FenceOpen;
    assert t[8..12] == FenceClose;
    assert IndexFrom(t, FenceClose, 8) == Some(8);
    assert MatchAt(t, 0) == Some(Fenced(""));
  }

  /** Start positions holding neither '{' nor '`' never match. */
  lemma {:induction false} SkipNonStarts(t: string, i: nat, k: nat)
    requires i <= k <= |t|
    requires forall j :: i <= j < k ==> t[j] != '{' && t[j] != '`'
    ensures MatchFrom(t, i) == MatchFrom(t, k)
    decreases k - i
  {
    if i < k {
      assert t[i] != FenceOpen[0];
      assert MatchAt(t, i).None? by {
        if i + |FenceOpen| <= |t| { assert t[i..i + |FenceOpen|][0] == t[i]; }
      }
      SkipNonStarts(t, i + 1, k);
    }
  }

  /** The first closing fence after a fenced object text is the one right after it. */
  lemma FenceClosesAfterObject(t: string, open: nat, json: string)
    requires open + |json| + |FenceClose| <= |t|
    requires t[open..open + |json|] == json && t[open + |json|..open + |json| + |FenceClose|] == FenceClose
    requires |json| > 0 && json[|json| - 1] == '}'
    requires !Contains(json, FenceClose)
    ensures IndexFrom(t, FenceClose, open) == Some(open + |json|)
  {
    var close := open + |json|;
    assert forall k :: 0 <= k < |json| ==> t[open + k] == t[open..close][k] == json[k];
    forall j | open <= j < close
      ensures !OccursAt(t, FenceClose, j)
    {
      if j + |FenceClose| <= close {
        assert t[j..j + |FenceClose|] == json[j - open..j - open + |FenceClose|];
        assert !OccursAt(json, FenceClose, j - open);
      } else {
        assert t[close - 1] == json[|json| - 1];
        assert j + |FenceClose| <= |t| ==> t[j..j + |FenceClose|][close - 1 - j] == t[close - 1];
      }
    }
    assert OccursAt(t, FenceClose, close);
  }

  /**
   * A JSON object text sent inside a ```json fence is extracted exactly, even
   * when arbitrary text follows the fence.
   */
  lemma FencedJsonExtracts(prefix: string, json: string, suffix: string)
    requires forall j :: 0 <= j < |prefix| ==> prefix[j] != '{' && prefix[j] != '`'
    requires |json| > 0 && json[0] == '{' && json[|json| - 1] == '}'
    requires !Contains(json, FenceClose)
    ensures MatchReply(prefix + FenceOpen + json + FenceClose + suffix) == json
  {
    var t := prefix + FenceOpen + json + FenceClose + suffix;
    var i := |prefix|;
    var open := i + |FenceOpen|;
    var close := open + |json|;
    assert t[i..open] == FenceOpen;
    assert t[open..close] == json;
    assert t[close..close + |FenceClose|] == FenceClose;
    FenceClosesAfterObject(t, open, json);
    assert MatchAt(t, i) == Some(Fenced(json));
    SkipNonStarts(t, 0, i);
  }

  /**
   * The same JSON object text sent bare is extracted exactly too, provided no
   * '}' follows it.
   */
  lemma BareJsonExtracts(prefix: string, json: string, suffix: string)
    requires forall j :: 0 <= j < |prefix| ==> prefix[j] != '{' && prefix[j] != '`'
    requires |json| > 0 && json[0] == '{' && json[|json| - 1] == '}'
    requires forall j :: 0 <= j < |suffix| ==> suffix[j] != '}'
    ensures MatchReply(prefix + json + suffix) == json
  {
    var t := prefix + json + suffix;
    var i := |prefix|;
    var end := i + |json|;
    assert t[end - 1] == '}';
    assert forall j :: end <= j < |t| ==> t[j] == suffix[j - end];
    assert LastIndex(t, '}') == Some(end - 1);
    assert t[i..end] == json;
    assert t[i] != FenceOpen[0];
    assert i + |FenceOpen| <= |t| ==> t[i..i + |FenceOpen|][0] == t[i];
    assert MatchAt(t, i) == Some(Braced(json));
    SkipNonStarts(t, 0, i);
  }

  /**
   * There is no preference for the fenced form: a '{' that starts earlier than
   * the fence wins, and the capture runs to the last '}'.
   */
  lemma EarlierBraceBeatsFence()
    ensures MatchReply("{a} ```json\n{}\n```") == "{a} ```json\n{}"
  {
    var t := "{a} ```json\n{}\n```";
    assert t[0] != FenceOpen[0];
    assert t[13] == '}' && forall j :: 13 < j < |t| ==> t[j] != '}';
    assert LastIndex(t, '}') == Some(13);
    assert t[0..14] == "{a} ```json\n{}";
    assert MatchAt(t, 0) == Some(Braced("{a} ```json\n{}"));
  }
}
