/**
 * The conversational colour-analysis service: `chat` sends one prompt built from a
 * persona, the earlier turns and the new message to the language-model endpoint
 * (retrying once on status 503), and `analyzeColorType` scans a conversation backwards
 * for the latest advisor turn whose text holds a parseable analysis.
 *
 * The endpoint is given as the list of its answers to successive calls, and `JSON.parse`
 * as a function `parse` that yields `None` where it would throw.
 */
module GeminiService {
  import opened Wrappers
  import opened Text
  import opened Js

  /** The literal the model writes when its analysis is complete. */
  const SENTINEL: string := "SZÍNANALÍZIS_KÉSZ"
  const CONVERSATION_HEADER: string := "\n\nBeszélgetés:\n"
  const USER_LABEL: string := "Felhasználó: "
  const ADVISOR_LABEL: string := "Színtanácsadó: "
  const FENCE: string := "```"
  const INVALID_HISTORY: string := "Invalid conversation history"
  const NOT_FOUND_MESSAGE: string := "No analysis JSON found in conversation history"

  // ---------------------------------------------------------------- chat

  /** The outcome of one `generateContent` call: the response text, or a thrown error. */
  datatype Reply = Completion(text: string) | Failure(status: Value, message: string)

  /** `{success: true, response, shouldAnalyze}` or `{success: false, error: 'CHAT_FAILED', message}`. */
  datatype ChatResult =
    | ChatOk(response: string, shouldAnalyze: bool)
      // `message` is None for the TypeError thrown while building the prompt, whose text is not modelled
    | ChatFailed(message: Option<string>)
  {
    /** The result as the object the service returns. */
    function Fields(): map<string, Value> {
      match this
      case ChatOk(t, b) => map["success" := Bool(true), "response" := Str(t), "shouldAnalyze" := Bool(b)]
      case ChatFailed(m) =>
        var base := map["success" := Bool(false), "error" := Str("CHAT_FAILED")];
        if m.Some? then base["message" := Str(m.value)] else base
    }
  }

  /** Only an error whose `status` is exactly the number 503 is retried. */
  predicate Retryable(reply: Reply) {
    reply.Failure? && reply.status == Num(503)
  }

  /** The prompt line for one earlier turn; turns of any role other than `user` and `assistant` add nothing. */
  function TurnLine(turn: Value): string {
    var role := Prop(turn, "role");
    if role == Str("user") then USER_LABEL + ToStr(Prop(turn, "content")) + "\n"
    else if role == Str("assistant") then ADVISOR_LABEL + ToStr(Prop(turn, "content")) + "\n"
    else ""
  }

  /** The concatenated lines `line` gives for the first `n` turns, in conversation order. */
  function Render(line: Value -> string, turns: seq<Value>, n: nat): string
    requires n <= |turns|
  {
    if n == 0 then "" else Render(line, turns, n - 1) + line(turns[n - 1])
  }

  /** The lines of all earlier turns, in conversation order. */
  function FormatTurns(turns: seq<Value>): string {
    Render(TurnLine, turns, |turns|)
  }

  /** `forEach` over the history only completes when it is an array without `null`/`undefined` entries. */
  predicate PromptBuildable(history: Value) {
    history.Arr? && forall i :: 0 <= i < |history.items| ==> !Nullish(history.items[i])
  }

  /** The complete prompt: persona, header, earlier turns, the new message and the advisor label awaiting a reply. */
  function Prompt(systemPrompt: string, turns: seq<Value>, message: Value): string {
    systemPrompt + CONVERSATION_HEADER + FormatTurns(turns) + USER_LABEL + ToStr(message) + "\n" + ADVISOR_LABEL
  }

  /** Rendering the first `n` turns only looks at those turns. */
  lemma {:induction false} RenderPrefix(line: Value -> string, a: seq<Value>, b: seq<Value>, n: nat)
    requires n <= |a| && n <= |b| && a[..n] == b[..n]
    ensures Render(line, a, n) == Render(line, b, n)
  {
    if n > 0 {
      assert a[n - 1] == a[..n][n - 1] == b[..n][n - 1] == b[n - 1];
      assert a[..n - 1] == a[..n][..n - 1];
      assert b[..n - 1] == b[..n][..n - 1];
      RenderPrefix(line, a, b, n - 1);
    }
  }

  /** Rendering a conversation renders its parts, in order. */
  lemma {:induction false} RenderAppend(line: Value -> string, a: seq<Value>, b: seq<Value>)
    decreases |b|
    ensures Render(line, a + b, |a + b|) == Render(line, a, |a|) + Render(line, b, |b|)
  {
    if |b| == 0 {
      assert a + b == a;
    } else {
      var b' := b[..|b| - 1];
      RenderAppend(line, a, b');
      assert (a + b)[..|a + b'|] == (a + b')[..|a + b'|];
      RenderPrefix(line, a + b, a + b', |a + b'|);
      assert b[..|b'|] == b'[..|b'|];
      RenderPrefix(line, b, b', |b'|);
      assert (a + b)[|a + b| - 1] == b[|b| - 1];
    }
  }

  /** Appending one turn appends its line. */
  lemma FormatTurnsSnoc(a: seq<Value>, turn: Value)
    ensures FormatTurns(a + [turn]) == FormatTurns(a) + TurnLine(turn)
  {
    RenderAppend(TurnLine, a, [turn]);
    RenderOne(TurnLine, turn);
  }

  lemma RenderOne(line: Value -> string, turn: Value)
    ensures Render(line, [turn], 1) == line(turn)
  {
    RenderStep(line, [turn], 0);
  }

  lemma RenderStep(line: Value -> string, turns: seq<Value>, n: nat)
    requires n < |turns|
    ensures Render(line, turns, n + 1) == Render(line, turns, n) + line(turns[n])
  {
  }

  /** A turn whose role is neither `user` nor `assistant` leaves no trace in the prompt. */
  lemma FormatTurnsSkipsOtherRoles(a: seq<Value>, turn: Value, b: seq<Value>)
    requires Prop(turn, "role") != Str("user") && Prop(turn, "role") != Str("assistant")
    ensures FormatTurns(a + [turn] + b) == FormatTurns(a + b)
  {
    RenderAppend(TurnLine, a + [turn], b);
    FormatTurnsSnoc(a, turn);
    RenderAppend(TurnLine, a, b);
  }

  /** A user turn adds exactly `Felhasználó: <content>` and an advisor turn `Színtanácsadó: <content>`, each on its own line. */
  lemma FormatTurnsOneMore(a: seq<Value>, turn: Value)
    ensures Prop(turn, "role") == Str("user") ==>
      FormatTurns(a + [turn]) == FormatTurns(a) + USER_LABEL + ToStr(Prop(turn, "content")) + "\n"
    ensures Prop(turn, "role") == Str("assistant") ==>
      FormatTurns(a + [turn]) == FormatTurns(a) + ADVISOR_LABEL + ToStr(Prop(turn, "content")) + "\n"
  {
    FormatTurnsSnoc(a, turn);
  }

  /**
   * The `forEach` that accumulates the prompt; it throws (ok is false) on a history that
   * is not an array or holds a nullish turn.
   */
  method BuildPrompt(systemPrompt: string, message: Value, history: Value) returns (ok: bool, prompt: string)
    ensures ok <==> PromptBuildable(history)
    ensures ok ==> prompt == Prompt(systemPrompt, history.items, message)
  {
    if !history.Arr? {
      return false, "";
    }
    var turns := history.items;
    var head := systemPrompt + CONVERSATION_HEADER;
    prompt := head;
    for i := 0 to |turns|
      invariant forall j :: 0 <= j < i ==> !Nullish(turns[j])
      invariant prompt == head + Render(TurnLine, turns, i)
    {
      var msg := turns[i];
      if Nullish(msg) {
        return false, "";
      }
      RenderStep(TurnLine, turns, i);
      ConcatAssoc(head, Render(TurnLine, turns, i), TurnLine(msg));
      prompt := AppendTurn(prompt, msg);
    }
    prompt := prompt + USER_LABEL + ToStr(message) + "\n" + ADVISOR_LABEL;
    ok := true;
  }

  /** One step of the `forEach`: a user or advisor turn appends its labelled line, any other role nothing. */
  method AppendTurn(prompt: string, msg: Value) returns (r: string)
    ensures r == prompt + TurnLine(msg)
  {
    r := prompt;
    if Prop(msg, "role") == Str("user") {
      r := r + USER_LABEL + ToStr(Prop(msg, "content")) + "\n";
    } else if Prop(msg, "role") == Str("assistant") {
      r := r + ADVISOR_LABEL + ToStr(Prop(msg, "content")) + "\n";
    }
  }

  /** `conversationHistory = []`: the default parameter applies when the argument is `undefined`. */
  function HistoryArg(history: Value): (r: Value)
    ensures history != Undefined ==> r == history
    ensures history == Undefined ==> r == Arr([])
  {
    if history == Undefined then Arr([]) else history
  }

  /** The endpoint completes on the first call, or on the retry after a 503. */
  predicate Answered(replies: seq<Reply>)
    requires |replies| == 2
  {
    replies[0].Completion? || (Retryable(replies[0]) && replies[1].Completion?)
  }

  /**
   * `chat(message, history)`. `replies` are the endpoint's answers to a first and a second
   * call; `calls` lists the prompts actually sent. The 800 ms pause before the retry is not
   * modelled.
   */
  method Chat(systemPrompt: string, message: Value, history: Value, replies: seq<Reply>)
    returns (r: ChatResult, calls: seq<string>)
    requires |replies| == 2
    ensures !PromptBuildable(HistoryArg(history)) ==> r == ChatFailed(None) && calls == []
    ensures PromptBuildable(HistoryArg(history)) ==> 1 <= |calls| <= 2
    ensures forall c :: c in calls ==> c == Prompt(systemPrompt, HistoryArg(history).items, message)
    ensures |calls| == 2 <==> PromptBuildable(HistoryArg(history)) && Retryable(replies[0])
    ensures r.ChatOk? <==> PromptBuildable(HistoryArg(history)) && Answered(replies)
    ensures r.ChatOk? ==> replies[|calls| - 1].Completion? && r.response == replies[|calls| - 1].text
    ensures r.ChatOk? ==> (r.shouldAnalyze <==> Contains(r.response, SENTINEL))
    ensures r.ChatFailed? && PromptBuildable(HistoryArg(history)) ==> r.message == Some(replies[|calls| - 1].message)
  {
    var ok, prompt := BuildPrompt(systemPrompt, message, HistoryArg(history));
    calls := [];
    if !ok {
      return ChatFailed(None), calls;
    }
    var text := "";
    var attempts := 0;
    while attempts < 2
      invariant 0 <= attempts <= 1
      invariant |calls| == attempts && forall c :: c in calls ==> c == prompt
      invariant attempts == 1 ==> Retryable(replies[0])
      decreases 2 - attempts
    {
      var reply := replies[attempts];
      calls := calls + [prompt];
      if reply.Completion? {
        text := reply.text;
        break;
      }
      attempts := attempts + 1;
      if Retryable(reply) && attempts < 2 {
        continue;
      }
      return ChatFailed(Some(reply.message)), calls;
    }
    r := ChatOk(text, Contains(text, SENTINEL));
  }

  // ------------------------------------------------------- analysis extraction

  /** `{success: true, analysis}`, `ANALYSIS_NOT_FOUND`, or `ANALYSIS_FAILED` with the thrown message. */
  datatype Analysis = Found(analysis: Value) | NotFound | Failed(message: string) {
    function Fields(): map<string, Value> {
      match this
      case Found(a) => map["success" := Bool(true), "analysis" := a]
      case NotFound =>
        map["success" := Bool(false), "error" := Str("ANALYSIS_NOT_FOUND"), "message" := Str(NOT_FOUND_MESSAGE)]
      case Failed(m) => map["success" := Bool(false), "error" := Str("ANALYSIS_FAILED"), "message" := Str(m)]
    }
  }

  /** A turn worth parsing: a truthy advisor turn with truthy content that mentions the sentinel or a `{`. */
  predicate IsCandidate(turn: Value) {
    Truthy(turn) && Prop(turn, "role") == Str("assistant") && Truthy(Prop(turn, "content"))
    && (Contains(ToStr(Prop(turn, "content")), SENTINEL) || Contains(ToStr(Prop(turn, "content")), "{"))
  }

  /** `content.split(SENTINEL).slice(1).join(SENTINEL)` when the sentinel occurs, else the content itself. */
  function AfterSentinel(content: string): string {
    if Contains(content, SENTINEL) then Join(Split(content, SENTINEL)[1..], SENTINEL) else content
  }

  /** The text after the first sentinel, later sentinels included; all of it when there is none. */
  lemma AfterSentinelIsSuffix(content: string)
    ensures IndexOf(content, SENTINEL).None? ==> AfterSentinel(content) == content
    ensures IndexOf(content, SENTINEL).Some? ==>
      AfterSentinel(content) == content[IndexOf(content, SENTINEL).value + |SENTINEL|..]
  {
    if Contains(content, SENTINEL) {
      AfterFirstOccurrence(content, SENTINEL, IndexOf(content, SENTINEL).value);
    }
  }

  /** The length of whitespace at the front of `s`. */
  function SpaceRun(s: string): (n: nat)
    ensures n <= |s|
  {
    if s != [] && IsJsSpace(s[0]) then 1 + SpaceRun(s[1..]) else 0
  }

  /** The length of a match of /```\s*json/i at the start of `s`, if there is one. */
  function JsonFenceLength(s: string): (r: Option<nat>)
    ensures r.Some? ==> 7 <= r.value <= |s| && s[..3] == FENCE
  {
    if |s| >= 3 && s[..3] == FENCE then
      var n := 3 + SpaceRun(s[3..]);
      if n + 4 <= |s| && ToLowerAscii(s[n..n + 4]) == "json" then Some(n + 4) else None
    else None
  }

  /** `s.replace(/```\s*json/gi, '')`: every match removed, scanning left to right. */
  function StripJsonFences(s: string): (r: string)
    decreases |s|
    ensures |r| <= |s|
  {
    if s == [] then []
    else match JsonFenceLength(s)
      case Some(n) => StripJsonFences(s[n..])
      case None => [s[0]] + StripJsonFences(s[1..])
  }

  /** The cleanup: language-tagged fences removed, then bare fences, then surrounding whitespace. */
  function StripFences(s: string): (r: string)
    ensures r == [] || (!IsJsSpace(r[0]) && !IsJsSpace(r[|r| - 1]))
  {
    var t := ReplaceAll(StripJsonFences(s), FENCE, "");
    TrimStartDropsLeadingSpace(t);
    TrimEndDropsTrailingSpace(TrimStart(t));
    TrimEndKeepsFront(TrimStart(t));
    Trim(t)
  }

  /** Text without backticks passes through the fence removal untouched. */
  lemma {:induction false} StripJsonFencesKeeps(x: string, rest: string)
    requires '`' !in x
    ensures StripJsonFences(x + rest) == x + StripJsonFences(rest)
  {
    if x != [] {
      var s := x + rest;
      assert JsonFenceLength(s).None? by {
        assert s[0] == x[0] && x[0] in x;
      }
      assert StripJsonFences(s) == [x[0]] + StripJsonFences(s[1..]);
      assert s[1..] == x[1..] + rest;
      StripJsonFencesKeeps(x[1..], rest);
      assert x == [x[0]] + x[1..];
    } else {
      assert x + rest == rest;
    }
  }

  /** A bare fence is not a language-tagged one. */
  lemma BareFenceKept()
    ensures StripJsonFences(FENCE) == FENCE
  {
    assert JsonFenceLength(FENCE).None?;
    assert FENCE[1..] == "``";
    assert JsonFenceLength("``").None?;
    assert "``"[1..] == "`";
    assert JsonFenceLength("`").None?;
    assert "`"[1..] == "";
  }

  /** An opening "```json" is removed as a whole. */
  lemma JsonFenceRemoved(rest: string)
    ensures StripJsonFences(FENCE + "json" + rest) == StripJsonFences(rest)
  {
    var s := FENCE + "json" + rest;
    assert s[3..][0] == 'j';
    assert SpaceRun(s[3..]) == 0;
    assert s[3..7] == "json";
    assert ToLowerAscii("json") == "json";
    assert JsonFenceLength(s) == Some(7);
    assert s[7..] == rest;
  }

  /** Whitespace never contains a backtick. */
  lemma SpaceHasNoBacktick(w: string)
    requires AllSpace(w)
    ensures '`' !in w
  {
  }

  /** Without any backtick the cleanup is just `trim`. */
  lemma StripFencesWithoutBackticks(s: string)
    requires '`' !in s
    ensures StripFences(s) == Trim(s)
  {
    StripJsonFencesKeeps(s, "");
    assert s + "" == s;
    SplitFree(s, FENCE);
    ReplaceAllIsSplitJoin(s, FENCE, "");
  }

  /**
   * A payload fenced as a JSON code block (surrounding whitespace allowed inside the fence)
   * comes out of the cleanup as exactly the payload, and a payload that is one `{...}` object
   * text is its own brace candidate.
   */
  lemma FencedPayloadCleaned(w1: string, p: string, w2: string)
    requires AllSpace(w1) && AllSpace(w2) && '`' !in p
    requires |p| >= 2 && p[0] == '{' && p[|p| - 1] == '}'
    ensures StripFences(FENCE + "json" + w1 + p + w2 + FENCE) == p
    ensures BraceCandidate(p) == p
  {
    var body := w1 + p + w2;
    assert '`' !in body by {
      SpaceHasNoBacktick(w1);
      SpaceHasNoBacktick(w2);
    }
    assert StripJsonFences(FENCE + "json" + w1 + p + w2 + FENCE) == body + FENCE by {
      assert FENCE + "json" + w1 + p + w2 + FENCE == FENCE + "json" + (body + FENCE);
      JsonFenceRemoved(body + FENCE);
      StripJsonFencesKeeps(body, FENCE);
      BareFenceKept();
    }
    assert ReplaceAll(body + FENCE, FENCE, "") == body by {
      SplitAtTrailing(body, FENCE);
      ReplaceAllIsSplitJoin(body + FENCE, FENCE, "");
      assert Join([body, ""], "") == body;
    }
    TrimPadded(w1, p, w2);
    assert LastIndex(p, '}') == Some(|p| - 1);
  }

  /** The first index of `c` in `s`. */
  function FirstIndex(s: string, c: char): (r: Option<nat>)
    ensures r.Some? ==> r.value < |s| && s[r.value] == c
  {
    if s == [] then None
    else if s[0] == c then Some(0)
    else match FirstIndex(s[1..], c)
      case None => None
      case Some(i) => Some(i + 1)
  }

  /** The last index of `c` in `s`. */
  function LastIndex(s: string, c: char): (r: Option<nat>)
    ensures r.Some? ==> r.value < |s| && s[r.value] == c
  {
    if s == [] then None
    else if s[|s| - 1] == c then Some(|s| - 1)
    else LastIndex(s[..|s| - 1], c)
  }

  /** `FirstIndex` finds the first `c`, and finds nothing only when there is none. */
  lemma {:induction false} FirstIndexIsFirst(s: string, c: char)
    ensures FirstIndex(s, c).Some? ==> s[FirstIndex(s, c).value] == c
    ensures FirstIndex(s, c).Some? ==> forall k :: 0 <= k < FirstIndex(s, c).value ==> s[k] != c
    ensures FirstIndex(s, c).None? ==> forall k :: 0 <= k < |s| ==> s[k] != c
  {
    if s != [] && s[0] != c {
      FirstIndexIsFirst(s[1..], c);
      assert forall k :: 1 <= k < |s| ==> s[k] == s[1..][k - 1];
    }
  }

  /** `LastIndex` finds the last `c`, and finds nothing only when there is none. */
  lemma {:induction false} LastIndexIsLast(s: string, c: char)
    ensures LastIndex(s, c).Some? ==> s[LastIndex(s, c).value] == c
    ensures LastIndex(s, c).Some? ==> forall k :: LastIndex(s, c).value < k < |s| ==> s[k] != c
    ensures LastIndex(s, c).None? ==> forall k :: 0 <= k < |s| ==> s[k] != c
  {
    if s != [] && s[|s| - 1] != c {
      LastIndexIsLast(s[..|s| - 1], c);
    }
  }

  /** Some `{` is followed, later in `s`, by a `}`: the pattern /\{[\s\S]*\}/ matches. */
  predicate HasBracePair(s: string) {
    exists i, j :: 0 <= i < j < |s| && s[i] == '{' && s[j] == '}'
  }

  /** The greedy match of /\{[\s\S]*\}/: from the first `{` to the last `}`; the whole text when there is no match. */
  function BraceCandidate(s: string): (r: string)
    ensures |r| <= |s|
    ensures r == s || (2 <= |r| && r[0] == '{' && r[|r| - 1] == '}')
  {
    match FirstIndex(s, '{')
    case None => s
    case Some(i) =>
      match LastIndex(s, '}')
      case None => s
      case Some(j) =>
        if i < j then s[i..j + 1]
        else s
  }

  /** The candidate is the whole text when the pattern does not match, else the span from the first `{` to the last `}`. */
  lemma BraceCandidateIsGreedyMatch(s: string)
    ensures !HasBracePair(s) ==> BraceCandidate(s) == s
    ensures HasBracePair(s) ==>
      exists i, j :: 0 <= i < j < |s| && BraceCandidate(s) == s[i..j + 1] && s[i] == '{' && s[j] == '}'
                     && (forall k :: 0 <= k < i ==> s[k] != '{') && (forall k :: j < k < |s| ==> s[k] != '}')
  {
    FirstIndexIsFirst(s, '{');
    LastIndexIsLast(s, '}');
    match FirstIndex(s, '{')
    case None =>
    case Some(i) =>
      match LastIndex(s, '}')
      case None =>
      case Some(j) =>
        if i < j {
          assert BraceCandidate(s) == s[i..j + 1];
          assert 0 <= i < j < |s| && s[i] == '{' && s[j] == '}'
                 && (forall k :: 0 <= k < i ==> s[k] != '{') && (forall k :: j < k < |s| ==> s[k] != '}');
        } else {
          assert !HasBracePair(s);
        }
  }

  /** The text handed to `JSON.parse` for a candidate turn's content. */
  function JsonText(content: string): string {
    BraceCandidate(StripFences(AfterSentinel(content)))
  }

  /**
   * A reply of the shape the persona asks for — any text without the sentinel's first letter,
   * the sentinel, then a JSON code block holding one object — hands exactly that object's
   * text to `JSON.parse`.
   */
  lemma SentinelReplyParsesPayload(prefix: string, w1: string, p: string, w2: string)
    requires SENTINEL[0] !in prefix
    requires AllSpace(w1) && AllSpace(w2) && '`' !in p
    requires |p| >= 2 && p[0] == '{' && p[|p| - 1] == '}'
    ensures JsonText(prefix + SENTINEL + (FENCE + "json" + w1 + p + w2 + FENCE)) == p
  {
    var block := FENCE + "json" + w1 + p + w2 + FENCE;
    var content := prefix + SENTINEL + block;
    IndexOfAfterFreePrefix(prefix, SENTINEL, block, 0);
    AfterSentinelIsSuffix(content);
    assert content[|prefix| + |SENTINEL|..] == block;
    FencedPayloadCleaned(w1, p, w2);
  }

  /**
   * What happens after a successful parse: a `null`/`undefined` result throws on `.season`;
   * otherwise `season` becomes the lower-cased `String(primary_season)` when it is falsy and
   * `primary_season` is truthy, and the value is kept as it is in every other case.
   */
  function Normalize(parsed: Value): (r: Option<Value>)
    ensures r.None? <==> Nullish(parsed)
    ensures r.Some? ==> !Nullish(r.value)
    ensures Truthy(Prop(parsed, "season")) ==> r == Some(parsed)
  {
    if Nullish(parsed) then None
    else if !Truthy(Prop(parsed, "season")) && Truthy(Prop(parsed, "primary_season")) then
      Some(Obj(parsed.fields["season" := Str(ToLowerAscii(ToStr(Prop(parsed, "primary_season"))))]))
    else Some(parsed)
  }

  /**
   * Normalisation fails only on `null`/`undefined`; it only ever touches `season`, which ends up
   * truthy whenever `season` or `primary_season` was, and otherwise keeps the value as it is.
   */
  lemma NormalizeOnlySetsSeason(parsed: Value)
    ensures Normalize(parsed).None? <==> Nullish(parsed)
    ensures Normalize(parsed).Some? ==> (Normalize(parsed).value.Obj? <==> parsed.Obj?)
    ensures Normalize(parsed).Some? && parsed.Obj? ==>
      forall k :: k != "season" ==>
        (k in Normalize(parsed).value.fields <==> k in parsed.fields)
        && (k in parsed.fields ==> Normalize(parsed).value.fields[k] == parsed.fields[k])
    ensures Normalize(parsed).Some? ==>
      Prop(Normalize(parsed).value, "season") ==
        if !Truthy(Prop(parsed, "season")) && Truthy(Prop(parsed, "primary_season"))
        then Str(ToLowerAscii(ToStr(Prop(parsed, "primary_season"))))
        else Prop(parsed, "season")
    ensures Normalize(parsed).Some? && (Truthy(Prop(parsed, "season")) || !Truthy(Prop(parsed, "primary_season"))) ==>
      Normalize(parsed).value == parsed
  {
  }

  /** The analysis one turn yields, if any: candidate test, cleanup, parse and normalisation. */
  function TryTurn(turn: Value, parse: string -> Option<Value>): (r: Option<Value>)
    ensures r.Some? ==> IsCandidate(turn) && !Nullish(r.value)
  {
    if !IsCandidate(turn) then None
    else match parse(JsonText(ToStr(Prop(turn, "content"))))
      case None => None
      case Some(v) => Normalize(v)
  }

  /** What each turn yields under a given `JSON.parse`. */
  function Outcome(parse: string -> Option<Value>): Value -> Option<Value> {
    turn => TryTurn(turn, parse)
  }

  /** The backward scan over `turns[..n]`: what the latest turn that yields anything yields. */
  function Latest(outcome: Value -> Option<Value>, turns: seq<Value>, n: nat): Option<Value>
    requires n <= |turns|
  {
    if n == 0 then None
    else match outcome(turns[n - 1])
      case Some(a) => Some(a)
      case None => Latest(outcome, turns, n - 1)
  }

  /** The scan finds nothing iff no turn yields anything. */
  lemma {:induction false} LatestNoneIffNothingFound(outcome: Value -> Option<Value>, turns: seq<Value>, n: nat)
    requires n <= |turns|
    ensures Latest(outcome, turns, n).None? <==> forall j :: 0 <= j < n ==> outcome(turns[j]).None?
  {
    if n > 0 {
      LatestNoneIffNothingFound(outcome, turns, n - 1);
    }
  }

  /** What the scan finds is what some turn yields, and every later turn yields nothing. */
  lemma {:induction false} LatestIsMostRecent(outcome: Value -> Option<Value>, turns: seq<Value>, n: nat)
    requires n <= |turns|
    ensures Latest(outcome, turns, n).Some? ==>
      exists k :: 0 <= k < n && outcome(turns[k]) == Latest(outcome, turns, n)
                 && forall j :: k < j < n ==> outcome(turns[j]).None?
  {
    if n > 0 && outcome(turns[n - 1]).None? && Latest(outcome, turns, n).Some? {
      LatestIsMostRecent(outcome, turns, n - 1);
      var k :| 0 <= k < n - 1 && outcome(turns[k]) == Latest(outcome, turns, n - 1)
               && forall j :: k < j < n - 1 ==> outcome(turns[j]).None?;
      assert forall j :: k < j < n ==> outcome(turns[j]).None?;
    }
  }

  /** The scan of the first n turns only looks at those turns. */
  lemma {:induction false} LatestPrefixEqual(outcome: Value -> Option<Value>, a: seq<Value>, b: seq<Value>, n: nat)
    requires n <= |a| && n <= |b| && a[..n] == b[..n]
    ensures Latest(outcome, a, n) == Latest(outcome, b, n)
  {
    if n > 0 {
      assert a[n - 1] == a[..n][n - 1] == b[..n][n - 1] == b[n - 1];
      assert a[..n - 1] == a[..n][..n - 1];
      assert b[..n - 1] == b[..n][..n - 1];
      LatestPrefixEqual(outcome, a, b, n - 1);
    }
  }

  /** Later turns that outcome nothing do not change what the scan finds. */
  lemma {:induction false} LatestIgnoresLaterFailures(outcome: Value -> Option<Value>, turns: seq<Value>, later: seq<Value>)
    requires forall j :: 0 <= j < |later| ==> outcome(later[j]).None?
    decreases |later|
    ensures Latest(outcome, turns + later, |turns + later|) == Latest(outcome, turns, |turns|)
  {
    if later != [] {
      var shorter := later[..|later| - 1];
      var all := turns + later;
      assert all[|all| - 1] == later[|later| - 1];
      assert Latest(outcome, all, |all|) == Latest(outcome, all, |all| - 1);
      assert all[..|all| - 1] == (turns + shorter)[..|all| - 1];
      LatestPrefixEqual(outcome, all, turns + shorter, |all| - 1);
      LatestIgnoresLaterFailures(outcome, turns, shorter);
    } else {
      assert turns + later == turns;
    }
  }

  /** A turn that yields something hides every earlier one. */
  lemma LatestTakesLastSuccess(outcome: Value -> Option<Value>, turns: seq<Value>, turn: Value)
    requires outcome(turn).Some?
    ensures Latest(outcome, turns + [turn], |turns| + 1) == outcome(turn)
  {
    assert (turns + [turn])[|turns|] == turn;
  }

  /** `outcome` is what `TryTurn` gives under `parse`, turn by turn. */
  ghost predicate IsOutcomeOf(outcome: Value -> Option<Value>, parse: string -> Option<Value>) {
    forall t {:trigger TryTurn(t, parse)} :: outcome(t) == TryTurn(t, parse)
  }

  lemma OutcomeIsTryTurn(parse: string -> Option<Value>)
    ensures IsOutcomeOf(Outcome(parse), parse)
  {
  }

  /**
   * The body of the backward loop for one turn: `None` where the loop would `continue`
   * (not a candidate, a parse that throws, a nullish result), the normalised analysis where
   * it would return. `outcome` names the per-turn result abstractly for the caller's proof.
   */
  method ExamineTurn(msg: Value, parse: string -> Option<Value>, ghost outcome: Value -> Option<Value>)
    returns (found: Option<Value>)
    requires IsOutcomeOf(outcome, parse)
    ensures found == outcome(msg)
  {
    if !Truthy(msg) || Prop(msg, "role") != Str("assistant") || !Truthy(Prop(msg, "content")) {
      assert TryTurn(msg, parse).None?;
      return None;
    }
    var content := ToStr(Prop(msg, "content"));
    if !Contains(content, SENTINEL) && !Contains(content, "{") {
      assert TryTurn(msg, parse).None?;
      return None;
    }
    assert IsCandidate(msg);
    ghost var original := content;
    if Contains(content, SENTINEL) {
      var parts := Split(content, SENTINEL);
      content := Join(parts[1..], SENTINEL);
    }
    assert content == AfterSentinel(original);
    var cleaned := Trim(ReplaceAll(StripJsonFences(content), FENCE, ""));
    var jsonStr := BraceCandidate(cleaned);
    assert jsonStr == JsonText(original);
    var parsed := parse(jsonStr);
    if parsed.None? || Nullish(parsed.value) {
      assert TryTurn(msg, parse).None?;
      return None;
    }
    var analysis := parsed.value;
    if !Truthy(Prop(analysis, "season")) && Truthy(Prop(analysis, "primary_season")) {
      analysis := Obj(analysis.fields["season" := Str(ToLowerAscii(ToStr(Prop(analysis, "primary_season"))))]);
    }
    assert TryTurn(msg, parse) == Some(analysis);
    return Some(analysis);
  }

  /** The backward index loop: it stops at the first turn, from the end, that yields an analysis. */
  method ScanTurns(turns: seq<Value>, parse: string -> Option<Value>, ghost outcome: Value -> Option<Value>)
    returns (found: Option<Value>)
    requires IsOutcomeOf(outcome, parse)
    ensures found == Latest(outcome, turns, |turns|)
  {
    var i := |turns|;
    while i > 0
      invariant 0 <= i <= |turns|
      invariant Latest(outcome, turns, |turns|) == Latest(outcome, turns, i)
    {
      i := i - 1;
      found := ExamineTurn(turns[i], parse, outcome);
      if found.Some? {
        return;
      }
    }
    return None;
  }

  /** `analyzeColorType(history)`: a non-array history fails, any other finds the latest analysis or reports none. */
  method AnalyzeColorType(history: Value, parse: string -> Option<Value>) returns (r: Analysis)
    ensures !history.Arr? ==> r == Failed(INVALID_HISTORY)
    ensures history.Arr? ==> r == match Latest(Outcome(parse), history.items, |history.items|)
                                 case Some(a) => Found(a)
                                 case None => NotFound
  {
    if !history.Arr? {
      return Failed(INVALID_HISTORY);
    }
    OutcomeIsTryTurn(parse);
    var found := ScanTurns(history.items, parse, Outcome(parse));
    if found.Some? {
      return Found(found.value);
    }
    return NotFound;
  }
}
