/**
 * The AI controller: request checks in front of the Gemini service, the mapping of its
 * outcome to a response, and the non-fatal recording of an analysed season.
 */
module AiController {
  import opened Wrappers
  import opened Js
  import opened Tables
  import opened ApiResponse
  import opened Text
  import GeminiService
  import UserService

  const MESSAGE_REQUIRED: string := "MESSAGE_REQUIRED"
  const CONVERSATION_HISTORY_REQUIRED: string := "CONVERSATION_HISTORY_REQUIRED"
  const ACCOUNT_ID_REQUIRED: string := "ACCOUNT_ID_REQUIRED"
  const CHAT_DONE: string := "Chat response generated"
  const GUEST_CHAT_DONE: string := "Guest chat response generated"
  const ANALYSIS_DONE: string := "Color analysis completed"

  /** `conversationHistory || []` */
  function HistoryOrEmpty(history: Value): (r: Value)
    ensures Truthy(history) ==> r == history
    ensures !Truthy(history) ==> r == Arr([])
  {
    if Truthy(history) then history else Arr([])
  }

  /**
   * The shared body of `chatWithAI` and `chatWithAIGuest`, which differ only in the success
   * message. A nullish request body makes the destructuring throw, which the `catch` turns
   * into a server error.
   */
  method ChatEndpoint(body: Value, doneMessage: string, systemPrompt: string, replies: seq<GeminiService.Reply>)
    returns (resp: Response, calls: seq<string>)
    requires |replies| == 2
    ensures Nullish(body) ==> resp == ServerError(Undefined) && calls == []
    ensures !Nullish(body) && !Truthy(Prop(body, "message")) ==>
      resp == Error(Str("Message is required"), 400, Str(MESSAGE_REQUIRED)) && calls == []
    ensures !Nullish(body) && Truthy(Prop(body, "message")) ==>
      (forall c :: c in calls ==>
        (HistoryOrEmpty(Prop(body, "conversationHistory")).Arr? &&
         c == GeminiService.Prompt(systemPrompt, HistoryOrEmpty(Prop(body, "conversationHistory")).items, Prop(body, "message"))))
    ensures resp.status == 200 || resp.status == 400 || resp.status == 500
    ensures resp.status == 500 ==> resp == ServerError(Undefined)
    ensures resp.status == 200 ==>
      resp.body.Keys == {"success", "message", "response", "shouldAnalyze"} &&
      resp.body["message"] == Str(doneMessage) && resp.body["success"] == Bool(true) && resp.body["response"].Str? &&
      resp.body["shouldAnalyze"] == Bool(Contains(resp.body["response"].s, GeminiService.SENTINEL))
    ensures resp.status == 200 <==>
      !Nullish(body) && Truthy(Prop(body, "message")) &&
      GeminiService.PromptBuildable(HistoryOrEmpty(Prop(body, "conversationHistory"))) && GeminiService.Answered(replies)
    ensures resp.status == 200 ==>
      1 <= |calls| <= 2 && replies[|calls| - 1].Completion? && resp.body["response"] == Str(replies[|calls| - 1].text)
  {
    if Nullish(body) {
      return ServerError(Undefined), [];
    }
    var message := Prop(body, "message");
    if !Truthy(message) {
      return Error(Str("Message is required"), 400, Str(MESSAGE_REQUIRED)), [];
    }
    var result: GeminiService.ChatResult;
    result, calls := GeminiService.Chat(systemPrompt, message, HistoryOrEmpty(Prop(body, "conversationHistory")), replies);
    if result.ChatFailed? {
      return ServerError(Undefined), calls;
    }
    resp := Success(Str(doneMessage), Obj(result.Fields()));
  }

  /** `chatWithAI(req, res)`. */
  method ChatWithAI(body: Value, systemPrompt: string, replies: seq<GeminiService.Reply>)
    returns (resp: Response, calls: seq<string>)
    requires |replies| == 2
    ensures !Nullish(body) && !Truthy(Prop(body, "message")) ==> resp.status == 400 && calls == []
    ensures resp.status == 200 ==> "message" in resp.body && resp.body["message"] == Str(CHAT_DONE)
    ensures resp.status == 200 <==>
      !Nullish(body) && Truthy(Prop(body, "message")) &&
      GeminiService.PromptBuildable(HistoryOrEmpty(Prop(body, "conversationHistory"))) && GeminiService.Answered(replies)
    ensures resp.status == 200 ==>
      1 <= |calls| <= 2 && replies[|calls| - 1].Completion? && "response" in resp.body &&
      resp.body["response"] == Str(replies[|calls| - 1].text)
    ensures resp.status != 200 ==> resp.status == 400 || resp == ServerError(Undefined)
  {
    resp, calls := ChatEndpoint(body, CHAT_DONE, systemPrompt, replies);
  }

  /** `chatWithAIGuest(req, res)`. */
  method ChatWithAIGuest(body: Value, systemPrompt: string, replies: seq<GeminiService.Reply>)
    returns (resp: Response, calls: seq<string>)
    requires |replies| == 2
    ensures !Nullish(body) && !Truthy(Prop(body, "message")) ==> resp.status == 400 && calls == []
    ensures resp.status == 200 ==> "message" in resp.body && resp.body["message"] == Str(GUEST_CHAT_DONE)
    ensures resp.status == 200 <==>
      !Nullish(body) && Truthy(Prop(body, "message")) &&
      GeminiService.PromptBuildable(HistoryOrEmpty(Prop(body, "conversationHistory"))) && GeminiService.Answered(replies)
    ensures resp.status == 200 ==>
      1 <= |calls| <= 2 && replies[|calls| - 1].Completion? && "response" in resp.body &&
      resp.body["response"] == Str(replies[|calls| - 1].text)
    ensures resp.status != 200 ==> resp.status == 400 || resp == ServerError(Undefined)
  {
    resp, calls := ChatEndpoint(body, GUEST_CHAT_DONE, systemPrompt, replies);
  }

  /** The first request check of the analysis endpoint that fails, if any: the history is checked first. */
  function AnalyzeCheck(history: Value, accountId: Value): (r: Option<Response>)
    ensures r.Some? <==> !history.Arr? || !Truthy(accountId)
    ensures !history.Arr? ==>
      r == Some(Error(Str("Conversation history is required"), 400, Str(CONVERSATION_HISTORY_REQUIRED)))
    ensures history.Arr? && !Truthy(accountId) ==>
      r == Some(Error(Str("Account ID is required"), 400, Str(ACCOUNT_ID_REQUIRED)))
  {
    if !Truthy(history) || !history.Arr? then
      Some(Error(Str("Conversation history is required"), 400, Str(CONVERSATION_HISTORY_REQUIRED)))
    else if !Truthy(accountId) then Some(Error(Str("Account ID is required"), 400, Str(ACCOUNT_ID_REQUIRED)))
    else None
  }

  /** `where: { season_name: analysis.season }`; only a string names a season row. */
  function SeasonFor(seasons: seq<SeasonRow>, season: Value): (r: Option<nat>)
    ensures r.Some? ==> season.Str? && r.value < |seasons| && seasons[r.value].seasonName == season.s
    ensures r.None? && season.Str? ==> forall j :: 0 <= j < |seasons| ==> seasons[j].seasonName != season.s
  {
    if season.Str? then
      var named := (s: SeasonRow) => s.seasonName == season.s;
      FirstWhereIsFirst(seasons, named);
      FirstWhere(seasons, named)
    else None
  }

  /**
   * `analyzeColorType(req, res)`. `dbFault` says the season lookup or the update throws; it is
   * caught and does not change the response.
   */
  method AnalyzeColorType(store: Store, body: Value, parse: string -> Option<Value>, now: int, dbFault: bool)
    returns (resp: Response)
    requires store.Valid()
    modifies store
    ensures store.Valid()
    ensures store.seasons == old(store.seasons) && store.favorites == old(store.favorites)
    ensures Nullish(body) ==> resp == ServerError(Undefined) && store.users == old(store.users)
    ensures !Nullish(body) && AnalyzeCheck(Prop(body, "conversationHistory"), Prop(body, "accountId")).Some? ==>
      resp == AnalyzeCheck(Prop(body, "conversationHistory"), Prop(body, "accountId")).value &&
      store.users == old(store.users)
    ensures !Nullish(body) && AnalyzeCheck(Prop(body, "conversationHistory"), Prop(body, "accountId")).None? ==>
      var history := Prop(body, "conversationHistory").items;
      var accountId := Prop(body, "accountId");
      match GeminiService.Latest(GeminiService.Outcome(parse), history, |history|)
      case None => resp == ServerError(Undefined) && store.users == old(store.users)
      case Some(analysis) =>
        resp == Success(Str(ANALYSIS_DONE), Obj(map["result" := analysis])) &&
        |store.users| == |old(store.users)| &&
        var row := SeasonFor(old(store.seasons), Prop(analysis, "season"));
        (dbFault || row.None? ==> store.users == old(store.users)) &&
        (!dbFault && row.Some? ==>
          forall i :: 0 <= i < |store.users| ==>
            store.users[i] == (if UserService.IdIs(accountId)(old(store.users)[i])
                               then WithSeason(old(store.users)[i], old(store.seasons)[row.value].seasonId, now)
                               else old(store.users)[i]))
  {
    if Nullish(body) {
      return ServerError(Undefined);
    }
    var history := Prop(body, "conversationHistory");
    var accountId := Prop(body, "accountId");
    var check := AnalyzeCheck(history, accountId);
    if check.Some? {
      return check.value;
    }
    var result := GeminiService.AnalyzeColorType(history, parse);
    if !result.Found? {
      return ServerError(Undefined);
    }
    var row := SeasonFor(store.seasons, Prop(result.analysis, "season"));
    if !dbFault && row.Some? {
      store.SetSeasonWhere(UserService.IdIs(accountId), store.seasons[row.value].seasonId, now);
    }
    resp := Success(Str(ANALYSIS_DONE), Obj(map["result" := result.analysis]));
  }

  /** With unique keys the season write touches at most the one user whose key is `accountId`. */
  lemma SeasonWriteTouchesOneUser(old_users: seq<UserRow>, users: seq<UserRow>, accountId: Value, seasonId: int, now: int)
    requires UniqueUsers(old_users) && |users| == |old_users|
    requires forall i :: 0 <= i < |users| ==>
      users[i] == (if UserService.IdIs(accountId)(old_users[i]) then WithSeason(old_users[i], seasonId, now) else old_users[i])
    ensures forall i :: 0 <= i < |users| && users[i] != old_users[i] ==> accountId == Num(old_users[i].accountId)
    ensures forall i, j :: 0 <= i < |users| && 0 <= j < |users| && users[i] != old_users[i] && users[j] != old_users[j] ==> i == j
  {
  }
}
