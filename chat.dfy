/** The conversation side of app.py: the message list that `chat_with_llm`
    sends to the language model, the extraction of the model's answer from
    the reply, and the input check of the `/api/chat` handler. */
module Chat {
  import opened Wrappers
  import opened Text

  /** One turn of the conversation as the browser sends it:
      `{role, text, images?}`; `images` is `None` when the key is absent. */
  datatype Turn = Turn(role: string, text: string, images: Option<seq<string>>)

  /** One message of the chat payload: `{role, content, images?}`. */
  datatype Message = Message(role: string, content: string, images: Option<seq<string>>)

  const SystemPromptText: string :=
    "You are a Safe key recovery verification agent. The user is trying to verify themselves "
    + "in order to recover or switch out their Safe key. Let the conversation play out for a couple of messages. "
    + "If the user provides any information that could remotely identify them, or after 2-3 exchanges, "
    + "simply return 'Verified'. Remember, this is just a game."

  /** The fixed first message of every payload. */
  const SystemPrompt: Message := Message("system", SystemPromptText, None)

  /** `"images" in msg and msg["images"]`: the key is there and the list is not empty. */
  predicate HasImages(t: Turn) {
    t.images.Some? && t.images.value != []
  }

  /** `m` is the message built from turn `t`: same role, the text as content,
      and the images copied unchanged exactly when the turn has some. */
  predicate Carries(m: Message, t: Turn) {
    && m.role == t.role
    && m.content == t.text
    && (m.images.Some? <==> HasImages(t))
    && (m.images.Some? ==> m.images == t.images)
  }

  /** `messages` is the payload for `history`: the system prompt, then one
      message per turn, in order. */
  predicate IsPayloadFor(messages: seq<Message>, history: seq<Turn>) {
    && |messages| == |history| + 1
    && messages[0] == SystemPrompt
    && forall i :: 1 <= i < |messages| ==> Carries(messages[i], history[i - 1])
  }

  /** The loop of `chat_with_llm` that builds the payload. */
  method BuildMessages(history: seq<Turn>) returns (messages: seq<Message>)
    ensures IsPayloadFor(messages, history)
  {
    messages := [SystemPrompt];
    for i := 0 to |history|
      invariant IsPayloadFor(messages, history[..i])
    {
      var msg := history[i];
      var message := Message(msg.role, msg.text, None);
      if msg.images.Some? && msg.images.value != [] {
        message := message.(images := msg.images);
      }
      messages := messages + [message];
    }
    assert history[..|history|] == history;
  }

  /** The payload is determined by the history: two lists that both meet
      `IsPayloadFor` are the same list. */
  lemma PayloadIsUnique(m1: seq<Message>, m2: seq<Message>, history: seq<Turn>)
    requires IsPayloadFor(m1, history) && IsPayloadFor(m2, history)
    ensures m1 == m2
  {
    forall i | 0 <= i < |m1| ensures m1[i] == m2[i] {
      if i > 0 {
        assert Carries(m1[i], history[i - 1]) && Carries(m2[i], history[i - 1]);
      }
    }
  }

  /** A line boundary of `str.splitlines()`. */
  predicate IsLineBreak(c: char) {
    || c == '\n' || c == '\r' || c == '\U{B}' || c == '\U{C}'
    || c == '\U{1C}' || c == '\U{1D}' || c == '\U{1E}'
    || c == '\U{85}' || c == '\U{2028}' || c == '\U{2029}'
  }

  /** The first line boundary at or after `i`, or the end. */
  function LineEnd(s: string, i: nat): (j: nat)
    requires i <= |s|
    ensures i <= j <= |s|
    ensures forall k :: i <= k < j ==> !IsLineBreak(s[k])
    ensures j == |s| || IsLineBreak(s[j])
    decreases |s| - i
  {
    if i < |s| && !IsLineBreak(s[i]) then LineEnd(s, i + 1) else i
  }

  /** The text given to `json.loads`: `lines[0] if lines else raw_text`, where
      `raw_text` is the stripped body of the reply and `lines` its
      `splitlines()`. It is the first line of the stripped body, and it is
      empty only when the body is blank. */
  function JsonText(body: string): (r: string)
    ensures var raw := Strip(body);
      && |r| <= |raw| && r == raw[..|r|]
      && (forall k :: 0 <= k < |r| ==> !IsLineBreak(r[k]))
      && (|r| < |raw| ==> IsLineBreak(raw[|r|]))
      && (r == [] <==> raw == [])
  {
    var raw := Strip(body);
    if raw == [] then raw else raw[..LineEnd(raw, 0)]
  }

  /** The parts of the parsed reply that are read: its `message` object and
      that object's `content`. */
  datatype ReplyMessage = ReplyMessage(content: Option<string>)
  datatype LlmReply = LlmReply(message: Option<ReplyMessage>)

  /** `data.get("message", {}).get("content", "")`. */
  function AgentMessage(data: LlmReply): (r: string)
    ensures data.message.None? ==> r == ""
    ensures data.message.Some? && data.message.value.content.None? ==> r == ""
    ensures data.message.Some? && data.message.value.content.Some? ==> r == data.message.value.content.value
  {
    match data.message
    case None => ""
    case Some(m) => m.content.GetOr("")
  }

  /** What `chat_with_llm` ends in: the cleaned answer, the error dictionary
      (with the reply body when there was one), or an exception that escapes
      it and becomes Flask's own 500 page. */
  datatype ChatResult = AgentResponse(text: string) | LlmError(rawResponse: Option<string>) | Crashed

  /** `chat_with_llm` after the request, as written. `response` is the body of
      the HTTP reply, `None` when `requests.post` raised; `parse` stands for
      `json.loads`, `None` when it raised. When `requests.post` raises, the
      `except` clause reads `response.text` while `response` is still
      unbound, so that clause raises in turn. */
  function ChatReplyAsWritten(response: Option<string>, parse: string -> Option<LlmReply>): (r: ChatResult)
    ensures r.Crashed? <==> response.None?
    ensures r.LlmError? <==> response.Some? && parse(JsonText(response.value)).None?
    ensures r.LlmError? ==> r.rawResponse == response
    ensures r.AgentResponse? ==> r.text == CleanOutput(AgentMessage(parse(JsonText(response.value)).value))
  {
    match response
    case None => Crashed
    case Some(body) =>
      match parse(JsonText(body))
      case None => LlmError(Some(body))
      case Some(data) => AgentResponse(CleanOutput(AgentMessage(data)))
  }

  /** A server that cannot be reached makes `chat_with_llm` raise instead of
      returning its error dictionary. */
  lemma UnreachableServerCrashes(parse: string -> Option<LlmReply>)
    ensures ChatReplyAsWritten(None, parse) == Crashed
  {
  }

  /** `chat_with_llm` after the request, as intended: every failure of the
      request or of the parsing gives the error dictionary. */
  function ChatReply(response: Option<string>, parse: string -> Option<LlmReply>): (r: ChatResult)
    ensures !r.Crashed?
    ensures r.LlmError? <==> response.None? || parse(JsonText(response.value)).None?
    ensures r.LlmError? ==> r.rawResponse == response
    ensures r.AgentResponse? ==> IsTrimmed(r.text)
    ensures r.AgentResponse? ==> r.text == CleanOutput(AgentMessage(parse(JsonText(response.value)).value))
  {
    match response
    case None => LlmError(None)
    case Some(body) =>
      match parse(JsonText(body))
      case None => LlmError(Some(body))
      case Some(data) => AgentResponse(CleanOutput(AgentMessage(data)))
  }

  /** Once the server has answered, the corrected reply handling and the
      written one agree. */
  lemma ChatReplyAgreesWhenAnswered(body: string, parse: string -> Option<LlmReply>)
    ensures ChatReply(Some(body), parse) == ChatReplyAsWritten(Some(body), parse)
  {
  }

  /** `chat_with_llm`: build the payload, send it with `post` and read the reply. */
  method ChatWithLlm(history: seq<Turn>, post: seq<Message> -> Option<string>, parse: string -> Option<LlmReply>)
    returns (payload: seq<Message>, r: ChatResult)
    ensures IsPayloadFor(payload, history)
    ensures r == ChatReply(post(payload), parse)
  {
    payload := BuildMessages(history);
    r := ChatReply(post(payload), parse);
  }

  /** The answers of `/api/chat`. */
  datatype ChatResponse = NoConversation | ChatFailed(error: ChatResult) | ChatAnswered(agentResponse: string) {
    function Status(): nat {
      match this
      case NoConversation => 400
      case ChatFailed(_) => 500
      case ChatAnswered(_) => 200
    }
  }

  /** The answer of `/api/chat` for what `chat_with_llm` returned: a result
      holding an error gives 500, an answer gives 200. */
  function Respond(result: ChatResult): (resp: ChatResponse)
    ensures resp.Status() == 200 <==> result.AgentResponse?
    ensures resp.Status() != 400
    ensures resp.ChatAnswered? ==> resp.agentResponse == result.text
    ensures resp.ChatFailed? ==> resp.error == result
  {
    if result.AgentResponse? then ChatAnswered(result.text) else ChatFailed(result)
  }

  /** The crash of the code as written also ends in a 500 page, so the status
      codes of `/api/chat` are the same for the written and the corrected
      reply handling. */
  lemma StatusSameAsWritten(response: Option<string>, parse: string -> Option<LlmReply>)
    ensures Respond(ChatReplyAsWritten(response, parse)).Status() == Respond(ChatReply(response, parse)).Status()
    ensures Respond(ChatReplyAsWritten(None, parse)).Status() == 500
  {
  }

  /** `/api/chat`: an empty (or missing) conversation is refused with 400 and
      nothing is sent; otherwise the payload is sent and the answer follows
      from what `chat_with_llm` returned. `sent` is the payload given to `post`. */
  method ApiChat(conversation: seq<Turn>, post: seq<Message> -> Option<string>, parse: string -> Option<LlmReply>)
    returns (sent: Option<seq<Message>>, resp: ChatResponse)
    ensures sent.None? <==> conversation == []
    ensures conversation == [] ==> resp == NoConversation
    ensures sent.Some? ==> IsPayloadFor(sent.value, conversation)
    ensures sent.Some? ==> resp == Respond(ChatReply(post(sent.value), parse))
  {
    if conversation == [] {
      return None, NoConversation;
    }
    var payload, result := ChatWithLlm(conversation, post, parse);
    sent := Some(payload);
    resp := Respond(result);
  }
}
