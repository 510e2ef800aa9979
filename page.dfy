/**
 * The main chat page (`Home`): the browser session id, the transcript, the
 * loading flag and the two selectors, and the chat turn that routes a
 * message to one of the two endpoints according to the selected mode.
 *
 * A turn awaits one backend call. It is split at that await into
 * `BeginTurn` (everything before the call, producing the endpoint and the
 * request) and `CompleteTurn` (everything after it, consuming the reply);
 * `HandleSendMessage` runs both around a backend oracle.
 */
module Page {
  import opened Wrappers
  import opened ChatTypes
  import opened Browser
  import opened Uuid

  /** The localStorage key of the session id. */
  const SessionIdKey: string := "chat_session_id"

  /** The bot message of a failed turn on the page. */
  const PageApology: string :=
    "I apologize, but I encountered an error. Could you please rephrase your question?"

  /**
   * `getOrCreateSessionId`. `storage` is null when there is no window
   * (server-side rendering). A stored id that is missing or empty is
   * replaced by `freshId`, the value the fresh-id source gives.
   */
  method GetOrCreateSessionId(storage: LocalStorage?, freshId: string) returns (id: string)
    requires IsUuidV4(freshId)
    modifies storage
    ensures storage == null ==> id == ""
    ensures storage != null && IsTruthy(old(storage.GetItem(SessionIdKey))) ==>
      id == old(storage.items[SessionIdKey]) && storage.items == old(storage.items)
    ensures storage != null && !IsTruthy(old(storage.GetItem(SessionIdKey))) ==>
      id == freshId && storage.items == old(storage.items)[SessionIdKey := freshId]
    ensures storage != null ==> SessionIdKey in storage.items && storage.items[SessionIdKey] == id && id != ""
  {
    if storage == null {
      return "";
    }
    var stored := storage.GetItem(SessionIdKey);
    if !IsTruthy(stored) {
      id := freshId;
      storage.SetItem(SessionIdKey, id);
    } else {
      id := stored.value;
    }
  }

  /** Once an id is stored, every later call returns it and stores nothing:
      two calls with different fresh ids agree. */
  method SessionIdIsStable(storage: LocalStorage, fresh1: string, fresh2: string)
      returns (first: string, second: string)
    requires IsUuidV4(fresh1) && IsUuidV4(fresh2)
    modifies storage
    ensures first == second != ""
    ensures storage.items == old(storage.items)[SessionIdKey := first]
  {
    first := GetOrCreateSessionId(storage, fresh1);
    second := GetOrCreateSessionId(storage, fresh2);
  }

  /** The endpoint a mode routes to: "gemini" to the Gemini sender, every other mode to MCP. */
  function EndpointFor(mode: ChatMode): (e: Endpoint)
    ensures e == AskGemini <==> mode == GeminiMode
    ensures e == AskMcp <==> mode != GeminiMode
  {
    if mode == GeminiMode then AskGemini else AskMcp
  }

  class Home {
    /** The session id. The page recomputes it with `getOrCreateSessionId` on
        every render; it is kept fixed here because `SessionIdIsStable` shows
        every call after the first returns the same id. */
    const sessionId: string
    var messages: seq<Message>
    var isLoading: bool
    var selectedModel: ChatModel
    var selectedMode: ChatMode

    /** A fresh page: empty transcript, not loading, model "gemini", mode "mcp". */
    constructor (sessionId: string)
      ensures this.sessionId == sessionId
      ensures messages == [] && !isLoading
      ensures selectedModel == GeminiModel && selectedMode == McpMode
    {
      this.sessionId := sessionId;
      messages := [];
      isLoading := false;
      selectedModel := GeminiModel;
      selectedMode := McpMode;
    }

    /** The header's mode selector. */
    method SetSelectedMode(mode: ChatMode)
      modifies this
      ensures selectedMode == mode
      ensures messages == old(messages) && isLoading == old(isLoading) && selectedModel == old(selectedModel)
    {
      selectedMode := mode;
    }

    /** The header's model selector. The model is shown but not sent. */
    method SetSelectedModel(model: ChatModel)
      modifies this
      ensures selectedModel == model
      ensures messages == old(messages) && isLoading == old(isLoading) && selectedMode == old(selectedMode)
    {
      selectedModel := model;
    }

    /**
     * The part of `handleSendMessage` before the backend call: loading is
     * set, the user message is appended, and the request is built from the
     * transcript as it was before that message.
     */
    method BeginTurn(message: string, userMessageId: string, sentAt: int)
        returns (endpoint: Endpoint, request: ChatRequest)
      modifies this
      ensures isLoading
      ensures messages == old(messages) + [Message(message, true, userMessageId, sentAt)]
      ensures endpoint == EndpointFor(old(selectedMode))
      ensures request == ChatRequest(sessionId, message, SupportGuidelines, ToHistory(old(messages)))
      ensures selectedMode == old(selectedMode) && selectedModel == old(selectedModel)
    {
      isLoading := true;
      var history := ToHistory(messages);
      messages := messages + [Message(message, true, userMessageId, sentAt)];
      endpoint := EndpointFor(selectedMode);
      request := ChatRequest(sessionId, message, SupportGuidelines, history);
    }

    /** The part after the call: the answer or the apology is appended and
        loading is cleared, whatever the outcome. */
    method CompleteTurn(reply: Reply, botMessageId: string, answeredAt: int)
      modifies this
      ensures !isLoading
      ensures messages == old(messages) + [Message(BotContent(reply, PageApology), false, botMessageId, answeredAt)]
      ensures selectedMode == old(selectedMode) && selectedModel == old(selectedModel)
    {
      messages := messages + [Message(BotContent(reply, PageApology), false, botMessageId, answeredAt)];
      isLoading := false;
    }

    /**
     * `handleSendMessage`: exactly one user message then exactly one bot
     * message are appended, every earlier message stays as it was, the
     * backend sees the pre-turn history on the endpoint of the selected mode,
     * and a transcript of completed turns stays one.
     */
    method HandleSendMessage(message: string, backend: Backend,
                             userMessageId: string, sentAt: int, botMessageId: string, answeredAt: int)
        returns (endpoint: Endpoint, request: ChatRequest)
      modifies this
      ensures endpoint == EndpointFor(old(selectedMode))
      ensures request == ChatRequest(sessionId, message, SupportGuidelines, ToHistory(old(messages)))
      ensures messages == old(messages) + [
        Message(message, true, userMessageId, sentAt),
        Message(BotContent(backend(endpoint, request), PageApology), false, botMessageId, answeredAt)]
      ensures |messages| == |old(messages)| + 2 && messages[..|old(messages)|] == old(messages)
      ensures !isLoading
      ensures selectedMode == old(selectedMode) && selectedModel == old(selectedModel)
      ensures Alternates(old(messages)) ==> Alternates(messages)
    {
      ghost var before := messages;
      endpoint, request := BeginTurn(message, userMessageId, sentAt);
      var reply := backend(endpoint, request);
      CompleteTurn(reply, botMessageId, answeredAt);
      if Alternates(before) {
        AlternatesAfterTurn(before, Message(message, true, userMessageId, sentAt),
          Message(BotContent(reply, PageApology), false, botMessageId, answeredAt));
      }
    }
  }
}
