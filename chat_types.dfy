/**
 * Values shared by the main page, the widget and the request layer: the
 * selectors' enumerations, the transcript message, the history entry sent
 * to the backend, the request, the backend's two endpoints and what a call
 * to one of them can come back with.
 */
module ChatTypes {
  import opened Wrappers

  /** The underlying model picked in the header ("gemini", "gpt-3.5-turbo", "gpt-4"). */
  datatype ChatModel = GeminiModel | Gpt35Turbo | Gpt4

  /** The response mode: the direct model, or the tool-augmented (MCP) pipeline. */
  datatype ChatMode = GeminiMode | McpMode

  /** One transcript entry. `id` comes from the fresh-id source and
      `timestamp` from the clock; both are parameters of every operation that
      creates a message. */
  datatype Message = Message(content: string, isUser: bool, id: string, timestamp: int)

  /** The backend's role names. */
  datatype Role = UserRole | ModelRole

  datatype Part = Part(text: string)

  /** One element of the history sent with a request. */
  datatype HistoryEntry = HistoryEntry(role: Role, parts: seq<Part>)

  /** Which fixed system instruction a request carries: the page's long
      support-agent guidelines or the widget's one-line "respond concisely"
      instruction. The texts themselves are not part of this model. */
  datatype SystemInstruction = SupportGuidelines | ConciseWidgetAnswers

  /** The request body: `{sessionId, message, systemInstruction, history}`.
      Both callers always fill the two optional fields. */
  datatype ChatRequest = ChatRequest(
    sessionId: string,
    message: string,
    systemInstruction: SystemInstruction,
    history: seq<HistoryEntry>)

  /** The two inference endpoints, `/mcp/ask/gemini` and `/mcp/ask/mcp`. */
  datatype Endpoint = AskGemini | AskMcp

  /** What one call to an endpoint yields: the answer of a 2xx response, or a
      failure (a non-ok status or a rejected fetch). */
  datatype Reply = Answer(answer: string) | Failed

  /** The backend as an oracle: whatever it answers for an endpoint and a request. */
  type Backend = (Endpoint, ChatRequest) -> Reply

  /** URL path of an endpoint, appended to the configured base URL. */
  function EndpointPath(e: Endpoint): (path: string)
    ensures |path| > 9 && path[..9] == "/mcp/ask/"
    ensures e.AskGemini? <==> path == "/mcp/ask/gemini"
    ensures e.AskMcp? <==> path == "/mcp/ask/mcp"
  {
    match e
    case AskGemini => "/mcp/ask/gemini"
    case AskMcp => "/mcp/ask/mcp"
  }

  /** The content of the bot message that closes a turn: the answer, or the
      caller's fixed apology when the call failed. */
  function BotContent(reply: Reply, apology: string): string {
    match reply
    case Answer(answer) => answer
    case Failed => apology
  }

  /** The legacy `sendChatMessage` is an alias of the MCP sender. */
  const LegacyEndpoint: Endpoint := AskMcp

  /** A stored conversation as the sidebar lists it. `title` is empty or
      absent until one is generated or set; of the message list only its
      length matters here. The full record of the session store is not part
      of this model. */
  datatype ChatSession = ChatSession(id: string, title: Option<string>, messageCount: nat)

  /** The history entry of one message. */
  function EntryOf(m: Message): HistoryEntry {
    HistoryEntry(if m.isUser then UserRole else ModelRole, [Part(m.content)])
  }

  /** `getChatHistory`: the transcript in the backend's format, one entry per
      message, in order; a message's id and timestamp are not sent. */
  function ToHistory(msgs: seq<Message>): (h: seq<HistoryEntry>)
    ensures |h| == |msgs|
    ensures forall i :: 0 <= i < |msgs| ==>
      (h[i].role == UserRole <==> msgs[i].isUser) && h[i].parts == [Part(msgs[i].content)]
    decreases |msgs|
  {
    if msgs == [] then [] else [EntryOf(msgs[0])] + ToHistory(msgs[1..])
  }

  /** The history of a longer transcript extends the history of its prefix. */
  lemma ToHistoryAppend(a: seq<Message>, b: seq<Message>)
    ensures ToHistory(a + b) == ToHistory(a) + ToHistory(b)
  {
    var l, r := ToHistory(a + b), ToHistory(a) + ToHistory(b);
    assert |l| == |r|;
    forall i | 0 <= i < |l| ensures l[i] == r[i] {
      if i < |a| { assert (a + b)[i] == a[i]; } else { assert (a + b)[i] == b[i - |a|]; }
    }
  }

  /** Two transcripts with the same contents and authors send the same history. */
  lemma ToHistoryIgnoresIds(a: seq<Message>, b: seq<Message>)
    requires |a| == |b|
    requires forall i :: 0 <= i < |a| ==> a[i].content == b[i].content && a[i].isUser == b[i].isUser
    ensures ToHistory(a) == ToHistory(b)
  {
    var ha, hb := ToHistory(a), ToHistory(b);
    forall i | 0 <= i < |a| ensures ha[i] == hb[i] {
      assert ha[i].role == hb[i].role;
    }
  }

  /** A transcript of completed turns: user and bot messages alternate,
      starting with the user, and there are as many bot messages as user ones. */
  predicate Alternates(msgs: seq<Message>) {
    |msgs| % 2 == 0 && forall i :: 0 <= i < |msgs| ==> (msgs[i].isUser <==> i % 2 == 0)
  }

  /** A completed turn, one user message then one bot message, keeps the
      transcript alternating. */
  lemma AlternatesAfterTurn(msgs: seq<Message>, user: Message, bot: Message)
    requires Alternates(msgs) && user.isUser && !bot.isUser
    ensures Alternates(msgs + [user, bot])
  {
    var n := msgs + [user, bot];
    forall i | 0 <= i < |n| ensures n[i].isUser <==> i % 2 == 0 {
      if i < |msgs| { assert n[i] == msgs[i]; }
    }
  }
}
