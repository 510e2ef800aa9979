# Katalon support chat client: a Dafny model of its sequential logic

This project models the parts of the Katalon support chat front end that
are logic rather than presentation. It states and proves what they do.

- **`parseResultXml`** finds the first case-insensitive
  `<result>\s*<uri>(.*?)</uri>\s*<text>([\s\S]*?)</text>\s*</result>` block
  in any message, the user's or the bot's, and returns its two captures, trimmed. The bubble then
  shows the loading dots, or the link and text, or the whole message as
  markdown.
  - The model does not contain a RegExp engine. `IsMatch` says when six
    positions in a message form a match, and `Precedes` gives the order in
    which a backtracking ECMAScript RegExp tries matches: leftmost start,
    then the shortest uri, then the shortest text.
  - The searching functions are proved to return the first match in that
    order.
  - The character classes follow ECMA-262:
    - `\s` and `trim` use the WhiteSpace and LineTerminator sets of
      sections 12.2 and 12.3 (together, StrWhiteSpaceChar of section 7.1.4.1).
    - `.` refuses exactly the line terminators.
    - `/i` without `u` compares characters by their upper-case form, and
      never maps a character at or above 128 onto one below 128. Every tag
      character is ASCII, so against the tags only ASCII case matters.
- **The chat turn**, on the main page (`Home`) and in the support widget:
  - it appends exactly one user message, then exactly one bot message (the
    answer, or a fixed apology);
  - it sends the pre-turn history;
  - it leaves earlier messages untouched and clears the loading flag;
  - on the page, the selected mode picks the endpoint;
  - the widget always uses MCP and ignores a blank message.
- **The input guards**: the chat input's submit and disabled conditions,
  and the widget's Enter key and send button.
- **The session sidebar**: the title shown for a session, the rename
  editor, the delete confirmation with its callbacks, and the refresh it
  asks for once per mount.
- **The two identities**: the session id kept in `localStorage`, and the
  visitor id kept in a cookie. Each is created once and then adopted.
- **The widget on/off switch.**

Each asynchronous handler awaits one backend or store call. Its model is
split at that await into a `Begin…` method (the state changes before the
call, plus the call it issues) and a `Complete…`/`Finish…` method (the
state changes after it). A composite method runs both around the call,
which is an oracle parameter. Fresh ids (`uuidv4`), timestamps and the
production flag are parameters.

Source files map to modules as follows:

| module | file |
|---|---|
| `ChatMessage` | `src/components/chat-message.tsx` |
| `Page` | `src/app/page.tsx` |
| `Widget` | `src/components/widget.tsx` |
| `ChatInput` | `src/components/chat-input.tsx` |
| `ChatSidebar` | `src/components/chat-sidebar.tsx` |
| `UserContextProvider` | `src/providers/user-provider.tsx` |
| `WidgetContextProvider` | `src/providers/widget-provider.tsx` |

Support modules:

- `ChatTypes`: the request types of `src/lib/api.ts` and the enums of
  `src/lib/utils.ts`.
- `JsText`: ECMAScript white space and `trim`.
- `Browser`: `localStorage` and the cookie jar as maps.
- `Uuid`: the shape of a version-4 UUID.
- `Wrappers`: `Option`.

On a blank rename, `saveTitle` resets the editor to "New Chat"
(src/components/chat-sidebar.tsx:97-99) just before line 102 sends the
title, but what it sends is the blank edit trimmed, "". That difference is
under "Findings": `SaveTitle` models the handler as written, and
`SaveIntendedTitle` sends the intended "New Chat".

## Model

| member | source | states |
|---|---|---|
| JsText.TrimStart | src/components/chat-message.tsx:27-28 | the result is a suffix of the input; everything dropped is ECMAScript white space; the result does not start with white space |
| JsText.TrimEnd | src/components/chat-message.tsx:27-28 | the result is a prefix of the input; everything dropped is white space; the result does not end with white space |
| JsText.Trim | src/components/chat-input.tsx:21 | `trim()` is the input with a blank run cut off each end (`IsMiddle`), it has no white space at either end, and it is empty exactly when the string is blank |
| JsText.TrimOfTrimmed | src/components/chat-sidebar.tsx:102 | a string with no white space at either end is its own trim |
| JsText.TrimKeeps | src/components/chat-message.tsx:27 | every character of a trimmed string comes from the original |
| JsText.TrimIdempotent | src/components/chat-message.tsx:27-28 | trimming twice is trimming once |
| ChatMessage.FoldAscii | src/components/chat-message.tsx:22 | lowers exactly the ASCII capitals, each to its lower-case letter; against the all-ASCII tags this is all `/i` can fold, since it never maps a character at or above 128 onto ASCII |
| ChatMessage.SkipWhiteSpace | src/components/chat-message.tsx:22 | the longest `\s` run from a position: all white space, and followed by the end or by a non-white-space character |
| ChatMessage.WhiteSpaceBeforeTag | src/components/chat-message.tsx:22 | a `\s*` followed by a tag has consumed exactly the longest run, so greedy `\s*` never backtracks in this pattern |
| ChatMessage.MatchesDetermined | src/components/chat-message.tsx:22 | in every match, the three white-space gaps are the longest runs, so a match is fixed by its start and its two capture ends |
| ChatMessage.MatchText | src/components/chat-message.tsx:22 | the lazy `([\s\S]*?)`: the result is a match whose text end is at the given position or later, and no such match ends its text sooner; none means no match has its text end there or later |
| ChatMessage.MatchAfterUri | src/components/chat-message.tsx:22 | after a candidate uri end: a match with that uri end and the shortest text, or none that ends its uri there |
| ChatMessage.MatchUri | src/components/chat-message.tsx:22 | the lazy `(.*?)`: no match with this start and a uri end from here on precedes the result; none means every such match ends its uri earlier; it never crosses a line terminator |
| ChatMessage.MatchAt | src/components/chat-message.tsx:22 | the first match that starts exactly here, or none when no match starts here |
| ChatMessage.MatchFrom | src/components/chat-message.tsx:22-23 | the first match starting here or later, in the RegExp's order; none means no match starts here or later |
| ChatMessage.FirstMatch | src/components/chat-message.tsx:23 | `msg.match(regex)`: the result is a match that no match precedes; none exactly when there is no match at all |
| ChatMessage.FirstMatchUnique | src/components/chat-message.tsx:23 | the first match is unique |
| ChatMessage.UriCaptureOnOneLine | src/components/chat-message.tsx:22 | the uri capture of any match has no line terminator, because `.` excludes them |
| ChatMessage.ParseResultXml | src/components/chat-message.tsx:18-35 | null exactly when the message holds no match; otherwise both fields are trimmed and the uri has no line terminator |
| ChatMessage.ParseResultXmlOfFirstMatch | src/components/chat-message.tsx:25-29 | on a match, the result is the first match's two captures, trimmed |
| ChatMessage.FirstMatchWithoutEarlierTag | src/components/chat-message.tsx:22-23 | a match with no `<` before it and none inside its captures is the first match |
| ChatMessage.RenderedBlockMatches | src/components/chat-message.tsx:22 | any mix of tag case and blank gaps, with a one-line uri and a text that may span lines, forms a match whose captures are exactly that uri and text |
| ChatMessage.RenderedBlockHasNoEarlierTag | src/components/chat-message.tsx:22-23 | with a prefix, uri and text free of `<`, the whole message has no `<` before the block nor inside its two captures |
| ChatMessage.ParseRenderedBlock | src/components/chat-message.tsx:18-35 | round trip: such a block, after text without `<` and before anything, parses to its trimmed uri and text; the text around it is dropped |
| ChatMessage.MatchSurvivesCase | src/components/chat-message.tsx:22 | a match stays a match when ASCII letters change case |
| ChatMessage.MatchesIgnoreCase | src/components/chat-message.tsx:22 | two messages that differ only in ASCII case have exactly the same matches |
| ChatMessage.RenderBody | src/components/chat-message.tsx:234-263 | the loading dots exactly while loading; otherwise the link and text exactly when the message has a match, carrying the parsed values; otherwise the whole message as markdown, and then it has no match |
| ChatMessage.Controls | src/components/chat-message.tsx:192-231 | copy under every message; thumbs up and down exactly under bot messages |
| ChatTypes.EndpointPath | src/lib/api.ts:19-34 | both endpoints are under `/mcp/ask/`; the path is `/mcp/ask/gemini` exactly for Gemini and `/mcp/ask/mcp` exactly for MCP |
| ChatTypes.ToHistory | src/app/page.tsx:115-120 | `getChatHistory`: same length and order; the role is "user" exactly for user messages; one part holding the content |
| ChatTypes.ToHistoryAppend | src/components/widget.tsx:35-40 | the history of a longer transcript extends the history of its prefix |
| ChatTypes.ToHistoryIgnoresIds | src/components/widget.tsx:35-40 | ids and timestamps are not sent: equal contents and authors give equal histories |
| ChatTypes.AlternatesAfterTurn | src/app/page.tsx:131-159 | one user message then one bot message keep a transcript of completed turns alternating |
| Page.GetOrCreateSessionId | src/app/page.tsx:96-104 | "" and no write without a window; a stored non-empty id is returned unchanged with no write; otherwise the fresh id is stored and returned; afterwards the stored id equals the result and is non-empty |
| Page.SessionIdIsStable | src/app/page.tsx:96-104 | two calls return the same non-empty id, and only that id is written |
| Page.EndpointFor | src/app/page.tsx:134-135 | mode "gemini" goes to the Gemini sender, every other mode to MCP |
| Page.Home.constructor | src/app/page.tsx:107-112 | empty transcript, not loading, model "gemini", mode "mcp", the given session id (line 112 recomputes it on every render; it stays constant by `SessionIdIsStable`) |
| Page.Home.SetSelectedMode | src/app/page.tsx:110 | sets the mode and nothing else |
| Page.Home.SetSelectedModel | src/app/page.tsx:109 | sets the model and nothing else |
| Page.Home.BeginTurn | src/app/page.tsx:122-141 | loading is set; exactly the user message is appended; the request carries the message and the pre-turn history, to the selected mode's endpoint |
| Page.Home.CompleteTurn | src/app/page.tsx:143-162 | exactly one bot message (the answer, or the page apology on failure) is appended, and loading is cleared |
| Page.Home.HandleSendMessage | src/app/page.tsx:122-163 | user then bot message appended; earlier messages unchanged; pre-turn history on the mode's endpoint; loading false afterwards; an alternating transcript stays alternating |
| Widget.EnterSends | src/components/widget.tsx:185-189 | Enter sends exactly when not loading |
| Widget.SendDisabled | src/components/widget.tsx:194 | the send button is enabled exactly when not loading and the input is not blank |
| Widget.Widget.constructor | src/components/widget.tsx:28-32 | closed, compact, empty, not loading, empty input |
| Widget.Widget.SetOpen | src/components/widget.tsx:90 | sets `isOpen` and nothing else |
| Widget.Widget.ToggleExpanded | src/components/widget.tsx:109 | negates `isExpanded` and nothing else |
| Widget.Widget.ChangeInput | src/components/widget.tsx:181-190 | sets the input and nothing else; only while not loading, as `disabled={isLoading}` (line 190) allows |
| Widget.Widget.BeginSend | src/components/widget.tsx:42-63 | a blank message yields no request and changes nothing; otherwise loading is set, the input cleared, the user message appended, and the request has the concise instruction and the pre-turn history |
| Widget.Widget.CompleteSend | src/components/widget.tsx:65-83 | exactly one bot message (the answer, or "Sorry, I encountered an error. Please try again.") is appended, and loading is cleared |
| Widget.Widget.HandleSendMessage | src/components/widget.tsx:42-84 | no request exactly for a blank message; otherwise one MCP call with the pre-turn history, user then bot message appended, earlier ones unchanged, input "" and loading false; alternation kept |
| Widget.Widget.KeyDown | src/components/widget.tsx:185-189 | a request is made exactly for Enter while not loading with a non-blank input; it carries the untrimmed input and the pre-turn history, the user message and the answer or apology are appended, input "" and loading false; otherwise nothing changes; alternation kept |
| Widget.Widget.ClickSend | src/components/widget.tsx:192-194 | an enabled button always runs one MCP turn with the input: the request with the pre-turn history, the user message and the answer or apology appended, input "" and loading false, open and expanded unchanged; alternation kept |
| ChatInput.SubmitAccepted | src/components/chat-input.tsx:21 | accepted exactly when the input is not blank and neither loading nor preview-only |
| ChatInput.SubmitDisabled | src/components/chat-input.tsx:53 | the submit button is disabled exactly when the guard would reject |
| ChatInput.View | src/components/chat-input.tsx:35-47 | preview mode shows "" and disables the field; any other field shows the input, loading or not; field and mic are disabled exactly when loading or preview-only |
| ChatInput.ChatInput.constructor | src/components/chat-input.tsx:17 | the input starts empty |
| ChatInput.ChatInput.Change | src/components/chat-input.tsx:36 | sets the input |
| ChatInput.ChatInput.HandleSubmit | src/components/chat-input.tsx:19-25 | submits the untrimmed input exactly when the guard accepts, and then clears it; a rejected submit keeps the input |
| ChatSidebar.DisplayedTitle | src/components/chat-sidebar.tsx:235-238 | the title when non-empty, else "Loading title..." exactly for a session without messages and "Untitled Chat" otherwise; never empty |
| ChatSidebar.EditorTitle | src/components/chat-sidebar.tsx:88 | the session's title when non-empty, else "New Chat"; never empty |
| ChatSidebar.EditorStartsFromDisplayedTitle | src/components/chat-sidebar.tsx:88 | the editor opens on the title the row shows exactly when the session has a title |
| ChatSidebar.UntouchedRenameOfUntitled | src/components/chat-sidebar.tsx:86-102 | opening the editor on an untitled session and saving it untouched sends "New Chat", even as written |
| ChatSidebar.TitleSentAsWritten | src/components/chat-sidebar.tsx:102 | the title is the trimmed edit, which is "" exactly for a blank edit |
| ChatSidebar.IntendedTitle | src/components/chat-sidebar.tsx:96-102 | never blank and trimmed; the trimmed edit for a non-blank edit, "New Chat" for a blank one |
| ChatSidebar.BlankEditSendsEmptyTitle | src/components/chat-sidebar.tsx:97-102 | for a blank edit, the code sends "" where "New Chat" is intended |
| ChatSidebar.EditorAfterSave | src/components/chat-sidebar.tsx:97-99 | a blank edit becomes "New Chat", any other is kept; never blank |
| ChatSidebar.ChatSidebar.constructor | src/components/chat-sidebar.tsx:42-50 | no confirmation, no delete in flight, no editor, not refreshed |
| ChatSidebar.ChatSidebar.RefreshEffect | src/components/chat-sidebar.tsx:53-58 | `onDelete` is called exactly when given, not loading and not yet called; at most once per mount |
| ChatSidebar.ChatSidebar.AskDelete | src/components/chat-sidebar.tsx:264 | opens the confirmation for the session |
| ChatSidebar.ChatSidebar.DismissDelete | src/components/chat-sidebar.tsx:173 | closes the confirmation |
| ChatSidebar.ChatSidebar.BeginDelete | src/components/chat-sidebar.tsx:66-69 | marks the session as being deleted and issues the delete call |
| ChatSidebar.ChatSidebar.FinishDelete | src/components/chat-sidebar.tsx:70-83 | on success, `onNewChat` exactly when the deleted session is current, then `onDelete` when given; on failure neither; both markers cleared |
| ChatSidebar.ChatSidebar.HandleDeleteSession | src/components/chat-sidebar.tsx:66-84 | the same around one store call: `onNewChat` only after a successful delete of the current session, in that order before `onDelete` |
| ChatSidebar.ChatSidebar.StartEditing | src/components/chat-sidebar.tsx:86-89 | the editor opens on the session with its title or "New Chat" |
| ChatSidebar.ChatSidebar.EditTitle | src/components/chat-sidebar.tsx:188 | sets the edit text |
| ChatSidebar.ChatSidebar.CancelEditing | src/components/chat-sidebar.tsx:91-94 | editor state back to (none, "") |
| ChatSidebar.ChatSidebar.BeginSaveTitle | src/components/chat-sidebar.tsx:96-102 | as written: the update carries the captured edit trimmed ("" for a blank edit), while a blank edit in the editor is reset to "New Chat" |
| ChatSidebar.ChatSidebar.BeginSaveIntendedTitle | src/components/chat-sidebar.tsx:96-102 | corrected: the same, but the update carries the intended title, never blank |
| ChatSidebar.ChatSidebar.FinishSaveTitle | src/components/chat-sidebar.tsx:103-111 | `onDelete` only after a successful update; the editor closes in every outcome |
| ChatSidebar.ChatSidebar.SaveTitle | src/components/chat-sidebar.tsx:96-112 | as written, around one store call: the title sent is "" exactly for a blank edit; refresh only on success; editor closed |
| ChatSidebar.ChatSidebar.SaveIntendedTitle | src/components/chat-sidebar.tsx:96-112 | corrected, around one store call: never a blank title sent, the trimmed edit whenever it is not blank; refresh only on success; editor closed |
| UserContextProvider.NewUserIdCookie | src/providers/user-provider.tsx:34-38 | the new cookie has a 365-day expiry and same-site strict, and is secure exactly in production |
| UserContextProvider.UserProvider.constructor | src/providers/user-provider.tsx:12-26 | before resolution the context reports "" and not loaded |
| UserContextProvider.UserProvider.Resolve | src/providers/user-provider.tsx:28-43 | an existing non-empty cookie is adopted and nothing is written; otherwise the fresh id is written with the new-visitor attributes; afterwards loaded, and the id equals the cookie and is non-empty |
| UserContextProvider.ResolveIsStable | src/providers/user-provider.tsx:29-41 | two resolutions against one jar give the same id, and the jar ends as the first one left it: the second writes nothing |
| WidgetContextProvider.WidgetProvider.constructor | src/providers/widget-provider.tsx:12-20 | the flag starts true, as in the default context |
| WidgetContextProvider.WidgetProvider.ToggleWidget | src/providers/widget-provider.tsx:22 | negates the flag |
| WidgetContextProvider.WidgetProvider.EnableWidget | src/providers/widget-provider.tsx:23 | sets the flag |
| WidgetContextProvider.WidgetProvider.DisableWidget | src/providers/widget-provider.tsx:24 | clears the flag |
| WidgetContextProvider.ToggleTwiceRestores | src/providers/widget-provider.tsx:22 | toggling twice restores the flag |
| WidgetContextProvider.SettersIdempotent | src/providers/widget-provider.tsx:23-24 | enabling or disabling twice is once: the second call leaves the flag as the first set it |
| Browser.LocalStorage.SetItem | src/app/page.tsx:101 | `setItem` replaces one key and keeps the others |
| Browser.CookieJar.Set | src/providers/user-provider.tsx:34-38 | `Cookies.set` replaces one cookie and keeps the others |

## Left out

- Network I/O.
  - `sendGeminiChatMessage` and `sendMcpChatMessage` (src/lib/api.ts) are the `Backend` oracle:
    - a 2xx answer is `Answer`;
    - a non-ok status, a rejected fetch, or a reply body that is not JSON is `Failed`;
    - the legacy `sendChatMessage` is the MCP endpoint (`LegacyEndpoint`).
  - JSON encoding and the base URL are not modelled.
  - The sidebar's store calls are the `Store` oracle, which says whether the call resolved.
- Foreign libraries.
  - The fresh session id from `uuidv4` is a parameter that satisfies `Uuid.IsUuidV4`. Message ids and the widget's per-render session id are arbitrary strings.
  - `Date.now()` values and `process.env.NODE_ENV === "production"` arrive as parameters.
  - `js-cookie` and `localStorage` are maps.
- Async interleaving, React batching and functional `setState`.
  - One turn is modelled at a time.
  - The page's `isLoading` is not made to disable its input here: that wiring belongs to the page's JSX.
- The widget's `sessionId`, regenerated on every render, is an arbitrary parameter of each turn.
- Callbacks.
  - The parent's `onNewChat` and `onDelete` are reported as a returned list.
  - They are assumed not to throw. A throwing callback would land in the same `catch`, which the model does not follow.
- Text and rendering.
  - The two `SYSTEM_INSTRUCTION` texts are represented by the tags `SupportGuidelines` and `ConciseWidgetAnswers`.
  - Markdown rendering, styling, icons and the header are not modelled.
  - The copy button's clipboard write and its 2-second "Copied!" timer are not modelled.
  - The feedback buttons' console logging is not modelled.
  - The widget's `isEnabled` prop only hides the widget and is not modelled.
- The default contexts' setters outside a provider do nothing and are not modelled.
- The multi-session controller is not part of this model. The full session record and the other store functions of the sidebar's API are not part of this model either; `ChatSession` keeps the id, the title and the message count.
- Widget.Widget.BeginSend: the guard `!message.trim()` is stated as `IsBlank(message)`. `JsText.Trim` proves that `trim()` is empty exactly then.
- ChatSidebar.ChatSidebar.BeginSaveTitle: the guard `!editingTitle.trim()` is stated as `IsBlank`, for the same reason; so is the guard of `BeginSaveIntendedTitle` and of `EditorAfterSave`.
- ChatMessage.RenderBody: the view shows the parsed values; markdown's own handling of the text is not modelled.
- `parseResultXml`'s `try`/`catch` cannot be reached with a fixed pattern, so the model has no error path for it.

## Findings

| source | as written | input that shows it | evidently intended | confidence | as-written member | corrected member |
|---|---|---|---|---|---|---|
| src/components/chat-sidebar.tsx:96-102 | `saveTitle` sets the editor to "New Chat" on a blank edit, then sends `editingTitle.trim()` of the value captured by the closure, which is still the blank edit | editing a title to `"   "` and saving passes `""` as the title to `updateChatSessionTitle` | the update carries "New Chat", the text lines 97-99 have just put in the editor for a blank edit | medium, not executed | ChatSidebar.ChatSidebar.SaveTitle (with ChatSidebar.BlankEditSendsEmptyTitle) | ChatSidebar.ChatSidebar.SaveIntendedTitle (with ChatSidebar.IntendedTitle) |
