/**
 * The floating support widget: its own transcript, loading flag and input
 * field, and a chat turn that always goes to the MCP endpoint, with the
 * widget's concise-answer instruction, and that ignores a blank message.
 * The turn is split at its one backend call as on the main page.
 */
module Widget {
  import opened Wrappers
  import opened JsText
  import opened ChatTypes

  /** The bot message of a failed turn in the widget. */
  const WidgetApology: string := "Sorry, I encountered an error. Please try again."

  /** The guard of the input's `onKeyDown` (src/components/widget.tsx:185-189):
      Enter sends only while no turn is in flight. `KeyDown`'s contract is
      stated through it. */
  function EnterSends(key: string, isLoading: bool): (sends: bool)
    ensures sends <==> key == "Enter" && !isLoading
  {
    key == "Enter" && !isLoading
  }

  /** The send button's `disabled`: loading, or nothing but white space typed. */
  function SendDisabled(isLoading: bool, inputValue: string): (disabled: bool)
    ensures !disabled <==> !isLoading && !IsBlank(inputValue)
  {
    isLoading || Trim(inputValue) == ""
  }

  class Widget {
    var isOpen: bool
    var isExpanded: bool
    var messages: seq<Message>
    var isLoading: bool
    var inputValue: string

    /** Closed, compact, no messages, not loading, empty input. */
    constructor ()
      ensures !isOpen && !isExpanded && messages == [] && !isLoading && inputValue == ""
    {
      isOpen, isExpanded := false, false;
      messages, isLoading, inputValue := [], false, "";
    }

    /** The launcher button and the close button. */
    method SetOpen(open: bool)
      modifies this
      ensures isOpen == open
      ensures isExpanded == old(isExpanded) && messages == old(messages)
      ensures isLoading == old(isLoading) && inputValue == old(inputValue)
    {
      isOpen := open;
    }

    /** The expand / minimise button. */
    method ToggleExpanded()
      modifies this
      ensures isExpanded == !old(isExpanded)
      ensures isOpen == old(isOpen) && messages == old(messages)
      ensures isLoading == old(isLoading) && inputValue == old(inputValue)
    {
      isExpanded := !isExpanded;
    }

    /** Typing in the input field, which `disabled={isLoading}`
        (src/components/widget.tsx:190) blocks while loading. */
    method ChangeInput(value: string)
      requires !isLoading
      modifies this
      ensures inputValue == value
      ensures isOpen == old(isOpen) && isExpanded == old(isExpanded)
      ensures messages == old(messages) && isLoading == old(isLoading)
    {
      inputValue := value;
    }

    /**
     * The part of `handleSendMessage` before the backend call. A message
     * that is empty or white space only returns no request and changes
     * nothing. Otherwise loading is set and the input cleared before the
     * request is built, the user message is appended, and the request
     * carries the pre-turn history. `sessionId` is whatever the fresh-id
     * source gave on this render.
     */
    method BeginSend(message: string, sessionId: string, userMessageId: string, sentAt: int)
        returns (request: Option<ChatRequest>)
      modifies this
      ensures request.None? <==> IsBlank(message)
      ensures request.None? ==>
        messages == old(messages) && isLoading == old(isLoading) && inputValue == old(inputValue)
      ensures request.Some? ==>
        && isLoading && inputValue == ""
        && messages == old(messages) + [Message(message, true, userMessageId, sentAt)]
        && request.value == ChatRequest(sessionId, message, ConciseWidgetAnswers, ToHistory(old(messages)))
      ensures isOpen == old(isOpen) && isExpanded == old(isExpanded)
    {
      if IsBlank(message) {
        return None;
      }
      var history := ToHistory(messages);
      request := Some(ChatRequest(sessionId, message, ConciseWidgetAnswers, history));
      isLoading, inputValue := true, "";
      messages := messages + [Message(message, true, userMessageId, sentAt)];
    }

    /** The part after the call: the answer or the widget's apology is
        appended and loading is cleared. */
    method CompleteSend(reply: Reply, botMessageId: string, answeredAt: int)
      modifies this
      ensures !isLoading
      ensures messages == old(messages) + [Message(BotContent(reply, WidgetApology), false, botMessageId, answeredAt)]
      ensures inputValue == old(inputValue) && isOpen == old(isOpen) && isExpanded == old(isExpanded)
    {
      messages := messages + [Message(BotContent(reply, WidgetApology), false, botMessageId, answeredAt)];
      isLoading := false;
    }

    /**
     * `handleSendMessage`: a blank message is ignored; any other message
     * makes one MCP call with the pre-turn history and appends exactly the
     * user message and one bot message, leaving the earlier ones alone, an
     * empty input and loading cleared.
     */
    method HandleSendMessage(message: string, backend: Backend, sessionId: string,
                             userMessageId: string, sentAt: int, botMessageId: string, answeredAt: int)
        returns (request: Option<ChatRequest>)
      modifies this
      ensures request.None? <==> IsBlank(message)
      ensures request.None? ==>
        messages == old(messages) && isLoading == old(isLoading) && inputValue == old(inputValue)
      ensures request.Some? ==>
        && request.value == ChatRequest(sessionId, message, ConciseWidgetAnswers, ToHistory(old(messages)))
        && messages == old(messages) + [
             Message(message, true, userMessageId, sentAt),
             Message(BotContent(backend(AskMcp, request.value), WidgetApology), false, botMessageId, answeredAt)]
        && !isLoading && inputValue == ""
      ensures isOpen == old(isOpen) && isExpanded == old(isExpanded)
      ensures !old(isLoading) ==> !isLoading
      ensures Alternates(old(messages)) ==> Alternates(messages)
    {
      ghost var before := messages;
      request := BeginSend(message, sessionId, userMessageId, sentAt);
      if request.Some? {
        var reply := backend(AskMcp, request.value);
        CompleteSend(reply, botMessageId, answeredAt);
        if Alternates(before) {
          AlternatesAfterTurn(before, Message(message, true, userMessageId, sentAt),
            Message(BotContent(reply, WidgetApology), false, botMessageId, answeredAt));
        }
      }
    }

    /** The input's Enter key: when not loading it runs `handleSendMessage`
        on the current input, untrimmed; any other key, Enter while loading,
        or Enter on a blank input changes nothing. */
    method KeyDown(key: string, backend: Backend, sessionId: string,
                   userMessageId: string, sentAt: int, botMessageId: string, answeredAt: int)
        returns (request: Option<ChatRequest>)
      modifies this
      ensures request.Some? <==> EnterSends(key, old(isLoading)) && !IsBlank(old(inputValue))
      ensures request.None? ==>
        messages == old(messages) && isLoading == old(isLoading) && inputValue == old(inputValue)
      ensures request.Some? ==>
        && request.value == ChatRequest(sessionId, old(inputValue), ConciseWidgetAnswers, ToHistory(old(messages)))
        && messages == old(messages) + [
             Message(old(inputValue), true, userMessageId, sentAt),
             Message(BotContent(backend(AskMcp, request.value), WidgetApology), false, botMessageId, answeredAt)]
        && !isLoading && inputValue == ""
      ensures isOpen == old(isOpen) && isExpanded == old(isExpanded)
      ensures Alternates(old(messages)) ==> Alternates(messages)
    {
      if EnterSends(key, isLoading) {
        request := HandleSendMessage(inputValue, backend, sessionId, userMessageId, sentAt, botMessageId, answeredAt);
      } else {
        request := None;
      }
    }

    /** The send button, which can only be clicked while enabled: it always
        starts a turn with the current input, which then completes. */
    method ClickSend(backend: Backend, sessionId: string,
                     userMessageId: string, sentAt: int, botMessageId: string, answeredAt: int)
        returns (request: Option<ChatRequest>)
      requires !SendDisabled(isLoading, inputValue)
      modifies this
      ensures request.Some?
      ensures request.value == ChatRequest(sessionId, old(inputValue), ConciseWidgetAnswers, ToHistory(old(messages)))
      ensures messages == old(messages) + [
                Message(old(inputValue), true, userMessageId, sentAt),
                Message(BotContent(backend(AskMcp, request.value), WidgetApology), false, botMessageId, answeredAt)]
      ensures !isLoading && inputValue == ""
      ensures isOpen == old(isOpen) && isExpanded == old(isExpanded)
      ensures Alternates(old(messages)) ==> Alternates(messages)
    {
      request := HandleSendMessage(inputValue, backend, sessionId, userMessageId, sentAt, botMessageId, answeredAt);
    }
  }
}
