/**
 * The message input of the main page: a text field, a microphone button
 * and a submit button over one piece of state, the typed text. The
 * optional `isLoading` and `previewOnly` props are booleans here, an
 * omitted prop being false.
 */
module ChatInput {
  import opened Wrappers
  import opened JsText

  /** The guard of `handleSubmit`: something other than white space was
      typed, no turn is in flight and the field is not a preview. */
  function SubmitAccepted(input: string, isLoading: bool, previewOnly: bool): (accepted: bool)
    ensures accepted <==> !IsBlank(input) && !isLoading && !previewOnly
  {
    Trim(input) != "" && !isLoading && !previewOnly
  }

  /** The submit button's `disabled`, written separately in the form: it is
      disabled exactly when a submit would be rejected. */
  function SubmitDisabled(input: string, isLoading: bool, previewOnly: bool): (disabled: bool)
    ensures disabled <==> !SubmitAccepted(input, isLoading, previewOnly)
  {
    Trim(input) == "" || isLoading || previewOnly
  }

  /** What the form shows: the text in the field and whether the field and
      the microphone button are disabled. */
  datatype FieldView = FieldView(value: string, fieldDisabled: bool, micDisabled: bool)

  function View(input: string, isLoading: bool, previewOnly: bool): (v: FieldView)
    ensures previewOnly ==> v.value == "" && v.fieldDisabled
    ensures v.micDisabled == v.fieldDisabled
    ensures v.fieldDisabled <==> isLoading || previewOnly
    ensures !previewOnly ==> v.value == input
    ensures !v.fieldDisabled ==> (SubmitDisabled(input, isLoading, previewOnly) <==> IsBlank(v.value))
  {
    FieldView(if previewOnly then "" else input, isLoading || previewOnly, isLoading || previewOnly)
  }

  class ChatInput {
    var input: string

    constructor ()
      ensures input == ""
    {
      input := "";
    }

    /** Typing in the field. */
    method Change(value: string)
      modifies this
      ensures input == value
    {
      input := value;
    }

    /**
     * `handleSubmit`: `submitted` is the message handed to `onSubmit`. It is
     * the text as typed, untrimmed, given exactly when the guard accepts,
     * and the field is then cleared; a rejected submit calls nothing and
     * keeps the text.
     */
    method HandleSubmit(isLoading: bool, previewOnly: bool) returns (submitted: Option<string>)
      modifies this
      ensures submitted.Some? <==> SubmitAccepted(old(input), isLoading, previewOnly)
      ensures submitted.Some? ==> submitted.value == old(input) && !IsBlank(submitted.value) && input == ""
      ensures submitted.None? ==> input == old(input)
    {
      if SubmitAccepted(input, isLoading, previewOnly) {
        submitted := Some(input);
        input := "";
      } else {
        submitted := None;
      }
    }
  }
}
