/** The message box under a conversation: a draft that is trimmed and handed
    to the send callback, unless it is blank or the box is disabled. */
module ChatInput {
  import opened Wrappers
  import opened JsStrings

  /** What a submit hands to `onSendMessage`: the trimmed draft, or nothing
      when the draft is blank or the box is disabled. */
  function Outgoing(draft: string, disabled: bool): (r: Option<string>)
    ensures r.None? <==> disabled || AllWhitespace(draft)
    ensures r.Some? ==> r.value == Trim(draft) && r.value != []
  {
    TrimEmptyIff(draft);
    if Trim(draft) != [] && !disabled then Some(Trim(draft)) else None
  }

  /** The send button's `disabled` expression. */
  predicate SendDisabled(draft: string, disabled: bool) {
    Trim(draft) == [] || disabled
  }

  /** The send button is disabled exactly when a submit would send nothing. */
  lemma SendDisabledIffRefused(draft: string, disabled: bool)
    ensures SendDisabled(draft, disabled) <==> Outgoing(draft, disabled).None?
  {
    TrimEmptyIff(draft);
  }

  /** The content sent has no surrounding whitespace, and a draft without
      surrounding whitespace is sent unchanged. */
  lemma OutgoingIsTrimmed(draft: string)
    requires Outgoing(draft, false).Some?
    ensures Trim(Outgoing(draft, false).value) == Outgoing(draft, false).value
    ensures Trim(draft) == draft ==> Outgoing(draft, false) == Some(draft)
  {
    TrimIdempotent(draft);
  }

  class ChatInput {
    /** The `message` state: the text in the box. */
    var draft: string
    /** The `disabled` prop. */
    const disabled: bool

    constructor (disabled: bool)
      ensures draft == [] && this.disabled == disabled
    {
      draft := [];
      this.disabled := disabled;
    }

    /** The textarea's onChange. */
    method Edit(value: string)
      modifies this
      ensures draft == value
    {
      draft := value;
    }

    /** handleSubmit: hands the trimmed draft on and clears the box; when nothing
        is sent the draft stays as it was. */
    method Submit() returns (sent: Option<string>)
      modifies this
      ensures sent == Outgoing(old(draft), disabled)
      ensures sent.Some? ==> draft == []
      ensures sent.None? ==> draft == old(draft)
    {
      if Trim(draft) != [] && !disabled {
        sent := Some(Trim(draft));
        draft := [];
      } else {
        sent := None;
      }
    }

    /** handleKeyDown: Enter without Shift submits; any other key, Shift+Enter
        included, sends nothing and leaves the draft to the textarea. */
    method KeyDown(key: string, shiftKey: bool) returns (sent: Option<string>)
      modifies this
      ensures key == "Enter" && !shiftKey ==> sent == Outgoing(old(draft), disabled)
      ensures key == "Enter" && !shiftKey && sent.Some? ==> draft == []
      ensures !(key == "Enter" && !shiftKey) || sent.None? ==> draft == old(draft)
      ensures !(key == "Enter" && !shiftKey) ==> sent == None
    {
      if key == "Enter" && !shiftKey {
        sent := Submit();
      } else {
        sent := None;
      }
    }
  }
}
