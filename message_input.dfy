/** The standalone composer of components/MessageInput.tsx. */
module MessageInput {
  import opened JsText

  /** `text` is the input's state; `calls` logs every argument `onSend` received. */
  class Composer {
    var text: string
    var calls: seq<string>

    constructor ()
      ensures text == "" && calls == []
    {
      text, calls := "", [];
    }

    /** The input's `onChange`. */
    method OnChange(value: string)
      modifies this`text
      ensures text == value
    {
      text := value;
    }

    /**
     * `handleSend()`: a blank text is neither sent nor cleared; otherwise
     * `onSend` receives the untrimmed text once and the input is cleared.
     */
    method HandleSend()
      modifies this
      ensures IsBlank(old(text)) ==> text == old(text) && calls == old(calls)
      ensures !IsBlank(old(text)) ==> calls == old(calls) + [old(text)] && text == ""
    {
      TrimEmptyIffBlank(text);
      if Trim(text) == "" {
        return;
      }
      calls := calls + [text];
      text := "";
    }
  }

  /** A second press right after a send does nothing: the cleared input is blank. */
  method SendTwice(value: string)
  {
    var composer := new Composer();
    composer.OnChange(value);
    composer.HandleSend();
    var afterFirst := composer.calls;
    composer.HandleSend();
    assert composer.calls == afterFirst && |afterFirst| <= 1;
  }
}
