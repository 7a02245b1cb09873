/** What a handler shows and which conversation state it returns, with the
    Telegram transport abstracted away. */
module Screens {
  datatype Button = Button(text: string, data: string)

  /** An inline keyboard: rows of buttons. */
  type Keyboard = seq<seq<Button>>

  datatype Screen =
    | ShowsTitle(titleId: string)                          // show_title
    | ShowsOverview(titles: seq<string>, keyboard: Keyboard) // overview
    | ShowsTitleMenu(keyboard: Keyboard)                   // choose_title_to_edit
    | ShowsEngineerMenu(keyboard: Keyboard)                // choose_engineers
    | ShowsErrorNotice                                     // show_error_message

  /** The ConversationHandler states a handler returns (STORE_DATA, SELECT_ACTION). */
  datatype ConvState = StoreDataState | SelectActionState

  /** The Python exceptions a modelled handler can raise. */
  datatype Error = KeyError | ValueError

  /** A handler's outcome: the next state and what it showed, or the exception
      it raised (the conversation then stays in its state). */
  datatype Reply = Reply(next: ConvState, screens: seq<Screen>) | Raised(error: Error)

  /** `add_button`: appends one single-button row to the keyboard. */
  function AddButton(text: string, data: string, rows: Keyboard): (r: Keyboard)
    ensures |r| == |rows| + 1 && r[..|rows|] == rows
    ensures r[|rows|] == [Button(text, data)]
  {
    rows + [[Button(text, data)]]
  }
}
