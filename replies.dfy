/** The messages the bot sends back to a chat. */
module Replies {

  /** One outbound message. `markdown` is the Markdown parse mode and
      `menu` says whether the main menu keyboard is attached. The help text
      and the static part of the status report are fixed texts of their
      own; the status report keeps only its two dynamic fields. */
  datatype Reply =
    | TextReply(text: string, markdown: bool, menu: bool)
    | PhotoReply(data: seq<bv8>, caption: string)
    | HelpReply
    | StatusReply(memoryActive: bool, activeDialogues: nat)

  /** The free-text handler's reply to any exception it catches. */
  const TextHandlerErrorText := "Произошла ошибка. Попробуйте очистить память командой /reset."
}
