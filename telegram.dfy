/** app.py `send_telegram_notification`: the only logic before the message is sent is
    the rewrite of the configured chat id. Sending itself is not modelled. */
module Telegram {
  import Text

  /** A chat id made only of digits that starts with `100` is a group id, which the
      messaging service expects as a negative number, so it gains a `-` in front; every
      other id is used as configured. */
  function ChatIdFor(chatId: string): string {
    if Text.IsDigits(chatId) && Text.StartsWith(chatId, "100") then "-" + chatId else chatId
  }

  /** The rewrite happens exactly for all-digit ids beginning with `100`, and it only
      ever prepends a single `-`. */
  lemma ChatIdRewrite(chatId: string)
    ensures ChatIdFor(chatId) != chatId <==> Text.IsDigits(chatId) && Text.StartsWith(chatId, "100")
    ensures ChatIdFor(chatId) != chatId ==> ChatIdFor(chatId) == "-" + chatId
  {
    if Text.IsDigits(chatId) && Text.StartsWith(chatId, "100") {
      assert |"-" + chatId| != |chatId|;
    }
  }

  /** Rewriting an already rewritten id changes nothing: a leading `-` is not a digit. */
  lemma ChatIdForIdempotent(chatId: string)
    ensures ChatIdFor(ChatIdFor(chatId)) == ChatIdFor(chatId)
  {
    if Text.IsDigits(chatId) && Text.StartsWith(chatId, "100") {
      assert ("-" + chatId)[0] == '-';
    }
  }
}
