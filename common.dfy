/** Identifiers, the participant record and the failure-carrying datatypes shared by the model. */
module Common {

  /** Telegram user id (the `user_id` columns). */
  type UserId = int

  /** Telegram chat id (the `chat_id` columns). */
  type ChatId = int

  /** A calendar day, numbered consecutively; "yesterday" is `today - 1`. */
  type Day = int

  /** One row of the `participants` table. `joinDay` is the calendar day of `joined_at`. */
  datatype Participant = Participant(username: string, chatId: ChatId, displayName: string, joinDay: Day)

  datatype Option<T> = None | Some(value: T)

  datatype Result<T, E> = Ok(value: T) | Err(error: E)
}
