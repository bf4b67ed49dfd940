/**
 * What the backend receives back from the chat-completion call it makes:
 * the message content of the first choice (which may be `None`), or the
 * text of the exception the call raised.
 */
module ChatCompletion {
  import opened Wrappers

  datatype Reply = Content(text: Option<string>) | Raised(message: string)
}
