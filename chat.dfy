/** Values exchanged by the bot: the conversation history, the incoming
    Telegram message, the outcome of a completion call and the request sent
    to the completion service. */
module Chat {

  datatype Option<+T> = None | Some(value: T)

  /** Telegram user id (`ctx.from.id`). */
  type UserId = int

  datatype Role = User | Assistant | System

  /** One entry of `ctx.session.messages`. The content is `None` when the
      persisted session holds a null content (an entry written by an older
      iteration of the bot from a missing caption, say). */
  datatype ChatMessage = ChatMessage(role: Role, content: Option<string>)

  /** One entry of the `messages` list sent to the completion service. */
  datatype ApiMessage = ApiMessage(role: Role, content: string)

  /** The outcome of one `chat.completions.create` call: a response whose
      first choice carries `content` (possibly null), a falsy response, or a
      thrown error. */
  datatype Completion = Answered(content: Option<string>) | NoResponse | Threw

  /** One size variant of an attached photo; Telegram lists them from the
      smallest to the largest. */
  datatype PhotoSize = PhotoSize(fileId: string)

  /** The fields of an incoming Telegram message that the bot inspects; a
      field is `None` when the message object does not have it. */
  datatype Message = Message(text: Option<string>, photo: Option<seq<PhotoSize>>, caption: Option<string>)

  /** One part of a vision message: the prompt text, or the image as a data
      URI built from the downloaded bytes of the given Telegram file. */
  datatype VisionPart = TextPart(text: string) | ImageUrl(fileId: string)

  datatype VisionMessage = VisionMessage(role: Role, content: seq<VisionPart>)

  /** A request to the completion service. */
  datatype Request =
    | TextCompletion(model: string, messages: seq<ApiMessage>)
    | VisionCompletion(model: string, vision: seq<VisionMessage>)

  const Model := "gpt-4o-mini"
}
