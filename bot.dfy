/** The per-chat session of `src/bot.ts` and its handlers: `/start`, the
    message dispatcher with its quota gate, and the history bookkeeping of the
    two response handlers. */
module Bot {
  import opened Chat
  import opened Quota
  import opened Outbound

  const Greeting := "Привет! Я бот, использующий ChatGPT. Напишите мне что-нибудь."
  const LimitNotice := "Вы достигли лимита сообщений за день. Пожалуйста, попробуйте позже."
  const PhotoReceived := "Вы отправили фото!"
  const SendTextOrPhoto := "Пожалуйста, отправьте текст или фото."
  const DefaultPhotoPrompt := "Что на изображении?"

  /** `isTextMessage`: the message has a `text` field. */
  predicate IsTextMessage(m: Message)
  {
    m.text.Some?
  }

  /** `isPhotoMessage`: the message has a `photo` field. */
  predicate IsPhotoMessage(m: Message)
  {
    m.photo.Some?
  }

  /** How the dispatcher routes a message. */
  datatype Kind = TextKind(text: string) | PhotoKind(photos: seq<PhotoSize>, caption: Option<string>) | OtherKind

  /** The dispatcher's classification: the text test runs first, then the photo test. */
  function Classify(m: Message): (k: Kind)
    ensures k.TextKind? <==> IsTextMessage(m)
    ensures k.PhotoKind? <==> !IsTextMessage(m) && IsPhotoMessage(m)
    ensures k.OtherKind? <==> !IsTextMessage(m) && !IsPhotoMessage(m)
    ensures k.TextKind? ==> k.text == m.text.value
    ensures k.PhotoKind? ==> k.photos == m.photo.value && k.caption == m.caption
  {
    if IsTextMessage(m) then TextKind(m.text.value)
    else if IsPhotoMessage(m) then PhotoKind(m.photo.value, m.caption)
    else OtherKind
  }

  /** `message.caption || "Что на изображении?"`: the stored and sent prompt of a photo turn. */
  function PhotoPrompt(caption: Option<string>): (p: string)
    ensures p != ""
    ensures caption.Some? && caption.value != "" ==> p == caption.value
    ensures caption.None? || caption.value == "" ==> p == DefaultPhotoPrompt
  {
    if caption.Some? && caption.value != "" then caption.value else DefaultPhotoPrompt
  }

  /** No stored entry has a null content, and no assistant entry is empty. */
  ghost predicate WellFormedHistory(history: seq<ChatMessage>)
  {
    forall i :: 0 <= i < |history| ==>
      history[i].content.Some? && (history[i].role == Assistant ==> history[i].content.value != "")
  }

  /** A text turn, answered or not, keeps the history well formed. */
  lemma TextTurnKeepsHistoryWellFormed(history: seq<ChatMessage>, text: string, completion: Completion)
    ensures var h := history + [ChatMessage(User, Some(text))];
            WellFormedHistory(history) ==> WellFormedHistory(h + AnswerText(h, completion).appended)
  {
  }

  /** A photo turn, answered or not, keeps the history well formed. */
  lemma PhotoTurnKeepsHistoryWellFormed(history: seq<ChatMessage>, caption: Option<string>, fileId: string,
                                        imageFetched: bool, completion: Completion)
    ensures var prompt := PhotoPrompt(caption);
            var h := history + [ChatMessage(User, Some(prompt))];
            WellFormedHistory(history) ==> WellFormedHistory(h + AnswerImage(prompt, fileId, imageFetched, completion).appended)
  {
  }

  /** `ctx.session` of one chat: the conversation history and the quota
      records by user id (a stored `None` is the null written on refusal). */
  class Session {
    var messages: seq<ChatMessage>
    var messageData: map<UserId, Option<QuotaRecord>>

    /** A session as the session store hands it to the handlers. */
    constructor (messages: seq<ChatMessage>, messageData: map<UserId, Option<QuotaRecord>>)
      ensures this.messages == messages && this.messageData == messageData
    {
      this.messages := messages;
      this.messageData := messageData;
    }

    /** `/start`: both fields are reset, whatever they held, and the greeting is sent. */
    method Start() returns (replies: seq<string>)
      modifies this
      ensures messages == [] && messageData == map[]
      ensures replies == [Greeting]
    {
      messages := [];
      messageData := map[];
      replies := [Greeting];
    }

    /** `handleOpenAIResponse`: prepares the history, calls the completion
        service unless nothing is left to send, and appends the assistant
        turn only when a response arrived. */
    method HandleOpenAIResponse(completion: Completion) returns (replies: seq<string>, request: Option<Request>)
      modifies this`messages
      ensures messages == old(messages) + AnswerText(old(messages), completion).appended
      ensures replies == AnswerText(old(messages), completion).replies
      ensures request == AnswerText(old(messages), completion).request
    {
      var prepared := PrepareMessages(messages);
      if prepared == [] {
        replies, request := [NothingToSend], None;
        return;
      }
      request := Some(TextCompletion(Model, prepared));
      match completion {
        case Answered(content) =>
          var text := AssistantText(content, NoTextAnswer);
          messages := messages + [ChatMessage(Assistant, Some(text))];
          replies := [text];
        case NoResponse =>
          // `response.choices` throws on a falsy response; the catch replies
          replies := [TextFailure];
        case Threw =>
          replies := [TextFailure];
      }
    }

    /** `handleOpenAIResponseImg`: sends the prompt and the downloaded image
        as one user message and appends the assistant turn only when a
        response arrived. */
    method HandleOpenAIResponseImg(prompt: string, fileId: string, imageFetched: bool, completion: Completion)
      returns (replies: seq<string>, request: Option<Request>)
      modifies this`messages
      ensures messages == old(messages) + AnswerImage(prompt, fileId, imageFetched, completion).appended
      ensures replies == AnswerImage(prompt, fileId, imageFetched, completion).replies
      ensures request == AnswerImage(prompt, fileId, imageFetched, completion).request
    {
      if !imageFetched {
        replies, request := [ImageFetchFailure], None;
        return;
      }
      request := Some(VisionCompletion(Model, [VisionMessage(User, [TextPart(prompt), ImageUrl(fileId)])]));
      match completion {
        case Answered(content) =>
          var text := AssistantText(content, NoImageAnswer);
          replies := [text];
          messages := messages + [ChatMessage(Assistant, Some(text))];
        case NoResponse =>
          replies := [NoVisionResponse];
        case Threw =>
          replies := [VisionFailure];
      }
    }

    /** The `message` handler for a message from `userId` at time `now`. The
        outcome of the completion call and of the image download are inputs. */
    method HandleMessage(admins: set<UserId>, userId: UserId, now: int, message: Message,
                         completion: Completion, imageFetched: bool)
      returns (replies: seq<string>, request: Option<Request>)
      requires IsPhotoMessage(message) ==> |message.photo.value| > 0
      modifies this
      // the gate's result, null included, is stored for the user; nothing else in messageData changes
      ensures messageData == old(messageData)[userId := CheckUserLimit(admins, userId, Lookup(old(messageData), userId), now)]
      // refused: the history is untouched and only the limit notice is sent
      ensures CheckUserLimit(admins, userId, Lookup(old(messageData), userId), now).None? ==>
                messages == old(messages) && replies == [LimitNotice] && request.None?
      // admitted but neither text nor photo: quota used, history untouched
      ensures CheckUserLimit(admins, userId, Lookup(old(messageData), userId), now).Some? && Classify(message).OtherKind? ==>
                messages == old(messages) && replies == [SendTextOrPhoto] && request.None?
      // text: the user entry, then the answer of the text handler on the whole history
      ensures CheckUserLimit(admins, userId, Lookup(old(messageData), userId), now).Some? && Classify(message).TextKind? ==>
                var h := old(messages) + [ChatMessage(User, Some(message.text.value))];
                var a := AnswerText(h, completion);
                messages == h + a.appended && replies == a.replies && request == a.request
      // photo: the prompt as user entry, then the answer of the vision handler on the largest photo
      ensures CheckUserLimit(admins, userId, Lookup(old(messageData), userId), now).Some? && Classify(message).PhotoKind? ==>
                var photos := message.photo.value;
                var prompt := PhotoPrompt(message.caption);
                var h := old(messages) + [ChatMessage(User, Some(prompt))];
                var a := AnswerImage(prompt, photos[|photos| - 1].fileId, imageFetched, completion);
                messages == h + a.appended && replies == [PhotoReceived] + a.replies && request == a.request
      // earlier entries are never changed, and a turn adds at most a user and an assistant entry
      ensures old(messages) <= messages && |messages| <= |old(messages)| + 2
      ensures WellFormedHistory(old(messages)) ==> WellFormedHistory(messages)
    {
      var userData := CheckUserLimit(admins, userId, Lookup(messageData, userId), now);
      messageData := messageData[userId := userData];
      if userData.None? {
        replies, request := [LimitNotice], None;
        return;
      }
      ghost var before := messages;
      match Classify(message) {
        case TextKind(text) =>
          messages := messages + [ChatMessage(User, Some(text))];
          TextTurnKeepsHistoryWellFormed(before, text, completion);
          replies, request := HandleOpenAIResponse(completion);
        case PhotoKind(photos, caption) =>
          var prompt := PhotoPrompt(caption);
          messages := messages + [ChatMessage(User, Some(prompt))];
          var fileId := photos[|photos| - 1].fileId;
          PhotoTurnKeepsHistoryWellFormed(before, caption, fileId, imageFetched, completion);
          var answered;
          answered, request := HandleOpenAIResponseImg(prompt, fileId, imageFetched, completion);
          replies := [PhotoReceived] + answered;
        case OtherKind =>
          replies, request := [SendTextOrPhoto], None;
      }
    }

    /** The same message from `userId` handled once at each of the times
        `ts`, in order: what each call stores for the user is what the next
        call reads, so the stored records are the gate results of `QuotaRun`,
        each refused message gets exactly the limit notice, and only admitted
        messages add to the history. */
    method HandleRun(admins: set<UserId>, userId: UserId, ts: seq<int>, message: Message,
                     completion: Completion, imageFetched: bool)
      returns (replies: seq<seq<string>>)
      requires IsPhotoMessage(message) ==> |message.photo.value| > 0
      modifies this
      ensures |replies| == |ts|
      ensures ts == [] ==> messageData == old(messageData)
      ensures ts != [] ==>
                messageData == old(messageData)[userId := QuotaRun(admins, userId, Lookup(old(messageData), userId), ts)[|ts| - 1]]
      ensures forall i :: 0 <= i < |ts| && QuotaRun(admins, userId, Lookup(old(messageData), userId), ts)[i].None? ==>
                replies[i] == [LimitNotice]
      // the history only grows, and only admitted messages add to it, at most two entries each
      ensures old(messages) <= messages
      ensures |messages| <= |old(messages)| + 2 * Admitted(QuotaRun(admins, userId, Lookup(old(messageData), userId), ts))
    {
      ghost var data0 := messageData;
      ghost var rs := QuotaRun(admins, userId, Lookup(data0, userId), ts);
      ghost var m0 := messages;
      if ts != [] {
        QuotaRunChainsRecords(admins, userId, Lookup(data0, userId), ts);
      }
      replies := [];
      var i := 0;
      while i < |ts|
        invariant 0 <= i <= |ts| && |replies| == i
        invariant i == 0 ==> messageData == data0
        invariant i > 0 ==> messageData == data0[userId := rs[i - 1]]
        invariant forall j :: 0 <= j < i && rs[j].None? ==> replies[j] == [LimitNotice]
        invariant m0 <= messages && |messages| <= |m0| + 2 * Admitted(rs[..i])
      {
        AdmittedSnoc(rs, i);
        var answered, _ := HandleMessage(admins, userId, ts[i], message, completion, imageFetched);
        replies := replies + [answered];
        i := i + 1;
      }
      assert rs[..|ts|] == rs;
    }
  }
}
