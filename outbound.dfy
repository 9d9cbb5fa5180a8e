/** The two response handlers of `src/bot.ts` as functions of the history:
    how the outbound message list is prepared for a text turn, which request
    a vision turn sends, and what is appended and replied once the completion
    service has answered (or failed). */
module Outbound {
  import opened Chat

  const NoContent := "Нет содержимого"
  const NothingToSend := "Нет сообщений для отправки."
  const NoTextAnswer := "Нет ответа от GPT"
  const TextFailure := "Ошибка при получении ответа."
  const NoImageAnswer := "Не удалось получить ответ."
  const NoVisionResponse := "Не удалось получить ответ от OpenAI."
  const VisionFailure := "Не удалось обработать изображение через OpenAI."
  const ImageFetchFailure := "Не удалось обработать изображение."

  /** One history entry as sent: role kept, a null content replaced by the placeholder. */
  function Normalize(m: ChatMessage): ApiMessage
  {
    ApiMessage(m.role, if m.content.Some? then m.content.value else NoContent)
  }

  /** The `validMessages` of a text turn: every history entry normalized, in
      order, with the entries whose content is empty dropped. */
  function PrepareMessages(history: seq<ChatMessage>): (r: seq<ApiMessage>)
    ensures |r| <= |history|
    ensures forall i :: 0 <= i < |r| ==> r[i].content != ""
    decreases |history|
  {
    if history == [] then []
    else
      var first := Normalize(history[0]);
      (if first.content == "" then [] else [first]) + PrepareMessages(history[1..])
  }

  /** Preparation works entry by entry: the list for a concatenation is the
      concatenation of the lists. */
  lemma {:induction false} PrepareConcat(a: seq<ChatMessage>, b: seq<ChatMessage>)
    ensures PrepareMessages(a + b) == PrepareMessages(a) + PrepareMessages(b)
    decreases |a|
  {
    if a != [] {
      assert (a + b)[0] == a[0] && (a + b)[1..] == a[1..] + b;
      PrepareConcat(a[1..], b);
    } else {
      assert a + b == b;
    }
  }

  /** An entry is sent exactly when it is the normalized form of some history
      entry and its content is not empty. */
  lemma {:induction false} PrepareMembers(history: seq<ChatMessage>, x: ApiMessage)
    ensures x in PrepareMessages(history) <==>
              x.content != "" && exists i :: 0 <= i < |history| && Normalize(history[i]) == x
    decreases |history|
  {
    if history != [] {
      PrepareMembers(history[1..], x);
      if exists i :: 0 <= i < |history[1..]| && Normalize(history[1..][i]) == x {
        var i :| 0 <= i < |history[1..]| && Normalize(history[1..][i]) == x;
        assert Normalize(history[i + 1]) == x;
      }
      if exists i :: 0 <= i < |history| && Normalize(history[i]) == x {
        var i :| 0 <= i < |history| && Normalize(history[i]) == x;
        if i > 0 {
          assert Normalize(history[1..][i - 1]) == x;
        }
      }
    }
  }

  /** Nothing is left to send exactly when every history entry has the empty
      string as content (a null content becomes the non-empty placeholder). */
  lemma {:induction false} PrepareEmptyIff(history: seq<ChatMessage>)
    ensures PrepareMessages(history) == [] <==> forall i :: 0 <= i < |history| ==> history[i].content == Some("")
    decreases |history|
  {
    if history != [] {
      PrepareEmptyIff(history[1..]);
      if forall i :: 0 <= i < |history[1..]| ==> history[1..][i].content == Some("") {
        if history[0].content == Some("") {
          forall i | 0 <= i < |history|
            ensures history[i].content == Some("")
          {
            if i > 0 {
              assert history[i] == history[1..][i - 1];
            }
          }
        }
      } else {
        var i :| 0 <= i < |history[1..]| && history[1..][i].content != Some("");
        assert history[i + 1].content != Some("");
      }
    }
  }

  /** A history without null or empty contents is sent entry for entry, in
      order, with roles and contents unchanged. */
  lemma {:induction false} PrepareKeepsPresentHistory(history: seq<ChatMessage>)
    requires forall i :: 0 <= i < |history| ==> history[i].content.Some? && history[i].content.value != ""
    ensures |PrepareMessages(history)| == |history|
    ensures forall i :: 0 <= i < |history| ==>
              PrepareMessages(history)[i] == ApiMessage(history[i].role, history[i].content.value)
    decreases |history|
  {
    if history != [] {
      PrepareKeepsPresentHistory(history[1..]);
      var r := PrepareMessages(history);
      assert r == [Normalize(history[0])] + PrepareMessages(history[1..]);
      forall i | 0 < i < |history|
        ensures r[i] == ApiMessage(history[i].role, history[i].content.value)
      {
        assert r[i] == PrepareMessages(history[1..])[i - 1];
        assert history[1..][i - 1] == history[i];
      }
    }
  }

  /** After a non-empty user text is appended, the list sent is the one the
      earlier history gives followed by that text as a user message. */
  lemma UserTextIsSentLast(history: seq<ChatMessage>, text: string)
    requires text != ""
    ensures PrepareMessages(history + [ChatMessage(User, Some(text))]) == PrepareMessages(history) + [ApiMessage(User, text)]
  {
    PrepareConcat(history, [ChatMessage(User, Some(text))]);
    assert [ChatMessage(User, Some(text))][1..] == [];
  }

  /** `botMessage.content || placeholder`: the reply text, or the placeholder
      when the reply is null or empty. */
  function AssistantText(content: Option<string>, placeholder: string): (s: string)
    requires placeholder != ""
    ensures s != ""
    ensures content.Some? && content.value != "" ==> s == content.value
    ensures content.None? || content.value == "" ==> s == placeholder
  {
    if content.Some? && content.value != "" then content.value else placeholder
  }

  /** The effect of answering one turn: the entries appended to the history,
      the replies sent to the chat and the completion request made, if any. */
  datatype Answer = Answer(appended: seq<ChatMessage>, replies: seq<string>, request: Option<Request>)

  /** `handleOpenAIResponse` on a history that already ends with the user's
      entry, given the outcome of the completion call. */
  function AnswerText(history: seq<ChatMessage>, completion: Completion): (a: Answer)
    // the request carries the prepared history; it is skipped when nothing is left to send
    ensures a.request.None? <==> PrepareMessages(history) == []
    ensures a.request.Some? ==> a.request.value == TextCompletion(Model, PrepareMessages(history))
    ensures a.request.None? ==> a.appended == [] && a.replies == [NothingToSend]
    // one reply; at most one assistant entry, appended exactly when a response arrived
    ensures |a.replies| == 1 && |a.appended| <= 1
    ensures a.appended != [] <==> a.request.Some? && completion.Answered?
    ensures a.appended != [] ==> a.appended[0] == ChatMessage(Assistant, Some(a.replies[0])) && a.replies[0] != ""
    ensures a.request.Some? && completion.Answered? ==> a.replies == [AssistantText(completion.content, NoTextAnswer)]
    ensures a.request.Some? && !completion.Answered? ==> a.replies == [TextFailure]
  {
    var prepared := PrepareMessages(history);
    if prepared == [] then Answer([], [NothingToSend], None)
    else
      var request := Some(TextCompletion(Model, prepared));
      match completion
      case Answered(content) =>
        var text := AssistantText(content, NoTextAnswer);
        Answer([ChatMessage(Assistant, Some(text))], [text], request)
      case _ => Answer([], [TextFailure], request)
  }

  /** `handleOpenAIResponseImg` for the prompt and the chosen photo file,
      given whether the image could be downloaded and the outcome of the
      completion call. The history takes no part in it. */
  function AnswerImage(prompt: string, fileId: string, imageFetched: bool, completion: Completion): (a: Answer)
    // a request is made exactly when the image was fetched; it holds one user
    // message made of the prompt and that image, and no earlier history
    ensures a.request.Some? <==> imageFetched
    ensures a.request.Some? ==>
              a.request.value == VisionCompletion(Model, [VisionMessage(User, [TextPart(prompt), ImageUrl(fileId)])])
    ensures !imageFetched ==> a.appended == [] && a.replies == [ImageFetchFailure]
    // one reply; at most one assistant entry, appended exactly when a response arrived
    ensures |a.replies| == 1 && |a.appended| <= 1
    ensures a.appended != [] <==> imageFetched && completion.Answered?
    ensures a.appended != [] ==> a.appended[0] == ChatMessage(Assistant, Some(a.replies[0])) && a.replies[0] != ""
    ensures imageFetched && completion.Answered? ==> a.replies == [AssistantText(completion.content, NoImageAnswer)]
    ensures imageFetched && completion.NoResponse? ==> a.replies == [NoVisionResponse]
    ensures imageFetched && completion.Threw? ==> a.replies == [VisionFailure]
  {
    if !imageFetched then Answer([], [ImageFetchFailure], None)
    else
      var request := Some(VisionCompletion(Model, [VisionMessage(User, [TextPart(prompt), ImageUrl(fileId)])]));
      match completion
      case Answered(content) =>
        var text := AssistantText(content, NoImageAnswer);
        Answer([ChatMessage(Assistant, Some(text))], [text], request)
      case NoResponse => Answer([], [NoVisionResponse], request)
      case Threw => Answer([], [VisionFailure], request)
  }

  /** An answered text turn with a non-empty text: the request is the earlier
      history's list followed by the user's text, and the history gains
      exactly the user entry and then one assistant entry. */
  lemma AnsweredTextTurn(history: seq<ChatMessage>, text: string, content: Option<string>)
    requires text != ""
    ensures var h := history + [ChatMessage(User, Some(text))];
            var a := AnswerText(h, Answered(content));
            a.request == Some(TextCompletion(Model, PrepareMessages(history) + [ApiMessage(User, text)])) &&
            h + a.appended == history + [ChatMessage(User, Some(text)), ChatMessage(Assistant, Some(AssistantText(content, NoTextAnswer)))]
  {
    UserTextIsSentLast(history, text);
  }
}
