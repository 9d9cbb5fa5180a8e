# Telegram completion bot: session state machine

A Dafny model of the per-chat session logic of the Telegram bot in
`src/bot.ts`. The bot forwards text and photo messages to a chat-completion
service and relays the answers. Each chat's session holds two things:

- the conversation history, `messages`;
- a daily message quota per user, `messageData`.

The model covers:

- the quota gate (`checkUserLimit`) and what the message handler stores from it;
- how a message is classified as text, photo or other;
- `/start`;
- how the two response handlers build the outbound request and fold the answer back into the history.

Files:

- `chat.dfy` (module `Chat`): the values. These are history entries, the incoming message, the outcome of a completion call and the request sent.
- `quota.dfy` (module `Quota`): the gate. It also holds lemmas about runs of messages from one user, and the quota finding below.
- `outbound.dfy` (module `Outbound`): the response handlers as functions of the history.
  - `PrepareMessages` is the map/filter preparation of a text turn.
  - `AnswerText` and `AnswerImage` give the entries appended, the replies sent and the request made.
- `bot.dfy` (module `Bot`): classification, and the `Session` class.
  - The class has the fields `messages` and `messageData`.
  - Its methods `Start`, `HandleMessage`, `HandleOpenAIResponse` and `HandleOpenAIResponseImg` update those fields in place.
  - `HandleRun` calls `HandleMessage` once for each time in a sequence of message times. It ties the stored quota records to `QuotaRun`.
  - Each method's postcondition ties the new state to the functions above.

Inputs that come from outside the bot are parameters:

- the clock, as a single `now`;
- the admin set;
- the outcome of the completion call, as `Completion`: answered with a possibly null content, a falsy response, or a thrown error;
- whether the image download succeeded, as `imageFetched`.

Each handler returns:

- the replies it sends to the chat, in the order they are issued;
- the completion request it makes, if any.

Stored history content is `Option<string>`. `None` stands for a null content in a persisted session. Such an entry is what the `?? "Нет содержимого"` in the preparation guards against. An older iteration of the bot stored a missing photo caption as the entry's content, for example.

Behaviour of the code that the model keeps as written:

- **Gate before classification.** The gate runs before the message is classified, so a message that is neither text nor photo uses up quota.
- **Null stored on refusal.** A refusal stores `null` as the user's record. See Findings.
- **Five admitted per window.** With a limit of 5, five messages are admitted in a window and the sixth is refused.
- **`/start` clears both fields.** `/start` clears `messageData` as well as `messages`.
- **Photo prompt literal.** The default photo prompt is the literal `"Что на изображении?"`.

## Model

| member | source | states |
|---|---|---|
| Quota.CheckUserLimit | src/bot.ts:87-106 | With no record, or a record whose window has run out (`now - lastReset >= 86400000`), the call admits with count 1 and `lastReset = now`. Within the window it refuses exactly when a non-admin's count is at least 5, and otherwise returns the count plus one with `lastReset` kept. An admin is never refused. |
| Quota.GateKeepsCountsWithinLimit | src/bot.ts:95-105 | Storing the gate's result keeps every non-admin's stored count at or below the limit. |
| Quota.QuotaRun | src/bot.ts:132-135 | The gate results for one user's messages at times `ts`, as the handler produces them: each result, `null` included, is stored and read back by the next message. There is exactly one result per message. |
| Quota.AdmittedSnoc | src/bot.ts:132-138 | Counting admissions from the front of a run: the first `i + 1` results hold one more admission than the first `i` exactly when result `i` admits. `Bot.Session.HandleRun` uses it to bound the history. |
| Quota.QuotaRunChainsRecords | src/bot.ts:132-135 | A fact about `QuotaRun`: each gate result in a run is `CheckUserLimit` applied to the previous result, `null` included. `Bot.Session.HandleRun` uses it to show that the session stores exactly these results. |
| Quota.NonAdminWithinWindow | src/bot.ts:95-105 | A non-admin at count `c` inside one window is admitted on the next `5 - c` messages with counts `c+1 … 5` and the same `lastReset`. The message after those is refused. |
| Quota.AdminWithinWindow | src/bot.ts:100-105 | An admin inside one window is admitted on every message, and the count grows by one each time with no bound. |
| Quota.QuotaBypassAfterRefusal | src/bot.ts:132-138 | The code as written, for a non-admin with no record and seven messages in one window. Messages 1-5 are admitted with counts 1-5 and the sixth is refused. The seventh reads the stored null, is admitted with count 1, and the window ends with six admissions. |
| Quota.BypassFromCount | src/bot.ts:88-105 | The code as written. Start from a record at count `c` opened at `t0`, and take ascending message times inside that window. Exactly `(n + c) / 6` of the `n` messages are refused, because each refusal stores `null` and the next message opens a new window. |
| Quota.BypassFromNoRecord | src/bot.ts:132-138 | The code as written. A non-admin without a record sends ascending messages inside one window. Exactly `n / 6` of the `n` messages are refused and all the others are admitted, so 11 of 13 get through and there is no daily cap. |
| Quota.KeptRun | src/bot.ts:132-135 | The corrected storing: each message gets the gate's result, but a refusal leaves the stored record as it was instead of replacing it with `null`. There is exactly one result per message. |
| Quota.KeptRunStaysWithinLimit | src/bot.ts:100-102 | Under the corrected storing, where the record is kept on refusal, a non-admin at count `c` gets at most `5 - c` more admissions in the window. |
| Quota.KeptRecordBoundsAdmissions | src/bot.ts:132-138 | Under the corrected storing, a non-admin starting without a record is admitted at most 5 times in the window its first message opens. |
| Outbound.PrepareMessages | src/bot.ts:178-185 | The outbound list is no longer than the history, and none of its entries has empty content. |
| Outbound.PrepareConcat | src/bot.ts:178-185 | Preparation works entry by entry: preparing `a + b` gives the list for `a` followed by the list for `b`. Together with the one-entry case this fixes the order and the roles. |
| Outbound.PrepareMembers | src/bot.ts:178-185 | An entry is sent if and only if its content is non-empty and it is the normalized form of some history entry. Normalizing keeps the role and turns a null content into "Нет содержимого". |
| Outbound.PrepareEmptyIff | src/bot.ts:185-191 | The list is empty, so no call is made, if and only if every history entry has empty-string content. |
| Outbound.PrepareKeepsPresentHistory | src/bot.ts:178-185 | A history with no null or empty content is sent entry for entry, in order, with role and content unchanged. |
| Outbound.UserTextIsSentLast | src/bot.ts:146-147 | After a non-empty user text is appended, the list sent is the earlier history's list followed by that text as a user message. |
| Outbound.AssistantText | src/bot.ts:201-202 | The stored and replied assistant content is never empty. It is the reply when that is a non-empty string, and the placeholder otherwise. |
| Outbound.AnswerText | src/bot.ts:174-208 | If the prepared list is empty, the turn sends no request, replies "Нет сообщений для отправки." and appends nothing. Otherwise it sends the prepared list with model `gpt-4o-mini` and replies once. It appends exactly one assistant entry, whose content equals the reply, if and only if a response arrived. A falsy response or a thrown error replies the fixed error notice. |
| Outbound.AnswerImage | src/bot.ts:211-244 | A request is made if and only if the image was fetched. The request holds one user message made of the prompt and that image, and no history. It appends one assistant entry, equal to the reply and never empty, if and only if a response arrived. Each failure (no download, falsy response, thrown error) gets its own fixed notice and no entry. |
| Outbound.AnsweredTextTurn | src/bot.ts:146-202 | For an answered text turn with non-empty text, the request is the earlier history's list followed by the user text. The history gains exactly the user entry and then the assistant entry. |
| Bot.Classify | src/bot.ts:112-119 | A message is text if and only if it has a `text` field. It is a photo if and only if it has a `photo` field and no `text` field, and otherwise it is "other". The text and the photo list are passed on unchanged. |
| Bot.PhotoPrompt | src/bot.ts:153 | The photo prompt is never empty. It is the caption when that is non-empty, and "Что на изображении?" otherwise. |
| Bot.TextTurnKeepsHistoryWellFormed | src/bot.ts:142-148 | A text turn, answered or not, keeps the history free of null contents and of empty assistant entries. |
| Bot.PhotoTurnKeepsHistoryWellFormed | src/bot.ts:150-161 | A photo turn, answered or not, keeps the history free of null contents and of empty assistant entries. |
| Bot.Session.constructor | src/bot.ts:31-34 | A session holds exactly the history and the quota records it was loaded with. |
| Bot.Session.Start | src/bot.ts:49-54 | `/start` sets `messages` to empty and `messageData` to the empty map, whatever they held, and replies with the greeting. |
| Bot.Session.HandleOpenAIResponse | src/bot.ts:174-208 | The history gains the entries `AnswerText` gives for the current history, and the method's replies and request are those of `AnswerText`. |
| Bot.Session.HandleOpenAIResponseImg | src/bot.ts:211-244 | The history gains the entries `AnswerImage` gives, and the method's replies and request are those of `AnswerImage`. |
| Bot.Session.HandleMessage | src/bot.ts:123-167 | The gate's result, `null` included, is stored for the sender, and nothing else in `messageData` changes. A refused message leaves `messages` unchanged and gets only the limit notice. An admitted message that is neither text nor photo uses up quota, leaves `messages` unchanged and gets "Пожалуйста, отправьте текст или фото.". Text appends `{user, text}` and then `AnswerText` on the whole history. Photo appends the prompt as a user entry, replies "Вы отправили фото!", then applies `AnswerImage` to the last photo in the list. Earlier entries never change, at most two entries are added, and a well-formed history stays well formed. |
| Bot.Session.HandleRun | src/bot.ts:131-138 | One message from a user, handled once per time in `ts`. Each call reads what the previous call stored under `messageData[userId]`. So the stored record after the run is the last result of `QuotaRun` from the session's initial record, and the other users' entries are unchanged. Every message that `QuotaRun` refuses gets exactly the limit notice. The history only grows, and it gains at most two entries per admitted message, so refused messages add nothing to it. |

## Left out

- **Image download.** Downloading the image (`saveImage`: the HTTP GET and the write to and read from a temporary file) is a file and network side effect. Its outcome is the `imageFetched` input.
- **Image encoding.** Base64 encoding (RFC 4648 section 4) and the `data:image/jpg;base64,…` URI (RFC 2397) are not modelled. The image part of a vision request is `ImageUrl(fileId)`, which stands for that URI built from the bytes of the chosen Telegram file.
- **External services.** `ctx.telegram.getFileLink`, the completion client, `bot.launch` and the signal handlers are not modelled. Only the outcome of a completion call is modelled, as an input, and only its first choice is read.
- **Session storage.**
  - Persistence to `sessions.json` is not modelled.
  - A session is built from the state it was loaded with.
  - A missing `messageData` behaves as an empty map, which is how the handler treats it.
  - A missing `messages` is not modelled. The push onto it throws when `/start` never ran.
- **Admin list.** Parsing `ADMIN_USERS` is not modelled. The admin set is a parameter.
- **Clock.** `Date.now()` is read up to three times in `checkUserLimit`. It is one `now` parameter, so a fresh record is never seen as expired within the same call.
- **Number range.** Counts and timestamps are unbounded integers. JavaScript number precision beyond 2^53 is not modelled.
- Bot.Session.HandleMessage: requires a non-empty photo list on a photo message, as Telegram always sends one. As written, an empty list would append the user entry and then throw when it reads the last element.
- **Missing message.** The early reply when the update carries no message is not modelled. The model always has a message.
- **Uncaught exceptions.** Two exceptions escape the handlers and are not modelled:
  - `readFileSync` sits outside the `try` in the vision handler, so an exception it throws escapes that handler.
  - If `ctx.telegram.getFileLink` rejects (src/bot.ts:158), the exception escapes the message handler. The user entry is already pushed by then (src/bot.ts:154), and neither "Вы отправили фото!" nor any answer is sent.
- Quota.CheckUserLimit: the source updates the passed record object in place. The model returns the updated value instead. The handler stores the result under the same key on every path, and a refusal never follows a reset, so the in-place update is not observable.
- **Concurrency.** Concurrent handling of two updates for the same chat is not modelled, and neither is the delivery order of un-awaited replies.
- **Logging.** Logging is not modelled.

## Findings

| source | as written | input that shows it | evidently intended | confidence | as-written member | corrected member |
|---|---|---|---|---|---|---|
| src/bot.ts:135 | A refused message stores the gate's `null` as the user's quota record. The next message reads that null as "no record" and opens a new window at its own time. | A non-admin with no record sends seven messages within one day. Messages 1-5 are admitted, the 6th is refused and the 7th is admitted with count 1. The cycle repeats, so only one message in six is refused: 11 of 13 within a day get through (`Quota.BypassFromNoRecord`). | Keep the unchanged record on refusal, so the user stays refused until the window expires. The refusal text at src/bot.ts:138 says the user has reached the limit of messages for the day, and the comment at src/bot.ts:18 calls 5 the per-user message limit, so a daily cap was intended. | high; not executed | Quota.QuotaBypassAfterRefusal | Quota.KeptRecordBoundsAdmissions |

`Bot.Session.HandleMessage` and `Bot.Session.HandleRun` model the storing as written. `Quota.KeptRun` and its two lemmas state the corrected storing and prove that it admits at most five messages per window.
