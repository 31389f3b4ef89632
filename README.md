# A verified model of the chat bot's routing and session logic

The bot is a Telegram front end to a hosted multimodal AI service. Almost all
of `bot.py` is glue around the Telegram and Gemini client libraries. This
project models the small deterministic logic inside that glue:

- **Routing.** Every inbound message reaches at most one handler; a message that is
  neither text nor a photo, with no step pending, reaches none. A pending
  "next step" of the chat goes first. Then come the `/start` command, the six
  menu-label handlers (exact text match), and the default photo handler or the
  catch-all text handler. The catch-all strips the text, skips labels, sends
  text with a draw keyword to image generation, and sends everything else to
  the dialogue. The default photo handler redraws the photo when its caption
  holds a redraw keyword, and otherwise replies with a menu hint.
  (`routing.dfy`)
- **Prompt clean-up and photo tasks.** The "prompt" task turns newlines into
  `", "`, drops `*` and strips the answer. Each task sends the photo with a request to analyse it,
  then its fixed instruction, to a fresh vision session. A step armed by a
  button and then given a message without a photo is refused before any
  call. (`photo_task.dfy`)
- **Image selection.** The first response part whose MIME type starts with
  `image/` is sent as a photo. Without one, the fixed "could not generate"
  text is sent. A response that raises while its parts are read gets the
  internal-error text instead. (`generation.dfy`)
- **Session store.** `user_chats`, from chat id to dialogue session, is an
  in-place map. Dialogue messages get-or-create an entry. The reset button
  deletes one. The status button reads membership and size.
  (`sessions.dfy`)
- **One message end to end.** A `Bot` class holds the store and the pending
  next steps. Its `Handle` method classifies a message, computes the replies
  and updates both maps. (`bot.dfy`)
- **String semantics.** `text.dfy` gives Python's `str.isspace`, `strip`,
  substring `in`, `startswith`, single-character `replace` and `"".join`.

Assumptions and abstractions:

- `str.lower()` is kept opaque: every routing function takes
  `lower: string -> string` as a parameter. The example lemmas require that
  `lower` leaves their already lower-case text unchanged.
- The chat library's dispatch order is not visible in `bot.py`. It is modelled
  as that library documents it:
  - a registered next-step handler of the chat takes the chat's next message,
    whatever its type;
  - otherwise the first registered handler whose filter accepts the message
    wins;
  - handlers with no content-type filter accept text only;
  - the `start` command matches when the first whitespace-separated word,
    cut at `@`, is `/start`.
- The results of the AI service are parameters bundled in `Bot.Services`.
  The handle a new chat session gets (`start_chat`, bot.py:217) is a plain
  number: that call is assumed never to raise. The other calls have type
  `Call<T> = Raised | Returned(T)`:
  - the streamed dialogue chunks;
  - the image model's response: absent, unreadable (reading its parts, a
    part's MIME type or its image data raises), or its list of parts;
  - the vision model's task answer.
- A photo message carries only the file id of its largest size
  (`message.photo[-1]`). A photo message always has at least one size, so the
  "not a photo" guard is: the message is not a photo message.
- The dialogue session's history grows by one exchange when an answer
  arrives. This is the client library's effect of `send_message`.

Behaviour of the code worth noting:

- An exception from the image model on the redraw path is not caught.
  `generate_content` is called outside the `try` of `send_generated_image`,
  and `handle_default_photo` has no `try` of its own. The user then gets only
  the "starting to redraw" notice.
- A label with whitespace around it matches no label handler, because those
  compare the unstripped text. The catch-all then strips it, finds a label and
  returns. Such a message gets no reply at all (`Routing.IgnoredLabelIff`).
- The dialogue's error reply tells the user to send `/reset`. No handler
  exists for `/reset`, so it is sent to the dialogue as ordinary text
  (`Routing.ResetCommandIsDialogue`).

## Model

| member | source | states |
|---|---|---|
| Text.Strip | bot.py:201 | `strip()` leaves no whitespace (Python's `isspace` set) at either end and never lengthens the text. |
| Text.TrimStart | bot.py:201 | The leading-whitespace cut keeps a suffix of the input, everything it drops is whitespace, and the suffix does not start with whitespace. |
| Text.TrimEnd | bot.py:201 | The trailing-whitespace cut keeps a prefix of the input, everything it drops is whitespace, and the prefix does not end with whitespace. |
| Text.StripTrimmed | bot.py:201 | A text with no whitespace at its ends is left unchanged by `strip()`. |
| Text.StripFirst | bot.py:201 | A text that strips to something non-empty starts either with whitespace or with the first character of its stripped form. |
| Text.StripIsSlice | bot.py:201 | The stripped text is the contiguous slice of the input that starts after the leading whitespace. |
| Text.StripCutsOnlySpace | bot.py:201 | Everything `strip()` cuts off, before and after the slice it keeps, is whitespace. |
| Text.StripChars | bot.py:159 | Every character of the stripped text is a character of the input. |
| Text.StripIdempotent | bot.py:159 | Stripping twice is the same as stripping once. |
| Text.IsSubstring | bot.py:188 | A key the text starts with is found, and a key that is found is no longer than the text. `Text.IsSubstringCorrect` characterises the test fully. |
| Text.ContainsAny | bot.py:208 | `any(k in s for k in keys)` holds only when some key is no longer than the text. `Routing.DrawIff` and `Routing.RedrawIff` use it as the keyword test of their handlers. |
| Text.IsSubstringCorrect | bot.py:188 | Python's substring test `k in s` holds exactly when `k` occurs at some offset of `s` (both directions). |
| Text.LongerNotSubstring | bot.py:208 | A key longer than the text never occurs in it. |
| Text.ReplaceNewlines | bot.py:159 | `replace("\n", ", ")` leaves no newline and never shortens the text. A lone newline becomes exactly `", "`. |
| Text.ReplaceNewlinesAppend | bot.py:159 | Replacing newlines in a concatenation equals concatenating the replaced pieces. |
| Text.ReplaceNewlinesIdentity | bot.py:159 | Text without newlines is left unchanged. |
| Text.RemoveStars | bot.py:159 | `replace("*", "")` keeps only characters of its input and no `*`, and never lengthens the text. |
| Text.RemoveStarsAppend | bot.py:159 | Removing stars from a concatenation equals concatenating the pieces with stars removed. |
| Text.RemoveStarsIdentity | bot.py:159 | Text without stars is left unchanged. |
| Text.Join | bot.py:222 | A single chunk joins to itself, and every chunk fits inside the joined answer. With `Text.JoinAppend` this fixes the join of any chunk list as the chunks concatenated in order. |
| Text.JoinAppend | bot.py:222 | Joining the stream's chunks is a concatenation: joining two chunk lists back to back equals joining each and concatenating. |
| Text.JoinLength | bot.py:222 | The joined answer is exactly as long as all chunks together. |
| Routing.IsStartCommand | bot.py:85 | The `start` command filter accepts only texts that begin with `/` and are at least six characters long. `Routing.StartCommandIff` characterises it exactly. |
| Routing.CommandWord | bot.py:85 | The command word the library reads (the first whitespace-separated word, cut at `@`) is a prefix of the text. |
| Routing.CommandWordIs | bot.py:85 | For a word without whitespace or `@`, the command word equals it exactly when the text starts with the word and the word ends there (both directions). |
| Routing.StartCommandIff | bot.py:85 | The `start` filter accepts a text exactly when its command word is `/start` (both directions). |
| Routing.StartCommandExamples | bot.py:85 | `/start`, `/start@SomeBot` and `/start now` are accepted and `/started` is not. |
| Routing.FreeText | bot.py:201-219 | The catch-all text handler skips the text exactly when its stripped form is a label. Otherwise it draws or talks, and either way it carries the stripped text. `Routing.DrawIff` and `Routing.DialogueIff` say which. |
| Routing.ClassifyText | bot.py:85-219 | A text with no step pending reaches only a text handler: `/start`, a label handler, or the catch-all. It never reaches a photo handler or a pending step. It reaches `/start` exactly when the command filter accepts it. `Routing.ClassifyNonCommand` and `Routing.LabelNeverGeneratesOrTalks` characterise the rest. |
| Routing.ClassifyPhoto | bot.py:182-196 | A photo with no step pending is either redrawn with its own file id and its caption (`""` when it has none), or answered with the menu hint. `Routing.RedrawIff` says which. |
| Routing.Classify | bot.py:85-198 | A pending step takes the next message exactly when one is pending, and it is that step's task. With no step pending, a text goes to the text handlers (`ClassifyText`), a photo to the photo handler (`ClassifyPhoto`), and any other message is the only kind no handler takes. |
| Routing.LabelsShape | bot.py:66-68 | None of the six menu labels has whitespace at its ends or starts with `/`. |
| Routing.LabelIntent | bot.py:89-139 | A label handler takes a text exactly when it equals one of the six labels. Each label reaches its own handler, in both directions: help, status, reset, and the prompt, analysis and translation buttons arming their task. No label handler draws, talks or skips. |
| Routing.PaddedLabelNotCommand | bot.py:85-86 | A text that is a label up to surrounding whitespace is never the `/start` command. |
| Routing.NoSlashNotCommand | bot.py:85 | A text that does not start with `/` never matches the `start` command filter. |
| Routing.ClassifyNonCommand | bot.py:85-139 | A text that is not `/start` goes to the first label handler whose label it equals, and to the free-text handler when there is none. |
| Routing.FreeTextOfLabel | bot.py:201-205 | The free-text handler skips every text that strips to a label. |
| Routing.LabelNeverGeneratesOrTalks | bot.py:201-205 | A text that is a label after stripping never reaches drawing or the dialogue. An exact label gets its own handler; a padded one is skipped. |
| Routing.IgnoredLabelIff | bot.py:201-205 | The free-text handler skips a text exactly when the text is not a label but its stripped form is (both directions). |
| Routing.DrawIff | bot.py:207-212 | A text is drawn exactly when it is not `/start`, its stripped form is not a label, and the lowercased stripped text holds `нарисуй`, `изобрази` or `сгенерируй`. The draw intent then carries the whole stripped text. |
| Routing.DialogueIff | bot.py:214-219 | A text goes to the dialogue exactly when it is not `/start`, not a label after stripping and holds no draw keyword. The dialogue gets the stripped text. |
| Routing.LabelLengths | bot.py:66-68 | Every label is 8 or 9 characters long, or at least 17. |
| Routing.NotLabelByLength | bot.py:204 | A text whose length no label has is not a label. |
| Routing.CatTextShape | bot.py:201-208 | `нарисуй кота` is not `/start`, has no whitespace at its ends, is no label and holds a draw keyword. |
| Routing.DrawCatExample | bot.py:207-211 | `нарисуй кота` is drawn from the whole text, not the keyword alone. |
| Routing.LabelResetIff | bot.py:118-121 | A text that is a label after stripping resets the session exactly when it is the reset button unpadded, and never goes to the dialogue. |
| Routing.ShortTextHasNoDrawKeyword | bot.py:207-208 | A text shorter than seven characters holds none of the draw keywords. |
| Routing.ResetTextShape | bot.py:201-227 | `/reset` is not `/start`, has no whitespace at its ends, is no label and holds no draw keyword. |
| Routing.ResetCommandIsDialogue | bot.py:227 | `/reset`, which the error reply recommends, has no handler and is sent to the dialogue as text. |
| Routing.RedrawIff | bot.py:185-196 | A photo is redrawn exactly when its lowercased caption holds `перерисуй`, `в стиле` or `сделай как`. Otherwise the reply is the menu hint. A missing caption behaves as `""`. |
| Routing.RedrawAnimeExample | bot.py:186-194 | A photo captioned `перерисуй в стиле аниме` is redrawn, and the redraw intent carries that photo and the whole caption. |
| Routing.PendingStepTakesMessage | bot.py:129 | A pending next step takes the chat's next message of any kind. A photo runs the task; anything else is refused as not a photo. |
| PhotoTask.CleanPrompt | bot.py:159 | The cleaned prompt holds no newline and no `*`, and has no whitespace at its ends. |
| PhotoTask.CleanPromptIdempotent | bot.py:159 | Cleaning an already cleaned prompt changes nothing. |
| PhotoTask.CleanPromptJoinsLines | bot.py:159 | Two clean lines separated by a newline become `line1, line2`. |
| PhotoTask.Turns | bot.py:154-156 | A task's exchange sends two turns, in order: the request to analyse the photo, then the task's instruction. |
| PhotoTask.TaskReply | bot.py:143-166 | A message without a photo is refused before any call, and a failed call gets the generic failure text. Otherwise the prompt task replies with the cleaned answer as Markdown code, the analysis is sent as Markdown and the translation as plain text. |
| Generation.DrawRequest | bot.py:210 | The draw request sends no photo; its prompt is the fixed prefix followed by exactly the given text. |
| Generation.RedrawRequest | bot.py:193 | The redraw request sends the photo with the given file id. Its prompt is the fixed instruction, then the whole caption, then the closing quote, each at its stated offset. |
| Generation.FirstImage | bot.py:74 | Returns the index of the first part whose MIME type starts with `image/`: that part is an image and no earlier part is. `None` is returned exactly when no part is an image. |
| Generation.ImageReply | bot.py:71-81 | A photo is sent exactly when the response exists, is readable and has an image part. It is the first image part's data, with the given caption. A response that raises while it is read gets the internal-error text of the `except` branch. Otherwise the reply is exactly the fixed "could not generate" text. |
| Generation.NoImageMeansFailureText | bot.py:73-78 | A response with no image part, the empty response included, is answered with exactly the failure text. |
| Generation.FirstImageStable | bot.py:74 | The chosen part does not depend on the parts after the first image. |
| Generation.DrawReplies | bot.py:208-212 | Drawing sends a notice and then the image reply. An exception from the model gets the text handler's error reply instead. |
| Generation.RedrawReplies | bot.py:188-194 | Redrawing sends a notice and then the image reply. An exception from the model leaves the notice as the only reply. |
| Sessions.CreatedSpec | bot.py:216-218 | Get-or-create keeps an existing session unchanged. For a new chat it adds exactly one key, whose session has an empty history. All other entries are untouched. |
| Sessions.ClearedSpec | bot.py:120-121 | After a reset the chat has no session. Every other entry is unchanged, and the store shrinks by one exactly when the chat had a session. |
| Sessions.ClearedIdempotent | bot.py:120-121 | Resetting a chat without a session is a no-op, and reset is idempotent. |
| Sessions.ResetThenTalkStartsFresh | bot.py:118-122 | After a reset, the chat's next dialogue message starts a new session with an empty history. |
| Sessions.ReplayMembership | bot.py:61 | Starting from the empty store, a chat has a session exactly when its last dialogue-or-reset event was a dialogue message. A chat that never talked has none. |
| Sessions.SessionStore.constructor | bot.py:61 | The store starts empty. |
| Sessions.SessionStore.GetOrCreate | bot.py:216-218 | The store becomes `Created(old, id, handle)`. The returned session is the old one if there was one, and otherwise a new one with an empty history. |
| Sessions.SessionStore.Clear | bot.py:120-121 | The store becomes `Cleared(old, id)`. |
| Sessions.SessionStore.RecordTurn | bot.py:219-222 | The chat's session history grows by the exchange. The keys and every other entry stay the same. |
| Sessions.SessionStore.Status | bot.py:110-111 | The status fields are whether this chat has a session and how many sessions exist. The store does not change. |
| Bot.Respond | bot.py:85-227 | Only a skipped label and a message no handler takes get no reply. Status reports the two store fields. A dialogue answer is the joined chunks, or the error text. Drawing and redrawing reply as their generation paths do. A pending step's photo gets the task's reply to the vision answer, and any other message gets the "send a photo" refusal. `/start` gets the greeting with the menu, help the help text, reset the "memory cleared" text with the menu, a task button its own request for a photo, and a photo without a redraw request the menu hint. |
| Bot.GenerationRequest | bot.py:193-210 | A request goes to the image model exactly for the draw and redraw intents. A draw sends the draw request for its text; a redraw sends the redraw request for its photo and caption. |
| Bot.RedrawSendsPhotoAndCaption | bot.py:185-194 | A photo message with no step pending whose lowercased caption holds a redraw keyword is redrawn. It is sent with that photo, and the prompt is the fixed instruction, then the whole caption, then the closing quote. The replies are the redraw path's, with the caption prefixed by `Перерисовано: `. |
| Bot.StartCommandGreets | bot.py:85-87 | A text whose command word is `/start`, with no step pending, reaches the `start` handler. It gets the greeting with the menu and asks no model. |
| Bot.VisionRequest | bot.py:145-156 | The vision model is called exactly when a pending step receives a photo. The call carries that photo's file id and the pending task. |
| Bot.PendingStepVision | bot.py:145-166 | When a step is pending, a photo goes to the vision model with that task and gets the task's reply to the answer. Anything else never reaches the vision model and gets exactly the "send a photo" reply. |
| Bot.DrawSendsWholeText | bot.py:201-211 | A text message with no step pending that is not `/start`, not a label after stripping and holds a draw keyword is drawn. It is sent whole: the prompt is the fixed prefix and the entire stripped message, with no photo. The replies are the drawing path's, captioned with that same text. |
| Bot.OtherMessageIgnored | bot.py:85-198 | A message that is neither text nor a photo, with no step pending, matches no handler. It gets no reply, calls no model and changes neither the store nor the pending steps. |
| Bot.NextSessions | bot.py:118-222 | The store's keys lose the chat on a reset, gain it on a dialogue message and stay the same otherwise. `Bot.NonDialogueSessions` and `Bot.DialogueSessionEffect` give the entries. |
| Bot.NextPending | bot.py:126-139 | The chats with a pending step gain this chat when the message arms a task and lose it otherwise. `Bot.PendingConsumed` gives the entries. |
| Bot.OnlyResetAndDialogueTouchSessions | bot.py:198-222 | No intent other than reset and dialogue changes the session store. |
| Bot.LabelTouchesSessionsOnlyOnReset | bot.py:118-205 | A text message with no step pending that is a label, stripped or not, changes the store only when it is exactly the reset button, and then only clears that chat. |
| Bot.NonDialogueSessions | bot.py:118-121 | An intent other than a dialogue message clears the chat's session exactly when it is a reset and otherwise leaves the store unchanged. |
| Bot.DialogueSessionEffect | bot.py:214-223 | A dialogue message adds exactly one session for a new chat and none for a known one. The chat's history becomes the old history, or empty for a new chat, followed by this exchange when the answer arrived and by nothing when the call raised. Other chats are untouched. |
| Bot.PendingConsumed | bot.py:126-139 | A message consumes its chat's pending step. The chat has one afterwards exactly when the message armed a task, and it is that task. Every other chat keeps exactly the steps it had. |
| Bot.Bot.constructor | bot.py:60-61 | A started bot has no sessions and no pending steps. |
| Bot.Bot.Apply | bot.py:118-222 | The store and the pending steps become `NextSessions` and `NextPending` of their old values. |
| Bot.Bot.Handle | bot.py:85-227 | The intent is the classification under the chat's pending step. The image request and the vision exchange are the intent's, if any. The replies follow from the intent, the store's status before the message and the service results. The store and pending steps become `NextSessions` and `NextPending` of their old values. |

## Left out

- Telegram calls (`reply_to`, `send_message`, `send_photo`, `send_chat_action`,
  `get_file`, `download_file`, `register_next_step_handler`) and the polling and
  dispatch machinery: foreign library code. Replies are values, and the
  dispatch order is the documented convention described above.
- Gemini calls (`start_chat`, `send_message`, `generate_content`): foreign
  library code. Their results are parameters, and the prompts they would be
  sent are the values the intents carry.
- The answer to the first turn of a task's two-step exchange, and the image
  decoding (PIL): foreign code. `PhotoTask.Turns` models both turns the
  exchange sends, but only the second turn's answer reaches the reply, as in
  the code.
- A raising `start_chat` (bot.py:217): `Services.newHandle` is a plain
  value, so the model assumes the call succeeds. In the code, the `except`
  of `handle_text` would send the error reply and store no session.
- Telegram failures in `handle_text` and `process_photo_task`: when
  `reply_to` raises there, for example on an empty or over-long dialogue
  answer or on Markdown the platform rejects, the handler's `except` sends
  its error text: the text handler's error reply (bot.py:223-227) or the
  task failure text (bot.py:160-166). This is platform I/O and is not
  modelled.
- Telegram failures inside `send_generated_image`: when `send_photo` or
  `reply_to` raises (bot.py:76, 78), the `except` branch (bot.py:79-81) sends
  the internal-error text. This is platform I/O and is not modelled. Only
  the other cause of that branch is: a response that raises while it is
  read.
- The literal help text and the static part of the status text, and Markdown
  rendering: presentational. The status reply keeps its two dynamic fields.
- The liveness server, the `keep_awake` loop with its `sleep` and HTTP GET
  (bot.py:40-57), and the threads that run them (bot.py:230-238): network I/O,
  timing and concurrency.
- The unsynchronised sharing of `user_chats` between threads: the model has
  one sequential caller.
- Reading the configuration from the environment and exiting when a key is
  missing (bot.py:19-37): process plumbing.
- The Unicode case mapping of `str.lower()`: kept opaque as a parameter.
- Streaming of the dialogue answer: modelled only as the concatenation of the
  chunks. A stream that fails midway counts as a raised call, and no exchange
  is then recorded.
