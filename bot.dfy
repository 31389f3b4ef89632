/** One inbound message, end to end: which handler takes it, what it sends
    back and how it changes the session store and the pending next steps
    (bot.py:85-222). The calls to the chat platform and to the AI service
    are not made here: their results are parameters. */
module Bot {
  import opened Wrappers
  import opened Text
  import opened Routing
  import opened Replies
  import opened Generation
  import opened PhotoTask
  import opened Sessions

  const GreetingText := "Привет! Я многофункциональный AI-бот. Используйте меню для навигации."
  const ResetDoneText := "Память диалога очищена."
  const PhotoHintText := "Я вижу фото. Что мне с ним сделать? Используйте кнопки меню, чтобы выбрать действие."

  /** The prompt each task's button sends before it waits for the photo. */
  function AskForPhotoText(task: Task): string {
    match task
    case PromptTask => "Отправь фото, чтобы получить готовый промпт."
    case AnalysisTask => "Отправь фото для детального анализа."
    case TranslationTask => "Отправь фото с текстом для перевода."
  }

  /** What the outside services answer while one message is handled. */
  datatype Services = Services(
    newHandle: nat,                       // the handle a new dialogue session gets
    dialogue: Call<seq<string>>,          // the streamed chunks of the dialogue answer
    generated: Call<Option<Response>>,    // the image model's response, if any
    taskAnswer: Call<string>)             // the vision model's answer to a task

  /** The replies the bot sends for an intent. Only a skipped label and a
      message no handler takes go unanswered. */
  function Respond(intent: Intent, status: StatusInfo, svc: Services): (rs: seq<Reply>)
    ensures rs == [] <==> intent.IgnoredLabel? || intent.Unhandled?
    ensures intent.Start? ==> rs == [TextReply(GreetingText, false, true)]
    ensures intent.Help? ==> rs == [HelpReply]
    ensures intent.Reset? ==> rs == [TextReply(ResetDoneText, false, true)]
    ensures intent.Arm? ==> rs == [TextReply(AskForPhotoText(intent.task), false, false)]
    ensures intent.PhotoHint? ==> rs == [TextReply(PhotoHintText, false, true)]
    ensures intent.Status? ==> rs == [StatusReply(status.memoryActive, status.activeDialogues)]
    ensures intent.Dialogue? && svc.dialogue.Returned? ==>
      rs == [TextReply(Join(svc.dialogue.value), false, false)]
    ensures intent.Dialogue? && svc.dialogue.Raised? ==>
      rs == [TextReply(TextHandlerErrorText, false, false)]
    ensures intent.RunTask? ==> rs == [TaskReply(intent.task, true, svc.taskAnswer)]
    ensures intent.NotAPhoto? ==> rs == [TaskReply(intent.task, false, svc.taskAnswer)]
    ensures intent.Draw? ==> rs == DrawReplies(svc.generated, intent.text)
    ensures intent.Redraw? ==> rs == RedrawReplies(svc.generated, RedrawCaption(intent.caption))
  {
    match intent
    case Start => [TextReply(GreetingText, false, true)]
    case Help => [HelpReply]
    case Status => [StatusReply(status.memoryActive, status.activeDialogues)]
    case Reset => [TextReply(ResetDoneText, false, true)]
    case Arm(task) => [TextReply(AskForPhotoText(task), false, false)]
    case IgnoredLabel => []
    case Draw(text) => DrawReplies(svc.generated, text)
    case Dialogue(_) =>
      (match svc.dialogue
       case Raised => [TextReply(TextHandlerErrorText, false, false)]
       case Returned(chunks) => [TextReply(Join(chunks), false, false)])
    case Redraw(_, caption) => RedrawReplies(svc.generated, RedrawCaption(caption))
    case PhotoHint => [TextReply(PhotoHintText, false, true)]
    case RunTask(task, _) => [TaskReply(task, true, svc.taskAnswer)]
    case NotAPhoto(task) => [TaskReply(task, false, svc.taskAnswer)]
    case Unhandled => []
  }

  /** What the image model is asked, if anything. */
  function GenerationRequest(intent: Intent): (r: Option<Request>)
    ensures r.Some? <==> intent.Draw? || intent.Redraw?
    ensures intent.Draw? ==> r == Some(DrawRequest(intent.text))
    ensures intent.Redraw? ==> r == Some(RedrawRequest(intent.fileId, intent.caption))
  {
    match intent
    case Draw(text) => Some(DrawRequest(text))
    case Redraw(fileId, caption) => Some(RedrawRequest(fileId, caption))
    case _ => None
  }

  /** A text that is no command and no label and holds a draw keyword is
      drawn, and sent to the image model whole: the prompt is the fixed
      prefix followed by the entire stripped message, and the photo's
      caption is that same text. */
  lemma DrawSendsWholeText(chat: int, t: string, lower: string -> string, status: StatusInfo, svc: Services)
    requires !IsStartCommand(t) && Strip(t) !in Labels && ContainsAny(DrawKeywords, lower(Strip(t)))
    ensures Classify(TextMessage(chat, t), None, lower) == Draw(Strip(t))
    ensures var r := GenerationRequest(Classify(TextMessage(chat, t), None, lower)).value;
      r.photo == None && r.prompt == DrawPrefix + Strip(t)
    ensures Respond(Classify(TextMessage(chat, t), None, lower), status, svc) == DrawReplies(svc.generated, Strip(t))
  {
    DrawIff(t, lower);
  }

  /** A message that is neither text nor a photo, with no step pending,
      reaches no handler: it gets no reply, asks no model and changes
      nothing. */
  lemma OtherMessageIgnored(chat: int, m: map<int, Session>, p: map<int, Task>, lower: string -> string,
                            status: StatusInfo, svc: Services)
    requires chat !in p
    ensures var i := Classify(OtherMessage(chat), PendingFor(p, chat), lower);
      && i == Unhandled
      && Respond(i, status, svc) == []
      && GenerationRequest(i) == None && VisionRequest(i) == None
      && NextSessions(m, chat, i, svc) == m
      && NextPending(p, chat, i) == p
  {
  }

  /** A text whose command word is `/start` gets the greeting with the menu,
      and nothing else happens. */
  lemma StartCommandGreets(chat: int, t: string, lower: string -> string, status: StatusInfo, svc: Services)
    requires CommandWord(t) == StartCommand
    ensures Classify(TextMessage(chat, t), None, lower) == Start
    ensures Respond(Classify(TextMessage(chat, t), None, lower), status, svc) == [TextReply(GreetingText, false, true)]
    ensures GenerationRequest(Classify(TextMessage(chat, t), None, lower)) == None
  {
    StartCommandIff(t);
  }

  /** What the vision model is asked, if anything: only a photo that a
      pending step receives starts the two-turn exchange; the not-a-photo
      guard refuses everything else before any call. */
  function VisionRequest(intent: Intent): (r: Option<Exchange>)
    ensures r.Some? <==> intent.RunTask?
    ensures r.Some? ==> r.value.photo == intent.fileId && r.value.task == intent.task
  {
    match intent
    case RunTask(task, fileId) => Some(Exchange(fileId, task))
    case _ => None
  }

  /** The not-a-photo guard: a pending step sends a photo, with the task's
      instruction, to the vision model and answers with the task's reply, and
      never calls it for anything else, which gets the refusal text instead. */
  lemma PendingStepVision(msg: Message, task: Task, lower: string -> string, status: StatusInfo, svc: Services)
    ensures msg.PhotoMessage? ==>
      VisionRequest(Classify(msg, Some(task), lower)) == Some(Exchange(msg.fileId, task))
    ensures msg.PhotoMessage? ==>
      Respond(Classify(msg, Some(task), lower), status, svc) == [TaskReply(task, true, svc.taskAnswer)]
    ensures !msg.PhotoMessage? ==> VisionRequest(Classify(msg, Some(task), lower)) == None
    ensures !msg.PhotoMessage? ==>
      Respond(Classify(msg, Some(task), lower), status, svc) == [TextReply(NotAPhotoText, false, false)]
  {
    PendingStepTakesMessage(msg, task, lower);
  }

  /** A photo whose lowercased caption holds a redraw keyword is redrawn: it
      is sent to the image model together with that photo, its whole caption
      quoted in the fixed instruction, and the redrawn photo is captioned
      with the caption as well. */
  lemma RedrawSendsPhotoAndCaption(chat: int, caption: Option<string>, fileId: string, lower: string -> string,
                                   status: StatusInfo, svc: Services)
    requires ContainsAny(RedrawKeywords, lower(caption.GetOr("")))
    ensures Classify(PhotoMessage(chat, caption, fileId), None, lower) == Redraw(fileId, caption.GetOr(""))
    ensures var c := caption.GetOr("");
      var r := GenerationRequest(Classify(PhotoMessage(chat, caption, fileId), None, lower)).value;
      && r.photo == Some(fileId)
      && r.prompt == RedrawPrefix + c + RedrawSuffix
    ensures Respond(Classify(PhotoMessage(chat, caption, fileId), None, lower), status, svc) ==
      RedrawReplies(svc.generated, RedrawCaptionPrefix + caption.GetOr(""))
  {
    RedrawIff(caption, fileId, lower);
  }

  /** The session store after an intent: a reset clears the chat, a dialogue
      message gets or creates the chat's session and, when the answer
      arrives, records the exchange in its history. */
  function NextSessions(m: map<int, Session>, chat: int, intent: Intent, svc: Services): (n: map<int, Session>)
    ensures n.Keys == if intent.Reset? then m.Keys - {chat} else if intent.Dialogue? then m.Keys + {chat} else m.Keys
  {
    match intent
    case Reset => Cleared(m, chat)
    case Dialogue(u) =>
      var c := Created(m, chat, svc.newHandle);
      (match svc.dialogue
       case Raised => c
       case Returned(chunks) => c[chat := c[chat].(history := c[chat].history + [Turn(u, Join(chunks))])])
    case _ => m
  }

  /** The pending next steps after a message: a pending step of the chat is
      consumed, and a task button arms a new one. */
  function NextPending(p: map<int, Task>, chat: int, intent: Intent): (r: map<int, Task>)
    ensures r.Keys == if intent.Arm? then p.Keys + {chat} else p.Keys - {chat}
  {
    var consumed := if chat in p then p - {chat} else p;
    if intent.Arm? then consumed[chat := intent.task] else consumed
  }

  function PendingFor(p: map<int, Task>, chat: int): Option<Task> {
    if chat in p then Some(p[chat]) else None
  }

  /** Only resets and dialogue messages change the session store; drawing,
      the buttons other than reset and the photo paths never do. */
  lemma OnlyResetAndDialogueTouchSessions(m: map<int, Session>, chat: int, intent: Intent, svc: Services)
    requires !intent.Reset? && !intent.Dialogue?
    ensures NextSessions(m, chat, intent, svc) == m
  {
  }

  /** A label, with or without surrounding whitespace, changes the store
      only when it is exactly the reset button, and then only clears that
      chat. */
  lemma LabelTouchesSessionsOnlyOnReset(m: map<int, Session>, chat: int, t: string,
                                         lower: string -> string, svc: Services)
    requires Strip(t) in Labels
    ensures NextSessions(m, chat, Classify(TextMessage(chat, t), None, lower), svc) ==
      if t == ResetLabel then Cleared(m, chat) else m
  {
    LabelResetIff(t, lower);
    NonDialogueSessions(m, chat, Classify(TextMessage(chat, t), None, lower), svc, t == ResetLabel);
  }

  /** An intent that is not a dialogue message clears the chat when it is a
      reset and otherwise leaves the store as it is. */
  lemma NonDialogueSessions(m: map<int, Session>, chat: int, intent: Intent, svc: Services, isReset: bool)
    requires !intent.Dialogue? && (intent.Reset? <==> isReset)
    ensures NextSessions(m, chat, intent, svc) == if isReset then Cleared(m, chat) else m
  {
    if !isReset {
      OnlyResetAndDialogueTouchSessions(m, chat, intent, svc);
    }
  }

  /** The first dialogue message of a chat adds exactly one session, and a
      later one keeps the chat's session; this holds whether or not the
      answer arrives, since the session is opened before the model is
      called. The history grows by the exchange only when the answer
      arrives. Other chats stay as they were. */
  lemma DialogueSessionEffect(m: map<int, Session>, chat: int, u: string, svc: Services)
    ensures var n := NextSessions(m, chat, Dialogue(u), svc);
      && n.Keys == m.Keys + {chat}
      && |n| == (if chat in m then |m| else |m| + 1)
      && n[chat].history ==
           (if chat in m then m[chat].history else [])
           + (if svc.dialogue.Returned? then [Turn(u, Join(svc.dialogue.value))] else [])
      && n[chat].handle == (if chat in m then m[chat].handle else svc.newHandle)
      && forall k :: k in m && k != chat ==> n[k] == m[k]
  {
    CreatedSpec(m, chat, svc.newHandle);
    var c := Created(m, chat, svc.newHandle);
    if svc.dialogue.Returned? {
      assert c[chat := c[chat].(history := c[chat].history + [Turn(u, Join(svc.dialogue.value))])].Keys == c.Keys;
    } else {
      assert c[chat].history + [] == c[chat].history;
    }
  }

  /** A message consumes its chat's pending step; a task button arms a new
      one for that task. The other chats' steps stay as they were. */
  lemma PendingConsumed(p: map<int, Task>, chat: int, intent: Intent)
    ensures chat in NextPending(p, chat, intent) <==> intent.Arm?
    ensures intent.Arm? ==> NextPending(p, chat, intent)[chat] == intent.task
    ensures forall c :: c != chat ==> (c in NextPending(p, chat, intent) <==> c in p)
    ensures forall c :: c != chat && c in p ==> NextPending(p, chat, intent)[c] == p[c]
  {
  }

  class Bot {
    const store: SessionStore
    var pending: map<int, Task>

    /** A freshly started bot: no sessions and no pending steps. */
    constructor ()
      ensures fresh(store) && store.chats == map[] && pending == map[]
    {
      store := new SessionStore();
      pending := map[];
    }

    /** Handles one message: classifies it, says what the image and vision
        models are asked, answers it and updates the session store and the pending next
        steps. */
    method Handle(msg: Message, lower: string -> string, svc: Services)
      returns (intent: Intent, request: Option<Request>, vision: Option<Exchange>, replies: seq<Reply>)
      modifies this, store
      ensures intent == Classify(msg, PendingFor(old(pending), msg.chat), lower)
      ensures request == GenerationRequest(intent)
      ensures vision == VisionRequest(intent)
      ensures replies == Respond(intent, StatusInfo(msg.chat in old(store.chats), |old(store.chats)|), svc)
      ensures store.chats == NextSessions(old(store.chats), msg.chat, intent, svc)
      ensures pending == NextPending(old(pending), msg.chat, intent)
    {
      var chat := msg.chat;
      var waiting := PendingFor(pending, chat);
      intent := Classify(msg, waiting, lower);
      request := GenerationRequest(intent);
      vision := VisionRequest(intent);
      var info := store.Status(chat);
      replies := Respond(intent, info, svc);
      Apply(chat, intent, svc);
    }

    /** The state change of one message: the chat's pending step is
        consumed, a task button arms a new one, a reset clears the chat's
        session and a dialogue message gets or creates it and records the
        exchange. */
    method Apply(chat: int, intent: Intent, svc: Services)
      modifies this, store
      ensures store.chats == NextSessions(old(store.chats), chat, intent, svc)
      ensures pending == NextPending(old(pending), chat, intent)
    {
      if chat in pending {
        pending := pending - {chat};
      }
      match intent {
        case Reset =>
          store.Clear(chat);
        case Arm(task) =>
          pending := pending[chat := task];
        case Dialogue(u) =>
          var s := store.GetOrCreate(chat, svc.newHandle);
          if svc.dialogue.Returned? {
            store.RecordTurn(chat, u, Join(svc.dialogue.value));
          }
        case _ =>
      }
    }
  }
}
