/** Which handler an inbound message reaches and what that handler
    decides to do with it (bot.py, the message handlers at lines 85-222).

    Dispatch order follows the chat library's convention, which bot.py
    relies on without showing it: a pending next-step handler of the chat
    takes the message first; otherwise the handlers are tried in the order
    they are registered and the first whose filter accepts wins. Text
    handlers only see text messages and the photo handler only photos. */
module Routing {
  import opened Wrappers
  import opened Text

  /** The three photo tasks a menu button arms. */
  datatype Task = PromptTask | AnalysisTask | TranslationTask

  /** An inbound update, reduced to what the handlers look at. A photo
      carries the file id of its largest size (`message.photo[-1]`). */
  datatype Message =
    | TextMessage(chat: int, text: string)
    | PhotoMessage(chat: int, caption: Option<string>, fileId: string)
    | OtherMessage(chat: int)

  /** What the bot does with one message. */
  datatype Intent =
    | Start                       // `/start`: greeting and menu
    | Help                        // help text and menu
    | Status                      // status report and menu
    | Reset                       // drop the chat's dialogue session
    | Arm(task: Task)             // ask for a photo, register the next step
    | IgnoredLabel                // a label the free-text handler skips
    | Draw(text: string)          // generate from the stripped text
    | Dialogue(text: string)
    | Redraw(fileId: string, caption: string)
    | PhotoHint                   // photo without a redraw request
    | RunTask(task: Task, fileId: string)
    | NotAPhoto(task: Task)       // the armed step received no photo
    | Unhandled                   // no handler accepts the message

  const PromptLabel := "🖼️ Создать промпт"
  const AnalysisLabel := "🔎 Детальный анализ"
  const TranslationLabel := "🔤 Перевести текст с фото"
  const ResetLabel := "🗑️ Очистить память"
  const StatusLabel := "📊 Статус"
  const HelpLabel := "ℹ️ Помощь"

  /** The labels the free-text handler ignores, in its order. */
  const Labels: seq<string> :=
    [PromptLabel, AnalysisLabel, TranslationLabel, ResetLabel, StatusLabel, HelpLabel]

  const DrawKeywords: seq<string> := ["нарисуй", "изобрази", "сгенерируй"]
  const RedrawKeywords: seq<string> := ["перерисуй", "в стиле", "сделай как"]


  const StartCommand := "/start"

  /** The command word the library reads from a text: its first
      whitespace-separated word, cut at the first `@`, so that
      `/start@SomeBot` reads as `/start`. A text that starts with whitespace
      has an empty command word; the library reads commands only from a text
      whose first character is `/`. */
  function CommandWord(t: string): (w: string)
    ensures StartsWith(t, w)
    decreases |t|
  {
    if t == [] || IsSpace(t[0]) || t[0] == '@' then "" else [t[0]] + CommandWord(t[1..])
  }

  /** The library's command filter for `start`, stated on the characters
      right after the command: `StartCommandIff` shows it accepts a text
      exactly when its command word is `/start`. */
  predicate IsStartCommand(t: string)
    ensures IsStartCommand(t) ==> |t| >= 6 && t[0] == '/'
  {
    StartsWith(t, StartCommand) && (|t| == 6 || IsSpace(t[6]) || t[6] == '@')
  }

  /** A command word equals a word without whitespace or `@` exactly when
      the text starts with that word and the word ends there. */
  lemma {:induction false} CommandWordIs(t: string, p: string)
    requires forall i :: 0 <= i < |p| ==> !IsSpace(p[i]) && p[i] != '@'
    ensures CommandWord(t) == p <==> StartsWith(t, p) && (|t| == |p| || IsSpace(t[|p|]) || t[|p|] == '@')
    decreases |p|
  {
    if p != [] && t != [] {
      CommandWordIs(t[1..], p[1..]);
      if CommandWord(t) == p {
        assert t[1..][..|p| - 1] == t[..|p|][1..];
      }
      if StartsWith(t, p) {
        assert t[1..][..|p| - 1] == t[..|p|][1..];
        assert p == [p[0]] + p[1..];
      }
    }
  }

  /** The `start` filter accepts a text exactly when its command word is
      `/start`: `/start`, `/start payload` and `/start@SomeBot` are
      accepted, `/started` and ` /start` are not. */
  lemma StartCommandIff(t: string)
    ensures IsStartCommand(t) <==> CommandWord(t) == StartCommand
  {
    assert forall i :: 0 <= i < |StartCommand| ==> !IsSpace(StartCommand[i]) && StartCommand[i] != '@';
    CommandWordIs(t, StartCommand);
  }

  /** Three spellings of the command that all reach the greeting, and one
      longer word that does not. */
  lemma StartCommandExamples(t: string)
    requires t == "/start" || t == "/start@SomeBot" || t == "/start now" || t == "/started"
    ensures IsStartCommand(t) <==> t != "/started"
  {
    if t == "/started" {
      assert t[6] == 'e';
    } else if t == "/start@SomeBot" {
      assert t[..6] == StartCommand && t[6] == '@';
    } else if t == "/start now" {
      assert t[..6] == StartCommand && t[6] == ' ';
    }
  }

  /** The six label handlers, tried in registration order on the exact,
      unstripped text. */
  function LabelIntent(t: string): (r: Option<Intent>)
    ensures r.Some? <==> t in Labels
    ensures r == Some(Help) <==> t == HelpLabel
    ensures r == Some(Status) <==> t == StatusLabel
    ensures r == Some(Reset) <==> t == ResetLabel
    ensures r == Some(Arm(PromptTask)) <==> t == PromptLabel
    ensures r == Some(Arm(AnalysisTask)) <==> t == AnalysisLabel
    ensures r == Some(Arm(TranslationTask)) <==> t == TranslationLabel
    ensures r.Some? ==> !r.value.Draw? && !r.value.Dialogue? && !r.value.IgnoredLabel?
  {
    if t == HelpLabel then Some(Help)
    else if t == StatusLabel then Some(Status)
    else if t == ResetLabel then Some(Reset)
    else if t == PromptLabel then Some(Arm(PromptTask))
    else if t == AnalysisLabel then Some(Arm(AnalysisTask))
    else if t == TranslationLabel then Some(Arm(TranslationTask))
    else None
  }

  /** The catch-all text handler: strip, skip labels, draw on a keyword in
      the lowercased text, talk otherwise. */
  function FreeText(t: string, lower: string -> string): (r: Intent)
    ensures r == IgnoredLabel <==> Strip(t) in Labels
    ensures r.IgnoredLabel? || r.Draw? || r.Dialogue?
    ensures r.Draw? || r.Dialogue? ==> r.text == Strip(t)
  {
    var u := Strip(t);
    if u in Labels then IgnoredLabel
    else if ContainsAny(DrawKeywords, lower(u)) then Draw(u)
    else Dialogue(u)
  }

  /** A text message when no next step is pending. */
  function ClassifyText(t: string, lower: string -> string): (r: Intent)
    ensures r.Start? || r.Help? || r.Status? || r.Reset? || r.Arm? || r.IgnoredLabel? || r.Draw? || r.Dialogue?
    ensures r.Start? <==> IsStartCommand(t)
  {
    if IsStartCommand(t) then Start
    else match LabelIntent(t)
      case Some(i) => i
      case None => FreeText(t, lower)
  }

  /** The default photo handler; a missing caption reads as "". */
  function ClassifyPhoto(caption: Option<string>, fileId: string, lower: string -> string): (r: Intent)
    ensures r.Redraw? || r == PhotoHint
    ensures r.Redraw? ==> r.fileId == fileId && r.caption == caption.GetOr("")
  {
    var c := caption.GetOr("");
    if ContainsAny(RedrawKeywords, lower(c))
    then Redraw(fileId, c)
    else PhotoHint
  }

  /** Any message, given the task whose next step is pending for its chat. */
  function Classify(msg: Message, pending: Option<Task>, lower: string -> string): (r: Intent)
    ensures pending.Some? <==> r.RunTask? || r.NotAPhoto?
    ensures pending.Some? ==> r.task == pending.value
    ensures r.Unhandled? <==> pending.None? && msg.OtherMessage?
    ensures pending.None? && msg.TextMessage? ==> r == ClassifyText(msg.text, lower)
    ensures pending.None? && msg.PhotoMessage? ==> r == ClassifyPhoto(msg.caption, msg.fileId, lower)
  {
    match pending
    case Some(task) =>
      if msg.PhotoMessage? then RunTask(task, msg.fileId) else NotAPhoto(task)
    case None =>
      match msg
      case TextMessage(_, t) => ClassifyText(t, lower)
      case PhotoMessage(_, c, f) => ClassifyPhoto(c, f, lower)
      case OtherMessage(_) => Unhandled
  }

  // ---------------------------------------------------------------------
  // Properties of the routing

  /** No label has whitespace at its ends, and none starts with `/`. */
  lemma LabelsShape(i: int)
    requires 0 <= i < |Labels|
    ensures Trimmed(Labels[i]) && |Labels[i]| > 0 && Labels[i][0] != '/'
  {
  }

  /** A label, with or without whitespace around it, resets the session only
      when it is exactly the reset button. */
  lemma LabelResetIff(t: string, lower: string -> string)
    requires Strip(t) in Labels
    ensures ClassifyText(t, lower).Reset? <==> t == ResetLabel
    ensures !ClassifyText(t, lower).Dialogue?
  {
    LabelNeverGeneratesOrTalks(t, lower);
  }

  /** Text that is a label up to surrounding whitespace is never a command. */
  lemma PaddedLabelNotCommand(t: string)
    requires Strip(t) in Labels
    ensures !IsStartCommand(t)
  {
    var n :| 0 <= n < |Labels| && Labels[n] == Strip(t);
    LabelsShape(n);
    StripFirst(t);
    NoSlashNotCommand(t);
  }

  /** A text that does not start with `/` is not a command. */
  lemma NoSlashNotCommand(t: string)
    requires |t| > 0 && t[0] != '/'
    ensures !IsStartCommand(t)
  {
    assert |t| < 6 || t[..6][0] == t[0];
  }

  /** A label, even with whitespace around it, never reaches drawing or the
      dialogue: an exact label gets its own handler, a padded one is
      skipped by the free-text handler. */
  lemma LabelNeverGeneratesOrTalks(t: string, lower: string -> string)
    requires Strip(t) in Labels
    ensures Some(ClassifyText(t, lower)) == if t in Labels then LabelIntent(t) else Some(IgnoredLabel)
    ensures !ClassifyText(t, lower).Draw? && !ClassifyText(t, lower).Dialogue?
  {
    PaddedLabelNotCommand(t);
    ClassifyNonCommand(t, lower);
    FreeTextOfLabel(t, lower);
  }

  /** A text that is not `/start` goes to its label handler, if any, and
      otherwise to the free-text handler. */
  lemma ClassifyNonCommand(t: string, lower: string -> string)
    requires !IsStartCommand(t)
    ensures Some(ClassifyText(t, lower)) == if LabelIntent(t).Some? then LabelIntent(t) else Some(FreeText(t, lower))
  {
  }

  /** The free-text handler skips a text that strips to a label. */
  lemma FreeTextOfLabel(t: string, lower: string -> string)
    requires Strip(t) in Labels
    ensures FreeText(t, lower) == IgnoredLabel
  {
  }

  /** The free-text handler skips a message exactly when it is a label up to
      surrounding whitespace but not exactly a label; such a message gets no
      reply at all. */
  lemma IgnoredLabelIff(t: string, lower: string -> string)
    ensures ClassifyText(t, lower) == IgnoredLabel <==> t !in Labels && Strip(t) in Labels
  {
    if Strip(t) in Labels {
      LabelNeverGeneratesOrTalks(t, lower);
    }
  }

  /** A text whose stripped form is no label, is no command and holds a draw
      keyword goes to image generation with the whole stripped text. */
  lemma DrawIff(t: string, lower: string -> string)
    ensures ClassifyText(t, lower).Draw? <==>
      !IsStartCommand(t) && Strip(t) !in Labels && ContainsAny(DrawKeywords, lower(Strip(t)))
    ensures ClassifyText(t, lower).Draw? ==> ClassifyText(t, lower) == Draw(Strip(t))
  {
    if t in Labels {
      var n :| 0 <= n < |Labels| && Labels[n] == t;
      LabelsShape(n);
      StripTrimmed(t);
    }
  }

  /** Everything else that is neither a command nor a label goes to the
      dialogue, stripped. */
  lemma DialogueIff(t: string, lower: string -> string)
    ensures ClassifyText(t, lower).Dialogue? <==>
      !IsStartCommand(t) && Strip(t) !in Labels && !ContainsAny(DrawKeywords, lower(Strip(t)))
    ensures ClassifyText(t, lower).Dialogue? ==> ClassifyText(t, lower) == Dialogue(Strip(t))
  {
    if t in Labels {
      var n :| 0 <= n < |Labels| && Labels[n] == t;
      LabelsShape(n);
      StripTrimmed(t);
    }
  }

  /** Each label is 8, 9, or at least 17 characters long. */
  lemma LabelLengths(t: string)
    requires t in Labels
    ensures |t| == 8 || |t| == 9 || |t| >= 17
  {
    var n :| 0 <= n < |Labels| && Labels[n] == t;
    LabelsShape(n);
  }

  /** A text of a length no label has is no label. */
  lemma NotLabelByLength(t: string)
    requires |t| < 8 || 9 < |t| < 17
    ensures t !in Labels
  {
    if t in Labels {
      LabelLengths(t);
    }
  }

  /** "нарисуй кота" is drawn from the whole text, not the keyword alone. */
  lemma DrawCatExample(t: string, lower: string -> string)
    requires t == "нарисуй кота" && lower(t) == t
    ensures ClassifyText(t, lower) == Draw(t)
  {
    CatTextShape(t);
    DrawIff(t, lower);
  }

  /** "нарисуй кота" is no command and no label, has no whitespace at its
      ends and starts with a draw keyword. */
  lemma CatTextShape(t: string)
    requires t == "нарисуй кота"
    ensures !IsStartCommand(t) && Strip(t) == t && t !in Labels && ContainsAny(DrawKeywords, t)
  {
    assert !IsStartCommand(t) by { assert t[0] == 'н'; }
    assert Strip(t) == t by { StripTrimmed(t); }
    assert t !in Labels by { NotLabelByLength(t); }
    assert ContainsAny(DrawKeywords, t) by {
      assert StartsWith(t, DrawKeywords[0]);
    }
  }

  /** The `/reset` command that the dialogue's error reply recommends has no
      handler: it is sent to the dialogue as ordinary text. */
  lemma ResetCommandIsDialogue(t: string, lower: string -> string)
    requires t == "/reset" && lower(t) == t
    ensures ClassifyText(t, lower) == Dialogue(t)
  {
    ResetTextShape(t);
    DialogueIff(t, lower);
  }

  /** "/reset" is no `start` command and no label, has no whitespace at its
      ends and holds no draw keyword. */
  lemma ResetTextShape(t: string)
    requires t == "/reset"
    ensures !IsStartCommand(t) && Strip(t) == t && t !in Labels && !ContainsAny(DrawKeywords, t)
  {
    assert !IsStartCommand(t) by { assert t[1] == 'r'; }
    assert Strip(t) == t by { StripTrimmed(t); }
    assert t !in Labels by { NotLabelByLength(t); }
    assert !ContainsAny(DrawKeywords, t) by { ShortTextHasNoDrawKeyword(t); }
  }

  /** Every draw keyword is at least seven characters long. */
  lemma ShortTextHasNoDrawKeyword(s: string)
    requires |s| < 7
    ensures !ContainsAny(DrawKeywords, s)
  {
    forall i | 0 <= i < |DrawKeywords| ensures !IsSubstring(DrawKeywords[i], s) {
      LongerNotSubstring(DrawKeywords[i], s);
    }
  }

  /** A photo is redrawn exactly when its lowercased caption (or "" when there
      is none) holds a redraw keyword; otherwise the bot only hints at the
      menu. */
  lemma RedrawIff(caption: Option<string>, fileId: string, lower: string -> string)
    ensures ClassifyPhoto(caption, fileId, lower).Redraw? <==>
      ContainsAny(RedrawKeywords, lower(caption.GetOr("")))
    ensures !ClassifyPhoto(caption, fileId, lower).Redraw? ==> ClassifyPhoto(caption, fileId, lower) == PhotoHint
    ensures caption == None ==> ClassifyPhoto(caption, fileId, lower) == ClassifyPhoto(Some(""), fileId, lower)
  {
  }

  /** "перерисуй в стиле аниме" on a photo asks for a redraw of that photo. */
  lemma RedrawAnimeExample(caption: string, fileId: string, lower: string -> string)
    requires caption == "перерисуй в стиле аниме" && lower(caption) == caption
    ensures ClassifyPhoto(Some(caption), fileId, lower) == Redraw(fileId, caption)
  {
    assert StartsWith(caption, RedrawKeywords[0]);
    assert IsSubstring(RedrawKeywords[0], caption);
  }

  /** A pending next step takes the next message of its chat, whatever it is:
      a photo runs the task, anything else is refused as not a photo. */
  lemma PendingStepTakesMessage(msg: Message, task: Task, lower: string -> string)
    ensures Classify(msg, Some(task), lower) ==
      if msg.PhotoMessage? then RunTask(task, msg.fileId) else NotAPhoto(task)
  {
  }
}
