/** The photo tasks armed from the menu (bot.py:143-178): the guard against
    a message without a photo, the fixed instruction of each task, and the
    post-processing of the model's answer into the reply. */
module PhotoTask {
  import opened Text
  import opened Wrappers
  import opened Routing
  import opened Replies

  const PromptInstruction := "АНАЛИЗ ИЗОБРАЖЕНИЯ ДЛЯ ПРОМПТА. ВЫВОД: ТОЛЬКО АНГЛИЙСКИЙ ЯЗЫК, КЛЮЧЕВЫЕ СЛОВА, ЧЕРЕЗ ЗАПЯТУЮ. БЕЗ ОБЪЯСНЕНИЙ. НАЧАТЬ С 'masterpiece, best quality'."
  const AnalysisInstruction := "Твоя роль: высокоточный мультидисциплинарный аналитик. Проведи исчерпывающий и объективный анализ изображения на русском языке. Структура отчета: 1. **Общая сводка**, 2. **Ключевые объекты**, 3. **Окружение и фон**, 4. **Детали и надписи**, 5. **Предположительный контекст**."
  const TranslationInstruction := "Извлеки весь текст с изображения и дословно переведи его на русский. Твой ответ должен содержать ТОЛЬКО переведенный текст. Если текста нет, напиши 'Текст не найден'."

  /** The first turn of the two-step exchange, sent with the image. */
  const AnalyzeFirst := "Проанализируй это изображение."

  const NotAPhotoText := "Пожалуйста, отправь фото."
  const TaskFailedText := "Не удалось обработать изображение. Возможно, ответ был заблокирован фильтром безопасности."
  const PromptReplyPrefix := "Готовый промпт:\n\n`"
  const PromptReplySuffix := "`"

  /** The instruction of each task, the second turn of the exchange. */
  function Instruction(task: Task): string {
    match task
    case PromptTask => PromptInstruction
    case AnalysisTask => AnalysisInstruction
    case TranslationTask => TranslationInstruction
  }

  /** The exchange a task starts with a fresh vision session: the file id
      of the photo and the task whose instruction follows it. */
  datatype Exchange = Exchange(photo: string, task: Task)

  /** The turns of an exchange, in order: the request to analyse the photo,
      sent with the photo, then the task's instruction. */
  function Turns(e: Exchange): (turns: seq<string>)
    ensures |turns| == 2 && turns[0] == AnalyzeFirst && turns[1] == Instruction(e.task)
  {
    [AnalyzeFirst, Instruction(e.task)]
  }

  /** `text.replace("\n", ", ").replace("*", "").strip()`: the result holds
      no newline and no star and has no whitespace at its ends. */
  function CleanPrompt(s: string): (r: string)
    ensures '\n' !in r && '*' !in r && Trimmed(r)
  {
    var a := ReplaceNewlines(s);
    var b := RemoveStars(a);
    var r := Strip(b);
    assert '\n' !in r by {
      if '\n' in r { StripChars(b, '\n'); }
    }
    assert '*' !in r by {
      if '*' in r { StripChars(b, '*'); }
    }
    r
  }

  /** Cleaning an already cleaned prompt changes nothing. */
  lemma CleanPromptIdempotent(s: string)
    ensures CleanPrompt(CleanPrompt(s)) == CleanPrompt(s)
  {
    var r := CleanPrompt(s);
    ReplaceNewlinesIdentity(r);
    RemoveStarsIdentity(r);
    StripTrimmed(r);
  }

  /** Two clean lines of the answer become one comma-separated list. */
  lemma CleanPromptJoinsLines(a: string, b: string)
    requires '\n' !in a && '*' !in a && a != [] && Trimmed(a)
    requires '\n' !in b && '*' !in b && b != [] && Trimmed(b)
    ensures CleanPrompt(a + "\n" + b) == a + ", " + b
  {
    var joined := a + ", " + b;
    assert ReplaceNewlines(a + "\n" + b) == joined by {
      ReplaceNewlinesAppend(a + "\n", b);
      ReplaceNewlinesAppend(a, "\n");
      ReplaceNewlinesIdentity(a);
      ReplaceNewlinesIdentity(b);
      assert ReplaceNewlines("\n") == ", ";
    }
    assert RemoveStars(joined) == joined by {
      assert '*' !in ", ";
      assert '*' !in joined by {
        assert forall i :: 0 <= i < |joined| ==> joined[i] != '*' by {
          forall i | 0 <= i < |joined| ensures joined[i] != '*' {
            if i < |a| { assert joined[i] == a[i]; }
            else if i < |a| + 2 { assert joined[i] == ", "[i - |a|]; }
            else { assert joined[i] == b[i - |a| - 2]; }
          }
        }
      }
      RemoveStarsIdentity(joined);
    }
    assert Trimmed(joined) by {
      assert joined[0] == a[0];
      assert joined[|joined| - 1] == b[|b| - 1];
    }
    StripTrimmed(joined);
  }

  /** The reply of a task: a message without a photo is refused before any
      call; a failed call gets the generic failure text; the prompt task
      cleans the answer and quotes it as code, the analysis is sent as
      Markdown and the translation as plain text. */
  function TaskReply(task: Task, isPhoto: bool, answer: Call<string>): (r: Reply)
    ensures !isPhoto ==> r == TextReply(NotAPhotoText, false, false)
    ensures isPhoto && answer.Raised? ==> r == TextReply(TaskFailedText, false, false)
    ensures isPhoto && answer.Returned? && task == PromptTask ==>
      r == TextReply(PromptReplyPrefix + CleanPrompt(answer.value) + PromptReplySuffix, true, false)
    ensures isPhoto && answer.Returned? && task != PromptTask ==>
      r == TextReply(answer.value, task == AnalysisTask, false)
  {
    if !isPhoto then TextReply(NotAPhotoText, false, false)
    else match answer
      case Raised => TextReply(TaskFailedText, false, false)
      case Returned(text) =>
        if task == PromptTask then
          TextReply(PromptReplyPrefix + CleanPrompt(text) + PromptReplySuffix, true, false)
        else TextReply(text, task == AnalysisTask, false)
  }
}
