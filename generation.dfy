/** Picking the generated image out of the image model's response and
    turning it into the reply (bot.py:71-81), and the replies of the two
    generation paths (bot.py:188-194 and 208-212). */
module Generation {
  import opened Text
  import opened Wrappers
  import opened Replies

  /** One content part of a generation response. */
  datatype Part = Part(mimeType: string, data: seq<bv8>)

  predicate IsImage(p: Part) {
    StartsWith(p.mimeType, "image/")
  }

  /** A response the model returned: either its parts, or a response object
      whose parts, MIME types or image data raise when they are read. */
  datatype Response = Unreadable | Parts(parts: seq<Part>)

  const DrawPrefix := "Generate a high-quality, masterpiece, 8k, detailed image of: "
  const RedrawPrefix := "Перерисуй это изображение, следуя инструкции: '"
  const RedrawSuffix := "'"
  const RedrawCaptionPrefix := "Перерисовано: "

  /** A request to the image model: the prompt and, for a redraw, the file
      id of the photo sent along with it. */
  datatype Request = Request(prompt: string, photo: Option<string>)

  /** The request for drawing from free text: the fixed prefix, then the
      whole text. */
  function DrawRequest(text: string): (r: Request)
    ensures r.photo == None && |r.prompt| == |DrawPrefix| + |text|
    ensures r.prompt[..|DrawPrefix|] == DrawPrefix && r.prompt[|DrawPrefix|..] == text
  {
    Request(DrawPrefix + text, None)
  }

  /** The request for redrawing a photo: the caption quoted inside the fixed
      instruction, sent with the photo. */
  function RedrawRequest(fileId: string, caption: string): (r: Request)
    ensures r.photo == Some(fileId)
    ensures |r.prompt| == |RedrawPrefix| + |caption| + |RedrawSuffix|
    ensures r.prompt[..|RedrawPrefix|] == RedrawPrefix
    ensures r.prompt[|RedrawPrefix|..|RedrawPrefix| + |caption|] == caption
    ensures r.prompt[|RedrawPrefix| + |caption|..] == RedrawSuffix
  {
    var p := RedrawPrefix + caption + RedrawSuffix;
    assert p[..|RedrawPrefix|] == RedrawPrefix;
    assert p[|RedrawPrefix|..|RedrawPrefix| + |caption|] == caption;
    assert p[|RedrawPrefix| + |caption|..] == RedrawSuffix;
    Request(p, Some(fileId))
  }

  /** The caption of the redrawn photo. */
  function RedrawCaption(caption: string): string {
    RedrawCaptionPrefix + caption
  }

  const GenerationFailedText := "Не удалось сгенерировать изображение. Возможно, сработал фильтр безопасности."
  const DrawNoticeText := "Понял, начинаю рисовать..."
  const RedrawNoticeText := "Принял! Начинаю перерисовывать..."
  const ImageSendErrorText := "Произошла серьезная внутренняя ошибка при отправке изображения."

  /** The index of the first image part, as `next(...)` finds it: no part
      before it is an image, and there is none at all when the result is
      `None`. */
  function FirstImage(parts: seq<Part>): (r: Option<nat>)
    ensures r.Some? ==> r.value < |parts| && IsImage(parts[r.value])
    ensures r.Some? ==> forall j :: 0 <= j < r.value ==> !IsImage(parts[j])
    ensures r.None? <==> forall j :: 0 <= j < |parts| ==> !IsImage(parts[j])
  {
    if parts == [] then None
    else if IsImage(parts[0]) then Some(0)
    else match FirstImage(parts[1..])
      case None => None
      case Some(i) => Some(i + 1)
  }

  /** `send_generated_image`: a response that is absent or has no parts,
      or has no image part, gets the fixed failure text; a response that
      raises while it is read gets the internal-error text of the `except`
      branch; otherwise the first image part is sent as a photo with the
      given caption. */
  function ImageReply(response: Option<Response>, caption: string): (r: Reply)
    ensures r.PhotoReply? <==>
      response.Some? && response.value.Parts?
      && exists j :: 0 <= j < |response.value.parts| && IsImage(response.value.parts[j])
    ensures r.PhotoReply? ==>
      var ps := response.value.parts;
      var i := FirstImage(ps).value;
      r == PhotoReply(ps[i].data, caption)
      && IsImage(ps[i])
      && forall j :: 0 <= j < i ==> !IsImage(ps[j])
    ensures response == Some(Unreadable) ==> r == TextReply(ImageSendErrorText, false, false)
    ensures !r.PhotoReply? && response != Some(Unreadable) ==> r == TextReply(GenerationFailedText, false, false)
  {
    match response
    case Some(Parts(parts)) =>
      if parts != [] then
        match FirstImage(parts)
        case Some(i) => PhotoReply(parts[i].data, caption)
        case None => TextReply(GenerationFailedText, false, false)
      else TextReply(GenerationFailedText, false, false)
    case Some(Unreadable) => TextReply(ImageSendErrorText, false, false)
    case None => TextReply(GenerationFailedText, false, false)
  }

  /** Drawing from free text: a notice, then the image reply; an exception
      from the model is caught by the text handler and answered with its
      generic error text. */
  function DrawReplies(generated: Call<Option<Response>>, caption: string): (rs: seq<Reply>)
    ensures |rs| == 2 && rs[0] == TextReply(DrawNoticeText, false, false)
    ensures generated.Raised? ==> rs[1] == TextReply(TextHandlerErrorText, false, false)
    ensures generated.Returned? ==> rs[1] == ImageReply(generated.value, caption)
  {
    [TextReply(DrawNoticeText, false, false)] +
    match generated
    case Raised => [TextReply(TextHandlerErrorText, false, false)]
    case Returned(response) => [ImageReply(response, caption)]
  }

  /** Redrawing a photo: a notice, then the image reply; the photo handler
      catches nothing, so an exception leaves the notice as the only reply. */
  function RedrawReplies(generated: Call<Option<Response>>, caption: string): (rs: seq<Reply>)
    ensures |rs| >= 1 && rs[0] == TextReply(RedrawNoticeText, false, false)
    ensures generated.Raised? ==> |rs| == 1
    ensures generated.Returned? ==> rs == [rs[0], ImageReply(generated.value, caption)]
  {
    [TextReply(RedrawNoticeText, false, false)] +
    match generated
    case Raised => []
    case Returned(response) => [ImageReply(response, caption)]
  }

  /** A response whose parts are all non-images, the empty response
      included, is answered with exactly the failure text. */
  lemma NoImageMeansFailureText(parts: seq<Part>, caption: string)
    requires forall j :: 0 <= j < |parts| ==> !IsImage(parts[j])
    ensures ImageReply(Some(Parts(parts)), caption) == TextReply(GenerationFailedText, false, false)
  {
  }

  /** The image sent does not depend on anything after the first image
      part: appending parts to a response that already has one changes
      nothing. */
  lemma {:induction false} FirstImageStable(parts: seq<Part>, more: seq<Part>)
    requires FirstImage(parts).Some?
    ensures FirstImage(parts + more) == FirstImage(parts)
  {
    if !IsImage(parts[0]) {
      assert (parts + more)[1..] == parts[1..] + more;
      FirstImageStable(parts[1..], more);
    }
  }
}
