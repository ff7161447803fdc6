/** The component state of App.tsx and its submit handler `handleGenerate`, with the
    toast-list helpers and the classification of error messages. */
module App {
  import opened Wrappers
  import opened JsString
  import opened Types
  import opened GeminiService

  const PROMPT_REQUIRED_MESSAGE: string := "프롬프트 내용을 입력해주세요."
  const IMAGE_REQUIRED_MESSAGE: string := "편집할 이미지를 업로드해주세요."
  const GENERATED_MESSAGE: string := "이미지가 성공적으로 생성되었습니다!"
  const EDITED_MESSAGE: string := "이미지가 성공적으로 편집되었습니다!"
  const DEFAULT_ERROR_MESSAGE: string := "오류가 발생했습니다. 다시 시도해주세요."
  const RATE_LIMIT_MESSAGE: string := "현재 이용량이 많아 제한되었습니다. 약 1분 후 다시 시도해주세요."
  const REJECTED_MESSAGE: string := "요청이 거부되었습니다. 지원하지 않는 콘텐츠 유형일 수 있습니다."
  const UNAVAILABLE_MESSAGE: string := "서비스가 일시적으로 불안정합니다. 잠시 후 다시 시도해주세요."

  // ---------------------------------------------------------------------------
  // Toast list

  /** `[...prev, { id, type, message }]`: one toast more, at the end. */
  function AddToast(toasts: seq<ToastMessage>, id: string, kind: ToastType, message: string): (r: seq<ToastMessage>)
    ensures |r| == |toasts| + 1
    ensures r[..|toasts|] == toasts
    ensures r[|toasts|] == ToastMessage(id, kind, message)
  {
    toasts + [ToastMessage(id, kind, message)]
  }

  /** `prev.filter(t => t.id !== id)`: exactly the toasts with another id remain. */
  function RemoveToast(toasts: seq<ToastMessage>, id: string): (r: seq<ToastMessage>)
    ensures forall t :: t in r <==> t in toasts && t.id != id
    ensures |r| <= |toasts|
    decreases |toasts|
  {
    if |toasts| == 0 then []
    else if toasts[0].id != id then [toasts[0]] + RemoveToast(toasts[1..], id)
    else RemoveToast(toasts[1..], id)
  }

  /** Filtering keeps the relative order: it works piecewise on a concatenation. */
  lemma {:induction false} RemoveToastConcat(a: seq<ToastMessage>, b: seq<ToastMessage>, id: string)
    ensures RemoveToast(a + b, id) == RemoveToast(a, id) + RemoveToast(b, id)
    decreases |a|
  {
    if |a| > 0 {
      assert (a + b)[0] == a[0] && (a + b)[1..] == a[1..] + b;
      RemoveToastConcat(a[1..], b, id);
    } else {
      assert a + b == b;
    }
  }

  /** An id that no toast carries leaves the list as it is. */
  lemma {:induction false} RemoveAbsentToast(toasts: seq<ToastMessage>, id: string)
    requires forall k :: 0 <= k < |toasts| ==> toasts[k].id != id
    ensures RemoveToast(toasts, id) == toasts
    decreases |toasts|
  {
    if |toasts| > 0 {
      RemoveAbsentToast(toasts[1..], id);
      assert [toasts[0]] + toasts[1..] == toasts;
    }
  }

  /** Closing the same toast twice is the same as closing it once. */
  lemma RemoveToastIdempotent(toasts: seq<ToastMessage>, id: string)
    ensures RemoveToast(RemoveToast(toasts, id), id) == RemoveToast(toasts, id)
  {
    var r := RemoveToast(toasts, id);
    assert forall k :: 0 <= k < |r| ==> r[k] in r;
    RemoveAbsentToast(r, id);
  }

  /** Adding a toast and then closing its id leaves what closing the id alone leaves;
      closing another id commutes with the add. */
  lemma RemoveAfterAdd(toasts: seq<ToastMessage>, id: string, kind: ToastType, message: string, closed: string)
    ensures RemoveToast(AddToast(toasts, id, kind, message), closed) ==
      if closed == id then RemoveToast(toasts, closed)
      else AddToast(RemoveToast(toasts, closed), id, kind, message)
  {
    var t := ToastMessage(id, kind, message);
    RemoveToastConcat(toasts, [t], closed);
    assert [t][1..] == [];
  }

  // ---------------------------------------------------------------------------
  // Validation

  /** `!prompt.trim()` */
  predicate IsBlank(prompt: string)
    ensures prompt == "" ==> IsBlank(prompt)
    ensures IsBlank(prompt) && prompt != "" ==>
              IsJsWhitespace(prompt[0]) && IsJsWhitespace(prompt[|prompt| - 1])
  {
    TrimShape(prompt);
    Trim(prompt) == ""
  }

  /** A prompt is blank exactly when it has no character other than whitespace. */
  lemma BlankIffAllWhitespace(prompt: string)
    ensures IsBlank(prompt) <==> forall i :: 0 <= i < |prompt| ==> IsJsWhitespace(prompt[i])
  {
    TrimShape(prompt);
  }

  /** The toast `handleGenerate` shows instead of sending a request, if any: a blank
      prompt is reported first, then edit mode without a (truthy) source image. */
  function ValidationError(prompt: string, mode: AppMode, sourceImage: Option<string>): (e: Option<string>)
    ensures e == Some(PROMPT_REQUIRED_MESSAGE) <==> IsBlank(prompt)
    ensures e == Some(IMAGE_REQUIRED_MESSAGE) <==> !IsBlank(prompt) && mode == Edit && !Truthy(sourceImage)
    ensures e == None <==> !IsBlank(prompt) && (mode == Generate || Truthy(sourceImage))
  {
    if IsBlank(prompt) then Some(PROMPT_REQUIRED_MESSAGE)
    else if mode == Edit && !Truthy(sourceImage) then Some(IMAGE_REQUIRED_MESSAGE)
    else
      assert mode == Generate || Truthy(sourceImage);
      None
  }

  // ---------------------------------------------------------------------------
  // Error classification

  ghost predicate SignalsRateLimit(errorMessage: string) {
    Contains(errorMessage, "429") || Contains(errorMessage, "Quota")
    || Contains(errorMessage, "quota") || Contains(errorMessage, "RESOURCE_EXHAUSTED")
  }

  /** The user-facing message for a failed request: rate limiting first, then a rejected
      request (400), then an unavailable service (503), then the generic message. */
  function ClassifyError(errorMessage: string): (msg: string)
    ensures msg == RATE_LIMIT_MESSAGE <==> SignalsRateLimit(errorMessage)
    ensures msg == REJECTED_MESSAGE <==> !SignalsRateLimit(errorMessage) && Contains(errorMessage, "400")
    ensures msg == UNAVAILABLE_MESSAGE <==>
      !SignalsRateLimit(errorMessage) && !Contains(errorMessage, "400") && Contains(errorMessage, "503")
    ensures msg == DEFAULT_ERROR_MESSAGE <==>
      !SignalsRateLimit(errorMessage) && !Contains(errorMessage, "400") && !Contains(errorMessage, "503")
  {
    if Includes(errorMessage, "429") || Includes(errorMessage, "Quota")
       || Includes(errorMessage, "quota") || Includes(errorMessage, "RESOURCE_EXHAUSTED") then
      RATE_LIMIT_MESSAGE
    else if Includes(errorMessage, "400") then
      REJECTED_MESSAGE
    else if Includes(errorMessage, "503") then
      UNAVAILABLE_MESSAGE
    else
      DEFAULT_ERROR_MESSAGE
  }

  /** The success toast names the mode of the request. */
  function SuccessMessage(mode: AppMode): (msg: string)
    ensures msg == GENERATED_MESSAGE <==> mode == Generate
    ensures msg == EDITED_MESSAGE <==> mode == Edit
  {
    assert GENERATED_MESSAGE[11] != EDITED_MESSAGE[11];
    match mode
    case Generate => GENERATED_MESSAGE
    case Edit => EDITED_MESSAGE
  }

  // ---------------------------------------------------------------------------
  // Component state

  /** What `handleGenerate` hands to `generateOrEditImage`, with the mode it saw. */
  datatype ImageRequest = ImageRequest(mode: AppMode, prompt: string, sourceImage: Option<string>, sourceMimeType: Option<string>)

  /** The `useState` cells of the App component. */
  class AppState {
    var mode: AppMode
    var prompt: string
    var isLoading: bool
    var resultImage: Option<string>
    var sourceImage: Option<string>
    var sourceMimeType: Option<string>
    var toasts: seq<ToastMessage>

    /** The initial values of the `useState` calls. */
    constructor ()
      ensures mode == Generate && prompt == "" && !isLoading && resultImage == None
      ensures sourceImage == None && sourceMimeType == None && toasts == []
    {
      mode := Generate;
      prompt := "";
      isLoading := false;
      resultImage := None;
      sourceImage := None;
      sourceMimeType := None;
      toasts := [];
    }

    /** The mode switcher buttons. */
    method SetMode(newMode: AppMode)
      modifies this`mode
      ensures mode == newMode
    {
      mode := newMode;
    }

    /** The prompt text area and the sample-prompt buttons. */
    method SetPrompt(text: string)
      modifies this`prompt
      ensures prompt == text
    {
      prompt := text;
    }

    /** `onImageSelected`: the uploader's data URL and the file's media type. */
    method SelectSourceImage(dataUrl: string, mimeType: string)
      modifies this`sourceImage, this`sourceMimeType
      ensures sourceImage == Some(dataUrl) && sourceMimeType == Some(mimeType)
    {
      sourceImage := Some(dataUrl);
      sourceMimeType := Some(mimeType);
    }

    /** `onClear` */
    method ClearSourceImage()
      modifies this`sourceImage, this`sourceMimeType
      ensures sourceImage == None && sourceMimeType == None
    {
      sourceImage := None;
      sourceMimeType := None;
    }

    /** `addToast(type, message)`, with the timestamp id as a parameter. */
    method ShowToast(kind: ToastType, message: string, id: string)
      modifies this`toasts
      ensures toasts == AddToast(old(toasts), id, kind, message)
    {
      toasts := AddToast(toasts, id, kind, message);
    }

    /** `removeToast(id)`, the toast's close button and its timer. */
    method CloseToast(id: string)
      modifies this`toasts
      ensures toasts == RemoveToast(old(toasts), id)
    {
      toasts := RemoveToast(toasts, id);
    }

    /** `handleGenerate` up to the `await`: validate, or enter the loading state and
        produce the request. Whatever the mode, the stored source image and media type
        are passed on when they are truthy. */
    method StartGenerate(toastId: string) returns (request: Option<ImageRequest>)
      modifies this`isLoading, this`resultImage, this`toasts
      ensures ValidationError(prompt, mode, sourceImage).Some? ==>
        && request == None
        && isLoading == old(isLoading) && resultImage == old(resultImage)
        && toasts == AddToast(old(toasts), toastId, ErrorToast, ValidationError(prompt, mode, sourceImage).value)
      ensures ValidationError(prompt, mode, sourceImage).None? ==>
        && request == Some(ImageRequest(mode, prompt, Or(sourceImage, None), Or(sourceMimeType, None)))
        && isLoading && resultImage == None && toasts == old(toasts)
    {
      ghost var e := ValidationError(prompt, mode, sourceImage);
      if IsBlank(prompt) {
        assert e == Some(PROMPT_REQUIRED_MESSAGE);
        ShowToast(ErrorToast, PROMPT_REQUIRED_MESSAGE, toastId);
        return None;
      }
      if mode == Edit && !Truthy(sourceImage) {
        assert e == Some(IMAGE_REQUIRED_MESSAGE);
        ShowToast(ErrorToast, IMAGE_REQUIRED_MESSAGE, toastId);
        return None;
      }
      assert e == None;
      isLoading := true;
      resultImage := None;
      request := Some(ImageRequest(mode, prompt, Or(sourceImage, None), Or(sourceMimeType, None)));
    }

    /** `handleGenerate` after the `await`: store the image or classify the error, and
        leave the loading state either way (`finally`). */
    method CompleteGenerate(request: ImageRequest, outcome: Result<string, string>, toastId: string)
      modifies this`isLoading, this`resultImage, this`toasts
      ensures !isLoading
      ensures outcome.Success? ==>
        resultImage == Some(outcome.value) && toasts == AddToast(old(toasts), toastId, SuccessToast, SuccessMessage(request.mode))
      ensures outcome.Failure? ==>
        resultImage == old(resultImage) && toasts == AddToast(old(toasts), toastId, ErrorToast, ClassifyError(outcome.error))
    {
      match outcome {
        case Success(image) =>
          resultImage := Some(image);
          ShowToast(SuccessToast, SuccessMessage(request.mode), toastId);
        case Failure(errorMessage) =>
          var msg := DEFAULT_ERROR_MESSAGE;
          if Includes(errorMessage, "429") || Includes(errorMessage, "Quota")
             || Includes(errorMessage, "quota") || Includes(errorMessage, "RESOURCE_EXHAUSTED") {
            msg := RATE_LIMIT_MESSAGE;
          } else if Includes(errorMessage, "400") {
            msg := REJECTED_MESSAGE;
          } else if Includes(errorMessage, "503") {
            msg := UNAVAILABLE_MESSAGE;
          }
          ShowToast(ErrorToast, msg, toastId);
      }
      isLoading := false;
    }

    /** The whole submit handler, with the remote model as a parameter. It adds exactly
        one toast; the request goes out only when validation passes, and on a failure
        the result image stays cleared. */
    method HandleGenerate(generateContent: GenerateContentRequest -> RemoteReply, toastId: string)
      returns (sent: Option<GenerateContentRequest>)
      modifies this`isLoading, this`resultImage, this`toasts
      ensures var e := ValidationError(prompt, mode, sourceImage);
        && (e.Some? ==>
              && sent == None
              && isLoading == old(isLoading) && resultImage == old(resultImage)
              && toasts == AddToast(old(toasts), toastId, ErrorToast, e.value))
        && (e.None? ==>
              var r := GenerateOrEditImageResult(prompt, Or(sourceImage, None), Or(sourceMimeType, None), generateContent);
              && sent == Some(GenerateContentRequest(MODEL_NAME,
                                RequestParts(prompt, Or(sourceImage, None), Or(sourceMimeType, None))))
              && !isLoading
              && resultImage == (if r.Success? then Some(r.value) else None)
              && toasts == AddToast(old(toasts), toastId,
                                    if r.Success? then SuccessToast else ErrorToast,
                                    if r.Success? then SuccessMessage(mode) else ClassifyError(r.error)))
    {
      sent := None;
      var request := StartGenerate(toastId);
      if request.Some? {
        var req := request.value;
        var result, call := GenerateOrEditImage(req.prompt, req.sourceImage, req.sourceMimeType, generateContent);
        sent := Some(call);
        CompleteGenerate(req, result, toastId);
      }
    }
  }
}
