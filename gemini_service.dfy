/** The image request of services/geminiService.ts: `generateOrEditImage` builds the
    request parts, hands them to the remote model, and turns the first inline image of
    the reply into a data URL. The remote call itself is a parameter. */
module GeminiService {
  import opened Wrappers
  import opened JsString

  const MODEL_NAME: string := "gemini-2.5-flash-image"
  const DEFAULT_MIME_TYPE: string := "image/png"
  const NO_IMAGE_ERROR: string := "No image data found in the response."

  // ---------------------------------------------------------------------------
  // Request

  /** One element of `contents.parts` in the request. */
  datatype RequestPart =
    | InlineDataPart(mimeType: string, data: string)
    | TextPart(text: string)

  datatype GenerateContentRequest = GenerateContentRequest(model: string, parts: seq<RequestPart>)

  // ---------------------------------------------------------------------------
  // Response, with every optional field of the SDK's reply left optional

  datatype InlineData = InlineData(mimeType: Option<string>, data: Option<string>)
  datatype ResponsePart = ResponsePart(text: Option<string>, inlineData: Option<InlineData>)
  datatype Content = Content(parts: Option<seq<ResponsePart>>)
  datatype Candidate = Candidate(content: Option<Content>)
  datatype Response = Response(candidates: Option<seq<Candidate>>)

  /** What `ai.models.generateContent` settles to: a reply, or a rejection with the
      error's message. */
  datatype RemoteReply = Replied(response: Response) | Rejected(message: string)

  // ---------------------------------------------------------------------------
  // Data URLs

  /** `sourceImageBase64.split(',')[1] || sourceImageBase64`: the text between the first
      and the second comma when there is a comma and that text is non-empty, otherwise
      the whole input. */
  function StripDataUrlPrefix(s: string): (r: string)
    ensures r == s || (r != "" && ',' !in r && Contains(s, r))
  {
    var pieces := Split(s, ',');
    if |pieces| > 1 && pieces[1] != "" then
      JoinSecondPiece(pieces, ',');
      assert OccursAt(s, pieces[1], |pieces[0]| + 1);
      pieces[1]
    else s
  }

  /** `data:${mimeType};base64,${data}` */
  function FormatDataUrl(mimeType: string, data: string): (r: string)
    ensures |r| == |mimeType| + |data| + 13
    ensures r[..5] == "data:" && r[5..5 + |mimeType|] == mimeType
    ensures r[|r| - |data|..] == data
  {
    "data:" + mimeType + ";base64," + data
  }

  /** Without a comma there is nothing to strip. */
  lemma StripWithoutComma(s: string)
    requires ',' !in s
    ensures StripDataUrlPrefix(s) == s
  {
    SplitSeparatorFree(s, ',');
  }

  /** With a comma, the segment up to the next comma (or the end) is kept when it is
      non-empty; an empty segment leaves the input unchanged. */
  lemma StripSegment(head: string, segment: string, tail: string)
    requires ',' !in head && ',' !in segment
    requires tail == "" || tail[0] == ','
    ensures StripDataUrlPrefix(head + [','] + segment + tail) ==
            if segment != "" then segment else head + [','] + segment + tail
  {
    var s := head + [','] + segment + tail;
    assert s == head + [','] + (segment + tail);
    SplitAtFirstSeparator(head, segment + tail, ',');
    if tail == "" {
      assert segment + tail == segment;
      SplitSeparatorFree(segment, ',');
    } else {
      assert segment + tail == segment + [','] + tail[1..];
      SplitAtFirstSeparator(segment, tail[1..], ',');
    }
  }

  /** Stripping the data URL the service returns gives back its payload, when neither
      the media type nor the payload holds a comma (base64 never does). */
  lemma StripFormatRoundTrip(mimeType: string, data: string)
    requires ',' !in mimeType && ',' !in data && data != ""
    ensures StripDataUrlPrefix(FormatDataUrl(mimeType, data)) == data
  {
    var head := "data:" + mimeType + ";base64";
    assert FormatDataUrl(mimeType, data) == head + [','] + data + "";
    StripSegment(head, data, "");
  }

  // ---------------------------------------------------------------------------
  // Building the request

  /** The parts the request carries: the inline source image, then the prompt, when both
      the image and its media type are truthy; the prompt alone otherwise. */
  function RequestParts(prompt: string, sourceImage: Option<string>, sourceMimeType: Option<string>): (parts: seq<RequestPart>)
    ensures |parts| == (if Truthy(sourceImage) && Truthy(sourceMimeType) then 2 else 1)
    ensures parts[|parts| - 1] == TextPart(prompt)
    ensures |parts| == 2 ==> parts[0] == InlineDataPart(sourceMimeType.value, StripDataUrlPrefix(sourceImage.value))
  {
    if Truthy(sourceImage) && Truthy(sourceMimeType) then
      [InlineDataPart(sourceMimeType.value, StripDataUrlPrefix(sourceImage.value)), TextPart(prompt)]
    else
      [TextPart(prompt)]
  }

  /** The `parts` array as the source fills it, by `push`. */
  method BuildRequestParts(prompt: string, sourceImage: Option<string>, sourceMimeType: Option<string>)
    returns (parts: seq<RequestPart>)
    ensures parts == RequestParts(prompt, sourceImage, sourceMimeType)
  {
    parts := [];
    if Truthy(sourceImage) && Truthy(sourceMimeType) {
      var base64Data := StripDataUrlPrefix(sourceImage.value);
      parts := parts + [InlineDataPart(sourceMimeType.value, base64Data)];
    }
    parts := parts + [TextPart(prompt)];
  }

  // ---------------------------------------------------------------------------
  // Reading the response

  /** `candidates?.[0]?.content?.parts` */
  function FirstCandidateParts(response: Response): (r: Option<seq<ResponsePart>>)
    ensures r.Some? ==> response.candidates.Some? && |response.candidates.value| > 0
    ensures r.Some? ==> response.candidates.value[0].content.Some?
                        && r == response.candidates.value[0].content.value.parts
  {
    match response.candidates
    case Some(cs) =>
      if |cs| > 0 && cs[0].content.Some? then cs[0].content.value.parts else None
    case None => None
  }

  /** `part.inlineData && part.inlineData.data` */
  predicate HasImageData(part: ResponsePart)
    ensures HasImageData(part) ==> part.inlineData.Some? && part.inlineData.value.data.Some?
                                   && |part.inlineData.value.data.value| > 0
  {
    part.inlineData.Some? && Truthy(part.inlineData.value.data)
  }

  /** The index of the first part carrying image data, if any. */
  function FirstImageIndex(parts: seq<ResponsePart>): (k: Option<nat>)
    ensures k.Some? ==> k.value < |parts| && HasImageData(parts[k.value])
    ensures k.Some? ==> forall j :: 0 <= j < k.value ==> !HasImageData(parts[j])
    ensures k.None? <==> forall j :: 0 <= j < |parts| ==> !HasImageData(parts[j])
    decreases |parts|
  {
    if |parts| == 0 then None
    else if HasImageData(parts[0]) then Some(0)
    else
      match FirstImageIndex(parts[1..])
      case Some(k) => Some(k + 1)
      case None => None
  }

  /** The data URL for an inline image, with the media type defaulting to image/png. */
  function ImageDataUrl(data: InlineData): (r: string)
    requires Truthy(data.data)
    ensures Truthy(data.mimeType) ==> r == FormatDataUrl(data.mimeType.value, data.data.value)
    ensures !Truthy(data.mimeType) ==> r == FormatDataUrl(DEFAULT_MIME_TYPE, data.data.value)
  {
    FormatDataUrl(Or(data.mimeType, Some(DEFAULT_MIME_TYPE)).value, data.data.value)
  }

  /** The image of a reply, or the no-image error. */
  function ImageFromResponse(response: Response): (r: Result<string, string>)
    ensures r.Failure? ==> r.error == NO_IMAGE_ERROR
    ensures r.Failure? <==>
      FirstCandidateParts(response).None? ||
      forall j :: 0 <= j < |FirstCandidateParts(response).value| ==> !HasImageData(FirstCandidateParts(response).value[j])
    ensures r.Success? ==>
      exists k :: 0 <= k < |FirstCandidateParts(response).value|
        && HasImageData(FirstCandidateParts(response).value[k])
        && (forall j :: 0 <= j < k ==> !HasImageData(FirstCandidateParts(response).value[j]))
        && r.value == ImageDataUrl(FirstCandidateParts(response).value[k].inlineData.value)
  {
    match FirstCandidateParts(response)
    case None => Failure(NO_IMAGE_ERROR)
    case Some(parts) =>
      match FirstImageIndex(parts)
      case None => Failure(NO_IMAGE_ERROR)
      case Some(k) => Success(ImageDataUrl(parts[k].inlineData.value))
  }

  /** The reading of the reply as the source runs it: a scan of the first candidate's parts that
      returns at the first one with image data. */
  method ParseImageResponse(response: Response) returns (r: Result<string, string>)
    ensures r == ImageFromResponse(response)
  {
    var responseParts := FirstCandidateParts(response);
    if responseParts.Some? {
      var parts := responseParts.value;
      for i := 0 to |parts|
        invariant forall j :: 0 <= j < i ==> !HasImageData(parts[j])
      {
        if HasImageData(parts[i]) {
          var mimeType := Or(parts[i].inlineData.value.mimeType, Some(DEFAULT_MIME_TYPE)).value;
          return Success(FormatDataUrl(mimeType, parts[i].inlineData.value.data.value));
        }
      }
    }
    return Failure(NO_IMAGE_ERROR);
  }

  /** Later candidates are never looked at. */
  lemma OnlyFirstCandidateMatters(first: Candidate, others: seq<Candidate>)
    ensures ImageFromResponse(Response(Some([first] + others))) == ImageFromResponse(Response(Some([first])))
  {
  }

  /** When part `k` is the first part of the first candidate with image data, the call
      succeeds and stripping its result gives back that part's payload, provided the part's
      media type and payload are free of commas. */
  lemma ImageFromResponseStrips(response: Response, k: nat)
    requires FirstCandidateParts(response).Some?
    requires k < |FirstCandidateParts(response).value|
    requires HasImageData(FirstCandidateParts(response).value[k])
    requires forall j :: 0 <= j < k ==> !HasImageData(FirstCandidateParts(response).value[j])
    requires var d := FirstCandidateParts(response).value[k].inlineData.value;
      ',' !in d.data.value && (d.mimeType.Some? ==> ',' !in d.mimeType.value)
    ensures ImageFromResponse(response).Success?
    ensures StripDataUrlPrefix(ImageFromResponse(response).value) ==
      FirstCandidateParts(response).value[k].inlineData.value.data.value
  {
    var parts := FirstCandidateParts(response).value;
    assert FirstImageIndex(parts) == Some(k);
    var d := parts[k].inlineData.value;
    var mime := Or(d.mimeType, Some(DEFAULT_MIME_TYPE)).value;
    assert ',' !in DEFAULT_MIME_TYPE;
    StripFormatRoundTrip(mime, d.data.value);
  }

  // ---------------------------------------------------------------------------
  // generateOrEditImage

  /** What `generateOrEditImage` settles to: the remote rejection's message unchanged,
      or the image of the reply (which may itself be the no-image error). */
  function GenerateOrEditImageResult(
    prompt: string, sourceImage: Option<string>, sourceMimeType: Option<string>,
    generateContent: GenerateContentRequest -> RemoteReply): (r: Result<string, string>)
    ensures var reply := generateContent(GenerateContentRequest(MODEL_NAME, RequestParts(prompt, sourceImage, sourceMimeType)));
      && (reply.Rejected? ==> r == Failure(reply.message))
      && (r.Success? ==> reply.Replied? && FirstCandidateParts(reply.response).Some?)
  {
    match generateContent(GenerateContentRequest(MODEL_NAME, RequestParts(prompt, sourceImage, sourceMimeType)))
    case Rejected(message) => Failure(message)
    case Replied(response) => ImageFromResponse(response)
  }

  /** `generateOrEditImage`: build the request, call the model, read the reply; the `catch` rethrows
      whatever failed. */
  method GenerateOrEditImage(
    prompt: string, sourceImage: Option<string>, sourceMimeType: Option<string>,
    generateContent: GenerateContentRequest -> RemoteReply)
    returns (r: Result<string, string>, request: GenerateContentRequest)
    ensures request == GenerateContentRequest(MODEL_NAME, RequestParts(prompt, sourceImage, sourceMimeType))
    ensures r == GenerateOrEditImageResult(prompt, sourceImage, sourceMimeType, generateContent)
  {
    var parts := BuildRequestParts(prompt, sourceImage, sourceMimeType);
    request := GenerateContentRequest(MODEL_NAME, parts);
    var reply := generateContent(request);
    match reply
    case Rejected(message) =>
      r := Failure(message);
    case Replied(response) =>
      r := ParseImageResponse(response);
  }
}
