# BananaVision image request core, modelled in Dafny

BananaVision is a single-page client that generates an image from a text prompt, or edits an
uploaded image by a natural-language instruction, through the hosted `gemini-2.5-flash-image`
model. This project models the two pieces of sequential logic behind the UI:

- `generateOrEditImage` (services/geminiService.ts), module `GeminiService`. It builds the
  ordered request parts: an optional inline image part whose data URL prefix is stripped, then
  the text part. It reads the first candidate of the reply and returns the first inline image
  part as a `data:<mime>;base64,<data>` URL, with the media type defaulting to `image/png`.
  Otherwise it fails with "No image data found in the response.". Every failure is rethrown
  unchanged.
- The `App` component (App.tsx), module `App`. Its `useState` cells are the fields of class
  `AppState`. `handleGenerate` checks the prompt first and the edit-mode source image second.
  It then enters the loading state, calls the service and stores the image or turns the error
  into a user-facing message. The toast list has two helpers: `addToast` appends and
  `removeToast` filters by id.

Supporting modules: `Wrappers` (Option and Result), `JsString` (the JavaScript `split`,
`includes`, `trim` and string truthiness the core relies on) and `Types` (types.ts).

Modelling choices:

- The remote `ai.models.generateContent` call is a parameter of type
  `GenerateContentRequest -> RemoteReply`: it sees the model name and the exact parts sent, and
  answers with a reply or a rejection message. Every optional field of the reply
  (`candidates`, `content`, `parts`, `inlineData`, `data`, `mimeType`) is an `Option`.
- JavaScript truthiness of `string | undefined | null` is `JsString.Truthy`: present and
  non-empty. The or-operator on such strings is `JsString.Or`.
- `handleGenerate` is split at its `await` into `StartGenerate` and `CompleteGenerate`. The
  loading state that holds while the request is in flight is then the post-state of
  `StartGenerate`. `HandleGenerate` runs the two steps around the service call.
- Toast ids come from `Date.now()` in the source; here they are parameters.
- The error of a failed call is its message string.

Facts about the code worth knowing when reading the model:

- services/geminiService.ts:39-65 makes one call to the model, with no retry and no delay,
  and rethrows every failure at once.
- A part whose `inlineData.data` is the empty string is skipped
  (services/geminiService.ts:54, `GeminiService.HasImageData`).
- Lower-case `quota` also selects the rate-limit message (App.tsx:75, `App.ClassifyError`).

## Model

| member | source | states |
|---|---|---|
| `JsString.Or` | App.tsx:59 | the JavaScript or-operator on optional strings yields its left operand when that is present and non-empty, its right operand otherwise; the result is always one of the two, and it is truthy exactly when one of them is. So with `undefined` on the right it passes on exactly the truthy images (App.tsx:59), and with `'image/png'` on the right it always yields a non-empty media type (services/geminiService.ts:55) |
| `JsString.Split` | services/geminiService.ts:24 | `split(',')` never returns an empty list, no piece holds the separator, and joining the pieces with the separator gives back the input |
| `JsString.SplitJoin` | services/geminiService.ts:24 | splitting is the inverse of joining, for any non-empty list of separator-free pieces |
| `JsString.SplitAtFirstSeparator` | services/geminiService.ts:24 | the first piece is the text before the first separator; the rest is split on its own |
| `JsString.JoinSecondPiece` | services/geminiService.ts:24 | the second piece of a split (`split(',')[1]`) is the text right after the first separator of the input |
| `JsString.Includes` | App.tsx:75-80 | `includes(sub)` is true exactly when `sub` occurs at some index of the string |
| `JsString.TrimShape` | App.tsx:45 | `trim()` returns a substring of the input that neither starts nor ends with JavaScript whitespace, and it is empty exactly when every character is whitespace |
| `JsString.Trim` | App.tsx:45 | `trim()` never lengthens its input, and a non-empty result neither starts nor ends with JavaScript whitespace |
| `JsString.TrimStartDropsLeadingWhitespace` | App.tsx:45 | the leading half of `trim()` keeps a suffix of the input that does not start with whitespace, and every character it drops is whitespace |
| `JsString.TrimEndDropsTrailingWhitespace` | App.tsx:45 | the trailing half of `trim()` keeps a prefix of the input that does not end with whitespace, and every character it drops is whitespace |
| `GeminiService.StripDataUrlPrefix` | services/geminiService.ts:24 | the data sent for a source image is either the input unchanged or a non-empty, comma-free piece of it |
| `GeminiService.FormatDataUrl` | services/geminiService.ts:56 | the returned URL starts with `data:` and the media type, ends with the payload, and is 13 characters longer than the two together (`data:` and `;base64,`) |
| `GeminiService.StripWithoutComma` | services/geminiService.ts:24 | a source image with no comma is sent unchanged |
| `GeminiService.StripSegment` | services/geminiService.ts:24 | with a comma, the text between the first comma and the next comma (or the end) is sent when it is non-empty; an empty segment sends the whole input |
| `GeminiService.StripFormatRoundTrip` | services/geminiService.ts:56 | stripping `data:<mime>;base64,<data>` gives back `<data>` for a comma-free media type and a non-empty comma-free payload |
| `GeminiService.RequestParts` | services/geminiService.ts:19-37 | two parts exactly when both the image and its media type are non-empty, the inline image with the stripped data first; the text part with the prompt is always last |
| `GeminiService.BuildRequestParts` | services/geminiService.ts:19-37 | the array built by `push` is exactly `RequestParts` |
| `GeminiService.FirstCandidateParts` | services/geminiService.ts:49-50 | `candidates?.[0]?.content?.parts` is present only when there is a first candidate with content, and then it is that content's parts |
| `GeminiService.HasImageData` | services/geminiService.ts:54 | a part counts as an image only when its inline data has a non-empty `data` string |
| `GeminiService.ImageDataUrl` | services/geminiService.ts:55-56 | the image URL carries the part's own media type when that is non-empty and `image/png` otherwise, followed by the part's payload |
| `GeminiService.FirstImageIndex` | services/geminiService.ts:53-54 | the index found carries image data and every earlier part does not; none is found exactly when no part carries image data |
| `GeminiService.ImageFromResponse` | services/geminiService.ts:49-61 | fails with the no-image message exactly when there is no first candidate with parts or no part carries non-empty inline data; otherwise the result is the data URL of the first such part, with the media type defaulting to image/png |
| `GeminiService.ParseImageResponse` | services/geminiService.ts:49-61 | the scan with early return computes `ImageFromResponse` |
| `GeminiService.OnlyFirstCandidateMatters` | services/geminiService.ts:50 | candidates after the first never change the result |
| `GeminiService.ImageFromResponseStrips` | services/geminiService.ts:55-56 | when part k is the first part with image data, the call succeeds and stripping its result yields that part's payload, provided that part's media type and payload have no comma (other parts are unconstrained) |
| `GeminiService.GenerateOrEditImageResult` | services/geminiService.ts:39-65 | a remote rejection is rethrown with its message unchanged; a success only comes from a reply whose first candidate has parts |
| `GeminiService.GenerateOrEditImage` | services/geminiService.ts:13-66 | the request it sends carries the fixed model name and exactly `RequestParts` of its inputs; it returns the rejection or the parsed image as `GenerateOrEditImageResult` |
| `App.AddToast` | App.tsx:35-38 | exactly one toast is appended at the end; the existing toasts and their order are unchanged |
| `App.RemoveToast` | App.tsx:40-42 | a toast remains exactly when it was present and has another id |
| `App.RemoveToastConcat` | App.tsx:40-42 | filtering works piecewise on a concatenation, so the kept toasts stay in their original order |
| `App.RemoveAbsentToast` | App.tsx:40-42 | an id no toast carries leaves the list unchanged |
| `App.RemoveToastIdempotent` | App.tsx:40-42 | removing the same id twice equals removing it once |
| `App.RemoveAfterAdd` | App.tsx:35-42 | removing the id just added gives what removing it alone gives; removing another id commutes with the add |
| `App.IsBlank` | App.tsx:45 | the empty prompt is blank, and a non-empty blank prompt starts and ends with whitespace |
| `App.BlankIffAllWhitespace` | App.tsx:45 | a prompt is rejected as blank exactly when all its characters are whitespace |
| `App.ValidationError` | App.tsx:45-53 | a blank prompt is reported first; edit mode without a non-empty source image is reported only for a non-blank prompt; otherwise nothing is reported |
| `App.ClassifyError` | App.tsx:70-81 | the rate-limit message exactly when the error holds 429, Quota, quota or RESOURCE_EXHAUSTED; else the rejected message exactly when it holds 400; else the unavailable message exactly when it holds 503; else the generic message |
| `App.SuccessMessage` | App.tsx:61 | the "generated" message exactly in generate mode and the "edited" message exactly in edit mode |
| `App.AppState.constructor` | App.tsx:22-32 | the initial state: generate mode, empty prompt, not loading, no result, no source image, no toasts |
| `App.AppState.SetMode` | App.tsx:134-144 | the mode switcher sets the mode and nothing else |
| `App.AppState.SetPrompt` | App.tsx:190-203 | the text area sets the prompt and nothing else |
| `App.AppState.SelectSourceImage` | App.tsx:171-174 | an upload stores the data URL and the file's media type |
| `App.AppState.ClearSourceImage` | App.tsx:175-178 | clearing the uploader resets both the image and its media type |
| `App.AppState.ShowToast` | App.tsx:35-38 | the toast list becomes `AddToast` of the old list |
| `App.AppState.CloseToast` | App.tsx:40-42 | the toast list becomes `RemoveToast` of the old list |
| `App.AppState.StartGenerate` | App.tsx:45-59 | on a validation error, one error toast is added, no request is made, and loading and result are untouched; otherwise loading is on, the result is cleared, and the request carries the stored image and media type whenever they are non-empty, in either mode |
| `App.AppState.CompleteGenerate` | App.tsx:60-86 | loading is off on both paths; on success the result is the returned string and a mode-specific success toast is added; on failure an error toast with `ClassifyError` of the message is added |
| `App.AppState.HandleGenerate` | App.tsx:44-87 | exactly one toast per run; on a validation failure no request is sent and loading and result are untouched; otherwise exactly one request is sent, with the model name and `RequestParts` of the prompt and the truthy stored image and media type, loading ends off, and the result is the service's image or stays cleared on failure |

## Left out

- The `GoogleGenAI` client, the API key from the environment, the network call and
  `async`/`await`. The call is a function parameter that answers at once.
- `console.error` logging in both files, the `scrollIntoView` timer after success, and
  `handleDownload`.
- The `JSON.stringify(error)` fallback for an error without a message (App.tsx:73): the error
  is modelled as its message string.
- JSX rendering, styling and the sample-prompt lists. The text area, the sample-prompt buttons,
  the mode switcher and the uploader appear only as the state setters they call.
- components/ImageUploader.tsx (the file picker and `FileReader`): its output is the opaque
  (data URL, media type) pair given to `SelectSourceImage`. components/Toast.tsx: its
  5000 ms auto-close timer and colour map; the close itself is `CloseToast`.
  components/LoadingSpinner.tsx and vite.config.ts are not part of this model.
- The `GeneratedImage` interface of types.ts, which the core never uses.
- Interleaving of user events with a request in flight. Only the submit button is disabled
  then (App.tsx:215); the mode switcher, the text area, the sample prompts and the uploader stay
  live. `CompleteGenerate` reads only the request captured by `StartGenerate` (including its
  mode, as the source's closure does) and the toast list it is given, so such changes between
  the two steps do not affect what it does.
- JavaScript strings are UTF-16 code unit sequences; here they are sequences of Unicode
  scalar values. Trim and the substring tests behave alike on both for the text involved.
