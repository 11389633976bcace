# Video generator front end: a Dafny model

This project models the browser front end of a Gemini/Veo video generator. The user:
- describes an idea, optionally with a starting image;
- asks a language model for three prompt suggestions and picks or edits one;
- chooses an aspect ratio and submits.

The app then submits a video-generation job, polls it until it is done, downloads the result and plays it. While the job runs, a loading screen rotates ten status messages and shows the elapsed time as `MM:SS`.

The model covers the parts of the code that make decisions.

- **`GeminiService`** (`gemini_service.dfy`) is the service layer. It covers:
  - building the suggestion prompt;
  - accepting or rejecting the suggestion reply;
  - building the video request;
  - the poll loop;
  - extracting the download link and composing the download error messages;
  - the inner and outer catch blocks that rewrap errors.

  Every SDK call, `fetch`, `JSON.parse` and `URL.createObjectURL` is an oracle parameter carrying the value that call returned. The poll loop consumes a finite sequence of poll replies.
- **`VideoGeneratorHook`** (`video_generator.dfy`) is the generation lifecycle controller, the class `VideoGenerator`. It has four states (Idle, Loading, Success, Error) and the fields the view reads. Two intervals run only while Loading: message rotation every 5 s, elapsed seconds every 1 s. `reset` revokes the held URL. Both effects keyed on the state run together with each actual change of state. A timer tick is a method call that takes the clock as a parameter. The asynchronous `generateVideo` is split into `StartGeneration` and `FinishGeneration`, so ticks and `reset` can interleave. `GenerateVideo` runs it to completion through the service model.
- **`VideoInput`** (`video_input.dfy`) is the input form, the class `VideoInputForm`. It holds the idea, image, suggestions, prompt and aspect ratio. It covers the suggestion request and its guard, and the submit guard.
- **`LoadingIndicator`** (`loading_indicator.dfy`) is `formatTime`, with JavaScript `Math.floor`, truncating `%`, `toString` and `padStart` written out.
- **`App`** (`app.dfy`) is `renderContent`: the view for each state, and the reset that replaces a Success state without a URL.
- **`Base`** and **`Strings`** are shared values and the JavaScript string operations used:
  - `trim`, with the ECMAScript whitespace set;
  - `startsWith` and `padStart`;
  - `toString` of an integer.

A JavaScript error with no message, or with an empty one, is modelled by the message `""`. `err.message || fallback` is `Base.MessageOr`.

## Behaviour worth noting

- **Permission hint.** The 403 hint is appended only when the error body is empty. A non-empty body always becomes the ` Detail:` text (`services/geminiService.ts:122-128`).
- **Replacing a URL.** Starting a new generation clears the held video URL without revoking it (`hooks/useVideoGenerator.ts:63`). Only `reset` revokes.
- **Elapsed time.** The elapsed time is recomputed as `floor((now - start) / 1000)` on each tick (`hooks/useVideoGenerator.ts:49`). It does not increase by exactly one per tick: a late tick can skip a value, and an early one can repeat it.
- **No guard or cancellation.** The controller has no in-flight guard, and `reset` does not cancel a running generation. A stale completion after `reset` moves Idle directly to Success or Error, and a second `generateVideo` while Loading keeps the running timers. `FinishGeneration` therefore has no precondition on the state.

## Model

| member | source | states |
|---|---|---|
| Base.MessageOr | hooks/useVideoGenerator.ts:81 | `message \|\| fallback`: the message when it is non-empty, otherwise the fallback, so a non-empty fallback never yields an empty message |
| Strings.Trim | services/geminiService.ts:18 | `trim` never lengthens its input, and its result is empty exactly when every character is ECMAScript whitespace |
| Strings.TrimStart | services/geminiService.ts:18 | the result is a suffix of the input, everything removed is whitespace, and the result does not start with whitespace |
| Strings.TrimEnd | services/geminiService.ts:18 | the result is a prefix of the input, everything removed is whitespace, and the result does not end with whitespace |
| Strings.PadStart | components/LoadingIndicator.tsx:9-10 | `padStart` never truncates: a shorter string is padded on the left to exactly the width with the pad character, and the original ends the result |
| Strings.DecimalString | components/LoadingIndicator.tsx:9-10 | `toString` of a non-negative integer is a non-empty string of decimal digits |
| Strings.ParseDecimalString | components/LoadingIndicator.tsx:9-10 | reading the decimal digits back gives the number |
| Strings.DecimalStringLength | components/LoadingIndicator.tsx:9-10 | a number takes one digit below 10, two below 100, and three or more from 100 on |
| LoadingIndicator.FormatTimeRoundTrip | components/LoadingIndicator.tsx:8-11 | for any non-negative number of seconds, reading `minutes:seconds` back gives that number of seconds |
| LoadingIndicator.FormatTime | components/LoadingIndicator.tsx:8-12 | the clock text is at least five characters. For a non-negative time it is the zero-padded decimal whole minutes, a colon, and the zero-padded `t mod 60` (JavaScript `%` agrees with the mathematical one there) |
| LoadingIndicator.JsRemainder | components/LoadingIndicator.tsx:10 | JavaScript's `%`: the remainder lies strictly between `-b` and `b`. It is the mathematical remainder for a non-negative dividend; for a negative one it is non-positive, and its negation is the remainder of the negated dividend |
| Strings.NumberToString | components/LoadingIndicator.tsx:9-10 | `toString()` of an integer: a leading minus sign exactly for a negative number, followed by a non-empty digit string that parses back to the magnitude |
| LoadingIndicator.PaddedDecimal | components/LoadingIndicator.tsx:9-10 | a padded field is all digits and keeps the value of the number |
| LoadingIndicator.PaddedLength | components/LoadingIndicator.tsx:9-10 | a padded field is exactly two characters below 100 and the number's own digits from 100 on |
| LoadingIndicator.SecondsField | components/LoadingIndicator.tsx:10-11 | the last two characters are digits worth `t mod 60`, from 00 to 59, preceded by `:` and, before that, at least two characters, all minute digits |
| LoadingIndicator.ShortClock | components/LoadingIndicator.tsx:8-11 | below 100 minutes the clock is exactly five characters, `MM:SS` |
| LoadingIndicator.LongClock | components/LoadingIndicator.tsx:9 | from 100 minutes on, the minutes field grows beyond two digits instead of being cut |
| LoadingIndicator.FormatTimeZero | components/LoadingIndicator.tsx:8-11 | zero seconds reads `00:00` |
| GeminiService.SuggestionPromptRoundTrip | services/geminiService.ts:22-28 | the prompt starts with the fixed request, and the trimmed idea (named only when non-empty) and the presence of an image can both be read back from it |
| GeminiService.IdeaSentenceRoundTrip | services/geminiService.ts:23-25 | the idea sentence gives back the trimmed idea |
| GeminiService.ImageSentenceRecognised | services/geminiService.ts:26-28 | the prompt ends with the image sentence exactly when an image was given |
| GeminiService.BuildSuggestionPrompt | services/geminiService.ts:22-28 | appending step by step yields the prompt whose round trip is proved |
| GeminiService.SuggestionContentsFor | services/geminiService.ts:30-33 | the contents carry the prompt text, and carry the image as inline data exactly when there is one |
| GeminiService.AcceptSuggestions | services/geminiService.ts:58-67 | the reply is accepted exactly when it holds a non-empty prompt array, which is returned; a well-formed reply without one is the invalid-format error; any other failure keeps its message or falls back; an error message is never empty |
| GeminiService.GeneratePromptSuggestions | services/geminiService.ts:14-69 | no request and an empty list exactly when the idea is blank and there is no image; otherwise one request to the suggestion model with the assembled prompt and image, and the reply's acceptance is the result |
| GeminiService.VideoRequestFor | services/geminiService.ts:78-86 | the request names the video model and the prompt and carries the image as given; the config always asks for one video and holds an aspect ratio (as `16:9`/`9:16`) exactly when one is given, and no other key |
| GeminiService.PollStopsAtFirstDone | services/geminiService.ts:88-93 | polling stops at the first reply that is done or failed: every earlier reply was a successful not-done operation, no request is made when the job is already done, and a successful outcome is done |
| GeminiService.PollIgnoresLaterReplies | services/geminiService.ts:90-93 | replies after the first done or failed one are never consulted |
| GeminiService.PollUntilDone | services/geminiService.ts:88-93 | the loop makes exactly the number of requests the poll specification counts and returns its outcome |
| GeminiService.DownloadLink | services/geminiService.ts:95-99 | a link is found exactly when the first generated video has a non-empty URI, and that URI is the link. Without such a URI there is no link |
| GeminiService.FetchUrl | services/geminiService.ts:104 | the fetched URL is the download link, then `&key=`, then the API key, and nothing else |
| GeminiService.DownloadDetail | services/geminiService.ts:111-119 | the detail is empty exactly when the error body is. A body that parses to JSON with a non-empty `error.message` gives that message. Any other non-empty body is used as it is |
| GeminiService.DownloadErrorMessage | services/geminiService.ts:121-128 | the message starts with the status sentence, and so with "Failed to download video" |
| GeminiService.RewrapFetchError | services/geminiService.ts:134-140 | the result always starts with "Failed to download video". A message that already does passes through unchanged; any other becomes the network-failure message |
| GeminiService.ComposeDownloadError | services/geminiService.ts:108-131 | the message built by mutating `detail` and the message equals the download-error specification |
| GeminiService.DownloadErrorCases | services/geminiService.ts:111-128 | the message is the status sentence followed by exactly one of these: the JSON error message, the raw body, the 400 hint or the 403 hint (hints only when the body is empty), or nothing |
| GeminiService.RewrapFetchErrorIdempotent | services/geminiService.ts:134-140 | whatever leaves the inner catch starts with "Failed to download video", so rewrapping it again changes nothing |
| GeminiService.DownloadErrorPassesThrough | services/geminiService.ts:121-139 | a composed download error passes the inner catch unchanged |
| GeminiService.FetchVideo | services/geminiService.ts:103-141 | an ok status yields the object URL; a bad status yields the composed error; a rejection yields the rewrapped error; every error starts with the download prefix |
| GeminiService.GenerateVideo | services/geminiService.ts:72-147 | it always builds the request for the given arguments. A failed submission or poll keeps its message or falls back. A missing link gives the no-link error. The key-bearing URL is fetched exactly when a link was found. It succeeds exactly on an ok download, with the object URL, and error messages are never empty |
| VideoGeneratorHook.NextMessageIndex | hooks/useVideoGenerator.ts:32 | the next message index is always within the ten messages |
| VideoGeneratorHook.MessageIndexCycles | hooks/useVideoGenerator.ts:30-33 | after k ticks the rotation shows message k mod 10 |
| VideoGeneratorHook.RotationReachesEveryMessage | hooks/useVideoGenerator.ts:7-34 | from any point of the rotation every one of the ten messages is shown within the next ten ticks |
| VideoGeneratorHook.ElapsedSeconds | hooks/useVideoGenerator.ts:49 | the elapsed value is the largest whole number of seconds that fits between the start and now: at least that many seconds and fewer than one more have passed, and it is non-negative once the clock has not gone back |
| VideoGeneratorHook.ElapsedNeverDecreases | hooks/useVideoGenerator.ts:46-49 | with a clock that does not go back, the elapsed seconds never decrease |
| VideoGeneratorHook.ElapsedCountsWholeSeconds | hooks/useVideoGenerator.ts:49 | the elapsed time is the number of whole seconds since Loading was entered |
| VideoGeneratorHook.VideoGenerator.constructor | hooks/useVideoGenerator.ts:21-25 | the controller starts Idle with no URL or error, the first message and zero elapsed time |
| VideoGeneratorHook.VideoGenerator.SetAppState | hooks/useVideoGenerator.ts:27-57 | the two state effects run only when the state actually changes: they clear both intervals, and on entering Loading they start the rotation at 0, record the start time and zero the elapsed time |
| VideoGeneratorHook.VideoGenerator.StartGeneration | hooks/useVideoGenerator.ts:60-64 | it enters Loading, clears the error and the URL (revoking nothing) and shows the first message, and the controller invariant is kept. The timers restart only if the state was not already Loading |
| VideoGeneratorHook.VideoGenerator.FinishGeneration | hooks/useVideoGenerator.ts:76-83 | a URL leads to Success holding it; a failure leads to Error with its message or the fallback; both intervals are stopped; the invariant is kept |
| VideoGeneratorHook.VideoGenerator.GenerateVideo | hooks/useVideoGenerator.ts:60-84 | a full generation ends in exactly one of Success (holding the service's object URL, no error) and Error (with the encoder's or the service's message), with both intervals stopped and nothing revoked. An encoder failure stops before the service. Otherwise the service is sent the request for the prompt, the encoded image and the ratio. The service succeeds exactly when the submission, the polling, the link and an ok download all succeed. Each failure shows the service's own message: a failed submission or poll its message or the fallback, a missing link the no-link message, a rejected fetch the rewrapped message, and a bad status the composed download error. The elapsed time restarts at zero only when the state was not already Loading |
| VideoGeneratorHook.VideoGenerator.Reset | hooks/useVideoGenerator.ts:86-94 | Idle with no URL, no error and zero elapsed time, intervals stopped; the held URL is revoked exactly when it is non-empty |
| VideoGeneratorHook.VideoGenerator.ResetTwice | hooks/useVideoGenerator.ts:86-94 | two resets in a row revoke the held URL once, never twice |
| VideoGeneratorHook.VideoGenerator.MessageTick | hooks/useVideoGenerator.ts:31-34 | while the rotation runs, a tick advances it by one modulo ten and shows that message; otherwise nothing changes |
| VideoGeneratorHook.VideoGenerator.ElapsedTick | hooks/useVideoGenerator.ts:48-50 | while the elapsed interval runs, the elapsed time becomes the whole seconds since its start; otherwise nothing changes |
| VideoInput.AspectRatioOptionsCoverEachOnce | components/VideoInput.tsx:7-10 | the selector offers Landscape and then Portrait, each aspect ratio exactly once |
| VideoInput.VideoInputForm.constructor | components/VideoInput.tsx:19-28 | the form starts empty, with no image, nothing running and landscape selected |
| VideoInput.VideoInputForm.SelectAspectRatio | components/VideoInput.tsx:215-219 | the aspect ratio can only become one the selector offers |
| VideoInput.VideoInputForm.EditIdea | components/VideoInput.tsx:101 | the idea becomes the typed text |
| VideoInput.VideoInputForm.EditPrompt | components/VideoInput.tsx:201 | the prompt becomes the typed text |
| VideoInput.VideoInputForm.ImageChange | components/VideoInput.tsx:31-41 | the first chosen file becomes the image; choosing no file changes nothing |
| VideoInput.VideoInputForm.PreviewLoaded | components/VideoInput.tsx:36-38 | the reader's result becomes the preview: the data URL after a successful read, none after a failed or aborted one (the image is kept) |
| VideoInput.VideoInputForm.RemoveImage | components/VideoInput.tsx:43-49 | neither image nor preview remains |
| VideoInput.VideoInputForm.BeginSuggestions | components/VideoInput.tsx:51-56 | a request starts exactly when there is a non-blank idea or an image and none is running; it clears the error and the old suggestions; otherwise nothing changes |
| VideoInput.VideoInputForm.FinishSuggestions | components/VideoInput.tsx:63-73 | accepted suggestions are shown, and a non-empty list puts its first entry in the prompt, selected. A failure shows its message or the fallback and leaves the prompt alone. The running flag is always cleared |
| VideoInput.VideoInputForm.GetSuggestions | components/VideoInput.tsx:51-74 | once the guard lets a request through it always reaches the service, unless the encoder fails. The request carries the suggestion prompt for the trimmed idea and the encoded image. Accepted suggestions fill the list and the prompt. An encoder or service failure shows its message with an empty list and leaves the prompt and the selection alone. A refused request changes nothing |
| VideoInput.VideoInputForm.SuggestionClick | components/VideoInput.tsx:76-79 | the clicked suggestion becomes the prompt and the selection |
| VideoInput.VideoInputForm.Submit | components/VideoInput.tsx:81-86 | `onGenerate` gets the untrimmed prompt, the image and the ratio, exactly when the prompt is not blank and nothing is loading |
| App.ViewFor | App.tsx:22-51 | the form shows exactly in Idle and Error (never as loading, with the controller's error). The loading screen shows exactly in Loading, with the message and elapsed time. The player shows exactly in Success with a non-empty URL. Nothing shows otherwise |
| App.IdleAndLoadingHoldNoUrl | App.tsx:24-33 | for a controller keeping its invariant, the Idle form and the loading screen are never shown with a URL held (the Error form may still hold one after an interleaving) |
| App.RenderContent | App.tsx:22-52 | it returns the view for the current state. A Success without a URL is reset to Idle (revoking nothing), so no such state remains afterwards; the shown message is kept and both intervals are stopped. In every other state the controller is left entirely unchanged |

## Left out

- The API key check at module load (`services/geminiService.ts:4-6`) and the SDK client construction: the key is a parameter.
- The system instruction, response MIME type and response schema of the suggestion request (`services/geminiService.ts:12`, `38-55`): constant configuration handed to the SDK. The request model keeps only the model and the contents.
- `JSON.parse` of the suggestion reply, and the check that `prompts` is an array: the parsed shape is an oracle value, `GeminiService.ParsedSuggestions`. The elements of `prompts` are taken to be strings.
- The 10-second delay between polls, and a job that never finishes. `GeminiService.PollUntilDone` requires the reply sequence to reach a done or failed reply, because a loop with no bound cannot be stated here.
- `console.log` and `console.error`: they have no effect on the state.
- `fileToBase64` and `FileReader`: the encoder's answer and the reader's result (a data URL, or none after a failed read) are parameters.
- `fetch`, `response.text()`, `response.blob()` and `URL.createObjectURL`. A failure while reading the body or blob is folded into `FetchRejected`.
- GeminiService.RewrapFetchError: assumes every thrown value is an `Error` instance.
- Strings.NumberToString: covers integer values only. It leaves out exponent notation from 10^21 and non-integer times.
- LoadingIndicator.FormatTime: is defined for negative inputs with JavaScript semantics, but its properties are stated for non-negative times only.
- VideoGeneratorHook.VideoGenerator.Reset: reads the current URL, not the one captured when the callback was last memoised.
- VideoInput.VideoInputForm.BeginSuggestions: reads the current running flag, not the one captured by the handler's closure.
- The `disabled` attributes of the form controls (`components/VideoInput.tsx:105`, `141`, `148`, `205`, `225`): the handler guards are modelled instead. `App.RenderContent` always passes `isLoading = false`.
- Clearing the file input's DOM value in `removeImage`, the markup of every component, and the `Header`, `Footer` and `VideoPlayer` components.
- React's rendering schedule: each state update and its effects happen at once, in program order. `App.RenderContent` is the render pass.
