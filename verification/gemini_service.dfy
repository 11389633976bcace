/**
 * The service layer over the generative APIs: asking for prompt suggestions
 * and generating a video (submit, poll until done, download). The SDK calls,
 * `fetch`, `JSON.parse` and `URL.createObjectURL` are not modelled; what they
 * return is passed in as an oracle value, and the model decides everything the
 * service itself decides: which requests to build, when to stop polling, which
 * replies to accept and which error message the caller sees.
 */
module GeminiService {

  import opened Base
  import opened Strings

  const SuggestionModel := "gemini-2.5-flash"
  const VideoModel := "veo-2.0-generate-001"

  const SuggestionPromptHead := "Generate 3 video prompts."
  const IdeaSentenceOpen := " The user's idea is: \""
  const IdeaSentenceClose := "\"."
  const ImageSentence := " Base your suggestions on the provided image."

  const InvalidSuggestionResponse := "Invalid response format from prompt suggestion API."
  const SuggestionFailureFallback := "Failed to generate prompt suggestions."
  const NoDownloadLink := "Video generation completed, but no download link was found."
  const DownloadFailurePrefix := "Failed to download video"
  const DetailLabel := " Detail: "
  const Hint400 := " This may be due to an invalid request or API key restrictions (like HTTP referrers). Please check your key configuration and the request parameters."
  const Hint403 := " This indicates an issue with API key permissions. Please verify your key's restrictions in the Google Cloud console."
  const NetworkFailure := DownloadFailurePrefix + ", likely due to a network issue or API key restrictions (like HTTP referrers on your production domain). Please verify your API key configuration in the Google Cloud console and check the browser's network console for more details."
  const VideoFailureFallback := "Failed to generate video due to an API error."

  // ---------------------------------------------------------------------------
  // Prompt suggestions
  // ---------------------------------------------------------------------------

  /** The sentence naming the idea; absent for an empty idea. */
  function IdeaSentence(trimmedIdea: string): string
  {
    if trimmedIdea != "" then IdeaSentenceOpen + trimmedIdea + IdeaSentenceClose else ""
  }

  /** The suggestion prompt for an idea that has already been trimmed. */
  function SuggestionPromptText(trimmedIdea: string, hasImage: bool): string
  {
    SuggestionPromptHead + IdeaSentence(trimmedIdea) + (if hasImage then ImageSentence else "")
  }

  /** Reads the idea back from its sentence. */
  function ParseIdeaSentence(part: string): Option<string>
  {
    if part == "" then Some("")
    else if |part| >= |IdeaSentenceOpen| + |IdeaSentenceClose|
      && StartsWith(part, IdeaSentenceOpen) && EndsWith(part, IdeaSentenceClose)
    then Some(part[|IdeaSentenceOpen|..|part| - |IdeaSentenceClose|])
    else None
  }

  /** Reads a suggestion prompt back into the trimmed idea and whether an image was announced. */
  function ParseSuggestionPrompt(text: string): Option<(string, bool)>
  {
    if !StartsWith(text, SuggestionPromptHead) then None
    else
      var rest := text[|SuggestionPromptHead|..];
      var hasImage := EndsWith(rest, ImageSentence);
      match ParseIdeaSentence(if hasImage then rest[..|rest| - |ImageSentence|] else rest)
      case None => None
      case Some(idea) => Some((idea, hasImage))
  }

  lemma IdeaSentenceRoundTrip(trimmedIdea: string)
    ensures ParseIdeaSentence(IdeaSentence(trimmedIdea)) == Some(trimmedIdea)
  {
    var part := IdeaSentence(trimmedIdea);
    if trimmedIdea != "" {
      assert part[..|IdeaSentenceOpen|] == IdeaSentenceOpen;
      assert part[|part| - |IdeaSentenceClose|..] == IdeaSentenceClose;
      assert part[|IdeaSentenceOpen|..|part| - |IdeaSentenceClose|] == trimmedIdea;
    }
  }

  /** The image sentence ends the prompt exactly when it was appended: an idea sentence ends in a quote. */
  lemma ImageSentenceRecognised(trimmedIdea: string, hasImage: bool)
    ensures var rest := IdeaSentence(trimmedIdea) + (if hasImage then ImageSentence else "");
      EndsWith(rest, ImageSentence) == hasImage
      && (hasImage ==> rest[..|rest| - |ImageSentence|] == IdeaSentence(trimmedIdea))
  {
    var part := IdeaSentence(trimmedIdea);
    var rest := part + (if hasImage then ImageSentence else "");
    if hasImage {
      assert rest[|rest| - |ImageSentence|..] == ImageSentence;
      assert rest[..|rest| - |ImageSentence|] == part;
    } else if part != "" {
      assert rest[|rest| - 2] == '"';
      assert ImageSentence[|ImageSentence| - 2] == 'e';
    }
  }

  /**
   * The prompt always opens with the fixed request, names the idea only when
   * it is non-empty and mentions the image only when there is one; both can
   * be read back from the text.
   */
  lemma SuggestionPromptRoundTrip(trimmedIdea: string, hasImage: bool)
    ensures StartsWith(SuggestionPromptText(trimmedIdea, hasImage), SuggestionPromptHead)
    ensures ParseSuggestionPrompt(SuggestionPromptText(trimmedIdea, hasImage)) == Some((trimmedIdea, hasImage))
  {
    var rest := IdeaSentence(trimmedIdea) + (if hasImage then ImageSentence else "");
    var text := SuggestionPromptText(trimmedIdea, hasImage);
    assert text == SuggestionPromptHead + rest;
    assert text[..|SuggestionPromptHead|] == SuggestionPromptHead;
    assert text[|SuggestionPromptHead|..] == rest;
    ImageSentenceRecognised(trimmedIdea, hasImage);
    IdeaSentenceRoundTrip(trimmedIdea);
    var part := if hasImage then rest[..|rest| - |ImageSentence|] else rest;
    assert part == IdeaSentence(trimmedIdea);
    assert ParseIdeaSentence(part) == Some(trimmedIdea);
  }

  /** Builds the suggestion prompt the way the service does, by appending to a text. */
  method BuildSuggestionPrompt(trimmedIdea: string, hasImage: bool) returns (promptText: string)
    ensures promptText == SuggestionPromptText(trimmedIdea, hasImage)
  {
    promptText := SuggestionPromptHead;
    if trimmedIdea != "" {
      promptText := promptText + IdeaSentence(trimmedIdea);
    }
    if hasImage {
      promptText := promptText + ImageSentence;
    }
  }

  /** The `contents` of a suggestion request: the bare text, or a text part followed by an image part. */
  datatype SuggestionContents =
    | TextOnly(text: string)
    | TextAndImage(text: string, inlineData: ImageData)

  datatype SuggestionRequest = SuggestionRequest(model: string, contents: SuggestionContents)

  function SuggestionContentsFor(promptText: string, image: Option<ImageData>): (c: SuggestionContents)
    ensures c.text == promptText
    ensures c.TextAndImage? <==> image.Some?
    ensures image.Some? ==> c.inlineData == image.value
  {
    match image
    case None => TextOnly(promptText)
    case Some(data) => TextAndImage(promptText, data)
  }

  /** What `JSON.parse` of the response text gives, as far as the service looks at it. */
  datatype ParsedSuggestions =
    | ParseFailed(message: string)        // JSON.parse threw, or reading `prompts` threw
    | NoPromptArray                       // `prompts` is missing, falsy or not an array
    | PromptArray(prompts: seq<string>)

  /** The suggestion API's answer: a rejected call with its message, or a response. */
  datatype SuggestionReply =
    | SuggestionCallFailed(message: string)
    | SuggestionResponse(parsed: ParsedSuggestions)

  /**
   * The response check and the rethrow: only a non-empty prompt array is
   * accepted; a well-formed reply without one is the invalid-format error;
   * any other error keeps its message, or gets the fallback text.
   */
  function AcceptSuggestions(reply: SuggestionReply): (r: Result<seq<string>>)
    ensures r.Ok? <==> reply.SuggestionResponse? && reply.parsed.PromptArray? && |reply.parsed.prompts| > 0
    ensures r.Ok? ==> r.value == reply.parsed.prompts
    ensures reply.SuggestionResponse? && !reply.parsed.ParseFailed? && r.Err? ==> r.error == InvalidSuggestionResponse
    ensures reply.SuggestionCallFailed? ==> r == Err(MessageOr(reply.message, SuggestionFailureFallback))
    ensures reply.SuggestionResponse? && reply.parsed.ParseFailed? ==> r == Err(MessageOr(reply.parsed.message, SuggestionFailureFallback))
    ensures r.Err? ==> r.error != ""
  {
    var thrown :=
      match reply
      case SuggestionCallFailed(m) => Err(m)
      case SuggestionResponse(ParseFailed(m)) => Err(m)
      case SuggestionResponse(NoPromptArray) => Err(InvalidSuggestionResponse)
      case SuggestionResponse(PromptArray(prompts)) =>
        if |prompts| > 0 then Ok(prompts) else Err(InvalidSuggestionResponse);
    match thrown
    case Ok(prompts) => Ok(prompts)
    case Err(m) => Err(MessageOr(m, SuggestionFailureFallback))
  }

  /**
   * `generatePromptSuggestions`: with a blank idea and no image, no request is
   * made and the answer is empty; otherwise the request carries the assembled
   * prompt (and the image, when there is one) and the reply is checked.
   */
  method GeneratePromptSuggestions(idea: string, image: Option<ImageData>, reply: SuggestionReply)
    returns (request: Option<SuggestionRequest>, result: Result<seq<string>>)
    ensures request.None? <==> IsBlank(idea) && image.None?
    ensures request.None? ==> result == Ok([])
    ensures request.Some? ==> request.value.model == SuggestionModel
    ensures request.Some? ==> request.value.contents == SuggestionContentsFor(SuggestionPromptText(Trim(idea), image.Some?), image)
    ensures request.Some? ==> result == AcceptSuggestions(reply)
  {
    var trimmedIdea := Trim(idea);
    if trimmedIdea == "" && image.None? {
      return None, Ok([]);
    }
    var promptText := BuildSuggestionPrompt(trimmedIdea, image.Some?);
    request := Some(SuggestionRequest(SuggestionModel, SuggestionContentsFor(promptText, image)));
    result := AcceptSuggestions(reply);
  }

  // ---------------------------------------------------------------------------
  // Video generation request
  // ---------------------------------------------------------------------------

  datatype ConfigValue = Count(n: nat) | Ratio(text: string)

  /** The `generateVideos` request; `config` holds exactly the keys the object literal spreads in. */
  datatype VideoRequest = VideoRequest(model: string, prompt: string, config: map<string, ConfigValue>, image: Option<ImageData>)

  /**
   * The request always asks for one video; `aspectRatio` is a key of the
   * config only when a ratio was given, and the image is attached only when
   * there is one.
   */
  function VideoRequestFor(prompt: string, image: Option<ImageData>, aspectRatio: Option<AspectRatio>): (r: VideoRequest)
    ensures r.model == VideoModel && r.prompt == prompt && r.image == image
    ensures "numberOfVideos" in r.config && r.config["numberOfVideos"] == Count(1)
    ensures "aspectRatio" in r.config <==> aspectRatio.Some?
    ensures aspectRatio.Some? ==> r.config["aspectRatio"] == Ratio(AspectRatioText(aspectRatio.value))
    ensures r.config.Keys <= {"numberOfVideos", "aspectRatio"}
  {
    var config := map["numberOfVideos" := Count(1)];
    var config := match aspectRatio
      case None => config
      case Some(ratio) => config["aspectRatio" := Ratio(AspectRatioText(ratio))];
    VideoRequest(VideoModel, prompt, config, image)
  }

  // ---------------------------------------------------------------------------
  // Polling
  // ---------------------------------------------------------------------------

  datatype VideoFile = VideoFile(uri: Option<string>)
  datatype GeneratedVideo = GeneratedVideo(video: Option<VideoFile>)
  datatype OperationResponse = OperationResponse(generatedVideos: Option<seq<GeneratedVideo>>)

  /** A long-running generation job as the API reports it. */
  datatype Operation = Operation(done: bool, response: Option<OperationResponse>)

  /** The answer to one status request: the refreshed operation, or the rejection's message. */
  type PollReply = Result<Operation>

  /**
   * The replies that would follow `current` reach a stopping point: a finished
   * operation or a failed status request. The loop itself has no bound; this
   * is what the server must eventually do for the loop to end.
   */
  predicate PollStops(current: Operation, polls: seq<PollReply>)
    decreases |polls|
  {
    current.done || (|polls| > 0 && (polls[0].Err? || PollStops(polls[0].value, polls[1..])))
  }

  /** How many status requests the loop issues, starting from `current`. */
  function PollCount(current: Operation, polls: seq<PollReply>): nat
    requires PollStops(current, polls)
    decreases |polls|
  {
    if current.done then 0
    else if polls[0].Err? then 1
    else 1 + PollCount(polls[0].value, polls[1..])
  }

  /** What the loop ends with: the finished operation, or the failed request's error. */
  function PollOutcome(current: Operation, polls: seq<PollReply>): Result<Operation>
    requires PollStops(current, polls)
    decreases |polls|
  {
    if current.done then Ok(current)
    else if polls[0].Err? then polls[0]
    else PollOutcome(polls[0].value, polls[1..])
  }

  /**
   * The loop stops at the FIRST stopping point: it issues no request when the
   * operation is already done, otherwise every reply before the last one it
   * reads is an unfinished operation, and the last one it reads is its
   * outcome, which, when it is not an error, is a finished operation.
   */
  lemma {:induction false} PollStopsAtFirstDone(current: Operation, polls: seq<PollReply>)
    requires PollStops(current, polls)
    ensures PollCount(current, polls) <= |polls|
    ensures PollCount(current, polls) == 0 <==> current.done
    ensures PollCount(current, polls) == 0 ==> PollOutcome(current, polls) == Ok(current)
    ensures PollCount(current, polls) > 0 ==> PollOutcome(current, polls) == polls[PollCount(current, polls) - 1]
    ensures forall j :: 0 <= j < PollCount(current, polls) - 1 ==> polls[j].Ok? && !polls[j].value.done
    ensures PollOutcome(current, polls).Ok? ==> PollOutcome(current, polls).value.done
    decreases |polls|
  {
    if !current.done && polls[0].Ok? {
      var next, rest := polls[0].value, polls[1..];
      PollStopsAtFirstDone(next, rest);
      var n := PollCount(next, rest);
      forall j | 0 <= j < n ensures polls[j].Ok? && !polls[j].value.done {
        if j > 0 {
          assert polls[j] == rest[j - 1];
        }
      }
      if n > 0 {
        assert polls[n] == rest[n - 1];
      }
    }
  }

  /** Replies after the stopping point are never read: appending more does not change the loop. */
  lemma {:induction false} PollIgnoresLaterReplies(current: Operation, polls: seq<PollReply>, later: seq<PollReply>)
    requires PollStops(current, polls)
    ensures PollStops(current, polls + later)
    ensures PollCount(current, polls + later) == PollCount(current, polls)
    ensures PollOutcome(current, polls + later) == PollOutcome(current, polls)
    decreases |polls|
  {
    if !current.done {
      assert (polls + later)[0] == polls[0];
      if polls[0].Ok? {
        assert (polls + later)[1..] == polls[1..] + later;
        PollIgnoresLaterReplies(polls[0].value, polls[1..], later);
      }
    }
  }

  /**
   * `while (!operation.done) { wait; operation = getVideosOperation(...) }`:
   * the polling interval is not modelled; each iteration reads the next reply.
   */
  method PollUntilDone(initial: Operation, polls: seq<PollReply>) returns (outcome: Result<Operation>, requests: nat)
    requires PollStops(initial, polls)
    ensures requests == PollCount(initial, polls)
    ensures outcome == PollOutcome(initial, polls)
  {
    var operation := initial;
    requests := 0;
    while !operation.done
      invariant requests <= |polls|
      invariant PollStops(operation, polls[requests..])
      invariant PollCount(initial, polls) == requests + PollCount(operation, polls[requests..])
      invariant PollOutcome(initial, polls) == PollOutcome(operation, polls[requests..])
      decreases |polls| - requests
    {
      var reply := polls[requests];
      assert polls[requests..][1..] == polls[requests + 1..];
      requests := requests + 1;
      if reply.Err? {
        return reply, requests;
      }
      operation := reply.value;
    }
    outcome := Ok(operation);
  }

  // ---------------------------------------------------------------------------
  // Download
  // ---------------------------------------------------------------------------

  /**
   * `operation.response?.generatedVideos?.[0]?.video?.uri`, read as absent when
   * any link of the chain is missing or the URI is empty (falsy).
   */
  function DownloadLink(op: Operation): (link: Option<string>)
    ensures link.Some? ==> link.value != ""
    ensures link.Some? ==>
      (op.response.Some? && op.response.value.generatedVideos.Some?
       && |op.response.value.generatedVideos.value| > 0
       && op.response.value.generatedVideos.value[0].video == Some(VideoFile(Some(link.value))))
    ensures link.None? ==>
      !(op.response.Some? && op.response.value.generatedVideos.Some?
        && |op.response.value.generatedVideos.value| > 0
        && op.response.value.generatedVideos.value[0].video.Some?
        && op.response.value.generatedVideos.value[0].video.value.uri.Some?
        && op.response.value.generatedVideos.value[0].video.value.uri.value != "")
  {
    match op.response
    case None => None
    case Some(response) =>
      match response.generatedVideos
      case None => None
      case Some(videos) =>
        if |videos| == 0 then None
        else match videos[0].video
          case None => None
          case Some(file) =>
            match file.uri
            case None => None
            case Some(uri) => if uri == "" then None else Some(uri)
  }

  /** The URL fetched: the download link with the API key appended. */
  function FetchUrl(link: string, apiKey: string): (url: string)
    ensures StartsWith(url, link) && EndsWith(url, apiKey)
    ensures |url| == |link| + 5 + |apiKey| && url[|link|..|url| - |apiKey|] == "&key="
  {
    link + "&key=" + apiKey
  }

  /**
   * What fetching the download link gives: a response with its status, body
   * text and what `JSON.parse(body).error?.message` yields (None when the
   * parse throws or there is no such message), or a rejection with its
   * message (network failure, or reading the body failed).
   */
  datatype FetchReply =
    | FetchRejected(message: string)
    | FetchResponse(status: nat, body: string, jsonErrorMessage: Option<string>)

  predicate IsOkStatus(status: nat)
  {
    200 <= status <= 299
  }

  function StatusSentence(status: nat): string
  {
    DownloadFailurePrefix + ". Server responded with status " + NumberToString(status) + "."
  }

  /** `detail`: the JSON error message if there is a non-empty one, else the raw body; empty for an empty body. */
  function DownloadDetail(body: string, jsonErrorMessage: Option<string>): (detail: string)
    ensures detail == "" <==> body == ""
    ensures body != "" && jsonErrorMessage.Some? && jsonErrorMessage.value != "" ==> detail == jsonErrorMessage.value
    ensures body != "" && (jsonErrorMessage.None? || jsonErrorMessage.value == "") ==> detail == body
  {
    if body == "" then ""
    else match jsonErrorMessage
      case Some(m) => MessageOr(m, body)
      case None => body
  }

  /** The message of a failed download: the status sentence and at most one addition. */
  function DownloadErrorMessage(status: nat, body: string, jsonErrorMessage: Option<string>): (msg: string)
    ensures StartsWith(msg, StatusSentence(status)) && StartsWith(msg, DownloadFailurePrefix)
  {
    var detail := DownloadDetail(body, jsonErrorMessage);
    var addition :=
      if detail != "" then DetailLabel + detail
      else if status == 400 then Hint400
      else if status == 403 then Hint403
      else "";
    PrefixKept(StatusSentence(status), addition);
    StatusSentenceHasPrefix(status);
    StartsWithTransitive(StatusSentence(status) + addition, StatusSentence(status), DownloadFailurePrefix);
    StatusSentence(status) + addition
  }

  lemma StatusSentenceHasPrefix(status: nat)
    ensures StartsWith(StatusSentence(status), DownloadFailurePrefix)
  {
    PrefixKept(DownloadFailurePrefix, ". Server responded with status " + NumberToString(status) + ".");
    assert StatusSentence(status) == DownloadFailurePrefix + (". Server responded with status " + NumberToString(status) + ".");
  }

  /** Composes the message step by step, as the service does, mutating `detail` and the message. */
  method ComposeDownloadError(status: nat, body: string, jsonErrorMessage: Option<string>) returns (userMessage: string)
    ensures userMessage == DownloadErrorMessage(status, body, jsonErrorMessage)
  {
    var detail := "";
    if body != "" {
      match jsonErrorMessage {
        case Some(m) => detail := MessageOr(m, body);
        case None => detail := body;
      }
    }
    userMessage := StatusSentence(status);
    if detail != "" {
      userMessage := userMessage + DetailLabel + detail;
    } else if status == 400 {
      userMessage := userMessage + Hint400;
    } else if status == 403 {
      userMessage := userMessage + Hint403;
    }
  }

  /**
   * The detail is the JSON error message when there is a non-empty one and
   * the body otherwise, so the 400 and 403 hints appear only when the error
   * body is empty; exactly one addition follows the status sentence.
   */
  lemma DownloadErrorCases(status: nat, body: string, jsonErrorMessage: Option<string>)
    ensures var msg := DownloadErrorMessage(status, body, jsonErrorMessage);
      && StartsWith(msg, StatusSentence(status))
      && ((body != "" && jsonErrorMessage.Some? && jsonErrorMessage.value != "")
          ==> msg == StatusSentence(status) + DetailLabel + jsonErrorMessage.value)
      && ((body != "" && (jsonErrorMessage.None? || jsonErrorMessage.value == ""))
          ==> msg == StatusSentence(status) + DetailLabel + body)
      && (body == "" && status == 400 ==> msg == StatusSentence(status) + Hint400)
      && (body == "" && status == 403 ==> msg == StatusSentence(status) + Hint403)
      && (body == "" && status != 400 && status != 403 ==> msg == StatusSentence(status))
  {
    var sentence, detail := StatusSentence(status), DownloadDetail(body, jsonErrorMessage);
    if detail != "" {
      assert sentence + (DetailLabel + detail) == sentence + DetailLabel + detail;
    }
  }

  /**
   * The inner catch: an error whose message starts with "Failed to download
   * video" is rethrown as it is; any other is replaced by the fixed
   * network/API-key message.
   */
  function RewrapFetchError(message: string): (r: string)
    ensures StartsWith(r, DownloadFailurePrefix)
    ensures StartsWith(message, DownloadFailurePrefix) ==> r == message
    ensures !StartsWith(message, DownloadFailurePrefix) ==> r == NetworkFailure
  {
    if StartsWith(message, DownloadFailurePrefix) then message else NetworkFailure
  }

  /** Every message the inner catch lets out starts with the download prefix, so a second pass changes nothing. */
  lemma RewrapFetchErrorIdempotent(message: string)
    ensures StartsWith(RewrapFetchError(message), DownloadFailurePrefix)
    ensures RewrapFetchError(RewrapFetchError(message)) == RewrapFetchError(message)
  {
    assert StartsWith(NetworkFailure, DownloadFailurePrefix);
  }

  /** Every composed download error passes through the inner catch unchanged. */
  lemma DownloadErrorPassesThrough(status: nat, body: string, jsonErrorMessage: Option<string>)
    ensures RewrapFetchError(DownloadErrorMessage(status, body, jsonErrorMessage))
      == DownloadErrorMessage(status, body, jsonErrorMessage)
  {
  }

  /**
   * The inner `try`: fetch, check `ok`, compose the download error, wrap the
   * bytes as an object URL (`objectUrl`, what `URL.createObjectURL` returns),
   * with the inner catch applied to whatever was thrown.
   */
  method FetchVideo(download: FetchReply, objectUrl: string) returns (result: Result<string>)
    ensures download.FetchRejected? ==> result == Err(RewrapFetchError(download.message))
    ensures download.FetchResponse? && IsOkStatus(download.status) ==> result == Ok(objectUrl)
    ensures download.FetchResponse? && !IsOkStatus(download.status)
      ==> result == Err(DownloadErrorMessage(download.status, download.body, download.jsonErrorMessage))
    ensures result.Err? ==> StartsWith(result.error, DownloadFailurePrefix)
  {
    var thrown: string;
    match download {
      case FetchRejected(m) =>
        thrown := m;
      case FetchResponse(status, body, jsonErrorMessage) =>
        if IsOkStatus(status) {
          return Ok(objectUrl);
        }
        thrown := ComposeDownloadError(status, body, jsonErrorMessage);
        DownloadErrorPassesThrough(status, body, jsonErrorMessage);
    }
    RewrapFetchErrorIdempotent(thrown);
    result := Err(RewrapFetchError(thrown));
  }

  /**
   * `generateVideo`: build the request, submit it (`submitted` is the SDK's
   * answer), poll until done, find the download link and download it. The
   * outer catch keeps every error's message, or uses the fallback text, so
   * the caller never sees an empty message.
   */
  method GenerateVideo(prompt: string, image: Option<ImageData>, aspectRatio: Option<AspectRatio>, apiKey: string,
                       submitted: Result<Operation>, polls: seq<PollReply>, download: FetchReply, objectUrl: string)
    returns (request: VideoRequest, fetchUrl: Option<string>, result: Result<string>)
    requires submitted.Ok? ==> PollStops(submitted.value, polls)
    ensures request == VideoRequestFor(prompt, image, aspectRatio)
    ensures result.Err? ==> result.error != ""
    ensures submitted.Err? ==> result == Err(MessageOr(submitted.error, VideoFailureFallback)) && fetchUrl.None?
    ensures submitted.Ok? && PollOutcome(submitted.value, polls).Err?
      ==> result == Err(MessageOr(PollOutcome(submitted.value, polls).error, VideoFailureFallback)) && fetchUrl.None?
    ensures submitted.Ok? && PollOutcome(submitted.value, polls).Ok? && DownloadLink(PollOutcome(submitted.value, polls).value).None?
      ==> result == Err(NoDownloadLink) && fetchUrl.None?
    ensures fetchUrl.Some? <==>
      (submitted.Ok? && PollOutcome(submitted.value, polls).Ok?
       && DownloadLink(PollOutcome(submitted.value, polls).value).Some?)
    ensures fetchUrl.Some? ==>
      fetchUrl.value == FetchUrl(DownloadLink(PollOutcome(submitted.value, polls).value).value, apiKey)
      && (download.FetchRejected? ==> result == Err(RewrapFetchError(download.message)))
      && ((download.FetchResponse? && !IsOkStatus(download.status))
          ==> result == Err(DownloadErrorMessage(download.status, download.body, download.jsonErrorMessage)))
    ensures result.Ok? <==> fetchUrl.Some? && download.FetchResponse? && IsOkStatus(download.status)
    ensures result.Ok? ==> result.value == objectUrl
  {
    request := VideoRequestFor(prompt, image, aspectRatio);
    fetchUrl := None;
    if submitted.Err? {
      return request, fetchUrl, Err(MessageOr(submitted.error, VideoFailureFallback));
    }
    var polled, _ := PollUntilDone(submitted.value, polls);
    if polled.Err? {
      return request, fetchUrl, Err(MessageOr(polled.error, VideoFailureFallback));
    }
    var link := DownloadLink(polled.value);
    if link.None? {
      return request, fetchUrl, Err(MessageOr(NoDownloadLink, VideoFailureFallback));
    }
    fetchUrl := Some(FetchUrl(link.value, apiKey));
    var fetched := FetchVideo(download, objectUrl);
    match fetched {
      case Ok(url) => result := Ok(url);
      case Err(m) => result := Err(MessageOr(m, VideoFailureFallback));
    }
  }
}
