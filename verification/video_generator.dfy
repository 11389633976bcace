/**
 * The generation lifecycle controller (the `useVideoGenerator` hook): the
 * four-state machine Idle -> Loading -> Success | Error with the fields the
 * view reads, the two intervals that run while loading (message rotation and
 * elapsed seconds), and `reset`.
 *
 * React's state cells become fields. The two effects keyed on the state are
 * run together with each change of state: when the state changes, the old
 * intervals are cleared and, on entering Loading, new ones are registered;
 * when the state is set to the value it already has, nothing is re-run. Each
 * registered interval is a field holding its closure's own variable (the
 * message index, the start time); a timer tick is a method that takes the
 * clock, in milliseconds, as a parameter.
 */
module VideoGeneratorHook {

  import opened Base
  import GeminiService

  const LoadingMessages: seq<string> := [
    "Warming up the digital director...",
    "Gathering the creative pixels...",
    "Storyboarding your vision...",
    "Setting up the virtual cameras...",
    "This can take a few minutes",
    "Compositing the scene...",
    "Applying special effects...",
    "Rendering the final cut...",
    "Patience is the quality of enduring delay...",
    "Almost there, the premiere is about to start!"
  ]

  const ElapsedIntervalMs := 1000
  const UnknownGenerationError := "An unknown error occurred during video generation."

  /** One step of the message rotation: `(i + 1) % LOADING_MESSAGES.length`. */
  function NextMessageIndex(i: nat): (j: nat)
    ensures j < |LoadingMessages|
  {
    (i + 1) % |LoadingMessages|
  }

  /** The message index after `ticks` rotations from 0. */
  function MessageIndexAfter(ticks: nat): nat
  {
    if ticks == 0 then 0 else NextMessageIndex(MessageIndexAfter(ticks - 1))
  }

  /** After k ticks the rotation shows message k mod 10, so it stays in range and cycles in order. */
  lemma {:induction false} MessageIndexCycles(ticks: nat)
    ensures MessageIndexAfter(ticks) == ticks % 10
    ensures MessageIndexAfter(ticks) < |LoadingMessages|
  {
    if ticks > 0 {
      MessageIndexCycles(ticks - 1);
      NextOfRemainder(ticks - 1);
    }
  }

  /** From any point of the rotation, every one of the ten messages comes within the next ten ticks. */
  lemma RotationReachesEveryMessage(ticks: nat, m: nat)
    requires m < |LoadingMessages|
    ensures var wait := (m + 10 - ticks % 10) % 10;
      wait < 10 && MessageIndexAfter(ticks + wait) == m
  {
    var q := ticks % 10;
    var wait := (m + 10 - q) % 10;
    assert ticks == (ticks / 10) * 10 + q;
    if m >= q {
      assert wait == m - q;
      CycleLandsOn(ticks / 10, m);
    } else {
      assert wait == m + 10 - q;
      CycleLandsOn(ticks / 10 + 1, m);
    }
    MessageIndexCycles(ticks + wait);
  }

  /** Stepping the remainder modulo ten is the remainder of the next number. */
  lemma NextOfRemainder(k: nat)
    ensures (k % 10 + 1) % 10 == (k + 1) % 10
  {
    var q := k / 10;
    var r := k % 10;
    assert k == q * 10 + r;
    if r == 9 {
      CycleLandsOn(q + 1, 0);
    } else {
      CycleLandsOn(q, r + 1);
    }
  }

  lemma CycleLandsOn(k: nat, m: nat)
    requires m < 10
    ensures (k * 10 + m) % 10 == m
  {
  }

  /**
   * The elapsed seconds, `Math.floor((now - start) / 1000)` (Dafny's `/`
   * floors for a positive divisor): the number of whole seconds since the
   * start, negative if the clock went back.
   */
  function ElapsedSeconds(start: int, now: int): (seconds: int)
    ensures start + seconds * 1000 <= now < start + (seconds + 1) * 1000
    ensures now >= start ==> seconds >= 0
  {
    (now - start) / ElapsedIntervalMs
  }

  /** For a clock that does not go backwards, the elapsed seconds never decrease. */
  lemma ElapsedNeverDecreases(start: int, now1: int, now2: int)
    requires now1 <= now2
    ensures ElapsedSeconds(start, now1) <= ElapsedSeconds(start, now2)
  {
  }

  /** The elapsed seconds count the whole seconds since the start. */
  lemma ElapsedCountsWholeSeconds(start: int, now: int, k: int)
    requires start + k * 1000 <= now < start + (k + 1) * 1000
    ensures ElapsedSeconds(start, now) == k
  {
  }

  /**
   * The service call succeeds: the job was submitted, polling ended in a done
   * operation with a download link, and the download answered with an ok status.
   */
  predicate VideoServiceSucceeds(submitted: Result<GeminiService.Operation>, polls: seq<GeminiService.PollReply>,
                                 download: GeminiService.FetchReply)
    requires submitted.Ok? ==> GeminiService.PollStops(submitted.value, polls)
  {
    && submitted.Ok?
    && GeminiService.PollOutcome(submitted.value, polls).Ok?
    && GeminiService.DownloadLink(GeminiService.PollOutcome(submitted.value, polls).value).Some?
    && download.FetchResponse? && GeminiService.IsOkStatus(download.status)
  }

  /** JavaScript truthiness of `videoUrl`: present and non-empty. */
  predicate HasUrl(url: Option<string>)
  {
    url.Some? && url.value != ""
  }

  class VideoGenerator {
    var appState: AppState
    var videoUrl: Option<string>
    var error: Option<string>
    var loadingMessage: string
    var elapsedTime: int

    /** The registered message interval, holding its closure's `messageIndex`. */
    var messageTimer: Option<nat>
    /** The registered elapsed-time interval, holding its closure's `startTime`. */
    var elapsedTimer: Option<int>

    /** Rotations since the message interval was registered. */
    ghost var messageTicks: nat
    /** Every URL passed to `URL.revokeObjectURL`, in order. */
    ghost var revoked: seq<string>

    /**
     * Both intervals are registered exactly while Loading, the rotation index
     * is where `messageTicks` rotations lead, the message shown is one of the
     * ten, and no URL is held while Idle or Loading.
     */
    ghost predicate Valid()
      reads this
    {
      && (messageTimer.Some? <==> appState == Loading)
      && (elapsedTimer.Some? <==> appState == Loading)
      && (messageTimer.Some? ==> messageTimer.value == MessageIndexAfter(messageTicks))
      && loadingMessage in LoadingMessages
      && (appState == Idle || appState == Loading ==> videoUrl.None?)
    }

    constructor ()
      ensures Valid()
      ensures appState == Idle && videoUrl.None? && error.None?
      ensures loadingMessage == LoadingMessages[0] && elapsedTime == 0
      ensures revoked == []
    {
      appState := Idle;
      videoUrl := None;
      error := None;
      loadingMessage := LoadingMessages[0];
      elapsedTime := 0;
      messageTimer := None;
      elapsedTimer := None;
      messageTicks := 0;
      revoked := [];
    }

    /**
     * `setAppState(s)` followed by the two effects keyed on the state: on a
     * change, the cleanups clear both intervals, and entering Loading
     * registers new ones (index 0, start time `now`) and zeroes the elapsed
     * time.
     */
    method SetAppState(s: AppState, now: int)
      modifies this
      ensures appState == s
      ensures videoUrl == old(videoUrl) && error == old(error) && loadingMessage == old(loadingMessage)
      ensures revoked == old(revoked)
      ensures s == old(appState) ==>
        messageTimer == old(messageTimer) && elapsedTimer == old(elapsedTimer)
        && messageTicks == old(messageTicks) && elapsedTime == old(elapsedTime)
      ensures s != old(appState) && s == Loading ==>
        messageTimer == Some(0) && messageTicks == 0 && elapsedTimer == Some(now) && elapsedTime == 0
      ensures s != old(appState) && s != Loading ==>
        messageTimer.None? && elapsedTimer.None?
        && messageTicks == old(messageTicks) && elapsedTime == old(elapsedTime)
    {
      if s != appState {
        appState := s;
        messageTimer := None;
        elapsedTimer := None;
        if s == Loading {
          messageTimer := Some(0);
          messageTicks := 0;
          elapsedTimer := Some(now);
          elapsedTime := 0;
        }
      }
    }

    /**
     * The synchronous start of `generateVideo`: enter Loading, clear the error
     * and the URL (without revoking it), and show the first message. The
     * intervals restart only if the state was not already Loading.
     */
    method StartGeneration(now: int)
      requires Valid()
      modifies this
      ensures Valid()
      ensures appState == Loading && error.None? && videoUrl.None?
      ensures loadingMessage == LoadingMessages[0]
      ensures old(appState) != Loading ==>
        elapsedTime == 0 && elapsedTimer == Some(now) && messageTimer == Some(0)
      ensures old(appState) == Loading ==>
        elapsedTime == old(elapsedTime) && elapsedTimer == old(elapsedTimer) && messageTimer == old(messageTimer)
      ensures revoked == old(revoked)
    {
      SetAppState(Loading, now);
      error := None;
      videoUrl := None;
      loadingMessage := LoadingMessages[0];
    }

    /**
     * The continuation of `generateVideo` once the encoder and the service
     * have answered: a URL leads to Success, a thrown error to Error with its
     * message (or the fallback text). Nothing checks that the state is still
     * Loading: a `reset` in between does not cancel it.
     */
    method FinishGeneration(outcome: Result<string>)
      requires Valid()
      modifies this
      ensures Valid()
      ensures outcome.Ok? ==> appState == Success && videoUrl == Some(outcome.value) && error == old(error)
      ensures outcome.Err? ==>
        appState == Error && error == Some(MessageOr(outcome.error, UnknownGenerationError))
        && videoUrl == old(videoUrl)
      ensures messageTimer.None? && elapsedTimer.None?
      ensures elapsedTime == old(elapsedTime) && loadingMessage == old(loadingMessage)
      ensures revoked == old(revoked)
    {
      match outcome {
        case Ok(url) =>
          videoUrl := Some(url);
          SetAppState(Success, 0);
        case Err(message) =>
          error := Some(MessageOr(message, UnknownGenerationError));
          SetAppState(Error, 0);
      }
    }

    /**
     * `generateVideo(prompt, imageFile, aspectRatio)` run to completion with
     * no timer tick in between: start, encode the image if there is one
     * (`encoded` is the encoder's answer), call the service, finish. It always
     * ends in exactly one of Success and Error.
     */
    method GenerateVideo(now: int, prompt: string, imageFile: Option<ImageFile>, aspectRatio: Option<AspectRatio>,
                         encoded: Result<string>, apiKey: string, submitted: Result<GeminiService.Operation>,
                         polls: seq<GeminiService.PollReply>, download: GeminiService.FetchReply, objectUrl: string)
      returns (request: Option<GeminiService.VideoRequest>, serviceResult: Option<Result<string>>)
      requires Valid()
      requires submitted.Ok? ==> GeminiService.PollStops(submitted.value, polls)
      modifies this
      ensures Valid()
      ensures appState == Success || appState == Error
      ensures serviceResult.None? <==> imageFile.Some? && encoded.Err?
      ensures request.None? <==> serviceResult.None?
      ensures request.Some? ==>
        request.value == GeminiService.VideoRequestFor(prompt, ImageDataFor(imageFile, encoded), aspectRatio)
      ensures serviceResult.Some? ==>
        (serviceResult.value.Ok? <==> VideoServiceSucceeds(submitted, polls, download))
      ensures serviceResult.Some? && submitted.Err? ==>
        error == Some(MessageOr(submitted.error, GeminiService.VideoFailureFallback))
      ensures serviceResult.Some? && submitted.Ok? && GeminiService.PollOutcome(submitted.value, polls).Err? ==>
        error == Some(MessageOr(GeminiService.PollOutcome(submitted.value, polls).error, GeminiService.VideoFailureFallback))
      ensures (serviceResult.Some? && submitted.Ok? && GeminiService.PollOutcome(submitted.value, polls).Ok?
               && GeminiService.DownloadLink(GeminiService.PollOutcome(submitted.value, polls).value).None?) ==>
        error == Some(GeminiService.NoDownloadLink)
      ensures (serviceResult.Some? && submitted.Ok? && GeminiService.PollOutcome(submitted.value, polls).Ok?
               && GeminiService.DownloadLink(GeminiService.PollOutcome(submitted.value, polls).value).Some?) ==>
        (download.FetchRejected? ==> error == Some(GeminiService.RewrapFetchError(download.message)))
        && (download.FetchResponse? && !GeminiService.IsOkStatus(download.status) ==>
              error == Some(GeminiService.DownloadErrorMessage(download.status, download.body, download.jsonErrorMessage)))
      ensures serviceResult.None? ==>
        appState == Error && error == Some(MessageOr(encoded.error, UnknownGenerationError)) && videoUrl.None?
      ensures serviceResult.Some? && serviceResult.value.Ok? ==>
        appState == Success && videoUrl == Some(serviceResult.value.value) && serviceResult.value.value == objectUrl
        && error.None?
      ensures serviceResult.Some? && serviceResult.value.Err? ==>
        appState == Error && error == Some(serviceResult.value.error) && videoUrl.None?
      ensures loadingMessage == LoadingMessages[0] && messageTimer.None? && elapsedTimer.None?
      ensures old(appState) != Loading ==> elapsedTime == 0
      ensures old(appState) == Loading ==> elapsedTime == old(elapsedTime)
      ensures revoked == old(revoked)
    {
      StartGeneration(now);
      if imageFile.Some? && encoded.Err? {
        FinishGeneration(Err(encoded.error));
        return None, None;
      }
      var image := ImageDataFor(imageFile, encoded);
      var sent, _, result := GeminiService.GenerateVideo(prompt, image, aspectRatio, apiKey, submitted, polls, download, objectUrl);
      FinishGeneration(result);
      assert result.Err? ==> error == Some(result.error);
      request := Some(sent);
      serviceResult := Some(result);
    }

    /**
     * `reset`: back to Idle with no URL, no error and zero elapsed time; the
     * URL held is revoked exactly when there is one.
     */
    method Reset()
      requires Valid()
      modifies this
      ensures Valid()
      ensures appState == Idle && videoUrl.None? && error.None? && elapsedTime == 0
      ensures messageTimer.None? && elapsedTimer.None?
      ensures revoked == old(revoked) + (if HasUrl(old(videoUrl)) then [old(videoUrl).value] else [])
      ensures loadingMessage == old(loadingMessage)
    {
      var held := videoUrl;
      SetAppState(Idle, 0);
      videoUrl := None;
      error := None;
      elapsedTime := 0;
      if HasUrl(held) {
        revoked := revoked + [held.value];
      }
    }

    /** A second `reset` revokes nothing: each held URL is revoked once. */
    method ResetTwice()
      requires Valid()
      modifies this
      ensures Valid() && appState == Idle
      ensures revoked == old(revoked) + (if HasUrl(old(videoUrl)) then [old(videoUrl).value] else [])
    {
      Reset();
      Reset();
    }

    /**
     * A tick of the five-second interval: when registered, it advances the
     * index by one (modulo ten) and shows that message; otherwise nothing
     * happens.
     */
    method MessageTick()
      requires Valid()
      modifies this
      ensures Valid()
      ensures old(messageTimer).Some? ==>
        messageTicks == old(messageTicks) + 1
        && messageTimer == Some(NextMessageIndex(old(messageTimer).value))
        && loadingMessage == LoadingMessages[messageTimer.value]
      ensures old(messageTimer).None? ==>
        messageTimer.None? && messageTicks == old(messageTicks) && loadingMessage == old(loadingMessage)
      ensures appState == old(appState) && videoUrl == old(videoUrl) && error == old(error)
      ensures elapsedTime == old(elapsedTime) && elapsedTimer == old(elapsedTimer) && revoked == old(revoked)
    {
      if messageTimer.Some? {
        var index := NextMessageIndex(messageTimer.value);
        messageTimer := Some(index);
        messageTicks := messageTicks + 1;
        loadingMessage := LoadingMessages[index];
      }
    }

    /**
     * A tick of the one-second interval at clock `now`: when registered, it
     * recomputes the elapsed seconds from the start time; otherwise nothing
     * happens.
     */
    method ElapsedTick(now: int)
      requires Valid()
      modifies this
      ensures Valid()
      ensures old(elapsedTimer).Some? ==> elapsedTime == ElapsedSeconds(old(elapsedTimer).value, now)
      ensures old(elapsedTimer).None? ==> elapsedTime == old(elapsedTime)
      ensures appState == old(appState) && videoUrl == old(videoUrl) && error == old(error)
      ensures loadingMessage == old(loadingMessage) && messageTimer == old(messageTimer)
      ensures messageTicks == old(messageTicks) && elapsedTimer == old(elapsedTimer) && revoked == old(revoked)
    {
      if elapsedTimer.Some? {
        elapsedTime := ElapsedSeconds(elapsedTimer.value, now);
      }
    }
  }
}
