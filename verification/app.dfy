/**
 * The top-level view selection (`renderContent`): which screen the
 * lifecycle state shows, and the fallback that resets a Success state that
 * holds no URL.
 */
module App {

  import opened Base
  import opened VideoGeneratorHook

  /** What `renderContent` returns. The form always receives `isLoading = false`. */
  datatype View =
    | InputView(isLoading: bool, error: Option<string>)
    | LoadingView(message: string, elapsedTime: int)
    | PlayerView(videoUrl: string)
    | NoView

  /**
   * The screen for a lifecycle state and the fields the view reads: the form
   * shows exactly in Idle and Error (never as loading, with the controller's
   * error); the loading screen exactly in Loading; the player exactly in
   * Success with a URL, which it plays; nothing otherwise.
   */
  function ViewFor(state: AppState, videoUrl: Option<string>, error: Option<string>,
                   loadingMessage: string, elapsedTime: int): (v: View)
    ensures v.InputView? <==> state == Idle || state == Error
    ensures v.InputView? ==> !v.isLoading && v.error == error
    ensures v.LoadingView? <==> state == Loading
    ensures v.LoadingView? ==> v.message == loadingMessage && v.elapsedTime == elapsedTime
    ensures v.PlayerView? <==> state == Success && HasUrl(videoUrl)
    ensures v.PlayerView? ==> Some(v.videoUrl) == videoUrl && v.videoUrl != ""
    ensures v.NoView? <==> state == Success && !HasUrl(videoUrl)
  {
    match state
    case Idle => InputView(false, error)
    case Loading => LoadingView(loadingMessage, elapsedTime)
    case Success => if HasUrl(videoUrl) then PlayerView(videoUrl.value) else NoView
    case Error => InputView(false, error)
  }

  /**
   * A valid controller holds no URL while it shows the Idle form or the
   * loading screen. (The Error form may still hold one: a generation that
   * fails after an interleaved success keeps the earlier URL.)
   */
  lemma IdleAndLoadingHoldNoUrl(g: VideoGenerator)
    requires g.Valid()
    ensures var v := ViewFor(g.appState, g.videoUrl, g.error, g.loadingMessage, g.elapsedTime);
      (v.InputView? && g.appState == Idle) || v.LoadingView? ==> g.videoUrl.None?
  {
  }

  /**
   * `renderContent`: returns the view for the current state; a Success that
   * holds no URL is reset to Idle (revoking nothing) and shows nothing, so
   * afterwards no Success state without a URL remains.
   */
  method RenderContent(g: VideoGenerator) returns (view: View)
    requires g.Valid()
    modifies g
    ensures g.Valid()
    ensures view == ViewFor(old(g.appState), old(g.videoUrl), old(g.error), old(g.loadingMessage), old(g.elapsedTime))
    ensures old(g.appState) == Success && !HasUrl(old(g.videoUrl)) ==>
      g.appState == Idle && g.videoUrl.None? && g.error.None? && g.elapsedTime == 0
      && g.loadingMessage == old(g.loadingMessage) && g.messageTimer.None? && g.elapsedTimer.None?
      && g.revoked == old(g.revoked)
    ensures !(old(g.appState) == Success && !HasUrl(old(g.videoUrl))) ==> unchanged(g)
    ensures !(g.appState == Success && !HasUrl(g.videoUrl))
  {
    match g.appState {
      case Idle =>
        view := InputView(false, g.error);
      case Loading =>
        view := LoadingView(g.loadingMessage, g.elapsedTime);
      case Success =>
        if HasUrl(g.videoUrl) {
          view := PlayerView(g.videoUrl.value);
        } else {
          g.Reset();
          view := NoView;
        }
      case Error =>
        view := InputView(false, g.error);
    }
  }
}
