/**
 * The input form (`VideoInput`): the idea, the optional starting image, the
 * suggestion round trip, the chosen prompt and aspect ratio, and the submit
 * guard. Each `useState` cell is a field; each handler is a method. The file
 * encoder and the service reply are parameters; the `FileReader` callback
 * that fills the preview is a method of its own, since it runs later.
 */
module VideoInput {

  import opened Base
  import opened Strings
  import GeminiService

  /** An entry of the aspect ratio selector. */
  datatype AspectRatioOption = AspectRatioOption(value: AspectRatio, name: string)

  const AspectRatioOptions: seq<AspectRatioOption> := [
    AspectRatioOption(Landscape, "Landscape"),
    AspectRatioOption(Portrait, "Portrait")
  ]

  const SuggestionsFallback := "Couldn't generate suggestions."

  /** The selector offers every aspect ratio exactly once, landscape first. */
  lemma AspectRatioOptionsCoverEachOnce(r: AspectRatio)
    ensures AspectRatioOptions[0].value == Landscape && AspectRatioOptions[0].name == "Landscape"
    ensures AspectRatioOptions[1].value == Portrait && AspectRatioOptions[1].name == "Portrait"
    ensures exists i :: 0 <= i < |AspectRatioOptions| && AspectRatioOptions[i].value == r
    ensures forall i, j :: 0 <= i < j < |AspectRatioOptions| ==> AspectRatioOptions[i].value != AspectRatioOptions[j].value
  {
    if r == Landscape {
      assert AspectRatioOptions[0].value == r;
    } else {
      assert AspectRatioOptions[1].value == r;
    }
  }

  /** The arguments the form hands to `onGenerate`. */
  datatype GenerateCall = GenerateCall(prompt: string, imageFile: Option<ImageFile>, aspectRatio: AspectRatio)

  /** The guard shared by the suggestion handler and its button: something to work from, and no request running. */
  predicate CanRequestSuggestions(idea: string, image: Option<ImageFile>, isGeneratingSuggestions: bool)
  {
    !(IsBlank(idea) && image.None?) && !isGeneratingSuggestions
  }

  class VideoInputForm {
    var idea: string
    var prompt: string
    var suggestions: seq<string>
    var isGeneratingSuggestions: bool
    var suggestionsError: Option<string>
    var selectedSuggestionIndex: Option<int>
    var image: Option<ImageFile>
    var imagePreview: Option<string>
    var aspectRatio: AspectRatio

    constructor ()
      ensures idea == "" && prompt == "" && suggestions == [] && !isGeneratingSuggestions
      ensures suggestionsError.None? && selectedSuggestionIndex.None?
      ensures image.None? && imagePreview.None? && aspectRatio == Landscape
    {
      idea := "";
      prompt := "";
      suggestions := [];
      isGeneratingSuggestions := false;
      suggestionsError := None;
      selectedSuggestionIndex := None;
      image := None;
      imagePreview := None;
      aspectRatio := Landscape;
    }

    /** Typing in the idea box. */
    method EditIdea(text: string)
      modifies this`idea
      ensures idea == text
    {
      idea := text;
    }

    /** Typing in the prompt box. */
    method EditPrompt(text: string)
      modifies this`prompt
      ensures prompt == text
    {
      prompt := text;
    }

    /** Pressing entry `i` of the aspect ratio selector: the ratio can only become one the selector offers. */
    method SelectAspectRatio(i: nat)
      requires i < |AspectRatioOptions|
      modifies this`aspectRatio
      ensures aspectRatio == AspectRatioOptions[i].value
    {
      aspectRatio := AspectRatioOptions[i].value;
    }

    /**
     * A change of the file input: the first chosen file becomes the image
     * (the preview follows when the reader finishes); choosing nothing
     * changes nothing.
     */
    method ImageChange(files: seq<ImageFile>)
      modifies this`image
      ensures files != [] ==> image == Some(files[0])
      ensures files == [] ==> image == old(image)
    {
      if files != [] {
        image := Some(files[0]);
      }
    }

    /**
     * The reader's `onloadend`: its `result` becomes the preview, whatever
     * happened to the image meanwhile. After a failed or aborted read the
     * result is `null` (None), so the preview is cleared while the image stays.
     */
    method PreviewLoaded(result: Option<string>)
      modifies this`imagePreview
      ensures imagePreview == result
    {
      imagePreview := result;
    }

    /** The remove button: no image and no preview. */
    method RemoveImage()
      modifies this`image, this`imagePreview
      ensures image.None? && imagePreview.None?
    {
      image := None;
      imagePreview := None;
    }

    /**
     * The synchronous start of the suggestion handler: when there is an idea
     * or an image and no request is running, it marks a request running and
     * clears the error and the old suggestions; otherwise it does nothing.
     */
    method BeginSuggestions() returns (started: bool)
      modifies this`isGeneratingSuggestions, this`suggestionsError, this`suggestions
      ensures started <==> CanRequestSuggestions(idea, image, old(isGeneratingSuggestions))
      ensures started ==> isGeneratingSuggestions && suggestionsError.None? && suggestions == []
      ensures !started ==>
        isGeneratingSuggestions == old(isGeneratingSuggestions)
        && suggestionsError == old(suggestionsError) && suggestions == old(suggestions)
    {
      if Trim(idea) == "" && image.None? {
        return false;
      }
      if isGeneratingSuggestions {
        return false;
      }
      isGeneratingSuggestions := true;
      suggestionsError := None;
      suggestions := [];
      return true;
    }

    /**
     * The rest of the suggestion handler once the encoder and the service have
     * answered: the suggestions are shown and a non-empty list puts its first
     * entry in the prompt box, selected; a thrown error shows its message (or
     * the fallback). The running flag is cleared in every case.
     */
    method FinishSuggestions(outcome: Result<seq<string>>)
      modifies this`suggestions, this`prompt, this`selectedSuggestionIndex,
               this`suggestionsError, this`isGeneratingSuggestions
      ensures !isGeneratingSuggestions
      ensures outcome.Ok? ==> suggestions == outcome.value && suggestionsError == old(suggestionsError)
      ensures outcome.Ok? && outcome.value != [] ==>
        prompt == outcome.value[0] && selectedSuggestionIndex == Some(0)
      ensures outcome.Err? || outcome.value == [] ==>
        prompt == old(prompt) && selectedSuggestionIndex == old(selectedSuggestionIndex)
      ensures outcome.Err? ==>
        suggestions == old(suggestions) && suggestionsError == Some(MessageOr(outcome.error, SuggestionsFallback))
    {
      match outcome {
        case Ok(newSuggestions) =>
          suggestions := newSuggestions;
          if |newSuggestions| > 0 {
            prompt := newSuggestions[0];
            selectedSuggestionIndex := Some(0);
          }
        case Err(message) =>
          suggestionsError := Some(MessageOr(message, SuggestionsFallback));
      }
      isGeneratingSuggestions := false;
    }

    /**
     * `handleGetSuggestions` run to completion: when the guard lets it
     * through, the image (if any) is encoded (`encoded` is the encoder's
     * answer) and the service is asked with the untrimmed idea; it always
     * reaches the service, since the guard is the service's own blank test.
     * A successful list is the service's accepted reply, and any failure
     * ends up as the shown error.
     */
    method GetSuggestions(encoded: Result<string>, reply: GeminiService.SuggestionReply)
      returns (started: bool, request: Option<GeminiService.SuggestionRequest>)
      modifies this`isGeneratingSuggestions, this`suggestionsError, this`suggestions,
               this`prompt, this`selectedSuggestionIndex
      ensures started <==> CanRequestSuggestions(idea, image, old(isGeneratingSuggestions))
      ensures !started ==>
        request.None? && isGeneratingSuggestions == old(isGeneratingSuggestions)
        && suggestionsError == old(suggestionsError) && suggestions == old(suggestions)
        && prompt == old(prompt) && selectedSuggestionIndex == old(selectedSuggestionIndex)
      ensures started ==> !isGeneratingSuggestions
      ensures started && image.Some? && encoded.Err? ==>
        request.None? && suggestions == []
        && suggestionsError == Some(MessageOr(encoded.error, SuggestionsFallback))
        && prompt == old(prompt) && selectedSuggestionIndex == old(selectedSuggestionIndex)
      ensures started && (image.None? || encoded.Ok?) ==>
        request.Some? && request.value.model == GeminiService.SuggestionModel
        && request.value.contents == GeminiService.SuggestionContentsFor(
             GeminiService.SuggestionPromptText(Trim(idea), image.Some?), ImageDataFor(image, encoded))
        && (GeminiService.AcceptSuggestions(reply).Ok? ==>
              suggestions == GeminiService.AcceptSuggestions(reply).value
              && suggestions != [] && prompt == suggestions[0] && selectedSuggestionIndex == Some(0))
        && (GeminiService.AcceptSuggestions(reply).Err? ==>
              suggestions == [] && suggestionsError == Some(GeminiService.AcceptSuggestions(reply).error)
              && prompt == old(prompt) && selectedSuggestionIndex == old(selectedSuggestionIndex))
    {
      request := None;
      started := BeginSuggestions();
      if !started {
        return;
      }
      if image.Some? && encoded.Err? {
        FinishSuggestions(Err(encoded.error));
        return;
      }
      var currentIdea, currentImage := idea, image;
      var imageData := ImageDataFor(currentImage, encoded);
      assert imageData.Some? == currentImage.Some?;
      var sent, result := GeminiService.GeneratePromptSuggestions(currentIdea, imageData, reply);
      assert sent.Some? && result == GeminiService.AcceptSuggestions(reply);
      assert sent.value.contents == GeminiService.SuggestionContentsFor(
        GeminiService.SuggestionPromptText(Trim(currentIdea), currentImage.Some?), imageData);
      assert result.Err? ==> MessageOr(result.error, SuggestionsFallback) == result.error;
      request := sent;
      FinishSuggestions(result);
      assert idea == currentIdea;
      assert image == currentImage;
    }

    /** Pressing suggestion `index`: it becomes the prompt and the selection. */
    method SuggestionClick(suggestion: string, index: int)
      modifies this`prompt, this`selectedSuggestionIndex
      ensures prompt == suggestion && selectedSuggestionIndex == Some(index)
    {
      prompt := suggestion;
      selectedSuggestionIndex := Some(index);
    }

    /**
     * Submitting the form: `onGenerate` is called, with the untrimmed prompt,
     * the image and the ratio, exactly when the prompt is not blank and no
     * generation is running.
     */
    method Submit(isLoading: bool) returns (call: Option<GenerateCall>)
      ensures call.Some? <==> !IsBlank(prompt) && !isLoading
      ensures call.Some? ==> call.value == GenerateCall(prompt, image, aspectRatio)
    {
      if Trim(prompt) != "" && !isLoading {
        call := Some(GenerateCall(prompt, image, aspectRatio));
      } else {
        call := None;
      }
    }
  }
}
