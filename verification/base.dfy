/**
 * Values shared by every part of the video generator front end: optional
 * values, results that carry a thrown error's message, the lifecycle state
 * enumeration and the aspect ratio type.
 */
module Base {

  datatype Option<+T> = None | Some(value: T)

  /** The outcome of an operation that may throw; `error` is the thrown error's `message`. */
  datatype Result<+T> = Ok(value: T) | Err(error: string)

  /**
   * JavaScript's `message || fallback`: a missing or empty message (the only
   * falsy strings) is replaced by the fallback text.
   */
  function MessageOr(message: string, fallback: string): (r: string)
    ensures r == message || r == fallback
    ensures fallback != "" ==> r != ""
    ensures message != "" ==> r == message
  {
    if message == "" then fallback else message
  }

  /** The four lifecycle states of the generation controller. */
  datatype AppState = Idle | Loading | Success | Error

  /** The two supported frame proportions. */
  datatype AspectRatio = Landscape | Portrait

  /** The wire text of an aspect ratio. */
  function AspectRatioText(r: AspectRatio): string
  {
    match r
    case Landscape => "16:9"
    case Portrait => "9:16"
  }

  /** A file chosen by the user (its `type`); its bytes are read by an encoder that is not part of this model. */
  datatype ImageFile = ImageFile(mimeType: string)

  /** An image as sent to the API: base64 text and its MIME type. */
  datatype ImageData = ImageData(imageBytes: string, mimeType: string)

  /**
   * `{ imageBytes: await fileToBase64(file), mimeType: file.type }` for a
   * chosen file whose encoding (`encoded`) succeeded; absent otherwise.
   */
  function ImageDataFor(file: Option<ImageFile>, encoded: Result<string>): Option<ImageData>
  {
    if file.Some? && encoded.Ok? then Some(ImageData(encoded.value, file.value.mimeType)) else None
  }
}
