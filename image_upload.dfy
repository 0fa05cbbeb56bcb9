/**
 * Uploading a photo of ingredients
 * (src/components/ingredients/ImageUpload.jsx): the checks on the chosen
 * file, then the analysis outcome, with the component's `loading`,
 * `error` and `preview` state. The asynchronous handler is split at its
 * `await`: `BeginFileSelect` runs up to the analysis request and
 * `FinishFileSelect` runs once its outcome is known.
 */
module ImageUpload {
  import opened Wrappers
  import Messages

  /** The chosen file: its MIME type and its size in bytes. */
  datatype ImageFile = ImageFile(mimeType: string, size: int)

  const NotAnImageMessage := "Please upload an image file"
  const TooLargeMessage := "Image size should be less than 5MB"
  const NoIngredientsMessage :=
    "No ingredients detected in the image. Please try another image or add ingredients manually."
  const AnalysisFallbackMessage := "Failed to analyze image. Please try again."

  /** The largest accepted file: 5 MiB. */
  const MaxImageBytes := 5 * 1024 * 1024

  /** Why a file is refused, if it is: the type is checked before the size,
      and a file of exactly 5 MiB is accepted. */
  function FileProblem(file: ImageFile): (r: Option<string>)
    ensures r.None? <==> "image/" <= file.mimeType && file.size <= MaxImageBytes
    ensures !("image/" <= file.mimeType) ==> r == Some(NotAnImageMessage)
    ensures "image/" <= file.mimeType && file.size > MaxImageBytes ==> r == Some(TooLargeMessage)
  {
    if !("image/" <= file.mimeType) then Some(NotAnImageMessage)
    else if file.size > MaxImageBytes then Some(TooLargeMessage)
    else None
  }

  class ImageUploader {
    var loading: bool
    var error: string
    /** The data URL of the chosen image, once read. */
    var preview: Option<string>

    constructor ()
      ensures !loading && error == "" && preview == None
    {
      loading, error, preview := false, "", None;
    }

    /** `handleFileSelect` up to the analysis request. No file: nothing
        happens. A refused file: its error is shown and nothing is analysed.
        An accepted file: the error is cleared and loading starts. */
    method BeginFileSelect(file: Option<ImageFile>) returns (analyse: bool)
      modifies this
      ensures preview == old(preview)
      ensures analyse <==> file.Some? && FileProblem(file.value).None?
      ensures file.None? ==> loading == old(loading) && error == old(error)
      ensures file.Some? && FileProblem(file.value).Some? ==>
        error == FileProblem(file.value).value && loading == old(loading)
      ensures analyse ==> error == "" && loading
    {
      if file.None? {
        return false;
      }
      var problem := FileProblem(file.value);
      if problem.Some? {
        error := problem.value;
        return false;
      }
      error := "";
      loading := true;
      analyse := true;
    }

    /** The file reader's `onload`: the preview shows the image. */
    method ShowPreview(dataUrl: string)
      modifies this
      ensures preview == Some(dataUrl) && loading == old(loading) && error == old(error)
    {
      preview := Some(dataUrl);
    }

    /** `handleFileSelect` after the analysis: a non-empty list is handed on
        unchanged (`extracted`), an empty one is reported as such, a failure
        shows its message or the fallback text; loading ends in every case. */
    method FinishFileSelect(outcome: Result<seq<string>, string>) returns (extracted: Option<seq<string>>)
      modifies this
      ensures !loading && preview == old(preview)
      ensures outcome.Success? && outcome.value != [] ==> extracted == Some(outcome.value) && error == old(error)
      ensures outcome.Success? && outcome.value == [] ==> extracted == None && error == NoIngredientsMessage
      ensures outcome.Failure? ==>
        extracted == None && error == Messages.Shown(outcome.error, AnalysisFallbackMessage)
    {
      extracted := None;
      match outcome {
        case Success(ingredients) =>
          if |ingredients| == 0 {
            error := NoIngredientsMessage;
          } else {
            extracted := Some(ingredients);
          }
        case Failure(m) =>
          error := Messages.Shown(m, AnalysisFallbackMessage);
      }
      loading := false;
    }
  }
}
