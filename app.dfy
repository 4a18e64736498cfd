/** The top-level state of the application (App.tsx) and the four handlers
    that change it. The asynchronous `handleGenerate` is split at its only
    suspension point, the awaited service call: `BeginGenerate` runs the
    validation and everything before the `await`; `CompleteGenerate` runs what
    follows it once the call settled. `crypto.randomUUID()` and `Date.now()`
    are parameters of `CompleteGenerate`. */
module App {
  import opened Base
  import opened Text
  import opened Types
  import DataUrl
  import GeminiService

  const MissingSourceMessage := "Please upload or select an image to edit."
  const SourceMissingMessage := "Source image missing"
  const InvalidFormatMessage := "Invalid image format"
  const UnknownErrorMessage := "An unknown error occurred"

  /** The awaited service call of a `handleGenerate` that passed validation,
      with the arguments it captured from state when it started. */
  datatype ServiceCall =
    | GenerateCall(prompt: string, aspectRatio: AspectRatio)
    | EditCall(base64Data: string, mimeType: string, prompt: string)

  /** The image's ratio recorded in history: the selected one for a generated
      image, `null` for an edited one. */
  function RecordedRatio(call: ServiceCall): (r: Option<AspectRatio>)
    ensures r.Some? <==> call.GenerateCall?
    ensures r.Some? ==> r.value == call.aspectRatio
  {
    if call.GenerateCall? then Some(call.aspectRatio) else None
  }

  /** Runs a call against the two service functions, each with its SDK oracle. */
  function CallService(
    call: ServiceCall,
    generateImages: GeminiService.ImagesRequest -> Outcome<GeminiService.ImagesResponse>,
    generateContent: GeminiService.ContentRequest -> Outcome<GeminiService.ContentResponse>): (r: Outcome<string>)
    ensures call.GenerateCall? ==>
      r == GeminiService.ReadImagesResponse(generateImages(GeminiService.ImagesRequestFor(call.prompt, call.aspectRatio)))
    ensures call.EditCall? ==>
      r == GeminiService.ReadContentResponse(generateContent(GeminiService.ContentRequestFor(call.base64Data, call.mimeType, call.prompt)))
    ensures r.Success? ==> r.value != ""
    ensures r.Failure? ==> Truthy(r.message)
  {
    match call
    case GenerateCall(prompt, ratio) => GeminiService.GenerateImageFromPrompt(prompt, ratio, generateImages)
    case EditCall(data, mime, prompt) => GeminiService.EditImage(data, mime, prompt, generateContent)
  }

  /** The two early returns of `handleGenerate`, in the order it checks them. */
  datatype Validation = BlankPrompt | MissingSource | Passed

  function Validate(prompt: string, mode: GenerationMode, sourceImage: Option<string>): (v: Validation)
    ensures v == BlankPrompt <==> |Trim(prompt)| == 0
    ensures v == MissingSource <==> |Trim(prompt)| > 0 && mode == Edit && !Truthy(sourceImage)
  {
    if IsBlank(prompt) then BlankPrompt
    else if mode == Edit && !Truthy(sourceImage) then MissingSource
    else Passed
  }

  /** `history.filter(img => img.id !== id)`. */
  function RemoveById(history: seq<GeneratedImage>, id: string): (r: seq<GeneratedImage>)
    ensures forall img :: img in r <==> img in history && img.id != id
    ensures |r| <= |history|
  {
    if history == [] then []
    else (if history[0].id == id then [] else [history[0]]) + RemoveById(history[1..], id)
  }

  /** Filtering a concatenation filters each half and keeps them in order;
      with the one-element case this pins the filter down as order-preserving. */
  lemma {:induction false} RemoveByIdAppend(a: seq<GeneratedImage>, b: seq<GeneratedImage>, id: string)
    ensures RemoveById(a + b, id) == RemoveById(a, id) + RemoveById(b, id)
  {
    if a == [] {
      assert a + b == b;
    } else {
      assert (a + b)[1..] == a[1..] + b;
      RemoveByIdAppend(a[1..], b, id);
    }
  }

  lemma RemoveByIdSingle(img: GeneratedImage, id: string)
    ensures RemoveById([img], id) == if img.id == id then [] else [img]
  {
    assert [img][1..] == [];
  }

  /** Deleting an id no entry carries leaves the history as it was. */
  lemma {:induction false} RemoveByIdAbsent(history: seq<GeneratedImage>, id: string)
    requires forall i :: 0 <= i < |history| ==> history[i].id != id
    ensures RemoveById(history, id) == history
  {
    if history != [] {
      RemoveByIdAbsent(history[1..], id);
      assert history == [history[0]] + history[1..];
    }
  }

  /** Deleting the same id twice is deleting it once. */
  lemma RemoveByIdIdempotent(history: seq<GeneratedImage>, id: string)
    ensures RemoveById(RemoveById(history, id), id) == RemoveById(history, id)
  {
    var r := RemoveById(history, id);
    forall i | 0 <= i < |r| ensures r[i].id != id {
      assert r[i] in r;
    }
    RemoveByIdAbsent(r, id);
  }

  /** The number of entries that carry `id`. */
  function CountId(history: seq<GeneratedImage>, id: string): (n: nat)
    ensures n <= |history|
  {
    if history == [] then 0 else (if history[0].id == id then 1 else 0) + CountId(history[1..], id)
  }

  /** Exactly the entries that carry the id are removed. */
  lemma {:induction false} RemoveByIdLength(history: seq<GeneratedImage>, id: string)
    ensures |RemoveById(history, id)| == |history| - CountId(history, id)
  {
    if history != [] {
      RemoveByIdLength(history[1..], id);
    }
  }

  /** The state of the application. Every field is one `useState` of App.tsx. */
  class AppState {
    var mode: GenerationMode
    var prompt: string
    var aspectRatio: AspectRatio
    var sourceImage: Option<string>
    var isGenerating: bool
    var currentImage: Option<GeneratedImage>
    var history: seq<GeneratedImage>
    var error: Option<string>

    /** Every entry of the history was made from a prompt that passed
        validation and holds the non-empty URL a service returned. It is an
        invariant every handler preserves; no handler needs it to act. */
    ghost predicate Valid()
      reads this
    {
      forall i :: 0 <= i < |history| ==> !IsBlank(history[i].prompt) && history[i].imageUrl != ""
    }

    /** The initial values given to `useState`. */
    constructor ()
      ensures Valid()
      ensures mode == Generate && prompt == "" && aspectRatio == Square && sourceImage == None
      ensures !isGenerating && currentImage == None && history == [] && error == None
    {
      mode := Generate;
      prompt := "";
      aspectRatio := Square;
      sourceImage := None;
      isGenerating := false;
      currentImage := None;
      history := [];
      error := None;
    }

    /** The `catch` and `finally` of `handleGenerate`. */
    method Catch(message: Option<string>)
      modifies this
      ensures error == Some(OrElse(message, UnknownErrorMessage)) && !isGenerating
      ensures mode == old(mode) && prompt == old(prompt) && aspectRatio == old(aspectRatio)
      ensures sourceImage == old(sourceImage) && currentImage == old(currentImage) && history == old(history)
    {
      error := Some(OrElse(message, UnknownErrorMessage));
      isGenerating := false;
    }

    /** `handleGenerate` up to its `await`. It does not look at `isGenerating`.
        A blank prompt changes nothing; Edit mode without a source image only
        sets the validation message. Otherwise the call is bracketed as
        in-flight, the error and the displayed image are cleared, and in Edit
        mode the source data URL is split; a URL the regular expression rejects
        throws before any await, so the `catch` and `finally` run at once.
        The returned call is the service call now awaited, if any. */
    method BeginGenerate() returns (call: Option<ServiceCall>)
      requires Valid()
      modifies this
      ensures Valid()
      ensures mode == old(mode) && prompt == old(prompt) && aspectRatio == old(aspectRatio)
      ensures sourceImage == old(sourceImage) && history == old(history)
      ensures call.Some? ==> !IsBlank(call.value.prompt)
      ensures Validate(prompt, mode, sourceImage) == BlankPrompt ==>
        call == None && isGenerating == old(isGenerating) && currentImage == old(currentImage) && error == old(error)
      ensures Validate(prompt, mode, sourceImage) == MissingSource ==>
        call == None && error == Some(MissingSourceMessage)
        && isGenerating == old(isGenerating) && currentImage == old(currentImage)
      ensures Validate(prompt, mode, sourceImage) == Passed ==> currentImage == None
      ensures Validate(prompt, mode, sourceImage) == Passed && mode == Generate ==>
        call == Some(GenerateCall(prompt, aspectRatio)) && isGenerating && error == None
      ensures Validate(prompt, mode, sourceImage) == Passed && mode == Edit ==>
        match DataUrl.Parse(sourceImage.value)
        case None => call == None && !isGenerating && error == Some(InvalidFormatMessage)
        case Some(d) => call == Some(EditCall(d.base64Data, d.mimeType, prompt)) && isGenerating && error == None
    {
      if IsBlank(prompt) {
        return None;
      }
      if mode == Edit && !Truthy(sourceImage) {
        error := Some(MissingSourceMessage);
        return None;
      }
      isGenerating := true;
      error := None;
      currentImage := None;
      if mode == Generate {
        call := Some(GenerateCall(prompt, aspectRatio));
      } else {
        if !Truthy(sourceImage) {
          // The throw of SourceMissingMessage here is never reached: the check
          // above already returned for a falsy source image.
          assert false;
        }
        call := SplitSource(sourceImage.value);
      }
    }

    /** The Edit branch of the `try` before its `await`: split the source data
        URL and issue the edit call, or throw "Invalid image format" into the
        `catch` and `finally`. */
    method SplitSource(source: string) returns (call: Option<ServiceCall>)
      modifies this
      ensures mode == old(mode) && prompt == old(prompt) && aspectRatio == old(aspectRatio)
      ensures sourceImage == old(sourceImage) && history == old(history) && currentImage == old(currentImage)
      ensures match DataUrl.Parse(source)
        case None => call == None && !isGenerating && error == Some(InvalidFormatMessage)
        case Some(d) =>
          call == Some(EditCall(d.base64Data, d.mimeType, prompt))
          && isGenerating == old(isGenerating) && error == old(error)
    {
      var matches := DataUrl.Parse(source);
      if matches.None? {
        Catch(Some(InvalidFormatMessage));
        call := None;
      } else {
        call := Some(EditCall(matches.value.base64Data, matches.value.mimeType, prompt));
      }
    }

    /** `handleGenerate` after its `await`, given how the service call settled.
        On success the new image is shown and prepended to the history as it
        is now; on failure the history and the displayed image are left alone
        and the error shows the thrown message, or the generic one when that is
        empty. Either way the call is no longer in flight. */
    method CompleteGenerate(call: ServiceCall, outcome: Outcome<string>, id: string, createdAt: int)
      requires Valid()
      requires !IsBlank(call.prompt)
      requires outcome.Success? ==> outcome.value != ""
      modifies this
      ensures Valid()
      ensures !isGenerating
      ensures mode == old(mode) && prompt == old(prompt) && aspectRatio == old(aspectRatio)
      ensures sourceImage == old(sourceImage)
      ensures outcome.Success? ==>
        && currentImage == Some(GeneratedImage(id, call.prompt, outcome.value, RecordedRatio(call), createdAt))
        && history == [currentImage.value] + old(history)
        && error == old(error)
      ensures outcome.Failure? ==>
        && history == old(history) && currentImage == old(currentImage)
        && error == Some(OrElse(outcome.message, UnknownErrorMessage))
    {
      match outcome
      case Success(imageUrl) =>
        var newImage := GeneratedImage(id, call.prompt, imageUrl, RecordedRatio(call), createdAt);
        currentImage := Some(newImage);
        history := [newImage] + history;
        isGenerating := false;
      case Failure(message) =>
        Catch(message);
    }

    /** The whole of `handleGenerate` when nothing else runs while the service
        call is awaited: `service` settles the call, `id` and `createdAt` stand
        for `crypto.randomUUID()` and `Date.now()`. */
    method HandleGenerate(service: ServiceCall -> Outcome<string>, id: string, createdAt: int)
      returns (call: Option<ServiceCall>)
      requires Valid()
      requires forall c :: service(c).Success? ==> service(c).value != ""
      modifies this
      ensures Valid()
      ensures mode == old(mode) && prompt == old(prompt) && aspectRatio == old(aspectRatio)
      ensures sourceImage == old(sourceImage)
      ensures old(Validate(prompt, mode, sourceImage)) != Passed ==>
        call == None && isGenerating == old(isGenerating) && currentImage == old(currentImage) && history == old(history)
      ensures old(Validate(prompt, mode, sourceImage)) == BlankPrompt ==> error == old(error)
      ensures old(Validate(prompt, mode, sourceImage)) == MissingSource ==> error == Some(MissingSourceMessage)
      ensures old(Validate(prompt, mode, sourceImage)) == Passed ==> !isGenerating
      ensures old(Validate(prompt, mode, sourceImage)) == Passed && mode == Generate ==>
        call == Some(GenerateCall(prompt, aspectRatio))
      ensures old(Validate(prompt, mode, sourceImage)) == Passed && mode == Edit ==>
        call == match DataUrl.Parse(sourceImage.value)
          case None => None
          case Some(d) => Some(EditCall(d.base64Data, d.mimeType, prompt))
      ensures call.Some? ==> call.value.prompt == prompt
      ensures call.Some? && service(call.value).Success? ==>
        && currentImage == Some(GeneratedImage(id, prompt, service(call.value).value, RecordedRatio(call.value), createdAt))
        && history == [currentImage.value] + old(history)
        && error == None
      ensures call.Some? && service(call.value).Failure? ==>
        && currentImage == None && history == old(history)
        && error == Some(OrElse(service(call.value).message, UnknownErrorMessage))
      ensures old(Validate(prompt, mode, sourceImage)) == Passed && call.None? ==>
        currentImage == None && history == old(history) && error == Some(InvalidFormatMessage)
    {
      call := BeginGenerate();
      if call.Some? {
        CompleteGenerate(call.value, service(call.value), id, createdAt);
      }
    }

    /** `handleDelete(id)`: every entry with that id leaves the history, the
        rest keep their order, and the displayed image is cleared exactly when
        it carries that id. */
    method Delete(id: string)
      requires Valid()
      modifies this
      ensures Valid()
      ensures history == RemoveById(old(history), id)
      ensures currentImage ==
        if old(currentImage).Some? && old(currentImage).value.id == id then None else old(currentImage)
      ensures mode == old(mode) && prompt == old(prompt) && aspectRatio == old(aspectRatio)
      ensures sourceImage == old(sourceImage) && isGenerating == old(isGenerating) && error == old(error)
    {
      history := RemoveById(history, id);
      if currentImage.Some? && currentImage.value.id == id {
        currentImage := None;
      }
      forall i | 0 <= i < |history| ensures !IsBlank(history[i].prompt) && history[i].imageUrl != "" {
        assert history[i] in old(history);
      }
    }

    /** `handleSelectFromHistory(img)`: shows the image and changes nothing else. */
    method SelectFromHistory(img: GeneratedImage)
      requires Valid()
      modifies this
      ensures Valid()
      ensures currentImage == Some(img)
      ensures mode == old(mode) && prompt == old(prompt) && aspectRatio == old(aspectRatio)
      ensures sourceImage == old(sourceImage) && isGenerating == old(isGenerating)
      ensures history == old(history) && error == old(error)
    {
      currentImage := Some(img);
    }

    /** `handleQuickEdit(imageUrl)`: the URL becomes the source image, the mode
        switches to Edit and the prompt is cleared. */
    method QuickEdit(imageUrl: string)
      requires Valid()
      modifies this
      ensures Valid()
      ensures sourceImage == Some(imageUrl) && mode == Edit && prompt == ""
      ensures aspectRatio == old(aspectRatio) && isGenerating == old(isGenerating)
      ensures currentImage == old(currentImage) && history == old(history) && error == old(error)
    {
      sourceImage := Some(imageUrl);
      mode := Edit;
      prompt := "";
    }

    // The state setters handed to the control panel.

    method SetMode(m: GenerationMode)
      requires Valid()
      modifies this
      ensures Valid()
      ensures mode == m
      ensures prompt == old(prompt) && aspectRatio == old(aspectRatio) && sourceImage == old(sourceImage)
      ensures isGenerating == old(isGenerating) && currentImage == old(currentImage)
      ensures history == old(history) && error == old(error)
    {
      mode := m;
    }

    method SetPrompt(p: string)
      requires Valid()
      modifies this
      ensures Valid()
      ensures prompt == p
      ensures mode == old(mode) && aspectRatio == old(aspectRatio) && sourceImage == old(sourceImage)
      ensures isGenerating == old(isGenerating) && currentImage == old(currentImage)
      ensures history == old(history) && error == old(error)
    {
      prompt := p;
    }

    method SetAspectRatio(r: AspectRatio)
      requires Valid()
      modifies this
      ensures Valid()
      ensures aspectRatio == r
      ensures mode == old(mode) && prompt == old(prompt) && sourceImage == old(sourceImage)
      ensures isGenerating == old(isGenerating) && currentImage == old(currentImage)
      ensures history == old(history) && error == old(error)
    {
      aspectRatio := r;
    }

    method SetSourceImage(img: Option<string>)
      requires Valid()
      modifies this
      ensures Valid()
      ensures sourceImage == img
      ensures mode == old(mode) && prompt == old(prompt) && aspectRatio == old(aspectRatio)
      ensures isGenerating == old(isGenerating) && currentImage == old(currentImage)
      ensures history == old(history) && error == old(error)
    {
      sourceImage := img;
    }
  }

  /** A failed service call always carries a message of its own, so the
      generic "An unknown error occurred" never replaces it. */
  lemma ServiceFailureKeepsMessage(
    call: ServiceCall,
    generateImages: GeminiService.ImagesRequest -> Outcome<GeminiService.ImagesResponse>,
    generateContent: GeminiService.ContentRequest -> Outcome<GeminiService.ContentResponse>)
    requires CallService(call, generateImages, generateContent).Failure?
    ensures var m := CallService(call, generateImages, generateContent).message;
      m.Some? && OrElse(m, UnknownErrorMessage) == m.value
  {
    var r := CallService(call, generateImages, generateContent);
    assert Truthy(r.message);
  }

  /** Quick edit feeds a generated image back in: the URL the generate service
      returned splits into the JPEG mime type and the API's bytes, which become
      the data of the edit call. */
  lemma {:induction false} QuickEditOfGeneratedImage(
    prompt: string, ratio: AspectRatio, editPrompt: string,
    generateImages: GeminiService.ImagesRequest -> Outcome<GeminiService.ImagesResponse>)
    requires GeminiService.GenerateImageFromPrompt(prompt, ratio, generateImages).Success?
    requires var response := generateImages(GeminiService.ImagesRequestFor(prompt, ratio));
      DataUrl.IsBase64(GeminiService.FirstImageBytes(response.value).value)
    requires !IsBlank(editPrompt)
    ensures var url := GeminiService.GenerateImageFromPrompt(prompt, ratio, generateImages).value;
      && Validate(editPrompt, Edit, Some(url)) == Passed
      && DataUrl.Parse(url).Some?
      && EditCall(DataUrl.Parse(url).value.base64Data, DataUrl.Parse(url).value.mimeType, editPrompt)
         == EditCall(GeminiService.FirstImageBytes(generateImages(GeminiService.ImagesRequestFor(prompt, ratio)).value).value,
                     "image/jpeg", editPrompt)
  {
    GeminiService.GeneratedUrlParses(generateImages(GeminiService.ImagesRequestFor(prompt, ratio)));
  }
}
