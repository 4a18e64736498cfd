/** The control panel (ControlPanel.tsx): the `canGenerate` gate and the
    event handlers, which change the application's state only through the
    setters and the `onGenerate` callback App hands down. An element's handler
    fires only while the element is rendered and enabled, so each handler below
    first checks the condition under which the panel renders and enables it. */
module ControlPanel {
  import opened Base
  import opened Text
  import opened Types
  import DataUrl
  import App

  /** `canGenerate`: not already generating, a non-blank prompt, and in Edit
      mode a truthy source image. */
  predicate CanGenerate(isGenerating: bool, prompt: string, mode: GenerationMode, sourceImage: Option<string>): (r: bool)
    ensures r <==> !isGenerating && !IsBlank(prompt) && (mode == Generate || Truthy(sourceImage))
  {
    var trimmed := Trim(prompt);
    && !isGenerating
    && |trimmed| > 0
    && (mode == Generate || (mode == Edit && Truthy(sourceImage)))
  }

  /** The gate is exactly "not generating" plus both of `handleGenerate`'s
      early-return checks passing; in particular it never lets a submission
      reach the missing-source message. */
  lemma CanGenerateIffValidated(isGenerating: bool, prompt: string, mode: GenerationMode, sourceImage: Option<string>)
    ensures CanGenerate(isGenerating, prompt, mode, sourceImage)
      <==> !isGenerating && App.Validate(prompt, mode, sourceImage) == App.Passed
  {
  }

  /** `e.key === 'Enter' && !e.shiftKey`. */
  predicate SubmitsOnKey(key: string, shiftKey: bool)
  {
    key == "Enter" && !shiftKey
  }

  /** A file as the panel sees it: its `type`, and the data URL `readAsDataURL`
      produces for it. */
  datatype SelectedFile = SelectedFile(mimeType: string, dataUrl: string)

  /** The upload zone, with its drop target and hidden file input, is rendered
      in Edit mode while there is no source image. */
  predicate UploadZoneShown(mode: GenerationMode, sourceImage: Option<string>)
  {
    mode == Edit && !Truthy(sourceImage)
  }

  /** The remove button is rendered over a source image in Edit mode. */
  predicate RemoveButtonShown(mode: GenerationMode, sourceImage: Option<string>)
  {
    mode == Edit && Truthy(sourceImage)
  }

  /** The reference-image section is the ternary `!sourceImage ? upload : preview`
      inside `mode === Edit && …`: in Edit mode exactly one of the upload zone
      and the remove button is on screen, in Generate mode neither. */
  lemma SourceSectionExclusive(mode: GenerationMode, sourceImage: Option<string>)
    ensures mode == Edit ==> (UploadZoneShown(mode, sourceImage) <==> !RemoveButtonShown(mode, sourceImage))
    ensures mode == Generate ==> !UploadZoneShown(mode, sourceImage) && !RemoveButtonShown(mode, sourceImage)
  {
  }

  /** The data URL `handleDrop` stores: only the first dropped file counts,
      and only when its type starts with "image/". */
  function AcceptedDrop(files: seq<SelectedFile>): (r: Option<string>)
    ensures r.Some? <==> |files| > 0 && StartsWith(files[0].mimeType, "image/")
    ensures r.Some? ==> r.value == files[0].dataUrl
  {
    if |files| > 0 && StartsWith(files[0].mimeType, "image/") then Some(files[0].dataUrl) else None
  }

  /** The ratio buttons: all five ratios in declaration order in Generate
      mode, none in Edit mode. */
  function OfferedRatios(mode: GenerationMode): (r: seq<AspectRatio>)
    ensures mode == Edit ==> r == []
    ensures mode == Generate ==> |r| == 5 && forall ratio :: ratio in r
  {
    AllRatiosComplete();
    if mode == Generate then AllRatios else []
  }

  /** The Generate button (`onClick={onGenerate}`, `disabled={!canGenerate}`):
      when the gate is closed nothing happens; when it is open `handleGenerate`
      starts, passes both of its checks, and clears the displayed image. */
  method ClickGenerate(app: App.AppState) returns (call: Option<App.ServiceCall>)
    requires app.Valid()
    modifies app
    ensures app.Valid()
    ensures !old(CanGenerate(app.isGenerating, app.prompt, app.mode, app.sourceImage)) ==>
      call == None && unchanged(app)
    ensures old(CanGenerate(app.isGenerating, app.prompt, app.mode, app.sourceImage)) ==>
      && app.currentImage == None
      && app.error != Some(App.MissingSourceMessage)
      && (call.Some? <==> app.isGenerating)
      && app.mode == old(app.mode) && app.prompt == old(app.prompt) && app.aspectRatio == old(app.aspectRatio)
      && app.sourceImage == old(app.sourceImage) && app.history == old(app.history)
    ensures old(CanGenerate(app.isGenerating, app.prompt, app.mode, app.sourceImage)) && old(app.mode) == Generate ==>
      call == Some(App.GenerateCall(old(app.prompt), old(app.aspectRatio))) && app.isGenerating && app.error == None
    ensures old(CanGenerate(app.isGenerating, app.prompt, app.mode, app.sourceImage)) && old(app.mode) == Edit ==>
      match DataUrl.Parse(old(app.sourceImage).value)
      case None => call == None && !app.isGenerating && app.error == Some(App.InvalidFormatMessage)
      case Some(d) =>
        call == Some(App.EditCall(d.base64Data, d.mimeType, old(app.prompt))) && app.isGenerating && app.error == None
  {
    var enabled := CanGenerate(app.isGenerating, app.prompt, app.mode, app.sourceImage);
    if !enabled {
      return None;
    }
    CanGenerateIffValidated(app.isGenerating, app.prompt, app.mode, app.sourceImage);
    call := app.BeginGenerate();
  }

  /** `handleKeyDown` on the prompt: Enter without Shift submits through the
      same gate as the button; any other key (including Shift+Enter, which
      types a newline) never submits. */
  method HandleKeyDown(app: App.AppState, key: string, shiftKey: bool) returns (call: Option<App.ServiceCall>)
    requires app.Valid()
    modifies app
    ensures app.Valid()
    ensures !(SubmitsOnKey(key, shiftKey) && old(CanGenerate(app.isGenerating, app.prompt, app.mode, app.sourceImage))) ==>
      call == None && unchanged(app)
    ensures SubmitsOnKey(key, shiftKey) && old(CanGenerate(app.isGenerating, app.prompt, app.mode, app.sourceImage)) ==>
      && app.currentImage == None
      && app.error != Some(App.MissingSourceMessage)
      && (call.Some? <==> app.isGenerating)
      && app.mode == old(app.mode) && app.prompt == old(app.prompt) && app.aspectRatio == old(app.aspectRatio)
      && app.sourceImage == old(app.sourceImage) && app.history == old(app.history)
    ensures (SubmitsOnKey(key, shiftKey) && old(CanGenerate(app.isGenerating, app.prompt, app.mode, app.sourceImage))
             && old(app.mode) == Generate) ==>
      call == Some(App.GenerateCall(old(app.prompt), old(app.aspectRatio))) && app.isGenerating && app.error == None
    ensures (SubmitsOnKey(key, shiftKey) && old(CanGenerate(app.isGenerating, app.prompt, app.mode, app.sourceImage))
             && old(app.mode) == Edit) ==>
      match DataUrl.Parse(old(app.sourceImage).value)
      case None => call == None && !app.isGenerating && app.error == Some(App.InvalidFormatMessage)
      case Some(d) =>
        call == Some(App.EditCall(d.base64Data, d.mimeType, old(app.prompt))) && app.isGenerating && app.error == None
  {
    if SubmitsOnKey(key, shiftKey) {
      call := ClickGenerate(app);
    } else {
      call := None;
    }
  }

  /** The prompt's `onChange`; the text area is disabled while generating. */
  method EditPrompt(app: App.AppState, value: string)
    requires app.Valid()
    modifies app
    ensures app.Valid()
    ensures old(app.isGenerating) ==> unchanged(app)
    ensures !old(app.isGenerating) ==>
      && app.prompt == value
      && app.mode == old(app.mode) && app.aspectRatio == old(app.aspectRatio) && app.sourceImage == old(app.sourceImage)
      && app.isGenerating == old(app.isGenerating) && app.currentImage == old(app.currentImage)
      && app.history == old(app.history) && app.error == old(app.error)
  {
    if !app.isGenerating {
      app.SetPrompt(value);
    }
  }

  /** `handleDrop`: stores the first file's data URL when it is an image;
      otherwise the source image is left as it was. */
  method HandleDrop(app: App.AppState, files: seq<SelectedFile>)
    requires app.Valid()
    modifies app
    ensures app.Valid()
    ensures UploadZoneShown(old(app.mode), old(app.sourceImage)) && AcceptedDrop(files).Some? ==>
      && app.sourceImage == AcceptedDrop(files)
      && app.mode == old(app.mode) && app.prompt == old(app.prompt) && app.aspectRatio == old(app.aspectRatio)
      && app.isGenerating == old(app.isGenerating) && app.currentImage == old(app.currentImage)
      && app.history == old(app.history) && app.error == old(app.error)
    ensures !(UploadZoneShown(old(app.mode), old(app.sourceImage)) && AcceptedDrop(files).Some?) ==> unchanged(app)
  {
    var accepted := AcceptedDrop(files);
    if UploadZoneShown(app.mode, app.sourceImage) && accepted.Some? {
      app.SetSourceImage(accepted);
    }
  }

  /** `handleFileChange`: the picker stores the first chosen file's data URL,
      without looking at its type. */
  method HandleFileChange(app: App.AppState, files: seq<SelectedFile>)
    requires app.Valid()
    modifies app
    ensures app.Valid()
    ensures UploadZoneShown(old(app.mode), old(app.sourceImage)) && |files| > 0 ==>
      && app.sourceImage == Some(files[0].dataUrl)
      && app.mode == old(app.mode) && app.prompt == old(app.prompt) && app.aspectRatio == old(app.aspectRatio)
      && app.isGenerating == old(app.isGenerating) && app.currentImage == old(app.currentImage)
      && app.history == old(app.history) && app.error == old(app.error)
    ensures !(UploadZoneShown(old(app.mode), old(app.sourceImage)) && |files| > 0) ==> unchanged(app)
  {
    if UploadZoneShown(app.mode, app.sourceImage) && |files| > 0 {
      app.SetSourceImage(Some(files[0].dataUrl));
    }
  }

  /** The remove button over the source image: `setSourceImage(null)`. */
  method RemoveSource(app: App.AppState)
    requires app.Valid()
    modifies app
    ensures app.Valid()
    ensures RemoveButtonShown(old(app.mode), old(app.sourceImage)) ==>
      && app.sourceImage == None
      && app.mode == old(app.mode) && app.prompt == old(app.prompt) && app.aspectRatio == old(app.aspectRatio)
      && app.isGenerating == old(app.isGenerating) && app.currentImage == old(app.currentImage)
      && app.history == old(app.history) && app.error == old(app.error)
    ensures !RemoveButtonShown(old(app.mode), old(app.sourceImage)) ==> unchanged(app)
  {
    if RemoveButtonShown(app.mode, app.sourceImage) {
      app.SetSourceImage(None);
    }
  }

  /** A tab: only the mode changes; prompt, source image and ratio stay. */
  method ClickTab(app: App.AppState, mode: GenerationMode)
    requires app.Valid()
    modifies app
    ensures app.Valid()
    ensures app.mode == mode
    ensures app.prompt == old(app.prompt) && app.sourceImage == old(app.sourceImage) && app.aspectRatio == old(app.aspectRatio)
    ensures app.isGenerating == old(app.isGenerating) && app.currentImage == old(app.currentImage)
    ensures app.history == old(app.history) && app.error == old(app.error)
  {
    app.SetMode(mode);
  }

  /** A ratio button: sets exactly that ratio; the buttons exist in Generate
      mode only. */
  method ClickRatio(app: App.AppState, ratio: AspectRatio)
    requires app.Valid()
    modifies app
    ensures app.Valid()
    ensures old(app.mode) == Generate ==>
      && app.aspectRatio == ratio
      && app.mode == old(app.mode) && app.prompt == old(app.prompt) && app.sourceImage == old(app.sourceImage)
      && app.isGenerating == old(app.isGenerating) && app.currentImage == old(app.currentImage)
      && app.history == old(app.history) && app.error == old(app.error)
    ensures old(app.mode) == Edit ==> unchanged(app)
  {
    if ratio in OfferedRatios(app.mode) {
      app.SetAspectRatio(ratio);
    }
  }
}
