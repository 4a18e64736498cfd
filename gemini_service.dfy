/** The image-request client of services/geminiService.ts, reduced to the
    request it sends, the checks it makes on the response's shape, the data URL
    it returns and the message of the error it rethrows. The SDK calls
    (`ai.models.generateImages` and `ai.models.generateContent`) are oracles:
    functions from the request record to the outcome of the awaited call. */
module GeminiService {
  import opened Base
  import opened Types
  import DataUrl

  const ImagenModel := "imagen-4.0-generate-001"
  const FlashImageModel := "gemini-2.5-flash-image"

  const NoImageData := "No image data returned from the API."
  const NoEditedImageData := "No image data returned from the editing model."
  const GenerateFallback := "Failed to generate image"
  const EditFallback := "Failed to edit image"

  // Request and response records of the image-generation call.

  datatype ImagesConfig = ImagesConfig(numberOfImages: nat, outputMimeType: string, aspectRatio: AspectRatio)
  datatype ImagesRequest = ImagesRequest(model: string, prompt: string, config: ImagesConfig)

  datatype SdkImage = SdkImage(imageBytes: Option<string>)
  datatype SdkGeneratedImage = SdkGeneratedImage(image: Option<SdkImage>)
  datatype ImagesResponse = ImagesResponse(generatedImages: Option<seq<SdkGeneratedImage>>)

  // Request and response records of the multimodal content call.

  datatype Modality = TextModality | ImageModality
  datatype Blob = Blob(data: Option<string>, mimeType: Option<string>)
  datatype Part = Part(inlineData: Option<Blob>, text: Option<string>)
  datatype Content = Content(parts: Option<seq<Part>>)
  datatype ContentRequest = ContentRequest(model: string, contents: Content, responseModalities: seq<Modality>)

  datatype Candidate = Candidate(content: Option<Content>)
  datatype ContentResponse = ContentResponse(candidates: Option<seq<Candidate>>)

  /** The request `generateImageFromPrompt` hands to the SDK: one JPEG image,
      with the caller's prompt and aspect ratio passed through unchanged. */
  function ImagesRequestFor(prompt: string, aspectRatio: AspectRatio): (req: ImagesRequest)
    ensures req.model == ImagenModel
    ensures req.prompt == prompt && req.config.aspectRatio == aspectRatio
    ensures req.config.numberOfImages == 1 && req.config.outputMimeType == "image/jpeg"
  {
    ImagesRequest(ImagenModel, prompt, ImagesConfig(1, "image/jpeg", aspectRatio))
  }

  /** `response.generatedImages?.[0]?.image?.imageBytes` when it is truthy. */
  function FirstImageBytes(response: ImagesResponse): (r: Option<string>)
    ensures r.Some? <==>
      && response.generatedImages.Some? && |response.generatedImages.value| > 0
      && response.generatedImages.value[0].image.Some?
      && Truthy(response.generatedImages.value[0].image.value.imageBytes)
    ensures r.Some? ==> r.value == response.generatedImages.value[0].image.value.imageBytes.value
  {
    match response.generatedImages
    case None => None
    case Some(images) =>
      if |images| == 0 then None
      else match images[0].image
        case None => None
        case Some(image) => if Truthy(image.imageBytes) then image.imageBytes else None
  }

  /** The body of the `try` and the `catch` that follows the SDK call: the
      first image's bytes as a JPEG data URL, otherwise an error whose message
      is the one thrown, or "Failed to generate image" when that is empty. */
  function ReadImagesResponse(sdk: Outcome<ImagesResponse>): (r: Outcome<string>)
    ensures r.Success? <==> sdk.Success? && FirstImageBytes(sdk.value).Some?
    ensures r.Success? ==> r.value == DataUrl.Format("image/jpeg", FirstImageBytes(sdk.value).value)
    ensures sdk.Success? && r.Failure? ==> r.message == Some(NoImageData)
    ensures sdk.Failure? ==> r.message == Some(OrElse(sdk.message, GenerateFallback))
    ensures r.Failure? ==> Truthy(r.message)
  {
    var attempt :=
      match sdk
      case Failure(m) => Failure(m)
      case Success(response) =>
        match FirstImageBytes(response)
        case None => Failure(Some(NoImageData))
        case Some(bytes) => Success(DataUrl.Format("image/jpeg", bytes));
    match attempt
    case Success(url) => Success(url)
    case Failure(m) => Failure(Some(OrElse(m, GenerateFallback)))
  }

  /** `generateImageFromPrompt(prompt, aspectRatio)` against the SDK oracle. */
  function GenerateImageFromPrompt(
    prompt: string, aspectRatio: AspectRatio,
    generateImages: ImagesRequest -> Outcome<ImagesResponse>): (r: Outcome<string>)
    ensures r.Success? ==> exists bytes :: bytes != "" && r.value == DataUrl.Format("image/jpeg", bytes)
    ensures r.Failure? ==> Truthy(r.message)
  {
    ReadImagesResponse(generateImages(ImagesRequestFor(prompt, aspectRatio)))
  }

  /** The request `editImage` hands to the SDK: exactly two parts, first the
      inline image with the data and mime type as passed, then the prompt text,
      asking for an image in reply. */
  function ContentRequestFor(base64Data: string, mimeType: string, prompt: string): (req: ContentRequest)
    ensures req.model == FlashImageModel && req.responseModalities == [ImageModality]
    ensures req.contents.parts.Some? && |req.contents.parts.value| == 2
    ensures req.contents.parts.value[0] == Part(Some(Blob(Some(base64Data), Some(mimeType))), None)
    ensures req.contents.parts.value[1] == Part(None, Some(prompt))
  {
    ContentRequest(
      FlashImageModel,
      Content(Some([Part(Some(Blob(Some(base64Data), Some(mimeType))), None), Part(None, Some(prompt))])),
      [ImageModality])
  }

  /** `response.candidates?.[0]?.content?.parts?.[0]`. */
  function FirstPart(response: ContentResponse): (r: Option<Part>)
    ensures r.Some? <==>
      && response.candidates.Some? && |response.candidates.value| > 0
      && response.candidates.value[0].content.Some?
      && response.candidates.value[0].content.value.parts.Some?
      && |response.candidates.value[0].content.value.parts.value| > 0
    ensures r.Some? ==> r.value == response.candidates.value[0].content.value.parts.value[0]
  {
    match response.candidates
    case None => None
    case Some(candidates) =>
      if |candidates| == 0 then None
      else match candidates[0].content
        case None => None
        case Some(content) =>
          match content.parts
          case None => None
          case Some(parts) => if |parts| == 0 then None else Some(parts[0])
  }

  /** `part.inlineData.data` when `part`, its `inlineData` and that data are truthy. */
  function InlineImageData(part: Option<Part>): (r: Option<string>)
    ensures r.Some? <==> part.Some? && part.value.inlineData.Some? && Truthy(part.value.inlineData.value.data)
    ensures r.Some? ==> r.value == part.value.inlineData.value.data.value
  {
    match part
    case None => None
    case Some(p) =>
      match p.inlineData
      case None => None
      case Some(blob) => if Truthy(blob.data) then blob.data else None
  }

  /** The body of the `try` and the `catch` that follows the SDK call: only the
      first part of the first candidate is inspected; its data becomes a PNG
      data URL, whatever mime type the request carried. */
  function ReadContentResponse(sdk: Outcome<ContentResponse>): (r: Outcome<string>)
    ensures r.Success? <==> sdk.Success? && InlineImageData(FirstPart(sdk.value)).Some?
    ensures r.Success? ==> r.value == DataUrl.Format("image/png", InlineImageData(FirstPart(sdk.value)).value)
    ensures sdk.Success? && r.Failure? ==> r.message == Some(NoEditedImageData)
    ensures sdk.Failure? ==> r.message == Some(OrElse(sdk.message, EditFallback))
    ensures r.Failure? ==> Truthy(r.message)
  {
    var attempt :=
      match sdk
      case Failure(m) => Failure(m)
      case Success(response) =>
        match InlineImageData(FirstPart(response))
        case Some(data) => Success(DataUrl.Format("image/png", data))
        case None => Failure(Some(NoEditedImageData));
    match attempt
    case Success(url) => Success(url)
    case Failure(m) => Failure(Some(OrElse(m, EditFallback)))
  }

  /** `editImage(base64Data, mimeType, prompt)` against the SDK oracle. */
  function EditImage(
    base64Data: string, mimeType: string, prompt: string,
    generateContent: ContentRequest -> Outcome<ContentResponse>): (r: Outcome<string>)
    ensures r.Success? ==> exists data :: data != "" && r.value == DataUrl.Format("image/png", data)
    ensures r.Failure? ==> Truthy(r.message)
  {
    ReadContentResponse(generateContent(ContentRequestFor(base64Data, mimeType, prompt)))
  }

  /** A part after the first never rescues an edit: a response whose first
      part has no inline data fails even when a later part has some. */
  lemma LaterPartsIgnored(first: Part, later: seq<Part>)
    requires InlineImageData(Some(first)).None?
    ensures ReadContentResponse(Success(ContentResponse(Some([Candidate(Some(Content(Some([first] + later))))]))))
      == Failure(Some(NoEditedImageData))
  {
    var parts := [first] + later;
    assert parts[0] == first;
  }

  /** A generated image's URL splits back into the JPEG mime type and the
      bytes the API returned, provided they are base64. */
  lemma {:induction false} GeneratedUrlParses(sdk: Outcome<ImagesResponse>)
    requires ReadImagesResponse(sdk).Success?
    requires DataUrl.IsBase64(FirstImageBytes(sdk.value).value)
    ensures DataUrl.Parse(ReadImagesResponse(sdk).value)
      == Some(DataUrl.DataUrl("image/jpeg", FirstImageBytes(sdk.value).value))
  {
    JpegAndPngHaveNoLineTerminator();
    DataUrl.ParseFormat("image/jpeg", FirstImageBytes(sdk.value).value);
  }

  /** An edited image's URL splits back into the PNG mime type and the data
      the API returned, provided it is base64. */
  lemma {:induction false} EditedUrlParses(sdk: Outcome<ContentResponse>)
    requires ReadContentResponse(sdk).Success?
    requires DataUrl.IsBase64(InlineImageData(FirstPart(sdk.value)).value)
    ensures DataUrl.Parse(ReadContentResponse(sdk).value)
      == Some(DataUrl.DataUrl("image/png", InlineImageData(FirstPart(sdk.value)).value))
  {
    JpegAndPngHaveNoLineTerminator();
    DataUrl.ParseFormat("image/png", InlineImageData(FirstPart(sdk.value)).value);
  }

  lemma JpegAndPngHaveNoLineTerminator()
    ensures DataUrl.NoLineTerminator("image/jpeg") && DataUrl.NoLineTerminator("image/png")
  {
  }
}
