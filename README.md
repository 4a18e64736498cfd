# Image studio client: a Dafny model

The application is a single-page React client around a remote image API.
The user writes a prompt. In Generate mode an image is made from the text at
a chosen aspect ratio. In Edit mode a source image is uploaded together with
an edit instruction. Each result is shown and prepended to a session history.
From the history an image can be shown again, deleted, or fed back as the
source of a new edit ("quick edit").

This project models the logic underneath that client:

- `base.dfy` (`Base`): JavaScript nullable values, the outcome of an awaited
  call that returns or throws, truthiness, and the `message || fallback`
  idiom of every `catch` block.
- `text.dfy` (`Text`): ECMAScript whitespace, `trim` and `startsWith`.
- `types.dfy` (`Types`): the `AspectRatio` and `GenerationMode` enumerations
  and the `GeneratedImage` record of `types.ts`.
- `data_url.dfy` (`DataUrl`): the regular expression `^data:(.+);base64,(.+)$`
  that splits a source data URL. It is modelled as a parser whose first group
  is greedy. The parser is proved sound and complete against a declarative
  description of a match, and proved to round-trip with the URLs the service
  builds.
- `gemini_service.dfy` (`GeminiService`): `generateImageFromPrompt` and
  `editImage`, as pure functions over an SDK oracle. They cover the request
  record sent, the checks on the response's shape, the data URL returned and
  the message of the rethrown error.
- `app.dfy` (`App`): the eight `useState` fields of `App.tsx` as the class
  `AppState`, with the handlers `handleGenerate`, `handleDelete`,
  `handleSelectFromHistory` and `handleQuickEdit`. `handleGenerate` is split
  at its `await`:
  - `BeginGenerate` does the validation, brackets the call as in flight, and
    splits the source URL;
  - `CompleteGenerate` applies the settled outcome;
  - `HandleGenerate` runs the two in sequence.

  Every handler preserves one invariant: each history entry was made from a
  non-blank prompt and holds a non-empty image URL.
- `control_panel.dfy` (`ControlPanel`): the `canGenerate` gate and the
  panel's event handlers. A handler fires only while its element is rendered
  and enabled, so each one first checks the condition under which the panel
  renders and enables that element.

The SDK calls (`ai.models.generateImages`, `ai.models.generateContent`),
`crypto.randomUUID()` and `Date.now()` are parameters. The service call a
`handleGenerate` awaits is a parameter too.

## Model

| member | source | states |
|---|---|---|
| Base.OrElseIdempotent | App.tsx:65 | App's `err.message \|\| 'An unknown error occurred'` applied to an error the service already rethrew with a non-empty fallback gives back that same message |
| Base.OrElse | services/geminiService.ts:34 | `message \|\| fallback` gives the message when it is non-empty and the fallback otherwise, and it is never empty when the fallback is not |
| Text.TrimStart | App.tsx:22 | the result is the suffix of the input after a run of whitespace, and it starts with a non-whitespace character unless it is empty |
| Text.TrimEnd | App.tsx:22 | the result is the prefix of the input before a run of whitespace, and it ends with a non-whitespace character unless it is empty |
| Text.IsWhitespace | App.tsx:22 | the characters `trim` removes: TAB, VT, FF, ZWNBSP, the Unicode space separators and the four line terminators |
| Text.WhitespaceBounds | App.tsx:22 | every line terminator counts as whitespace, and every whitespace character lies between TAB and ZWNBSP |
| Text.Trim | App.tsx:22 | `s.trim()` is empty exactly when every character of `s` is whitespace; otherwise it starts and ends on a non-whitespace character and is no longer than `s` |
| Text.TrimBothEnds | ControlPanel.tsx:72 | trimming the start and then the end leaves nothing exactly when the string is blank, and what it leaves starts and ends on a non-whitespace character |
| Types.AllRatiosComplete | types.ts:1-7 | the enumeration lists five pairwise distinct ratios in declaration order, misses none, and maps them to "1:1", "16:9", "9:16", "4:3", "3:4" |
| Types.RatioValueInjective | types.ts:2-6 | two ratios with the same string value are the same ratio |
| Types.ModeValuesDistinct | types.ts:9-12 | the two modes have distinct values "GENERATE" and "EDIT" |
| DataUrl.Format | services/geminiService.ts:29 | `data:${mime};base64,${data}` starts with "data:" and is as long as its four pieces together |
| DataUrl.RegexSplits | App.tsx:43 | the reference definition of a match with groups m and b: both non-empty and free of line terminators, and the string is "data:" + m + ";base64," + b, so it is at least 15 characters long |
| DataUrl.LastMarker | App.tsx:43 | finds the last ";base64," that leaves a non-empty mime type before it and a non-empty payload after it; no such marker lies beyond it, and None means there is none at all |
| DataUrl.Parse | App.tsx:43-48 | a successful split yields a non-empty mime type and a non-empty payload, both free of line terminators, that rebuild the input as "data:" + mime + ";base64," + payload |
| DataUrl.ParseComplete | App.tsx:43 | whenever the regular expression matches, the parse succeeds, and it returns the longest possible mime type, as the greedy group does |
| DataUrl.ParseNoneIffNoMatch | App.tsx:43-46 | the parse returns null exactly when no split of the string matches the regular expression |
| DataUrl.ParseFormat | App.tsx:43-48 | round trip: the URL built from a non-empty, line-terminator-free mime type and a non-empty base64 payload parses back into exactly those two parts |
| DataUrl.FormatParse | App.tsx:43-48 | the reverse direction: the two groups of any successful parse rebuild the input, and neither group is empty |
| GeminiService.ImagesRequestFor | services/geminiService.ts:12-20 | the generate request names the Imagen model, asks for one JPEG image, and passes the prompt and the aspect ratio through unchanged |
| GeminiService.FirstImageBytes | services/geminiService.ts:22-28 | it is present exactly when the first generated image exists and has an image with non-empty bytes, and then it is those bytes |
| GeminiService.ReadImagesResponse | services/geminiService.ts:22-35 | success exactly when the SDK call succeeded with first-image bytes, and then the value is "data:image/jpeg;base64," + bytes. A response without bytes fails with "No image data returned from the API.". An SDK error is rethrown with its message, or with "Failed to generate image" when the message is empty. Every failure carries a non-empty message |
| GeminiService.GenerateImageFromPrompt | services/geminiService.ts:7-36 | a success is a JPEG data URL around non-empty bytes, and a failure always carries a non-empty message |
| GeminiService.ContentRequestFor | services/geminiService.ts:44-62 | the edit request names the flash-image model, asks for an image in reply, and has exactly two parts: first the inline image with the data and mime type as passed, then the prompt text |
| GeminiService.FirstPart | services/geminiService.ts:64 | present exactly when the first candidate has content with a non-empty part list, and then it is the first part |
| GeminiService.InlineImageData | services/geminiService.ts:66-67 | present exactly when the part has inline data whose data is non-empty, and then it is that data |
| GeminiService.ReadContentResponse | services/geminiService.ts:64-79 | success exactly when the first part of the first candidate has inline data, and then the value is "data:image/png;base64," + data, whatever mime type was sent. Otherwise it fails with "No image data returned from the editing model.". An SDK error is rethrown with its message, or with "Failed to edit image" when the message is empty. Every failure carries a non-empty message |
| GeminiService.EditImage | services/geminiService.ts:38-80 | a success is a PNG data URL around non-empty data, and a failure always carries a non-empty message |
| GeminiService.LaterPartsIgnored | services/geminiService.ts:64-75 | a first part without inline data makes the edit fail with "No image data returned from the editing model.", whatever later parts hold |
| GeminiService.GeneratedUrlParses | services/geminiService.ts:29 | the URL a successful generate returns splits, by the regular expression of App.tsx, into "image/jpeg" and the API's bytes when they are base64 |
| GeminiService.EditedUrlParses | services/geminiService.ts:71 | the URL a successful edit returns splits into "image/png" and the API's data when it is base64 |
| App.CallService | App.tsx:36-51 | a generate call sends the Imagen request built from its prompt and ratio and reads the response as an image response; an edit call sends the content request built from its data, mime type and prompt, in that order, and reads the response as a content response; a failure always carries a non-empty message; a success is never the empty string |
| App.Validate | App.tsx:22-27 | the first early return is taken exactly when `prompt.trim()` is empty; the second exactly when the trimmed prompt is non-empty, the mode is Edit and there is no source image |
| App.RecordedRatio | App.tsx:57 | the history records a ratio exactly for a generate call, and then it is the ratio that call used; an edit records null |
| App.RemoveById | App.tsx:72 | an entry stays exactly when it was in the history and its id differs from the deleted one, and the history never grows |
| App.RemoveByIdAppend | App.tsx:72 | filtering a concatenation filters each half and keeps their order, so the filter preserves the order of the entries it keeps |
| App.RemoveByIdSingle | App.tsx:72 | a one-entry history loses its entry exactly when the ids match |
| App.RemoveByIdAbsent | App.tsx:72 | deleting an id that no entry carries leaves the history as it was |
| App.RemoveByIdIdempotent | App.tsx:72 | deleting the same id twice is the same as deleting it once |
| App.RemoveByIdLength | App.tsx:72 | the history shrinks by exactly the number of entries that carry the id, since ids are not unique |
| App.AppState.constructor | App.tsx:11-18 | the initial state is Generate mode, an empty prompt, "1:1", no source image, not generating, nothing displayed, an empty history and no error |
| App.AppState.Catch | App.tsx:63-68 | the error becomes the thrown message, or "An unknown error occurred" when it is empty, and the call ends; nothing else changes |
| App.AppState.BeginGenerate | App.tsx:21-50 | a blank prompt changes nothing and makes no call. Edit mode without a source image sets exactly "Please upload or select an image to edit." and makes no call. Otherwise the error and the displayed image are cleared and the call is marked in flight. In Generate mode the call takes the prompt and ratio. In Edit mode the URL's two groups go to the edit call, or "Invalid image format" is set and the call ends at once. Mode, prompt, ratio, source and history never change |
| App.AppState.SplitSource | App.tsx:43-50 | a URL the regular expression rejects ends the call with "Invalid image format"; a matching one yields the edit call with payload and mime type |
| App.AppState.CompleteGenerate | App.tsx:53-68 | on success the new image, with the captured prompt, the returned URL, the selected ratio (null in Edit mode), the id and the timestamp, is displayed and prepended to the history, and the error is left as it was. On failure the history and the displayed image are unchanged and the error is the message or the generic one. Either way the call is no longer in flight |
| App.AppState.HandleGenerate | App.tsx:21-69 | end to end: a blank prompt changes neither history, display nor error; a missing source sets the validation message and changes neither history nor display. Once validation passes, Generate mode always calls with the prompt and selected ratio, and Edit mode calls with the URL's two groups exactly when it parses. A call that passed validation always ends not in flight. Success prepends exactly the new image. Failure, whether from the service or from an invalid source URL, leaves the history unchanged, no image displayed and the error set |
| App.AppState.Delete | App.tsx:71-76 | the history becomes the filtered one, and the displayed image is cleared exactly when it carries the deleted id; nothing else changes |
| App.AppState.SelectFromHistory | App.tsx:78-82 | the given image is displayed and nothing else changes |
| App.AppState.QuickEdit | App.tsx:84-89 | the URL becomes the source image, the mode becomes Edit and the prompt is cleared; ratio, history, display and error are unchanged |
| App.AppState.SetMode | App.tsx:11 | only the mode changes |
| App.AppState.SetPrompt | App.tsx:12 | only the prompt changes |
| App.AppState.SetAspectRatio | App.tsx:13 | only the aspect ratio changes |
| App.AppState.SetSourceImage | App.tsx:14 | only the source image changes |
| App.ServiceFailureKeepsMessage | App.tsx:65 | the services never throw an empty message, so the generic "An unknown error occurred" never replaces a service error |
| App.QuickEditOfGeneratedImage | App.tsx:84-89 | quick edit of a generated image passes validation with any non-blank prompt, and the edit call receives "image/jpeg" and exactly the bytes the generate API returned |
| ControlPanel.CanGenerate | ControlPanel.tsx:70-73 | `canGenerate` holds exactly when not generating, the prompt is not blank, and the mode is Generate or there is a truthy source image |
| ControlPanel.CanGenerateIffValidated | ControlPanel.tsx:70-73 | `canGenerate` holds exactly when not generating and both early-return checks of `handleGenerate` pass, so neither early return can be reached through the gate |
| ControlPanel.SubmitsOnKey | ControlPanel.tsx:33 | a key submits exactly when it is Enter without Shift |
| ControlPanel.UploadZoneShown | ControlPanel.tsx:111-136 | the upload zone and its file input are on screen in Edit mode while the source image is falsy |
| ControlPanel.RemoveButtonShown | ControlPanel.tsx:137-145 | the remove button is on screen in Edit mode over a truthy source image |
| ControlPanel.SourceSectionExclusive | ControlPanel.tsx:111-147 | in Edit mode exactly one of the upload zone and the remove button is shown; in Generate mode neither is |
| ControlPanel.AcceptedDrop | ControlPanel.tsx:52-63 | a drop is accepted exactly when there is a first file and its type starts with "image/", and then that file's data URL is the one kept |
| ControlPanel.OfferedRatios | ControlPanel.tsx:180-198 | Edit mode offers no ratio buttons; Generate mode offers all five ratios |
| ControlPanel.ClickGenerate | ControlPanel.tsx:206-208 | with the gate closed the state is untouched and no call is made. With it open `handleGenerate` runs past both checks: the displayed image is cleared and mode, prompt, ratio, source and history are kept. In Generate mode the call takes the prompt and ratio and is in flight with the error cleared. In Edit mode a parsing source URL gives the edit call with its two groups, in flight with the error cleared, and a non-parsing one gives no call, nothing in flight and "Invalid image format" |
| ControlPanel.HandleKeyDown | ControlPanel.tsx:32-39 | Enter without Shift through an open gate makes exactly the call the Generate button makes, with the same end state; any other key, Shift+Enter included, or a closed gate leaves the state untouched |
| ControlPanel.EditPrompt | ControlPanel.tsx:160-168 | typing sets the prompt only while not generating, when the text area is enabled |
| ControlPanel.HandleDrop | ControlPanel.tsx:52-63 | on the upload zone an accepted drop sets the source image to the file's data URL and changes nothing else; any other drop changes nothing |
| ControlPanel.HandleFileChange | ControlPanel.tsx:41-50 | choosing files sets the source image to the first file's data URL without a type check; an empty choice changes nothing |
| ControlPanel.RemoveSource | ControlPanel.tsx:140-145 | the remove button over the source image clears it, and nothing else changes |
| ControlPanel.ClickTab | ControlPanel.tsx:80-94 | a tab sets only the mode; prompt, source image and ratio stay |
| ControlPanel.ClickRatio | ControlPanel.tsx:184-187 | in Generate mode a ratio button sets exactly that ratio; in Edit mode there are no buttons and nothing changes |

## Left out

- App.AppState.CompleteGenerate and App.AppState.HandleGenerate require a successful outcome to carry a non-empty URL. Both services always return one (App.CallService), and it is what keeps every history entry's URL non-empty.

- The SDK client and the network: `new GoogleGenAI` with its API key, and the calls `generateImages` and `generateContent`. They are foreign library calls and appear only as oracle parameters that return a response or throw.
- `console.error` in every `catch`, `window.scrollTo` in the select and quick-edit handlers, and all styling and icons. They have no effect on the state.
- Asynchrony and React scheduling. `handleGenerate` is modelled as two steps joined at its one `await`. Other handlers running while the call is awaited are possible (a second submission through App's own handler, a delete, a quick edit); the begin/complete split lets such steps be interleaved but no lemma is stated about them. `useCallback` and stale-closure captures are not modelled: a completion uses the prompt and ratio captured in its `ServiceCall`, which matches the closure's snapshot.
- `FileReader` and `readAsDataURL`: reading a file is browser I/O. The data URL it would produce is taken as part of the selected file, and the asynchronous `onloadend` is taken to run at once.
- `handleDragOver` and the click that opens the hidden file input. They only prevent defaults or forward a click.
- components/DisplayArea.tsx and components/HistoryGrid.tsx are not part of this model. They render and download images. Their wiring is taken as given: select passes the image, delete passes its id, quick edit passes the displayed image's URL.
- `crypto.randomUUID()` and `Date.now()` are parameters. Nothing makes ids unique, which is why delete removes every matching entry.
- vite.config.ts is build configuration and is not part of this model.
- The `matches.length !== 3` test of App.tsx:44 is not modelled separately, because a successful match of a regular expression with two groups always has length 3.
- The throw "Source image missing" of App.tsx:40 is not modelled as a state change. The identical check at App.tsx:24 has already returned, so the branch is proved unreachable (`assert false` in App.AppState.BeginGenerate).
- DataUrl.Parse: strings are sequences of code points, so the regular expression's UTF-16 view of characters outside the Basic Multilingual Plane (a lone surrogate is matched by `.`) is not distinguished.
- App.AppState.CompleteGenerate: the displayed image is held as a copy of the record, as React holds the same object; record identity is not modelled.
