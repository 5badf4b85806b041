# Aesthetica photo analysis: a Dafny model of the controller, analysis client and upload widget

The app is a single page. A user picks a photo. The page sends it to a hosted
generative model together with a language directive and a response schema,
then shows the structured reply or one generic error. This project models the
three pieces of logic in that flow and proves properties about them:

- **Upload widget** (`upload.dfy`, module `Upload`). It accepts a file only
  when its declared media type starts with `image/`, matched case-sensitively.
  It takes the payload as `dataUrl.split(',')[1]` and uses only the first file
  of a drop or picker event. The reader's `result` when its read ends is an
  input: the data URL, or `null` after a failed or aborted read, in which case
  `split` throws and the callback never runs. JavaScript's one-character `split` is modelled
  exactly (`Split`), together with its inverse `Join`. The base64 alphabet of
  section 4 of RFC 4648 and the `data:` URL of section 3 of RFC 2397 are used
  to state the payload round trip.
- **Analysis client** (`analysis.dfy`, module `Analysis`). It covers
  `getLanguageName`, the prompt and system-instruction texts with the language
  name substituted, the declared response schema, and the rule that turns the
  remote reply into a result or a rethrown error. The remote call is the
  parameter `sdk`. `JSON.parse` is the parameter `parse`.
- **Controller** (`app.dfy`, module `App`). The state record holds `image`,
  `result`, `loading`, `error`, `language` and `isLangOpen`. Each handler is a
  pure transition. `handleAnalysis` is split into a start step and a
  completion event. The render guards decide which controls exist. A
  `Session` also counts the analysis calls and side uploads still in flight,
  and holds the files whose reads have started and not ended, so that
  sequences of events can be reasoned about (`Run`).
- **Data model** (`types.dfy`, module `Types`): the records of `types.ts`.

The intended flow is upload, then analyzing, then result or error, with a reset back
to the start. Where the code departs from that flow, the model follows the code:

- After a failed analysis the code keeps the image. Because the hero's guard
  (`!result && !loading`) ignores `error`, the preview and its analyze button
  stay on screen next to the error panel. "Try again" only removes the panel.
  So an error state leads back to an analysis directly, not only through a
  reset (`App.ErrorKeepsPreview`).
- "Go home" while loading does not stop the call. A later success still shows
  the dashboard (`App.ResultAfterGoHome`).
- A file read outlives the upload widget. Its callback is the controller's own
  `setImage`, so a read that ends after the widget has gone still replaces the
  image. Drop `a`, then drop `b` before either read ends, let `a`'s read end and
  press analyze. When `b`'s read ends, the scanning screen shows `b` while `a`
  is being analysed (`App.ReadEndingDuringAnalysis`,
  `App.StaleReadDuringAnalysis`).
- Scores are never checked against the "out of 10" the schema describes
  (`Analysis.ScoresPassThrough`).

## Model

| member | source | states |
|---|---|---|
| `Upload.IsImageType` | components/UploadSection.tsx:15 | The acceptance test is `startsWith('image/')`: an accepted type begins with the six characters `image/`, and a type that does not is refused |
| `Upload.IsImageTypeCharacterwise` | components/UploadSection.tsx:15-18 | A file is accepted iff its type's first six characters are exactly `i`,`m`,`a`,`g`,`e`,`/`; no case folding |
| `Upload.Split` | components/UploadSection.tsx:23 | `split(',')` yields at least one piece, no piece holds the separator, and there is more than one piece iff the text holds the separator |
| `Upload.JoinSplit` | components/UploadSection.tsx:23 | Splitting loses nothing: joining the pieces with the separator gives back the original text |
| `Upload.SplitJoin` | components/UploadSection.tsx:23 | Splitting a join of separator-free pieces gives back exactly those pieces |
| `Upload.Base64Field` | components/UploadSection.tsx:23 | Element 1 of the split exists iff the data URL holds a comma; it is the text right after the first comma, up to the next comma or the end |
| `Upload.Base64HasNoComma` | components/UploadSection.tsx:23 | A text in the RFC 4648 base64 alphabet contains no comma |
| `Upload.Base64FieldRoundTrip` | components/UploadSection.tsx:23 | For `prefix + "," + payload` with no comma in either part, the extracted field is exactly `payload` |
| `Upload.DataUrlRoundTrip` | components/UploadSection.tsx:20-23 | For a `data:<type>;base64,<payload>` URL with a comma-free type, the extracted field is exactly the base64 payload |
| `Upload.LoadEnd` | components/UploadSection.tsx:21-29 | When a read ends, the callback runs at most once: never when `reader.result` is `null`, because `split` throws first; once for a data URL, with `mimeType = file.type`, `previewUrl` = the whole data URL, and `base64` = the field after the first comma |
| `Upload.HandleFile` | components/UploadSection.tsx:14-31 | A non-image file yields only the notice; an image file yields no notice, and the callback runs exactly once iff its read succeeds, with what `LoadEnd` reports; nothing at all happens for an image whose read fails |
| `Upload.HandleFileDeliversPayload` | components/UploadSection.tsx:20-28 | An accepted file whose reader yields a base64 data URL hands that exact payload to the callback |
| `Upload.ReadStarted` | components/UploadSection.tsx:14-20 | A drop or pick starts a read only for its first file, and only when that file is an image |
| `Upload.HandleFiles` | components/UploadSection.tsx:33-39 | A drop (and the picker at line 80) does nothing for an empty list and handles only the first file otherwise; it calls back at most once, exactly when a read started and succeeded |
| `Upload.LaterFilesIgnored` | components/UploadSection.tsx:36-37 | Two file lists with the same first file produce the same effects and start the same read, whatever follows |
| `Analysis.LanguageName` | services/geminiService.ts:54-62 | Every language has a non-empty name |
| `Analysis.LanguageNameRoundTrip` | services/geminiService.ts:54-62 | Each language's name reads back as that language, and a name reads back as a language only if it is that language's name |
| `Analysis.LanguageNameInjective` | services/geminiService.ts:54-62 | Two languages have the same name iff they are the same language: the five names are distinct |
| `Analysis.EnglishIsTheDefaultOnlyForEn` | services/geminiService.ts:54-62 | The default branch's "English" is the name of `en` and of no other code |
| `Analysis.UserPrompt` | services/geminiService.ts:79-89 | The prompt contains the sentence "IMPORTANT: Return the response in <name> language." |
| `Analysis.SystemInstruction` | services/geminiService.ts:96 | The system instruction contains the sentence "You must communicate in <name>." |
| `Analysis.UserPromptInjective` | services/geminiService.ts:79-89 | Two names give the same prompt only if they are the same name |
| `Analysis.SystemInstructionInjective` | services/geminiService.ts:96 | Two names give the same system instruction only if they are the same name |
| `Analysis.BuildRequest` | services/geminiService.ts:64-98 | The request passes the image data and media type through untouched and names the model, JSON output and the schema; both prompt and system instruction embed the same `getLanguageName(language)` |
| `Analysis.PromptDeterminesLanguage` | services/geminiService.ts:65-89 | Two requests have equal prompts iff they were built for the same language |
| `Analysis.SystemInstructionDeterminesLanguage` | services/geminiService.ts:65-96 | Two requests have equal system instructions iff they were built for the same language |
| `Analysis.SchemaMatchesResultType` | services/geminiService.ts:6-52 | The required list is exactly the eight fields of `AnalysisResult` with none repeated; the declared properties are the same set; a feature item requires exactly `feature`, `score`, `comment` |
| `Analysis.Falsy` | services/geminiService.ts:101 | `!text` on a `string` that may be `undefined`: true for `undefined` and for the empty string only |
| `Analysis.AcceptReply` | services/geminiService.ts:100-107 | A thrown error is rethrown unchanged; a missing or empty text fails with "No response from AI"; otherwise the parse outcome is returned unchanged; success happens iff there is a non-empty text that parses |
| `Analysis.AnalyzeImage` | services/geminiService.ts:64-108 | One remote call on the built request: if it throws, the same error comes back; a missing or empty text fails with "No response from AI"; a non-empty text yields exactly `parse`'s outcome, a parsed value or the parse error, and a success comes only from there |
| `Analysis.ScoresPassThrough` | services/geminiService.ts:100-103 | A parsed reply is returned exactly as parsed, scores included; nothing is clamped or range-checked |
| `App.StartAnalysis` | App.tsx:40-47 | With no image nothing changes and nothing is sent; with an image `loading` becomes true and `error` null, the other fields are kept, and the side upload and the analysis call carry that image and the current language |
| `App.FinishAnalysis` | App.tsx:49-56 | On success `result` is exactly the returned value and `error` is untouched; on failure `error` is the fixed message and `result` is untouched; `loading` ends either way; image, language and menu are kept |
| `App.StorageWarning` | App.tsx:20-38 | The side upload logs a warning exactly when its fetch rejects, with that error; an HTTP error status is not a rejection |
| `App.StorageOutcomeIsIrrelevant` | App.tsx:20-47 | The side upload's settlement leaves the state unchanged, whatever its outcome |
| `App.Reset` | App.tsx:59-63 | Image, result and error become null together; loading, language and menu are kept |
| `App.GoHomeIsReset` | App.tsx:65-67 | Going home is the same transition as reset |
| `App.DiscardImage` | App.tsx:159-160 | Cancel and discard clear only the image |
| `App.DiscardShowsUpload` | App.tsx:153-183 | Discarding from the preview brings the upload widget back |
| `App.SelectImage` | App.tsx:154 | The upload callback sets only the image |
| `App.TryAgain` | App.tsx:222-224 | "Try again" clears only the error |
| `App.ChangeLanguage` | App.tsx:69-72 | A language change sets the language and closes the menu; no other field changes |
| `App.SetLanguageMenu` | App.tsx:97-108 | The menu button and the backdrop change only whether the menu is open |
| `App.LanguageIsOrthogonal` | App.tsx:50-72 | A language change never touches the result, and it commutes with the analysis call settling |
| `App.HeroShown` | App.tsx:138 | The hero is shown only with no result and nothing loading, and otherwise the loading screen or the dashboard is; `error` plays no part |
| `App.UploadShown` | App.tsx:153-154 | The upload widget is shown exactly when the hero is and there is no image |
| `App.PreviewShown` | App.tsx:153-186 | The preview needs an image; within the hero exactly one of the preview and the upload widget is shown, and outside it neither |
| `App.LoadingShown` | App.tsx:191 | The scanning screen is shown while loading |
| `App.ErrorShown` | App.tsx:216 | The error panel is shown exactly when `error` is truthy in JavaScript's sense: present and non-empty |
| `App.ResultShown` | App.tsx:232 | The dashboard is shown when there is a result |
| `App.Enabled` | App.tsx:83-236 | Analyze and discard exist only with an image, no result and nothing loading; a drop or pick only with no image, no result and nothing loading; "analyze another" only with a result; "try again" only with an error; the home and language buttons always, and a reader's end whatever the screen shows |
| `App.Step` | App.tsx:40-224 | Only a read's end, discard, reset and go-home change the image; only a settlement, reset and go-home change the result; only analyze and a settlement change loading; only a language choice changes the language; only the menu button, the backdrop and a language choice open or close the menu; a drop, a pick or a side-upload settlement changes nothing |
| `App.Deliver` | App.tsx:154 | The upload widget's effects reach the controller only as `setImage`: result, loading, error, language and menu are kept, nothing changes without a callback, and when the last effect is a callback, its image becomes the image |
| `App.InitialSatisfiesInv` | App.tsx:10-15 | The initial state satisfies the session invariant |
| `App.FirePreservesInv` | App.tsx:40-72 | Every event that can happen keeps the invariant: one call in flight iff loading, the error is null or the fixed message, and no result or error while loading, nor both at once |
| `App.RunPreservesInv` | App.tsx:40-72 | Any sequence of events from an invariant session ends in one |
| `App.AtMostOneAnalysisInFlight` | App.tsx:138-177 | In every reachable session at most one analysis is in flight, and the analyze control is absent while one is |
| `App.ScreensExclusive` | App.tsx:138-236 | In every reachable session the loading screen, the dashboard and the error panel exclude one another, and the hero excludes the first two |
| `App.ErrorKeepsPreview` | App.tsx:138-230 | With an error and an image, the preview and its analyze button are on screen; "try again" removes the panel and keeps the preview and image |
| `App.ResultAfterGoHome` | App.tsx:40-67 | Going home during an analysis keeps the loading screen, and a later success shows the dashboard without an image |
| `App.FileSelection` | App.tsx:153-154 | A drop or pick that starts no read leaves the session exactly as it was; for an image file, the drop and its read's end together do what the widget reports: a failed read changes nothing, a successful one sets the image to the data URL and its payload; no read is left pending |
| `App.ChooseFiles` | App.tsx:153-154 | A drop or pick on the upload widget only adds the read it starts, if any, to the pending reads |
| `App.ReadEndingDuringAnalysis` | App.tsx:154-201 | A successful read that ends while an analysis runs replaces the image on the scanning screen; loading goes on and the invariant holds |
| `App.StaleReadDuringAnalysis` | App.tsx:40-201 | From the start, dropping two images, letting the first read end, pressing analyze and letting the second read end gives a loading session whose image is the second file's |
| `App.AnalysisEndToEnd` | App.tsx:40-57 | One uninterrupted analysis sends the image and the directive for the language current at the start; success stores exactly the returned value with no error; a non-empty reply text that parses is stored as the result; any failure, a thrown SDK error included, shows the fixed message; loading ends and image and language are kept |

## Left out

- Rendering, styling, icons, the right-to-left layout switch and the chart in `components/AnalysisView.tsx`. These are presentation; only the render guards that decide which controls exist are modelled.
- `translations.ts`: a static string table. Its completeness per language is already enforced by its `Record<Language, …>` type.
- The remote SDK call, `JSON.parse`, `fetch`, `FileReader`, `alert` and `console` output. The first two are the parameters `sdk` and `parse`. The fetch outcome and the reader's `result` at `onloadend` (a data URL or `null`) are inputs. The uncaught TypeError that `split` on `null` raises is modelled only as the absence of a callback. The alert is an `Alert` effect. Logging appears only as `App.StorageWarning`.
- Analysis.AcceptReply: `parse` is typed to return an `AnalysisResult`. The source's `as AnalysisResult` cast checks nothing, so a reply of any JSON shape also passes through there.
- Timing of asynchronous completions: analysis settlements, side-upload settlements and read ends are separate events that may come in any order, each only while something of its kind is pending. React's batching of the setters inside one handler is taken as given, so no intermediate render is modelled.
- Upload.HandleFiles: a null `FileList` (the `files?.` guard) is modelled as the empty list.
- The upload widget's `isDragging` flag. It only changes styling.
- Scores are `real`, not IEEE doubles. They are only copied, never computed with.
- The credential and the one-time client construction at `services/geminiService.ts:4`.
