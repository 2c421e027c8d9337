# Course-creator core, modelled in Dafny

This project models the parts of the Course-creator web application that carry sequential,
statable logic, and proves properties of them. The rest of the application is React
presentation code.

- **Text segmentation for speech synthesis** (`splitTextForTTS`). The sentence pattern
  `[^.!?]+[.!?]+` is written as the regular-expression engine runs it (`TtsSentences`). The
  greedy packing of sentences into segments that aim to stay within `maxLength` characters,
  with its comma fallback, is a fold that serves as the specification (`TtsSegments`). The
  two loops of the source are a method proved equal to that fold. Lemmas say what the segments contain
  (`TtsSegmentLemmas`, `TtsGrouping`).
- **The voice-over loop** (`generateVoiceOver`). Speech synthesis is a function the method takes
  as a parameter (`TtsVoiceOver`).
- **File validation**: the extension search in table order, the inclusive size limits, and the
  tables themselves (`AppConfig`, `Validators`).
- **The placeholder PowerPoint parser**: the fixed result shape and `validatePPTX`
  (`PptxParser`).
- **The audio-generation hook**: a class whose fields are the hook's state record. URL
  revocations and downloads are recorded in order (`AudioGeneration`).
- **The AI connection provider**: a class with the four state fields of the provider
  (`AIConnection`).
- **The QA dashboard**: health-score banding, the mock results of a run, the per-category
  lookup, and the run state (`QADashboard`).
- **The error taxonomy and `handleError`** (`ErrorHandler`).
- **The audio player**: `formatTime`, the progress guard, and the play state driven by the
  button and the media events. Times are whole seconds (`AudioPlayer`).

Shared helpers:

- `Wrappers` holds `Option`.
- `JsString` models the JavaScript string operations the code uses: `trim`, `toLowerCase`,
  `endsWith`, `split`, `join` and concatenation.

An awaited step splits an async operation in two. `BeginGenerate`/`FinishGenerate` and
`BeginTestConnection`/`FinishTestConnection` are the halves before and after the await. The
settled outcome is a parameter: `Outcome` for a promise, `Probe` for the connection test.
`GenerateAudio`, `TestConnection` and `Mount` run both halves in a row.

A value thrown in JavaScript is a `Thrown`. It is an `AppError` of some class, another `Error`
with a name and a message, or a value that is not an `Error`.

Behaviours of `splitTextForTTS` that its comments do not suggest, each proved below:

- When no sentence matches, the whole text is the one sentence.
- Once some sentence matches, leading terminators are dropped. So is everything after the last
  terminator.
  - A text whose terminators all come before its first non-terminator, such as `!hi`, matches
    nowhere and is kept whole.
- An over-long sentence is split with `split(',')`, and the commas are not put back.
- Segments are guaranteed to be within `maxLength` only when every sentence, or each comma part
  of an over-long one, fits. Otherwise a segment can be longer than the limit:
  `splitTextForTTS("abcd.", 3)` is `["abcd."]`. Trimming can still bring an over-long piece
  back under the limit, so the guarantee is not an if-and-only-if.

## Model

| member | source | states |
|---|---|---|
| TtsSentences.TryMatchAt | src/services/ai/tts.service.ts:72 | One anchored attempt of `[^.!?]+[.!?]+`. A match is a sentence, and no longer prefix from the same start is one. The attempt fails exactly when no sentence starts there. |
| TtsSentences.MatchFrom | src/services/ai/tts.service.ts:72 | The global search from a position: after a match it resumes at the match's end, after a failed attempt one position on. Every result is a sentence. |
| TtsSentences.Matches | src/services/ai/tts.service.ts:72 | `text.match(/[^.!?]+[.!?]+/g)`, with `null` as the empty sequence. Every match is a sentence; `MatchesCoverText` and `NoMatchIff` say which. |
| TtsSentences.Sentences | src/services/ai/tts.service.ts:72 | `match(...) \|\| [text]` is never empty. For non-empty text, none of its sentences is empty. |
| TtsSentences.MatchesCoverText | src/services/ai/tts.service.ts:72 | The matches, concatenated, are exactly the text from its first non-terminator through its last terminator. |
| TtsSentences.NoMatchIff | src/services/ai/tts.service.ts:72 | The pattern matches nowhere iff no non-terminator is followed, anywhere later, by a terminator. Both directions are proved. |
| TtsSentences.SentenceMatchesWhole | src/services/ai/tts.service.ts:72 | A text that is itself one sentence is matched whole. |
| TtsSentences.MatchFromIgnoresTail | src/services/ai/tts.service.ts:72 | Appending terminator-free text after a terminator changes no match. |
| TtsSegments.AddPart | src/services/ai/tts.service.ts:86-95 | One turn of the comma-part loop. Pushed segments are kept and at most one is added. The part ends in the current segment. No pushed segment is empty. |
| TtsSegments.AddParts | src/services/ai/tts.service.ts:86-95 | The comma-part loop as a fold. Pushed segments are only appended to, and all of them are non-empty. |
| TtsSegments.AddSentence | src/services/ai/tts.service.ts:77-101 | One turn of the sentence loop: append, flush and start anew, or flush and pack the comma parts. Pushed segments are only appended to, and all of them are non-empty. |
| TtsSegments.AddSentences | src/services/ai/tts.service.ts:76-101 | The sentence loop as a fold. Pushed segments are only appended to, and all of them are non-empty. |
| TtsSegments.RawSegments | src/services/ai/tts.service.ts:76-106 | The segments pushed before `.trim()`, with the last one flushed. None is empty, because of the `if (currentSegment)` guard. |
| TtsSegments.Segments | src/services/ai/tts.service.ts:70-109 | The result: one trimmed segment per pushed segment. Every segment is trimmed. |
| TtsSegments.PackCommaParts | src/services/ai/tts.service.ts:85-95 | The loop over comma parts ends in the state the comma-part fold computes. Its segments are the fold's pushed segments, trimmed. |
| TtsSegments.SplitTextForTTS | src/services/ai/tts.service.ts:70-109 | The two nested loops return exactly `Segments(text, maxLength)`: the greedy fold over the sentences, flushed and trimmed. Every segment is trimmed. |
| TtsSegmentLemmas.EmptyTextHasNoSegments | src/services/ai/tts.service.ts:72-108 | The empty text gives no segments. |
| TtsSegmentLemmas.SegmentsFitWhenPiecesFit | src/services/ai/tts.service.ts:76-101 | If every sentence fits in `maxLength`, or else each of its comma parts does, then every segment fits. |
| TtsSegmentLemmas.RawSegmentsSpellSentences | src/services/ai/tts.service.ts:76-106 | The untrimmed segments, concatenated, are the sentences in order, with the commas of each over-long sentence removed. |
| TtsSegmentLemmas.RawSegmentsSpellText | src/services/ai/tts.service.ts:72-106 | When every sentence fits, the untrimmed segments spell the text from its first non-terminator through its last terminator. With no match they spell the whole text. |
| TtsSegmentLemmas.TextAfterLastTerminatorIgnored | src/services/ai/tts.service.ts:72 | Take a text that ends in a terminator and contains a non-terminator. Appending terminator-free text to it leaves the segments unchanged. |
| TtsSegmentLemmas.AtMostOneSegmentWhenAllFits | src/services/ai/tts.service.ts:77-106 | If the sentences together fit in `maxLength`, the result is their trimmed concatenation, or empty. There is at most one segment. |
| TtsSegmentLemmas.TextWithoutSentenceIsOneSegment | src/services/ai/tts.service.ts:72-106 | A non-empty text that fits and has no terminator after a non-terminator gives exactly `[text.trim()]`. |
| TtsSegmentLemmas.CommaFreeSentenceExceedsLimit | src/services/ai/tts.service.ts:67-106 | The requested limit is not a bound. A comma-free sentence whose trimmed form is longer than `maxLength` is one segment, and that segment is longer than `maxLength`. |
| TtsSegmentLemmas.WordLongerThanLimit | src/services/ai/tts.service.ts:67-106 | `splitTextForTTS("abcd.", 3)` is `["abcd."]`. |
| TtsSegmentLemmas.OverlongSentenceCutAtComma | src/services/ai/tts.service.ts:84-95 | Take an over-long one-sentence text `a,b` whose parts do not fit together. It becomes `[a.trim(), b.trim()]`, and the comma is dropped. |
| TtsGrouping.SentencesNotSplit | src/services/ai/tts.service.ts:76-106 | If every sentence fits, the untrimmed segments are the sentences cut into consecutive non-empty groups, each group concatenated. Each segment fits, and a group ends only when the next sentence would not fit beside it. |
| TtsVoiceOver.RequestFor | src/services/ai/tts.service.ts:39-43 | The request for segment `i` carries that segment's text, the voice and the speed. |
| TtsVoiceOver.ProgressReports | src/services/ai/tts.service.ts:47-49 | The progress calls are `(1, n)`, ..., `(k, n)` in order, or none without a callback. |
| TtsVoiceOver.GenerateVoiceOver | src/services/ai/tts.service.ts:30-53 | It resolves iff every synthesis resolves, with one blob per segment in segment order and progress `(i+1, n)` for each. Otherwise it rejects with the first failing segment's reason, after progress for the segments before it. Progress is reported only when a callback is passed, which by default it is not. |
| ErrorHandler.NewAppError | src/utils/error-handler.ts:1-15 | `AppError` keeps its message. Its code defaults to `UNKNOWN_ERROR` and its status to 500. Its name is `AppError`, and it is an `Error`. |
| ErrorHandler.NewValidationError | src/utils/error-handler.ts:17-22 | Code `VALIDATION_ERROR`, status 400, name `ValidationError`. It is an `AppError`. |
| ErrorHandler.NewAPIError | src/utils/error-handler.ts:24-29 | Code `API_ERROR`. The status is the given one, 500 by default. Name `APIError`. |
| ErrorHandler.NewFileProcessingError | src/utils/error-handler.ts:31-36 | Code `FILE_PROCESSING_ERROR`, status 500, name `FileProcessingError`. |
| ErrorHandler.ClassNameInjective | src/utils/error-handler.ts:11-34 | The four classes assign four different names, so `name` identifies the class. |
| ErrorHandler.MessageOr | src/hooks/useAudioGeneration.ts:48 | `err instanceof Error ? err.message : fallback`. |
| ErrorHandler.HandleError | src/utils/error-handler.ts:41-51 | The message of any `Error`, `AppError` included. The fixed fallback sentence for anything else. |
| ErrorHandler.HandleErrorIsMessageOr | src/utils/error-handler.ts:41-51 | `handleError` is the `instanceof Error` pattern with the fallback sentence: its `AppError` branch adds nothing. |
| AppConfig.FileTypeOrderComplete | src/config/app.config.ts:46-53 | Every supported type is in the search order, exactly once. |
| Validators.AnyEndsWith | src/utils/validators.ts:11 | `extensions.some(ext => fileName.endsWith(ext))`: true iff some listed extension ends the name. |
| Validators.FirstTypeMatching | src/utils/validators.ts:10-14 | A found type matches, and no type before it in the order matches. Without a result, no listed type matches. |
| Validators.FileTypeOf | src/utils/validators.ts:7-17 | A found type has an extension ending the lower-cased name. Without one, no type in the order has. |
| Validators.ValidateFileType | src/utils/validators.ts:7-17 | The loop with early return gives the first type in table order one of whose extensions ends the lower-cased name. It gives null iff no type's extension does. |
| Validators.FileTypeOfIff | src/utils/validators.ts:7-17 | The result is non-null iff the lower-cased name ends with some listed extension. |
| Validators.FileTypeCaseInsensitive | src/utils/validators.ts:8 | A name and its lower-cased form get the same type. |
| Validators.UpperCaseNameRecognised | src/utils/validators.ts:8 | `DECK.PPTX` is a `pptx` file. |
| Validators.ExtensionMustBeSuffix | src/utils/validators.ts:11 | `report.pdf.zip` has no type: an extension inside the name does not count. |
| Validators.ExtensionsSuffixFree | src/config/app.config.ts:46-53 | No listed extension ends with an extension of another type. |
| Validators.UniqueMatch | src/utils/validators.ts:10-14 | A name carrying an extension of `t` is of type `t`: the first match in table order is the only one. |
| Validators.AliasesMapToFamily | src/config/app.config.ts:47-50 | `.ppt` is pptx, `.doc` is docx, and `.mov` and `.avi` are mp4. |
| Validators.ValidateFileSize | src/utils/validators.ts:22-25 | The size passes iff it is at most the type's entry in `MAX_FILE_SIZES`. |
| Validators.PptxLimitInclusive | src/config/app.config.ts:38 | A pptx file of exactly 104857600 bytes passes; one byte more fails. |
| Validators.FileSizeDownwardClosed | src/utils/validators.ts:24 | If a size passes for a type, every smaller size passes for that type. |
| PptxParser.ParsePPTX | src/services/parsers/pptx.parser.ts:9-34 | The type is pptx, and the metadata copies the file's name, size and modification time. There is one slide, numbered 1. The text is the slides' `title\ncontent` joined by blank lines. |
| PptxParser.SlidesText | src/services/parsers/pptx.parser.ts:33 | `slides.map(...).join('\n\n')`. No slides give `""`; the text starts with the first slide's `title\ncontent`, and is exactly it for one slide. |
| PptxParser.ExtractPPTXText | src/services/parsers/pptx.parser.ts:45-48 | The parsed text, or the empty string when it is missing or empty. |
| PptxParser.GetPPTXSlideCount | src/services/parsers/pptx.parser.ts:53-56 | The slide count is 1 for every file. |
| PptxParser.ValidatePPTX | src/services/parsers/pptx.parser.ts:61-65 | True iff the lower-cased name ends with `.pptx` or `.ppt`. |
| PptxParser.ExtractedTextIsPlaceholder | src/services/parsers/pptx.parser.ts:20-47 | The extracted text is the placeholder title, a line break and the placeholder content. |
| PptxParser.ParseIgnoresContents | src/services/parsers/pptx.parser.ts:9-34 | Files alike in name, size and modification time parse alike, whatever their bytes. |
| PptxParser.ValidatePPTXIsPptxType | src/services/parsers/pptx.parser.ts:61-65 | `validatePPTX` holds iff `validateFileType` returns pptx. |
| AudioGeneration.AudioGenerationHook.constructor | src/hooks/useAudioGeneration.ts:13-18 | Initially not generating, with no URL, no blob and no error. Nothing has been revoked or downloaded. |
| AudioGeneration.AudioGenerationHook.BeginGenerate | src/hooks/useAudioGeneration.ts:21-31 | The held URL is revoked when it is non-empty, as the truthiness test `if (state.audioUrl)` demands. Then the state is generating, with no URL, no blob and no error. |
| AudioGeneration.AudioGenerationHook.FinishGenerate | src/hooks/useAudioGeneration.ts:33-50 | On success: the new URL and blob and no error. On failure: no audio, and the thrown message or `Failed to generate audio`. Either way generation is over, and the state invariant holds. |
| AudioGeneration.AudioGenerationHook.GenerateAudio | src/hooks/useAudioGeneration.ts:20-51 | The whole call: the previous URL is revoked when non-empty, the request is built from the arguments, and the state ends as the outcome dictates. The invariant holds: a URL iff a blob, and an error only without audio. |
| AudioGeneration.AudioGenerationHook.Download | src/hooks/useAudioGeneration.ts:53-57 | Hands the blob and file name to the download once. With no blob it does nothing. The state record is unchanged. |
| AudioGeneration.AudioGenerationHook.Clear | src/hooks/useAudioGeneration.ts:59-69 | Revokes the held URL when it is non-empty, by the same truthiness test, and restores exactly the initial state. |
| AIConnection.AIProvider.constructor | src/contexts/AIContext.tsx:20-23 | Not configured, not connected, loading, no error. |
| AIConnection.AIProvider.BeginTestConnection | src/contexts/AIContext.tsx:26-27 | Loading, and the error cleared. Configuration and connection are untouched. |
| AIConnection.AIProvider.FinishTestConnection | src/contexts/AIContext.tsx:29-41 | Connected: connected. Not connected: the API-key message. Thrown: not connected, and the thrown message or the default. Loading always ends, and `isConfigured` is untouched. |
| AIConnection.AIProvider.TestConnection | src/contexts/AIContext.tsx:25-42 | `isConnected` iff the probe connected, with no error exactly then. Otherwise the matching message. Loading is over, and `isConfigured` is unchanged. |
| AIConnection.AIProvider.Mount | src/contexts/AIContext.tsx:44-56 | Records whether a key is present. With a key, the connection test's outcome. Without one, not loading and the not-configured message. |
| AIConnection.MountProvider | src/contexts/AIContext.tsx:44-56 | A fresh provider after mounting. Without a key it is not configured, not connected, not loading, and shows the not-configured message. |
| QADashboard.BandByTable | src/config/qa.config.ts:25-30 | Reads a thresholds table in order. A band other than Poor is one the table lists with a threshold the score reaches. A score below every threshold is Poor. |
| QADashboard.ThresholdBands | src/config/qa.config.ts:25-30 | Reading `HEALTH_THRESHOLDS` in order gives Excellent from 90, Good from 70, Fair from 50, and Poor below. |
| QADashboard.GetHealthStatus | src/components/qa/QADashboard.tsx:36-41 | The if-chain gives the status of the band the thresholds table assigns to the score. |
| QADashboard.GetHealthStatusNamesItsBand | src/components/qa/QADashboard.tsx:36-41 | Every score gets the label of one of the four bands, the right one. |
| QADashboard.HealthBoundaries | src/components/qa/QADashboard.tsx:37-40 | Bounds are inclusive: 90 is Excellent, 89 and 70 Good, 69 and 50 Fair, 49 Poor. |
| QADashboard.HealthMonotone | src/components/qa/QADashboard.tsx:36-41 | A higher score never gets a worse band. |
| QADashboard.MockResults | src/components/qa/QADashboard.tsx:16-31 | One category entry per `QA_CATEGORIES` id, in the same order. |
| QADashboard.MockResultsConsistent | src/components/qa/QADashboard.tsx:16-29 | Each category's passed, failed and skipped add up to its total. The totals sum to `totalTests` (16 × 10 = 160), and the overall counts add up too. The health of 0 is Poor. |
| QADashboard.FindCategory | src/components/qa/QADashboard.tsx:134-136 | A found entry is in the list, has the id, and no entry before it has the id, as `Array.find` returns. Nothing found means no entry has it. |
| QADashboard.ShownCounts | src/components/qa/QADashboard.tsx:137-138 | A missing category shows 0 passed and 0 failed. A found one shows its own counts. |
| QADashboard.MockBreakdown | src/components/qa/QADashboard.tsx:133-138 | After a run, every category shows 0 passed and 16 failed. |
| QADashboard.Dashboard.constructor | src/components/qa/QADashboard.tsx:8-9 | No results and not running. |
| QADashboard.Dashboard.ShowsNoResults | src/components/qa/QADashboard.tsx:173 | The "No Test Results Yet" panel shows exactly when there are no results and no run is in progress. The constructor ensures it shows, and `StartRun` and `FinishRun` ensure it is hidden. |
| QADashboard.Dashboard.StartRun | src/components/qa/QADashboard.tsx:12 | Running, with the results kept. The empty panel is hidden. |
| QADashboard.Dashboard.FinishRun | src/components/qa/QADashboard.tsx:14-33 | The mock results are recorded, which are consistent, and the run is over. |
| AudioPlayer.FormatTime | src/components/engines/Engine1/AudioPlayer.tsx:47-51 | Digits, a colon, then two digits. `FormatTimeRoundTrip`, through `ParseTime`, says which digits. |
| AudioPlayer.SecondsField | src/components/engines/Engine1/AudioPlayer.tsx:49-50 | The seconds field is always exactly two digits and denotes `t mod 60`, in 00 to 59. |
| AudioPlayer.FormatTimeRoundTrip | src/components/engines/Engine1/AudioPlayer.tsx:47-51 | Reading the `M:SS` output back gives `t div 60` and `t mod 60`, and minutes × 60 + seconds is `t` again. |
| AudioPlayer.Progress | src/components/engines/Engine1/AudioPlayer.tsx:53 | 0 when the duration is 0. Between 0 and 100 while the time is within the duration. |
| AudioPlayer.Player.ProgressPercent | src/components/engines/Engine1/AudioPlayer.tsx:53 | The bar width for the player's state: 0 with no duration, within 0 to 100 while the time is within the duration. |
| AudioPlayer.Player.constructor | src/components/engines/Engine1/AudioPlayer.tsx:11-14 | Not playing, at time 0, with duration 0 and no commands sent. |
| AudioPlayer.Player.TogglePlay | src/components/engines/Engine1/AudioPlayer.tsx:35-45 | Without an element, nothing. Otherwise it sends pause when playing and play when not, and flips the flag, so two toggles restore it. |
| AudioPlayer.Player.Ended | src/components/engines/Engine1/AudioPlayer.tsx:22 | Always stops playing. Nothing else changes. |
| AudioPlayer.Player.TimeUpdate | src/components/engines/Engine1/AudioPlayer.tsx:20 | Records the element's current time. Nothing else changes. |
| AudioPlayer.Player.DurationChange | src/components/engines/Engine1/AudioPlayer.tsx:21 | Records the element's duration. Nothing else changes. |

## Left out

- `synthesizeSpeech`, `createAudioURL` and `downloadAudio`: network, Blob and DOM side effects. Synthesis is a function from the request to the settled outcome. URL creation is a parameter. Downloads are recorded, not performed.
- GenerateVoiceOver: synthesis is a deterministic function of the request. Two requests with equal text, voice and speed are assumed to settle alike, which a network service need not do.
- `estimateAudioDuration`, `formatFileSize` and `generateFileId` are not part of this model. The first two use floating-point logarithms, powers and rounding; the third uses the clock and `Math.random`.
- The OpenAI client wrappers and the GPT prompt service are not part of this model: they are calls into a vendor library.
- `logError` is not modelled: it only writes to the console in development builds.
- Characters are UTF-16 code units, one `char` each. Characters outside the Basic Multilingual Plane, which JavaScript counts as two units, are not modelled. The one place they occur is the health-status icons, each written as a single Dafny `char` where JavaScript has two units. This does not matter: no length or index is taken of an icon.
- `toLowerCase` is modelled on ASCII letters only. Other letters keep their case, which is enough here because every listed extension is ASCII.
- `trim` uses the ECMAScript WhiteSpace and LineTerminator characters of the Basic Multilingual Plane.
- SplitTextForTTS: `maxLength` is an integer. Fractional or NaN limits are not modelled.
- AudioPlayer.FormatTimeRoundTrip: times are whole seconds (`nat`). Fractional and NaN media times, and `Math.floor` of them, are not modelled.
- AudioPlayer.Progress: the percentage is computed in exact real arithmetic, not IEEE doubles.
- The player's event-listener wiring and clean-up are not modelled. Each handler is a method that the event calls.
- The `catch` branch of `parsePPTX` is not modelled: nothing in its `try` block can throw. For the same reason the parser functions are pure, not async.
- The QA categories' icons and colours, and the always-empty `tests` lists, are not modelled. Nor are the dashboard's `setTimeout` delay and its rendering, apart from the empty-results panel.
- Health-status icons are kept as strings; the JSX rendering them is pure markup.
- React state is modelled as fields updated in place. Stale closures, batched updates and re-renders are not modelled.
- TtsGrouping.SentencesNotSplit: requires a non-empty text. The empty text is the one sentence `""` but gives no segment, so no grouping exists; EmptyTextHasNoSegments covers that case.
