# HFDC-KYC capture and extraction core, in Dafny

This project models the logic at the heart of the HFDC-KYC onboarding application and proves
properties of it:

- **Field extraction** (backend `parseKYCData` with `parseAadhaarData` and `parsePANData`).
  Recognised text and a document-type tag become a validation result. For an Aadhaar card:
  the 12-digit UID, the gender and the date or year of birth. For a PAN card: the
  OCR-corrected PAN, the birth field and a positional Name / Father's-Name rule. For any other
  tag: one document-number token. Then the merge with the base result and the overall
  validity check. Every regular expression is written out as a leftmost-match scanner over
  characters (`Patterns`), with `\b`, `\d`, `\s`, `[A-Z]` and the `/i` flag stated
  explicitly.
- **The OCR request handler** (`processOCR`): the missing-image check, the removal of a
  `data:image/<type>;base64,` header, and the 200 / 400 / 500 envelope. Decoding and
  recognition are function parameters.
- **The smart-scan screen**:
  - the strided statistics pass over an RGBA frame (`array<int>`), and the lighting class,
    raw and smoothed clarity, edge flags, ordered warnings and document detection derived
    from it;
  - the 200 ms throttle, the readiness rule and the 3-2-1-0 auto-capture countdown;
  - the burst of three shots scored by `getFrameScore` and stably sorted;
  - `enhanceImage`, which rewrites the pixel buffer in place: grayscale, then a contrast
    stretch.

  The screen is a `Scanner` class whose methods are the user's buttons and the timer and
  animation-frame events.
- **The selfie screen**: face conditions and quality decide readiness, the same countdown
  runs, and there are start, capture, retake, confirm and cancel actions, plus the angle
  and distance prompts.
- **The security screen**: the password → MPIN → OTP step machine. It has six digit slots
  per code, focus movement, completeness checks and the 30-second OTP resend timer.

Modules, one per file: `Wrappers` (Option), `Text` (character classes, `trim`, `split("\n")`,
ASCII case-insensitive search), `Patterns`, `OcrService`, `OcrProperties`, `OcrController`,
`FrameAnalysis`, `Countdown`, `Burst`, `SmartScan`, `SelfieCapture`, `SecurityAccess`.

Arithmetic is exact: luma weights and averages are `real`, and integers are unbounded. A
store into a `Uint8ClampedArray` is modelled exactly: it clamps to 0..255 and rounds half
to even. Time is a sequence of discrete events. An animation-frame tick carries a
millisecond timestamp, and a one-second tick drives each countdown. React effects are
methods called for each change of state, and each one reconciles the countdown after it.

Where comments in the source disagree with its code, the model follows the code:

- The UID comment (`backend/src/services/ocrService.js:20`) says dashes are allowed. The
  expression on line 21 allows only optional whitespace; see `OcrProperties.DashedUidRejected`.
- The `I` → `1` correction on line 93 never applies, because the matched segment is
  `[0-9O]`; see `OcrProperties.CorrectPanShape`.
- The default path's date filter (lines 230-232) never removes a token; see
  `OcrProperties.DateFilterVacuous`.

## Model

| member | source | states |
|---|---|---|
| Text.AllDigitsAt | frontend/components/security-access.tsx:66 | `/^\d*$/` holds exactly when every character is an ASCII digit |
| Text.TrimStart | backend/src/services/ocrService.js:207 | the result is a suffix; everything dropped is whitespace; the result does not start with whitespace |
| Text.TrimEnd | backend/src/services/ocrService.js:207 | the result is a prefix; everything dropped is whitespace; the result does not end with whitespace |
| Text.TrimIsCore | backend/src/services/ocrService.js:207 | `trim` cuts `s` into a whitespace prefix, a kept middle and a whitespace suffix, and the middle neither starts nor ends with whitespace |
| Text.TrimUnique | backend/src/services/ocrService.js:207 | any such cut of `s` keeps exactly `trim(s)`: the trim is the only piece with whitespace-only ends cut off |
| Text.TrimOfTrimmed | backend/src/services/ocrService.js:207 | a string without whitespace at either end is its own trim |
| Text.TrimIdempotent | backend/src/services/ocrService.js:207 | trimming twice is trimming once |
| Text.SplitLines | backend/src/services/ocrService.js:206 | `split("\n")` gives at least one piece, and no piece holds a line feed |
| Text.JoinSplit | backend/src/services/ocrService.js:206 | joining the pieces with line feeds gives back the text |
| Text.SplitJoin | backend/src/services/ocrService.js:206 | splitting a join of line-feed-free pieces gives back the pieces |
| Text.SplitNoBreak | backend/src/services/ocrService.js:206 | text without a line feed splits into itself alone |
| Text.SplitPrefix | backend/src/services/ocrService.js:206 | splitting `p + "\n" + rest` gives `p` and then the pieces of `rest` |
| Text.Fold | backend/src/services/ocrService.js:37 | the `/i` folding maps `A`-`Z` to `a`-`z` and leaves every other character alone |
| Text.ContainsFoldedAt | backend/src/services/ocrService.js:37 | `/w/i.test(t)` holds exactly when `w` starts, ignoring case, at some offset of `t` |
| Text.ContainsFoldedInfix | backend/src/services/ocrService.js:37-44 | if a word occurs, every piece of it occurs |
| Text.StartsWithFoldedInfix | backend/src/services/ocrService.js:37-44 | if `t` starts with `w`, then `t[a..]` starts with `w[a..b]` |
| Text.ContainsAnyFoldedAt | backend/src/services/ocrService.js:155-158 | a case-insensitive alternation of words matches exactly when one of its words occurs |
| Text.ContainsFoldedHasChar | backend/src/services/ocrService.js:155-158 | if a word occurs, each of its characters occurs, up to case |
| Patterns.OptSpace | backend/src/services/ocrService.js:21 | `\s?` consumes one whitespace character or none |
| Patterns.UpperDigitRun | backend/src/services/ocrService.js:228 | the length of the `[A-Z0-9]` run from `i`, capped at the limit; the run stops at a non-member |
| Patterns.IdTokenEnd | backend/src/services/ocrService.js:228 | the backtracking of `[A-Z0-9]{6,12}\b` ends 6 to 12 characters on at a boundary, and fails only when no such end exists |
| Patterns.MatchAt | backend/src/services/ocrService.js:21 | an anchored match of any of the patterns ends strictly after its start and within the text |
| Patterns.Search | backend/src/services/ocrService.js:22 | the first start at or after `from` where the pattern matches, with no match before it; none means no match anywhere |
| Patterns.Find | backend/src/services/ocrService.js:22 | `s.match(p)` is non-null exactly when some position matches, and its text is that match's slice |
| Patterns.UidMatchIff | backend/src/services/ocrService.js:21 | `\b\d{4}\s?\d{4}\s?\d{4}\b` matches `s[i..j]` exactly when both ends are word boundaries and the slice is three 4-digit groups with at most one whitespace character per gap |
| Patterns.UidMatchIsUidText | backend/src/services/ocrService.js:21 | a UID match is bounded and has the three-group layout |
| Patterns.UidTextIsMatch | backend/src/services/ocrService.js:21 | a bounded slice with that layout is a UID match |
| Patterns.IdTokenIsWholeRun | backend/src/services/ocrService.js:228 | a `\b[A-Z0-9]{6,12}\b` match is a whole maximal run of 6 to 12 `[A-Z0-9]` characters |
| Patterns.DateFragmentHasSeparator | backend/src/services/ocrService.js:231 | text matching `\d{1,2}[\/\-]\d{1,2}` contains a `/` or a `-` |
| Patterns.NoDateFragmentInToken | backend/src/services/ocrService.js:230-232 | a `[A-Z0-9]` token never matches the date-fragment filter |
| Patterns.FoundIdTokenShape | backend/src/services/ocrService.js:228-230 | the matched document-number token has 6 to 12 characters, all `[A-Z0-9]` |
| OcrService.NonEmptyTrimmed | backend/src/services/ocrService.js:207-208 | trim-and-filter keeps no more pieces than it gets, and every kept line is non-empty, trimmed and free of line feeds |
| OcrService.Lines | backend/src/services/ocrService.js:205-208 | every preprocessed line is non-empty, trimmed and free of line feeds |
| OcrService.LinesOfJoinedLines | backend/src/services/ocrService.js:205-208 | preprocessing text made of clean lines joined by line feeds gives exactly those lines, in order |
| OcrService.NonEmptyTrimmedOfClean | backend/src/services/ocrService.js:207-208 | trim-and-filter leaves a sequence of clean lines unchanged |
| OcrService.ReplaceChar | backend/src/services/ocrService.js:93 | `replace(/c/g, d)` keeps the length and changes exactly the occurrences of `c` |
| OcrService.PanNumber | backend/src/services/ocrService.js:86-94 | a PAN number is emitted exactly when the fuzzy PAN pattern matches |
| OcrService.PanMatchLength | backend/src/services/ocrService.js:86-90 | a fuzzy PAN match is 10 characters long |
| OcrService.FirstLineIndex | backend/src/services/ocrService.js:139-142 | `findIndex` gives the first matching line, or -1 when no line matches |
| OcrService.FirstFallbackName | backend/src/services/ocrService.js:185-190 | `find` gives the first line passing the fallback-name test, or none when none passes |
| OcrService.DropDateLike | backend/src/services/ocrService.js:230-232 | the filter never adds tokens |
| OcrProperties.ParseKycResult | backend/src/services/ocrService.js:204-265 | clarity 85 and no fraud flags; the fields are the chosen path's fields in that path's order; valid exactly when the type's ID field was found |
| OcrProperties.ParseKycReasons | backend/src/services/ocrService.js:258-262 | without fields the result is invalid, and its reasons are the parser's own plus exactly one "No recognizable data found."; with fields the reasons are the parser's own |
| OcrProperties.DefaultPath | backend/src/services/ocrService.js:224-242 | another tag yields at most one field; it is there exactly when a token is found, and it is "Document Number" at confidence 80 holding that token |
| OcrProperties.DateFilterVacuous | backend/src/services/ocrService.js:230-232 | the date filter never removes the found token |
| OcrProperties.AadhaarIdField | backend/src/services/ocrService.js:21-34 | with a UID match, the first field is "Aadhaar Number" holding the leftmost match at confidence 90 and nothing is rejected; without one, the result is invalid with the one reason and no Aadhaar field |
| OcrProperties.FemaleMentionsMale | backend/src/services/ocrService.js:37-51 | text containing "female" also contains "male" (case ignored) |
| OcrProperties.AadhaarIdPart | backend/src/services/ocrService.js:24-34 | the ID part has at most one field, and it is never a gender or birth field |
| OcrProperties.AadhaarLayout | backend/src/services/ocrService.js:12-74 | the Aadhaar fields are the ID field, then the gender field, then the birth field |
| OcrProperties.AadhaarGender | backend/src/services/ocrService.js:37-51 | at most one Gender field, at confidence 85; "Female" exactly when "female" occurs in any case; "Male" exactly when "male" occurs and "female" does not; no Gender field exactly when "male" does not occur |
| OcrProperties.BirthFieldChoice | backend/src/services/ocrService.js:54-71 | at most one of DOB and Year of Birth, and DOB whenever a full date occurs |
| OcrProperties.AadhaarBirth | backend/src/services/ocrService.js:54-71 | the Aadhaar result holds at most one of DOB (85) and Year of Birth (80), with DOB preferred; the year is the first standalone 4-digit run |
| OcrProperties.DashedUidRejected | backend/src/services/ocrService.js:19-21 | "1234-5678-9012" does not match the UID pattern |
| OcrProperties.NoGenderInDigits | backend/src/services/ocrService.js:37-51 | text of digits and spaces yields no Gender field |
| OcrProperties.SpacedUidAccepted | backend/src/services/ocrService.js:21-71 | "dddd dddd dddd" alone gives exactly two fields: the whole text as the Aadhaar Number (90) and its first group as the Year of Birth (80) |
| OcrProperties.CorrectPanShape | backend/src/services/ocrService.js:90-94 | the corrected PAN keeps length 10 and positions 0-4 and 9, and has digits in 5-8 with every `O` made `0` |
| OcrProperties.PanOcrCorrection | backend/src/services/ocrService.js:86-94 | "ABCDE1O09F" is emitted as "ABCDE1009F" |
| OcrProperties.PanLayout | backend/src/services/ocrService.js:76-202 | the PAN fields are the PAN field, then the birth field, then the name fields |
| OcrProperties.PanIdField | backend/src/services/ocrService.js:86-105 | with a fuzzy match, the first field is "PAN Number" at confidence 92 holding the corrected match; without one, the result is invalid with the one reason |
| OcrProperties.PanBirth | backend/src/services/ocrService.js:107-128 | the PAN result holds at most one of DOB (90) and Year of Birth (70), with DOB preferred |
| OcrProperties.PositionalNames | backend/src/services/ocrService.js:139-182 | the anchor is the first date line, else the first PAN line; beyond line 1, exactly the two lines above it are emitted, as Father's Name then Name at 75, each unless it is too short or blacklisted |
| OcrProperties.FallbackName | backend/src/services/ocrService.js:183-199 | with the anchor at or before line 1, at most one Name at 60, and it is the first line of capitals longer than 3 with no blacklisted word |
| OcrProperties.DobHasDigit | backend/src/services/ocrService.js:139-141 | a line matching the date pattern contains a digit |
| OcrProperties.NoWordContained | backend/src/services/ocrService.js:155-158 | a line missing one letter of each word holds none of the words |
| OcrProperties.FatherNameKept | backend/src/services/ocrService.js:155-158 | "ROBERT SMITH" passes the father's-name blacklist |
| OcrProperties.NameKept | backend/src/services/ocrService.js:172-173 | "JOHN SMITH" passes the name blacklist |
| OcrProperties.NoDobWithoutDigits | backend/src/services/ocrService.js:139-141 | a line without digits holds no date |
| OcrProperties.NameFieldsNoBirth | backend/src/services/ocrService.js:147-199 | the name heuristic emits only Father's Name and Name fields |
| OcrProperties.SampleDateFound | backend/src/services/ocrService.js:139-141 | the line "01/01/1990" matches the date pattern |
| OcrProperties.SampleCardNames | backend/src/services/ocrService.js:138-182 | on the lines "INCOME TAX DEPARTMENT", "JOHN SMITH", "ROBERT SMITH", "01/01/1990", "ABCDE1234F", the fields are Father's Name "ROBERT SMITH" then Name "JOHN SMITH", both at 75 |
| OcrProperties.CardLayoutNames | backend/src/services/ocrService.js:130-182 | on the header / name / father / date / PAN layout, the rule emits Father's Name and Name from lines 3 and 2 |
| OcrController.WordRun | backend/src/controllers/ocrController.js:15 | the length of the `\w` run from `i`, which stops at a non-word character |
| OcrController.HeaderLength | backend/src/controllers/ocrController.js:15 | a recognised header length covers exactly one `data:image/\w+;base64,` header |
| OcrController.StripDataUriPrefix | backend/src/controllers/ocrController.js:15 | the image is either kept or loses exactly one leading header, and the rest is kept |
| OcrController.StripHeader | backend/src/controllers/ocrController.js:15 | after a valid header, the remainder is kept exactly, whatever it holds |
| OcrController.StripIff | backend/src/controllers/ocrController.js:15 | the image changes exactly when one of its prefixes is a header |
| OcrController.SvgKept | backend/src/controllers/ocrController.js:15 | `data:image/svg+xml;base64,` is not stripped |
| OcrController.ProcessOcr | backend/src/controllers/ocrController.js:3-28 | 200 exactly with success; 400 exactly for a falsy image; otherwise 500; each failure carries its own message |
| OcrController.NoImageNeverRecognises | backend/src/controllers/ocrController.js:7-11 | a falsy image gives 400 "No image provided" whatever the decoder and recogniser do |
| OcrController.SuccessCarriesParse | backend/src/controllers/ocrController.js:15-23 | success carries `parseKYCData` of the recognised text of the stripped payload |
| OcrController.FailureHasNoResult | backend/src/controllers/ocrController.js:24-27 | a recognition failure gives 500 "Failed to process image" and no result |
| FrameAnalysis.LumaRange | frontend/components/smart-scan.tsx:228-229 | the luma of byte channels lies in 0..255 |
| FrameAnalysis.Sample | frontend/components/smart-scan.tsx:225-261 | one sample counts one pixel, with non-negative contrast sums and at most one dense pair |
| FrameAnalysis.AccumulateSample | frontend/components/smart-scan.tsx:225-261 | the loop body adds exactly that pixel's sample to the accumulators |
| FrameAnalysis.RowStatistics | frontend/components/smart-scan.tsx:224-262 | the inner loop adds exactly the samples of the row |
| FrameAnalysis.FrameStatistics | frontend/components/smart-scan.tsx:223-263 | the nested strided loop computes exactly the frame's statistics |
| FrameAnalysis.SampleLuma | frontend/components/smart-scan.tsx:228-230 | over byte data, a sample's luma is in 0..255 |
| FrameAnalysis.RowFacts | frontend/components/smart-scan.tsx:224-262 | a row counts one pixel per sampled column, and keeps the sums sane and the luma bounded |
| FrameAnalysis.GridCount | frontend/components/smart-scan.tsx:223-263 | the grid counts sampled rows times sampled columns |
| FrameAnalysis.GridSane | frontend/components/smart-scan.tsx:223-263 | the grid keeps the sums non-negative and the dense count at most the sample count |
| FrameAnalysis.GridLuma | frontend/components/smart-scan.tsx:223-263 | over byte data, the luminance sum stays at most 255 per sample |
| FrameAnalysis.SampleCount | frontend/components/smart-scan.tsx:220-231 | stride 2 samples ⌈w/2⌉·⌈h/2⌉ pixels |
| FrameAnalysis.FrameFacts | frontend/components/smart-scan.tsx:223-263 | `pixelCount` is ⌈w/2⌉·⌈h/2⌉, the sums are sane, and over byte data the luminance is bounded |
| FrameAnalysis.FrameSampled | frontend/components/smart-scan.tsx:266 | a non-empty frame has samples, so the averages are defined |
| FrameAnalysis.ClassifyLighting | frontend/components/smart-scan.tsx:266-269 | low exactly below 50, high exactly above 220, good exactly in between |
| FrameAnalysis.LightingMonotone | frontend/components/smart-scan.tsx:266-269 | a brighter frame never gets a darker class |
| FrameAnalysis.RawClarity | frontend/components/smart-scan.tsx:276-278 | in 0..100; 0 exactly at gradient ≤ 5, 100 exactly at ≥ 30, linear in between; below 40 exactly when the gradient is below 15 |
| FrameAnalysis.RawClarityMonotone | frontend/components/smart-scan.tsx:278 | a sharper frame never scores lower |
| FrameAnalysis.Smooth | frontend/components/smart-scan.tsx:281 | the smoothed score lies between the previous and the raw score |
| FrameAnalysis.SmoothInRange | frontend/components/smart-scan.tsx:281 | a score in 0..100 stays there |
| FrameAnalysis.SmoothContracts | frontend/components/smart-scan.tsx:281 | each update shrinks the distance to the raw score by the factor 0.7 |
| FrameAnalysis.SmoothNGap | frontend/components/smart-scan.tsx:281 | after n frames of constant raw score the signed gap to it is 0.7ⁿ times the first |
| FrameAnalysis.SmoothNConverges | frontend/components/smart-scan.tsx:281 | after n frames of constant raw score the distance is 0.7ⁿ times the first |
| FrameAnalysis.SmoothSettles | frontend/components/smart-scan.tsx:281 | from 0..100, thirteen steady frames bring the score within 1 of the raw score |
| FrameAnalysis.StripActiveIff | frontend/components/smart-scan.tsx:285-295 | sum / (cells / 4) > 12 exactly when sum > 3·cells |
| FrameAnalysis.DetectEdges | frontend/components/smart-scan.tsx:283-296 | each edge flag holds exactly when its strip's contrast exceeds 12 per approximate sample of the strip |
| FrameAnalysis.RaisedParts | frontend/components/smart-scan.tsx:301-347 | a kind is raised exactly when its own part of the list raises it |
| FrameAnalysis.WarningsRaised | frontend/components/smart-scan.tsx:301-347 | blur iff raw < 40, lighting iff low, glare iff high, alignment iff an edge is missing, resolution iff width < 960; no motion or shadow; lighting and glare exclude each other |
| FrameAnalysis.WarningsOrdered | frontend/components/smart-scan.tsx:301-347 | warnings come in the order blur, lighting/glare, alignment, resolution, and no kind repeats |
| FrameAnalysis.WarningsSeverity | frontend/components/smart-scan.tsx:301-347 | blur is high exactly in the dark, otherwise medium; lighting high, glare medium, alignment low, resolution medium; each with its message |
| FrameAnalysis.NoHighIff | frontend/components/smart-scan.tsx:301-347 | there is no high-severity warning exactly when lighting is not low |
| FrameAnalysis.ClassesOnSums | frontend/components/smart-scan.tsx:265-278 | over n samples: dark iff the luma sum is below 50n, bright iff above 220n; clarity 0 iff the gradient sum is at most 5n, 100 iff at least 30n, below 40 iff below 15n |
| FrameAnalysis.WarningsOnSums | frontend/components/smart-scan.tsx:265-347 | over n samples: blur iff the gradient sum is below 15n, too dark iff the luma sum is below 50n, glare iff above 220n, no high-severity warning iff at least 50n |
| FrameAnalysis.Derive | frontend/components/smart-scan.tsx:265-354 | on the sums over n samples: dark iff luma < 50n, bright iff > 220n; clarity in 0..100, 0 iff gradient ≤ 5n, 100 iff ≥ 30n; blur iff gradient < 15n; too dark iff luma < 50n, glare iff > 220n; no high warning iff luma ≥ 50n; alignment iff an edge is missing; resolution iff width < 960; document iff more than 150 dense pairs |
| FrameAnalysis.AnalyzeFrame | frontend/components/smart-scan.tsx:196-356 | the method's result is the analysis of the frame's statistics |
| FrameAnalysis.AverageLumaRange | frontend/components/smart-scan.tsx:266 | over byte data, the average luma lies in 0..255 |
| Countdown.Reconcile | frontend/components/smart-scan.tsx:413-419 | idle, ready and armed starts at 3; not ready cancels; otherwise unchanged; keeps 0..3 |
| Countdown.ReconcileIdleIff | frontend/components/smart-scan.tsx:413-419 | after the effect, the countdown is idle exactly when readiness is missing, or it was idle and cannot start |
| Countdown.ReconcileIdempotent | frontend/components/smart-scan.tsx:413-419 | rerunning the effect changes nothing |
| Countdown.Tick | frontend/components/smart-scan.tsx:421-429 | n > 0 goes to n - 1; idle and 0 are left alone; keeps 0..3 |
| Countdown.HeldCountsDown | frontend/components/smart-scan.tsx:421-429 | with readiness held, n becomes n - k after k seconds |
| Countdown.HeldReadinessFires | frontend/components/smart-scan.tsx:413-429 | a started countdown with readiness held fires on its third second and ends at 0 |
| Burst.ScoreRowLoop | frontend/components/smart-scan.tsx:106-111 | the inner loop adds exactly the row's red contrasts |
| Burst.FrameScore | frontend/components/smart-scan.tsx:95-114 | `getFrameScore` computes exactly the frame's score |
| Burst.ScoreRedOnly | frontend/components/smart-scan.tsx:105-112 | the score depends on the red bytes only |
| Burst.UniformScoresZero | frontend/components/smart-scan.tsx:105-112 | a frame with a flat red channel scores 0 |
| Burst.Insert | frontend/components/smart-scan.tsx:140 | insertion adds exactly the one shot |
| Burst.SortByScore | frontend/components/smart-scan.tsx:140 | the sort is a permutation of the burst |
| Burst.InsertSorted | frontend/components/smart-scan.tsx:140 | insertion keeps the order descending, and puts the new shot first when it ties or beats the head |
| Burst.SortSorted | frontend/components/smart-scan.tsx:140 | the sorted burst is in descending score order |
| Burst.SortHead | frontend/components/smart-scan.tsx:140-141 | the head is the first shot unless the best of the rest scores strictly higher |
| Burst.SortHeadIsBest | frontend/components/smart-scan.tsx:140-141 | the head has the highest score |
| Burst.SortHeadIsEarliestBest | frontend/components/smart-scan.tsx:140-141 | the head is a shot of the burst with the highest score, and every earlier shot scores strictly lower |
| Burst.ToUint8Clamp | frontend/components/smart-scan.tsx:77 | a stored value is a byte |
| Burst.ToUint8ClampRounds | frontend/components/smart-scan.tsx:77 | values saturate outside 0..255, and inside it the nearest byte is stored |
| Burst.ToUint8ClampMonotone | frontend/components/smart-scan.tsx:88 | a larger value never stores as a smaller byte |
| Burst.Gray | frontend/components/smart-scan.tsx:74-78 | pass 1 keeps the buffer's length |
| Burst.StretchWith | frontend/components/smart-scan.tsx:87-89 | pass 2 keeps the buffer's length |
| Burst.Stretch | frontend/components/smart-scan.tsx:84-90 | the stretch keeps the buffer's length |
| Burst.Enhanced | frontend/components/smart-scan.tsx:61-93 | the enhanced frame keeps the buffer's length |
| Burst.GrayPrefix | frontend/components/smart-scan.tsx:74-78 | pass 1 over the first p pixels gives 4p bytes |
| Burst.GrayPrefixBytes | frontend/components/smart-scan.tsx:74-78 | pixel by pixel, pass 1 gives each byte its whole-frame value |
| Burst.GrayPass | frontend/components/smart-scan.tsx:71-81 | the first loop leaves the gray frame in the buffer and returns the minimum and maximum luma |
| Burst.MapPrefix | frontend/components/smart-scan.tsx:87-89 | the second loop's prefix over p pixels gives 4p bytes |
| Burst.StretchPrefixBytes | frontend/components/smart-scan.tsx:87-89 | pixel by pixel, the stretch gives each byte its whole-frame value |
| Burst.GrayPixelInPlace | frontend/components/smart-scan.tsx:74-77 | one step of the first loop turns one pixel's colour bytes into its luma, extends the gray prefix and the luma range, and leaves the rest of the buffer alone |
| Burst.MapPass | frontend/components/smart-scan.tsx:87-89 | the second loop writes `f` of each pixel's red byte to its colour bytes, in place |
| Burst.StretchPass | frontend/components/smart-scan.tsx:84-90 | the stretch loop leaves exactly the stretched frame in the buffer |
| Burst.EnhanceImage | frontend/components/smart-scan.tsx:61-93 | `enhanceImage` leaves exactly the enhanced frame in the buffer |
| Burst.EnhancedBytes | frontend/components/smart-scan.tsx:74-90 | colour bytes are in 0..255, and alpha bytes are unchanged |
| Burst.EnhancedIsGray | frontend/components/smart-scan.tsx:74-90 | R = G = B in every pixel |
| Burst.EnhancedFlat | frontend/components/smart-scan.tsx:84-85 | when max ≤ min, only the grayscale conversion applies |
| Burst.EnhancedStretches | frontend/components/smart-scan.tsx:84-90 | otherwise each colour byte is the stored `(v - min) * 255 / (max - min)` of its gray byte |
| Burst.RemapEnds | frontend/components/smart-scan.tsx:86-88 | the remap sends min to 0 and max to 255, is monotone, and maps [min, max] into [0, 255] |
| Burst.LumaWithinRange | frontend/components/smart-scan.tsx:79-80 | every pixel's luma lies between the minimum and maximum that pass 1 gathers |
| Burst.GrayIdempotent | frontend/components/smart-scan.tsx:74-78 | pass 1 of an already gray frame changes nothing |
| Burst.Scored | frontend/components/smart-scan.tsx:132-135 | one scored shot per frame taken |
| Burst.BestShot | frontend/components/smart-scan.tsx:140-141 | the chosen shot has the frame's size |
| Burst.BestShotIsEarliestBest | frontend/components/smart-scan.tsx:132-141 | the chosen shot is one of the burst with the highest score, and every earlier shot scores strictly lower |
| Burst.ScoreBurst | frontend/components/smart-scan.tsx:132-137 | the loop scores each of the three shots in the order taken |
| Burst.BurstCapture | frontend/components/smart-scan.tsx:116-151 | the captured image is the enhanced best shot |
| SmartScan.ReadinessOfAnalysis | frontend/components/smart-scan.tsx:388-402 | with analysis warnings, ready exactly when all edges show, clarity ≥ 60, light is good and a document is seen |
| SmartScan.ReadyRaisesLittle | frontend/components/smart-scan.tsx:388-402 | a ready frame raised no alignment, darkness or glare warning, only blur and resolution |
| SmartScan.Scanner.constructor | frontend/components/smart-scan.tsx:26-42 | the initial state of the screen |
| SmartScan.Scanner.Settle | frontend/components/smart-scan.tsx:388-419 | readiness is recomputed while scanning, then the countdown is reconciled |
| SmartScan.Scanner.StartScan | frontend/components/smart-scan.tsx:55-58 | scanning starts at clarity 50, not ready and with no countdown |
| SmartScan.Scanner.StopScan | frontend/components/smart-scan.tsx:371-384 | scanning stops and the clarity, warnings, lighting and edges are reset; readiness and any running countdown stay |
| SmartScan.Scanner.ChangeDocument | frontend/components/smart-scan.tsx:721 | the view goes to document selection, and nothing else changes |
| SmartScan.Scanner.Tick | frontend/components/smart-scan.tsx:155-172 | nothing changes unless scanning, video ready and 200 ms elapsed; otherwise the frame's analysis is stored with clarity smoothed, readiness and countdown follow, and the time is recorded |
| SmartScan.Scanner.Store | frontend/components/smart-scan.tsx:271-356 | an analysis is stored with smoothed clarity, and readiness and the countdown follow |
| SmartScan.Scanner.SecondElapsed | frontend/components/smart-scan.tsx:421-429 | the countdown ticks, and it fires exactly when it goes from 1 to 0 |
| SmartScan.Scanner.Capture | frontend/components/smart-scan.tsx:116-151 | without a camera (not scanning) nothing changes; otherwise scanning stops and the enhanced best shot is kept for validation |
| SelfieCapture.ReadinessFacts | frontend/components/selfie-capture.tsx:70-76 | readiness implies the button is enabled; quality 50 and the initial conditions are never ready; the finder's report is ready |
| SelfieCapture.AnglePrompt | frontend/components/selfie-capture.tsx:128-138 | no prompt exactly for a good angle; each other angle gets its message |
| SelfieCapture.DistancePrompt | frontend/components/selfie-capture.tsx:140-144 | no prompt exactly for a good distance; too close and too far get their messages |
| SelfieCapture.ReadyNeedsNoPrompt | frontend/components/selfie-capture.tsx:128-144 | a ready face has no angle or distance prompt |
| SelfieCapture.SelfieScreen.constructor | frontend/components/selfie-capture.tsx:37-48 | the initial state, with the selfie the session holds |
| SelfieCapture.SelfieScreen.Settle | frontend/components/selfie-capture.tsx:79-90 | the countdown is reconciled, armed only while capturing with no selfie |
| SelfieCapture.SelfieScreen.FaceFound | frontend/components/selfie-capture.tsx:52-67 | while the camera is on, good conditions and quality 85 are set and the countdown follows; otherwise nothing changes |
| SelfieCapture.SelfieScreen.StartCapture | frontend/components/selfie-capture.tsx:104-108 | capturing, no selfie, quality 50 and no countdown |
| SelfieCapture.SelfieScreen.Capture | frontend/components/selfie-capture.tsx:110-116 | a truthy screenshot of the shown camera is kept and the countdown cleared; otherwise nothing changes |
| SelfieCapture.SelfieScreen.Retake | frontend/components/selfie-capture.tsx:118-122 | no selfie, quality 50 and no countdown |
| SelfieCapture.SelfieScreen.Confirm | frontend/components/selfie-capture.tsx:124-126 | the view goes to upload, and nothing else changes |
| SelfieCapture.SelfieScreen.StopCapture | frontend/components/selfie-capture.tsx:429 | capturing stops, and any running countdown stays |
| SelfieCapture.SelfieScreen.Leave | frontend/components/selfie-capture.tsx:400 | the view goes home, and nothing else changes |
| SelfieCapture.SelfieScreen.SecondElapsed | frontend/components/selfie-capture.tsx:92-102 | the countdown ticks, and it fires exactly when it goes from 1 to 0 |
| SecurityAccess.StepIndex | frontend/components/security-access.tsx:44-50 | the position of each flow step, and -1 exactly when complete |
| SecurityAccess.LastChar | frontend/components/security-access.tsx:69 | `slice(-1)` gives the last character, or nothing for empty input |
| SecurityAccess.Typed | frontend/components/security-access.tsx:65-70 | typing keeps six slots |
| SecurityAccess.TypedFacts | frontend/components/security-access.tsx:65-70 | typing keeps every slot empty or one digit; only slot `index` changes, to the last character; non-digit input changes nothing |
| SecurityAccess.FocusAfterTyping | frontend/components/security-access.tsx:73-75 | focus moves to index+1 exactly for a non-empty digit input below the last slot; TypingFillsCode shows what this rule is for |
| SecurityAccess.FocusAfterKey | frontend/components/security-access.tsx:122-127 | focus moves to index-1 exactly for Backspace in an empty slot past the first; BackspaceWalksBack iterates it |
| SecurityAccess.FocusNext | frontend/components/security-access.tsx:73-75 | focus after typing stays within the six slots |
| SecurityAccess.TypeKeys | frontend/components/security-access.tsx:65-75 | typing keys one by one, each into the slot focus moved to, keeps six slots |
| SecurityAccess.TypeKeysFrom | frontend/components/security-access.tsx:65-75 | typing the remaining digits from slot i puts each in its own slot and leaves slots before i unchanged |
| SecurityAccess.TypingFillsCode | frontend/components/security-access.tsx:65-75 | six digits typed from the first slot, following focus, leave a complete code holding those digits in order |
| SecurityAccess.BackspaceWalksBack | frontend/components/security-access.tsx:122-127 | k presses of Backspace in empty slots from slot i leave focus on i - k, never below slot 0 |
| SecurityAccess.FilledCodeIsDigits | frontend/components/security-access.tsx:79 | a complete code is six single digits |
| SecurityAccess.Screen.constructor | frontend/components/security-access.tsx:25-32 | the initial state, at the session's step |
| SecurityAccess.Screen.SetPassword | frontend/components/security-access.tsx:194-197 | the password is set and the error cleared |
| SecurityAccess.Screen.SubmitPassword | frontend/components/security-access.tsx:52-63 | a password shorter than 6 gives the error and stays; otherwise the error clears and the step is MPIN; never backwards |
| SecurityAccess.Screen.ChangeMpin | frontend/components/security-access.tsx:65-76 | the MPIN becomes the typed code; digits clear the error and give the focus rule; other input changes nothing |
| SecurityAccess.Screen.SubmitMpin | frontend/components/security-access.tsx:78-89 | an empty slot gives the error and stays; a full MPIN gives step OTP and timer 30; never backwards |
| SecurityAccess.Screen.ChangeOtp | frontend/components/security-access.tsx:91-102 | the OTP becomes the typed code; digits clear the error and give the focus rule; other input changes nothing |
| SecurityAccess.Screen.SubmitOtp | frontend/components/security-access.tsx:104-115 | an empty slot gives the error and stays; a full OTP completes and opens the saved documents; never backwards |
| SecurityAccess.Screen.ResendOtp | frontend/components/security-access.tsx:117-120 | the timer is 30 and all six OTP slots are cleared |
| SecurityAccess.Screen.SecondElapsed | frontend/components/security-access.tsx:37-42 | the timer takes one `TimerStep`: down by one while positive, and never below 0 |
| SecurityAccess.TimerCountsDown | frontend/components/security-access.tsx:37-42 | after k calls of `Screen.SecondElapsed`, each one `TimerStep`, a timer set to n reads n - k, and 0 from the n-th second on |

## Left out

- Text recognition (`extractTextCheck`) is a foreign library call. It is the `recognize`
  parameter of `OcrController.ProcessOcr`, and `None` stands for a thrown error.
- `Buffer.from(…, "base64")` is the `decode` parameter. A decoding or parsing exception is
  not modelled separately; a recognition failure stands for every failure.
- The camera, canvas and JPEG plumbing (`drawImage`, `getImageData`, `toDataURL`,
  `Image.onload`, the 320-pixel downscale) is not modelled. The sampled frame is a given
  `array<int>`, and the three burst shots are given sequences.
- Burst.BurstCapture: enhances the best shot's pixels directly. The source first encodes
  the shot as JPEG and decodes it again, which is lossy.
- Timers, `requestAnimationFrame` and the React effect and batching order are sequential
  events in the model. The 500 ms warm-up, the 100 ms spacing of the burst shots, the 800 ms
  simulated submit delay and the 1500 ms mock face finder are not modelled.
- The mock face finder of the selfie screen is the `FaceFound` event. It fires only while the
  camera is on.
- `isLoading` and `showPassword` of the security screen are not modelled. They only change
  how the screen looks during the simulated delay.
- Floating point is not modelled. Luma, averages, the smoothed clarity and the stretch are
  exact reals, and the results are not claimed to be bit-exact IEEE-754 results.
- FrameAnalysis.Margin: `Math.floor(n * 0.15)` is modelled as `(n * 15) / 100`. This can
  differ where the double product falls just below a whole number.
- FrameAnalysis.AnalyzeFrame: requires a frame of at least 7 by 7 pixels, so both margins
  are positive. For smaller frames the source's edge normalisation divides by zero.
- SmartScan.Scanner.Tick: the same 7-by-7 requirement applies.
- Both screens keep the countdown running after Cancel, because readiness is unchanged.
  Its capture then finds no camera and does nothing, and the countdown stays at 0. The model
  keeps this behaviour.
- SecurityAccess.Screen.SubmitPassword: counts the password length in characters, where
  JavaScript counts UTF-16 code units. The two differ for characters outside the Basic
  Multilingual Plane.
- OcrProperties.PositionalNames, OcrProperties.FallbackName: the `length > 3` tests on the
  two name lines and on the fallback name (`OcrService.NameFields` and
  `OcrService.IsFallbackName`) count characters, where JavaScript counts UTF-16 code units.
  A line of 2 or 3 characters outside the Basic Multilingual Plane is a name to the source
  and not to the model.
- OcrController.ProcessOcr: `image` is an optional string. A truthy request value that is
  not a string makes `image.replace` throw, and the source answers 500; the model has no
  such input.
- The handlers of the security screen require the step on which the source shows them.
  Each handler is only rendered on its own step.
- The `expected` and `mismatch` fields are carried in `OcrField`, but nothing in this core
  compares them.
- The presentation and mock screens are not modelled. These are dashboard, home,
  document selection, upload, saved documents, validation, header, the app pages and the
  tutorial; they only render over mock data.
- The service wiring (Express index, routes, MongoDB configuration) and the React context
  holding mock data are not modelled. `frontend/lib/kyc-types.ts` is mirrored only as the
  `ScanWarning` and `ValidationResult` datatypes.
