# Tap-to-identify overlay: recognition service and intelligence panel

This project models, in Dafny, the two pieces of logic at the centre of a camera/map "tap to
identify" web app. The user taps a point. A generative model identifies what is there. The answer
appears as a floating card tethered to the tap.

- **The intelligence panel** (`components/IntelligencePanel.tsx`) decides, from the tap position in
  viewport percentages and the viewport width, where the card sits:
  - the horizontal anchor (`0%`, `-50%` or `-100%` of the card width, for a 400px panel with a 20px margin);
  - the vertical anchor, the tether length and the tether's anchored edge, all from `y < 50`;
  - the two tilt angles;
  - the starting offset of the entry animation.

  The panel also decides what the media block shows (the reference image, the AI image, the quota
  notice or a spinner) and what the header tag says (the first eight characters of the name).
- **The recognition service** (`services/geminiService.ts`) wraps three model calls:
  - the guards that give up without an API key or without an answer;
  - the tap coordinates written into the recognition prompt (`Math.round(c || 50)`);
  - the name-keyed override pass: a case-insensitive substring match on the returned name, with
    "white house" taking priority over "iad13"/"data center";
  - the PCM16 mono decode of narration audio into samples in [-1, 1) at 24000 Hz;
  - the PNG data URL built from the first inline-data part of a generated image.

Files:
- `wrappers.dfy`: `Option`, which stands for `null`/`undefined`.
- `text.dfy`: ASCII lower-casing, and `includes` proved equal to a substring specification.
- `types.dfy`: the recognition record, the tap position, JavaScript truthiness of optional strings,
  and the `"QUOTA_EXCEEDED"` sentinel.
- `panel.dfy`: module `IntelligencePanel`.
- `gemini.dfy`: module `GeminiService`.
- `composition.dfy`: what the panel shows when it is fed by the service.

Modelling choices:
- Percentages and pixels are `real`.
- CSS values are the datatype `CssLength = Auto | Percent | Px`, not formatted strings.
- The model calls are inputs. Each is a reply datatype: either the call threw, or it answered with
  the text, parts or decoded audio the code goes on to read.
- The outcomes of `JSON.parse` and `atob` are part of those replies.
- Each service operation returns the request it would send, so "no request without a key" can be stated.
- The API key is a parameter, not read from the environment.
- Playback is the returned `Playback` value (channel count, sample rate, samples).

Behaviour of the code worth knowing:
- The vertical rule reads the tap's percentage, not pixels. A tap at (10%, 30%) on a 375x800
  viewport hangs the card below the tap (`40px`, a 40px tether anchored by its top), because
  `30 < 50` (`IntelligencePanel.SmallScreenUpperTap`).
- The horizontal rule compares the tap's pixel x against 220px (half the assumed 400px panel plus
  a 20px margin) from each edge. The right-edge test runs last and overrides the left-edge one.
- The override pass rewrites only `name` (to `White House` or `IAD13 Data Center`) and
  `referenceImage`, plus `weatherFacts` for the data centre. It leaves `category` and the other
  fields untouched.
- The placement code is commented as keeping the card on screen (components/IntelligencePanel.tsx:24-26).
  That holds for viewports at least 620px wide (`IntelligencePanel.CardStaysOnScreen`). On a 500px
  viewport a tap at 40% yields a card that runs to 600px (`IntelligencePanel.CardCanOverflowNarrowViewport`).
- The panel reads the `"QUOTA_EXCEEDED"` sentinel (components/IntelligencePanel.tsx:22,117), but the
  image generator never produces it: every failure returns `null` (services/geminiService.ts:156-159).
  So a panel fed by that generator never shows the quota notice
  (`Composition.GeneratedImageNeverShowsQuotaNotice`).

## Model

| member | source | states |
|---|---|---|
| IntelligencePanel.TranslateX | components/IntelligencePanel.tsx:31-37 | `-100%` exactly when the tap's pixel x exceeds width − 220; `0%` exactly when it is below 220 and not beyond width − 220; `-50%` exactly when it lies in [220, width − 220] |
| IntelligencePanel.NarrowViewportRightWins | components/IntelligencePanel.tsx:35-37 | in a viewport narrower than 440px, a tap that trips both edge tests is anchored at `-100%`: the right-edge test runs last and wins |
| IntelligencePanel.ComputePlacement | components/IntelligencePanel.tsx:40-48 | for `y < 50` (the percentage): translateY 40px, tether 40px, top `y%`, bottom auto, tether flipped, entry from 60px; otherwise −115%, 100px, top auto, bottom `(100−y)%`, not flipped, entry from −135%; exactly one tether edge is auto; the entry uses the resting translateX |
| IntelligencePanel.EntrySlidesTowardRest | components/IntelligencePanel.tsx:168-169 | the entry animation starts from the resting horizontal anchor and further from the tap than the resting vertical offset, on the same side, so the card slides into place |
| IntelligencePanel.SmallScreenUpperTap | components/IntelligencePanel.tsx:35-44 | a tap at (10%, 30%) on a 375x800 viewport gives translateX 0%, translateY 40px and a 40px tether anchored by its top at 30% |
| IntelligencePanel.PlacementIgnoresViewportHeight | components/IntelligencePanel.tsx:29-44 | the placement does not depend on the viewport height (the pixel y is never used), and no vertical output or tilt depends on the width either |
| IntelligencePanel.TiltX | components/IntelligencePanel.tsx:47 | the forward tilt is zero exactly at y = 50 and positive exactly below the centre (y > 50) |
| IntelligencePanel.TiltY | components/IntelligencePanel.tsx:48 | the sideways tilt is zero exactly at x = 50 and negative exactly right of the centre (x > 50) |
| IntelligencePanel.TiltMirror | components/IntelligencePanel.tsx:47-48 | mirroring a coordinate about 50 flips the sign of its tilt |
| IntelligencePanel.CardWidth | components/IntelligencePanel.tsx:87 | the rendered width `min(92vw, 400px)` is at most 400px and at most 92% of the viewport, and equals one of the two |
| IntelligencePanel.PixelsWithinViewport | components/IntelligencePanel.tsx:31 | a tap percentage in [0, 100] converts to a pixel x within [0, width] |
| IntelligencePanel.CentredCardKeepsMargin | components/IntelligencePanel.tsx:24-37 | whenever the card is centred, it keeps the 20px margin from both edges, for any viewport width |
| IntelligencePanel.CardStaysOnScreen | components/IntelligencePanel.tsx:24-37 | in a viewport at least 620px wide, a tap inside it puts the whole card on screen, whichever anchor is chosen |
| IntelligencePanel.CardCanOverflowNarrowViewport | components/IntelligencePanel.tsx:24-37 | on a 500px viewport a tap at 40% is anchored `0%` and the card's right edge lands at 600px, off screen |
| IntelligencePanel.DisplayImage | components/IntelligencePanel.tsx:21 | a present, non-empty reference image is always the display image; otherwise the AI image is, unless it is the sentinel, in which case there is none; so the display image is the sentinel only if the reference image itself is |
| IntelligencePanel.MediaContent | components/IntelligencePanel.tsx:108-125 | a non-empty reference image is always shown; a shown AI image is never the sentinel; the quota notice appears exactly when there is no reference image and the AI image is the sentinel; the spinner appears exactly when neither yields an image and the AI image is not the sentinel |
| IntelligencePanel.HeaderTag | components/IntelligencePanel.tsx:94 | the tag is `Intel_Node::` followed by a prefix of the name of length min(8, length) |
| Types.OrEmpty | services/geminiService.ts:84 | a missing or empty name is read as the empty string, any other name as itself |
| Text.ToLower | services/geminiService.ts:84 | lower-casing keeps the length, turns each ASCII capital into its lower-case letter, and leaves every other character alone |
| Text.IncludesIsOccurs | services/geminiService.ts:85-88 | the left-to-right `includes` scan succeeds exactly when the needle occurs at some position of the haystack |
| GeminiService.ApplyOverrides | services/geminiService.ts:84-92 | a name mentioning "white house" in any case becomes `White House` with the White House image and unchanged weather facts; otherwise one mentioning "iad13" or "data center" becomes `IAD13 Data Center` with the data-centre image and the fixed weather record; otherwise the record is unchanged; category, description, fun fact, visual prompt and confidence are never touched |
| GeminiService.CanonicalNamesMatchThemselves | services/geminiService.ts:85-91 | the lower-cased canonical names still match their own rule, and "IAD13 Data Center" does not match the White House rule |
| GeminiService.OverridesIdempotent | services/geminiService.ts:84-92 | applying the override pass to its own output changes nothing |
| GeminiService.OverridesIgnoreCase | services/geminiService.ts:84-88 | names that lower-case alike get the same image and weather record, and either the same canonical name or each keeps its own |
| GeminiService.WhiteHouseTakesPriority | services/geminiService.ts:85-88 | a name mentioning both "WHITE HOUSE" and "data center" resolves to the White House record |
| GeminiService.DataCenterExample | services/geminiService.ts:88-91 | the name "iad13 rack" resolves to `IAD13 Data Center` with the fixed weather record |
| GeminiService.PromptCoordinate | services/geminiService.ts:48 | a missing or zero coordinate is reported as 50; any other is rounded half-up to the nearest integer; a coordinate in [0, 100] is reported in [0, 100] |
| GeminiService.RecognizeObject | services/geminiService.ts:43-98 | with an empty key no request is sent and the result is null; otherwise the request carries the rounded tap coordinates; a result is returned exactly when the call answered with non-empty text that parsed, and it is the parsed record after the override pass |
| GeminiService.ToUint8 | services/geminiService.ts:123 | storing a character code into a byte keeps it modulo 256, so codes below 256 are kept exactly |
| GeminiService.CharCodes | services/geminiService.ts:122-123 | one byte per character of the decoded string, equal to its code when that is below 256 |
| GeminiService.Int16LE | services/geminiService.ts:125 | a little-endian byte pair becomes a signed 16-bit value congruent to `lo + 256·hi` modulo 65536 |
| GeminiService.Int16View | services/geminiService.ts:125 | an even number of bytes is viewed as half as many signed 16-bit values |
| GeminiService.Int16ViewAt | services/geminiService.ts:125 | value i of the view is the little-endian pair of bytes 2i and 2i+1 |
| GeminiService.EncodeInt16LE | services/geminiService.ts:125 | the inverse of the view writes two bytes per 16-bit value |
| GeminiService.ViewOfEncode | services/geminiService.ts:125 | viewing the encoding of 16-bit values gives the values back |
| GeminiService.EncodeOfView | services/geminiService.ts:125 | encoding the view of an even byte sequence gives the bytes back |
| GeminiService.Normalise | services/geminiService.ts:128 | dividing by 32768 maps each 16-bit value into [-1, 1), and multiplying by 32768 recovers it |
| GeminiService.SpeakMessage | services/geminiService.ts:101-137 | with an empty key nothing is requested and nothing plays; playback happens exactly when the call answered with non-empty audio that decoded to a positive, even number of bytes (an odd count makes the 16-bit view throw, zero makes the buffer creation throw); it is one channel at 24000 Hz whose n/2 samples are the normalised 16-bit view of the bytes, sample i the little-endian value of bytes 2i, 2i+1 over 32768, each in [-1, 1) |
| GeminiService.FindInlinePart | services/geminiService.ts:154 | the index found is the first part carrying inline data; none is found exactly when no part carries any |
| GeminiService.DataUrlRoundTrip | services/geminiService.ts:155 | reading back the `data:image/png;base64,` URL yields its payload |
| GeminiService.GenerateAIVisual | services/geminiService.ts:140-159 | with an empty key no request is sent and the result is null; otherwise a result exists exactly when the answer has a part with inline data, and it is the data URL of the first such part's payload; the result is never the quota sentinel |
| Composition.GeneratedImageNeverShowsQuotaNotice | components/IntelligencePanel.tsx:117-124 | a panel whose AI image comes from the image generator never shows the quota notice |
| Composition.OverriddenResultShowsReferenceImage | components/IntelligencePanel.tsx:21 | a result rewritten by an override always shows that override's fixed image, whatever the AI image |

## Left out

- The session lifecycle (open, close, supersession of in-flight requests) and the wiring between
  recognition, image generation and the panel: the orchestrating component and the shared type
  declarations are not part of this model.
- Reading the key from the process environment (`getSafeApiKey`): the key is a parameter.
- The model calls, `JSON.parse`, `atob` and the browser's audio output are foreign code. Their
  outcomes are inputs, and playback is the returned value. The audio context that is created
  before decoding, even when nothing then plays, is not modelled.
- The fixed text of the recognition prompt and the formatting of numbers into it; only the two
  rounded coordinates are modelled. Likewise, the formatting of numbers into CSS strings.
- Floating-point behaviour of the tilt, the pixel conversion and the sample normalisation (reals
  are exact), and the NaN case of `c || 50` (NaN is falsy and would also become 50).
- Text.ToLower: does not fold non-ASCII letters, which `toLowerCase` would.
- IntelligencePanel.HeaderTag: counts characters, whereas `substring` counts UTF-16 code units. It
  also takes the name as a string; a missing name would make `substring` throw during rendering.
- GeminiService.GenerateAIVisual: an inline-data part whose `data` is missing would produce the
  text `undefined` in the URL; the model gives every payload a string.
- `Int16Array` uses the platform's byte order; the model fixes it to little-endian.
- How the quota sentinel is produced: no code shown here produces it.
- React rendering, styling and keyframe text beyond the two translate values; the `imageLoaded`
  flag; the unused `isGeneratingImage` property; the click handlers; page bootstrap (`index.tsx`).
