# Hadith analyser core, modelled in Dafny

The application sends a hadith text to a generative-language service. It asks for a structured judgment: a verdict out of four (SAHIH, HASAN, GHARIB, MAWDU), a confidence score and three 0–1 scores (agreement with the Quran, chain quality, text integrity). It then shows that judgment as cards, a five-axis radar chart, a two-bar chart and the numbered chain of narrators. This project models the deterministic core around that one result, in four modules, one per source file:

- `Types` (`types.dfy`, from `types.ts`) holds the data model. It has the closed `Verdict` enumeration with its Arabic labels and the `Narrator` record. It has the `AnalysisResult` record: `narratorChain` is optional, and so is `narrators`, which the service produces although the interface does not declare it. It also has the `ChartData` point and the documented score ranges as a predicate. `verdict` is kept as the string the reply carried, because no code checks it against the four labels.
- `GeminiService` (`gemini_service.dfy`, from `services/geminiService.ts`) holds the response schema (properties, required list, verdict enum, narrator fields), the user prompt wrapper and the fixed fallback result. It also holds `AnalyzeHadith`. Its credential check throws before any request is built. Its one request either yields a parsed record, which is returned exactly as parsed, or falls back. The service and the JSON parser are parameters (`service: Request -> Reply`, `parse: string -> Option<AnalysisResult>`). The call reports the request it sent, so "no request was made" can be stated.
- `Visualizer` (`visualizer.dfy`, from `components/Visualizer.tsx`) holds the radar and bar series over `real`, and the bar fill rule.
- `App` (`app.dfy`, from `App.tsx`) models:
  - JavaScript `trim`, over an explicit set of white-space code points;
  - the analyse button's disabled rule;
  - `handleAnalyze`, as the class `AnalyzerView`, whose fields `inputText`, `loading` and `result` the handler updates. A ghost `trace` records the (loading, result) pairs the handler publishes;
  - `getVerdictColor`;
  - the Quran-consistency colouring;
  - the narrator-chain section: when it is shown, the numbered narrators, and the "عن" connector after every narrator but the last.

The code adds no checks of its own, and the model follows it:

- The code does not validate a reply. It does no range checks, no verdict check and no clamping.
- `getVerdictColor` has a default branch for an unknown verdict. It does not fail on one.
- A missing credential is the only error that reaches the page. The page then raises an alert and leaves the result empty.

`services/geminiService.ts` imports a `Narrator` type that `types.ts` does not export. The model declares `Narrator` in `Types`.

## Model

| member | source | states |
|---|---|---|
| `Types.VerdictEnumeration` | types.ts:1-6 | The enumeration has exactly four members, all listed in order, with pairwise-distinct labels |
| `Types.ParseVerdict` | types.ts:1-6 | Looking up a string gives the verdict whose label it is, and gives nothing exactly when no verdict has that label |
| `Types.ParseLabel` | types.ts:1-6 | Every verdict's label looks up to that verdict (labels and verdicts correspond one to one) |
| `Types.OptionalFields` | types.ts:8-18 | Of the result's fields, exactly `narratorChain` and `narrators` can be absent; every other field is present in every result |
| `GeminiService.SchemaVerdictEnumMatchesLabels` | services/geminiService.ts:9-13 | The schema's verdict enum is the four labels in enumeration order, and a string is in it iff it is a verdict label |
| `GeminiService.SchemaRequiredMatchesDataModel` | services/geminiService.ts:62 | The schema lists exactly the result's fields, and requires a field iff every result has it: all but `narratorChain` and `narrators` |
| `GeminiService.NarratorFieldsAllRequired` | services/geminiService.ts:43-56 | The narrator schema describes exactly the fields of the `Narrator` record, in order, and requires every one of them |
| `GeminiService.UserPrompt` | services/geminiService.ts:95 | The prompt is the fixed prefix, then the input verbatim, then a closing quote |
| `GeminiService.UserPromptInjective` | services/geminiService.ts:95 | Different inputs give different prompts |
| `GeminiService.FallbackShape` | services/geminiService.ts:113-124 | The fallback has verdict GHARIB, all four scores 0, empty chain and narrator lists and formula "Error = 1", and it lies in every documented range |
| `GeminiService.AnalyzeHadith` | services/geminiService.ts:65-125 | Throws the missing-key error iff the credential is empty, and then sends no request. Otherwise it sends the wrapped prompt with the schema. A non-empty reply that parses is returned unchanged. A failed call, a missing or empty reply or a parse failure gives the fallback |
| `GeminiService.ConfiguredCallNeverThrows` | services/geminiService.ts:91-125 | With a credential, every failure is absorbed: the call always returns a value |
| `GeminiService.FallbackIgnoresInput` | services/geminiService.ts:111-124 | Any two failed calls return the same fallback, whatever the text, service and parser |
| `GeminiService.ParsedReplyIsNotValidated` | services/geminiService.ts:105-109 | Whatever record the parser yields is returned as-is, including unknown verdicts and out-of-range scores |
| `GeminiService.FallbackIndistinguishable` | services/geminiService.ts:108-124 | A failure and a genuine reply equal to the fallback produce identical calls, so the caller cannot tell them apart |
| `Visualizer.RadarData` | components/Visualizer.tsx:24-30 | The radar series has exactly five entries, in the fixed subject order, each with fullMark 100 |
| `Visualizer.MemoryAxisDiscounted` | components/Visualizer.tsx:25-26 | The memory axis is nine tenths of the integrity axis: not above it when isnadScore ≥ 0, above it when isnadScore < 0 |
| `Visualizer.AnomalyAxisStep` | components/Visualizer.tsx:29 | The anomaly axis is 100 iff quranicConsistency ≥ 0.5, and 0 iff it is below 0.5 |
| `Visualizer.RadarAxesScaleScores` | components/Visualizer.tsx:25-28 | The integrity, text and Quran axes are their scores scaled to percent |
| `Visualizer.RadarBounded` | components/Visualizer.tsx:24-30 | With the three unit scores in [0,1], every radar value lies in [0,100] |
| `Visualizer.RadarAtUpperBoundary` | components/Visualizer.tsx:25-29 | isnadScore 1 gives axes 100 and 90, and quranicConsistency exactly 0.5 gives anomaly axis 100 (inclusive boundary) |
| `Visualizer.RadarBelowThreshold` | components/Visualizer.tsx:29 | quranicConsistency 0.499999 gives anomaly axis 0 |
| `Visualizer.BarData` | components/Visualizer.tsx:32-35 | The bar series has exactly two entries, in the fixed name order |
| `Visualizer.BarsAgainstRadar` | components/Visualizer.tsx:28-34 | The first bar is confidenceScore unchanged, and the second bar plus the Quran radar axis is always 100 |
| `Visualizer.BarsIndependent` | components/Visualizer.tsx:32-35 | Each bar depends only on its own field, and the two bars need not sum to 100 |
| `Visualizer.BarsBounded` | components/Visualizer.tsx:32-35 | With confidence in [0,100] and Quran score in [0,1], both bars lie in [0,100] |
| `Visualizer.BarFill` | components/Visualizer.tsx:84-86 | A bar is filled green, red or slate |
| `Visualizer.BarColours` | components/Visualizer.tsx:83-86 | The first bar is green iff confidence > 50 and red otherwise; the second bar is always slate |
| `App.Trim` | App.tsx:46 | trim() is the input with its leading and trailing white space removed and everything between kept: a slice whose dropped prefix and suffix are all white space, empty iff every character is white space, and otherwise starting and ending with a non-space |
| `App.WhitespaceEnablesIgnoredButton` | App.tsx:140 | An input of white space only enables the idle button, yet the handler treats it as blank |
| `App.EnabledButtonCases` | App.tsx:140 | The idle button is enabled iff the untrimmed input is non-empty, and every input the handler accepts enables it |
| `App.AnalyzerView.constructor` | App.tsx:41-43 | The page starts with empty input, not loading and no result |
| `App.AnalyzerView.SetInputText` | App.tsx:134 | The change handler replaces the input text |
| `App.AnalyzerView.HandleAnalyze` | App.tsx:45-60 | A blank input changes nothing. Otherwise the handler publishes (loading, no result), then (not loading, the returned result). A thrown error leaves the result empty, raises the alert and clears loading. With a credential the result is always set |
| `App.ColorsDiffer` | App.tsx:64-68 | The five verdict colour strings are pairwise different |
| `App.VerdictColor` | App.tsx:62-70 | getVerdictColor gives each verdict label its own class string from the table (SAHIH emerald, HASAN teal, GHARIB amber, MAWDU rose), and the default colour exactly for strings that are not verdict labels |
| `App.VerdictColorsDistinct` | App.tsx:62-70 | The four verdicts get four different colours |
| `App.QuranColours` | App.tsx:190-196 | The percentage figure and the progress bar are coloured together: both emerald or both rose |
| `App.QuranColoursAgree` | App.tsx:190-196 | Figure and bar are emerald iff quranicConsistency > 0.8 (strict); 0.8 itself is rose |
| `App.ChainFrom` | App.tsx:237-252 | From position idx on, a chain lays out as 2(N − idx) − 1 items, starting with the narrator numbered idx + 1 |
| `App.ChainSection` | App.tsx:231-255 | The chain section is shown iff the chain is present and non-empty, and then has 2N − 1 items |
| `App.ChainLayout` | App.tsx:237-250 | Narrator i is at position 2i, numbered i + 1, and a connector follows it iff i < N − 1 |
| `App.ChainFromCounts` | App.tsx:237-250 | From position idx on there are N − idx numbered narrators and N − idx − 1 connectors |
| `App.ChainSectionCounts` | App.tsx:231-250 | A shown chain of N narrators has N numbered narrators and exactly N − 1 connectors |

## Left out

- The language-model SDK call is not modelled. This covers building the client, the model name, the temperature and the system-instruction text. It is a foreign network call, modelled as the `service` parameter, and the request carries only the user prompt and the schema.
- `JSON.parse` is the `parse` parameter. A reply that parses to something other than a record of the declared shape is not modelled. Examples are a missing required field, a number given as a string, or a non-object. The `as` cast lets such values through, but a typed record cannot hold them.
- `console.error`, the `alert` dialog and reading `process.env` are I/O. The alert is the `alerted` out-parameter, and the credential is a string parameter.
- Markup, charts, equation rendering, icons and the content of the style classes are presentation. Only the strings being distinct is modelled.
- `toFixed(0)` formatting and IEEE floating point are not modelled: scores are `real`.
- Overlapping `handleAnalyze` calls are not modelled: the model runs one call at a time. React's batching is taken to publish one state before the call and one after it.
- JavaScript strings are UTF-16 code units, whereas Dafny's `char` is a Unicode scalar value. White space lies in the Basic Multilingual Plane, so trim does the same to both.
- The `narrators` list is carried by the result but never rendered by the page, so nothing about it is derived.
- Chart idempotence: calling the chart functions twice on equal inputs gives equal outputs. Every Dafny function has this property, so no lemma states it.
