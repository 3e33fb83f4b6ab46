# LawsBotPk core, modelled in Dafny

LawsBotPk (JusticeAI) takes a free-text legal question, sends it to a
language model together with excerpts of Pakistani law, and shows the four
sections of the answer in English or Urdu. This project models the two
pieces of client logic with real behaviour of their own:

- the helpers of `src/lib/utils.ts`: `validateQuery`, which trims a query and
  checks it against three ordered rules (blank, shorter than 10, longer than
  2000); `formatCharacterCount`; and the three draft helpers that keep the
  query in `localStorage` under the key `justiceai-query`, each of which does
  nothing when `window` does not exist;
- the `useLegalAnalysis` hook of `src/hooks/use-legal-analysis.ts`: the state
  `isLoading`, `result`, `error` and `retryCount`, and the callbacks
  `analyzeCase`, `retry` and `clear`.

Files and modules:

- `base.dfy` (`Base`): `Option` (the source's `T | null`) and `Language` (`'en' | 'ur'`).
- `js_string.dfy` (`JsString`): the JavaScript built-ins the helpers rely on.
  `Trim` is `String.prototype.trim`, removing the ECMAScript WhiteSpace and
  LineTerminator code points at both ends. `Utf16Length` is a string's
  `length`, which counts UTF-16 code units, so a character above U+FFFF
  counts twice. `NumberToString` is the `${n}` conversion of an integral
  Number, with `ParseNumber` as its inverse.
- `utils.dfy` (`Utils`): `ValidateQuery` with its three localised messages,
  `FormatCharacterCount` with its inverse `ParseCharacterCount`, and the class
  `DraftStorage`. That class holds the `window`-exists flag and the
  `localStorage` contents as a `map<string, string>`, and its three methods
  are the three draft helpers.
- `legal_advice.dfy` (`LegalAdvice`): the output record of the advice flow
  (`legalAnalysis`, `rightsAnalysis`, `actionPlan`, `disclaimer`), its input
  record, and `Outcome`, which says how one call ended.
- `use_legal_analysis.dfy` (`UseLegalAnalysis`): the hook as class
  `LegalAnalysis`. The object invariant `Valid()` says three things. The
  retry counter is at most 3. A result and an error are never both present.
  While loading, neither is present. `analyzeCase` is split at its `await`:
  `Begin` runs before the advice call and returns the request it sends, and
  `Complete` takes how the call ended. `AnalyzeCase` runs the two in a row.
  The field `pendingLanguage` holds the language `Begin` was called with, the
  one the source's `catch` sees through its closure, so the failure message
  always matches the call that failed.

The advice call is a parameter of the model. Whatever the language model
returns reaches the hook as `Outcome.Success(advice)`. A thrown error, a
network failure or a schema violation reaches it as `Outcome.Failure`.

The model keeps these limits of the code as written:
- `retry` only increments the counter and resubmits nothing.
- `analyzeCase` has no guard against a call made while one is loading.
- It also does no validation of its own.
- `clear` in the hook does not touch the stored draft.

## Model

| member | source | states |
|---|---|---|
| `JsString.Trim` | src/lib/utils.ts:10 | the trimmed query neither starts nor ends with white space and is no longer than the query |
| `JsString.TrimSplit` | src/lib/utils.ts:10 | the query is a white-space prefix, then its trimmed text, then a white-space suffix: `trim` removes white space and nothing else |
| `JsString.TrimExact` | src/lib/utils.ts:10 | any white space put around an already-trimmed text is removed exactly, giving that text back |
| `JsString.TrimIgnoresPadding` | src/lib/utils.ts:10 | adding white space at either end of a string never changes its trimmed text |
| `JsString.TrimIdempotent` | src/lib/utils.ts:10 | trimming a trimmed text changes nothing |
| `JsString.Utf16Length` | src/lib/utils.ts:20-26 | `length` counts UTF-16 code units: between one and two per character, and zero exactly for the empty string |
| `JsString.NatToDecimal` | src/lib/utils.ts:56-58 | the decimal text of a natural number is a non-empty digit string with no leading zero, starting with `0` only for zero |
| `JsString.NumberToString` | src/lib/utils.ts:57 | the `${n}` text of an integer is non-empty and starts with `-` exactly when the integer is negative (its digits are `NatToDecimal`'s) |
| `JsString.NumberToStringRoundTrip` | src/lib/utils.ts:56-58 | the `${n}` text of every integer reads back as that integer |
| `JsString.ParseNumberExact` | src/lib/utils.ts:56-58 | a text that reads back as an integer is exactly that integer's `${n}` text, so integer-to-text is a bijection onto canonical decimal texts |
| `Utils.EmptyQueryMessage` | src/lib/utils.ts:15-17 | the empty-query message; the English text is plain ASCII and the Urdu text is not |
| `Utils.TooShortMessage` | src/lib/utils.ts:21-23 | the too-short message contains the decimal text of the minimum length 10, and is ASCII exactly in English |
| `Utils.TooLongMessage` | src/lib/utils.ts:27-29 | the too-long message contains the decimal text of the maximum length 2000, and is ASCII exactly in English |
| `Utils.ValidateQuery` | src/lib/utils.ts:9-33 | no message exactly when the trimmed length is between 10 and 2000 inclusive; otherwise one of the three messages of the chosen language (English by default) |
| `Utils.MessagesDistinct` | src/lib/utils.ts:14-30 | the empty, too-short and too-long messages of one language are three different texts |
| `Utils.ValidateQueryOrder` | src/lib/utils.ts:14-32 | each message fires exactly under its own rule, tried in order: a blank query gets the empty message and never the too-short one; a non-blank query under 10 gets the too-short message; one over 2000 gets the too-long message |
| `Utils.ValidateQueryLanguageIndependent` | src/lib/utils.ts:15-29 | English and Urdu accept the same queries and fire the same rule on every query; the language changes only the wording |
| `Utils.ValidateQueryIgnoresPadding` | src/lib/utils.ts:10 | white space added at either end of a query never changes what `validateQuery` returns |
| `Utils.FormatCharacterCount` | src/lib/utils.ts:56-58 | the counter text holds exactly one `/`, right after the decimal text of the current count |
| `Utils.FormatCharacterCountRoundTrip` | src/lib/utils.ts:56-58 | the counter text splits at its first `/` into the decimal texts of exactly the current count and the maximum |
| `Utils.ParseCharacterCountExact` | src/lib/utils.ts:56-58 | every text that reads back as a counter is the counter text of what it reads as, so the format is injective |
| `Utils.DraftStorage.SaveQueryToStorage` | src/lib/utils.ts:36-40 | with `window`, the draft key now maps to the query and a later read returns it; without it, nothing changes; no other key changes |
| `Utils.DraftStorage.GetQueryFromStorage` | src/lib/utils.ts:42-47 | returns the stored draft, or `None` when the key is absent or there is no `window` |
| `Utils.DraftStorage.ClearQueryFromStorage` | src/lib/utils.ts:49-53 | with `window`, the draft key is removed; afterwards a read returns `None`; no other key changes |
| `UseLegalAnalysis.FailureMessage` | src/hooks/use-legal-analysis.ts:42-44 | the message stored on failure; the English text is plain ASCII and the Urdu text is not |
| `UseLegalAnalysis.LegalAnalysis.constructor` | src/hooks/use-legal-analysis.ts:18-21 | starts not loading, with no result, no error and a retry count of 0, which satisfies the invariant |
| `UseLegalAnalysis.LegalAnalysis.Begin` | src/hooks/use-legal-analysis.ts:25-31 | sets loading and clears result and error, keeps the retry count, records the call's language, and sends the trimmed query with that language |
| `UseLegalAnalysis.LegalAnalysis.Complete` | src/hooks/use-legal-analysis.ts:30-54 | success stores the advice, resets the count to 0 and leaves no error; failure stores the failure message in the language `Begin` recorded for the same call, leaves no result and keeps the count; loading ends either way |
| `UseLegalAnalysis.LegalAnalysis.AnalyzeCase` | src/hooks/use-legal-analysis.ts:25-55 | the whole call: sends the trimmed query, ends not loading, and holds the advice or the message as in `Complete`, never both, and keeps the invariant |
| `UseLegalAnalysis.LegalAnalysis.Retry` | src/hooks/use-legal-analysis.ts:57-63 | adds 1 to the count while it is below 3 and otherwise does nothing; never touches result, error or loading; the count therefore never exceeds 3 |
| `UseLegalAnalysis.LegalAnalysis.Clear` | src/hooks/use-legal-analysis.ts:65-69 | clears result and error, resets the count to 0, and leaves loading as it was |

## Left out

- `cn` (src/lib/utils.ts:4-6): a wrapper over the `clsx` and `tailwind-merge` libraries, with no logic of its own.
- `isNearLimit` (src/lib/utils.ts:60-62): a floating-point comparison against `max * 0.9`.
- FormatCharacterCount: models integers written with all their digits, which is what JavaScript does for safe integers (magnitude at most 2^53). Beyond 2^53 a Number cannot hold every integer and prints its shortest round-tripping digits padded with zeros; from 10^21 it uses exponent notation such as `1e+21`. Fractions, `NaN` and `Infinity` are not modelled either.
- NumberToString: the same limit; it agrees with JavaScript's `${n}` only for integers of magnitude at most 2^53.
- DraftStorage: `localStorage` exceptions (quota exceeded, storage disabled) are not modelled. Each method either does its update or, without `window`, nothing.
- The prompt text, its templating, the output schema check and the language-model call in src/ai/flows/get-legal-advice.ts. They reach the hook only as an `Outcome`.
- The `toast` notifications and `console.error` calls inside `analyzeCase` (src/hooks/use-legal-analysis.ts:34-39, 41, 47-51). The model treats `toast` as never throwing. A throw after `setResult` would reach the `catch` and leave both a result and an error.
- React's `useState`/`useCallback` machinery: every callback is modelled as seeing the latest state. Two `retry` calls in the same render would read the same stale `retryCount` in the source, and could push it past 3.
- Overlapping `analyzeCase` calls: the hook has no guard, and a late reply can overwrite a newer one. The model runs one call as `Begin` followed by `Complete`. `Complete` requires the loading state that `Begin` leaves.
- src/app/law-plan-client.tsx and src/app/layout.tsx: page rendering, a `fetch` to the analysis endpoint, and focus and layout handling.
