# Remixer: a verified model of its remix logic

Remixer is a single-page React tool. The user pastes text, picks a remix
type (tweet, blog, formal or casual) and presses a button. After a one-second
pause the page shows a "remix" of the text. All of its logic sits in
`src/App.tsx`, and this project models two pieces of it:

- `mockRemix`, the local stand-in generator (module `Remix`). It puts a
  per-type emoji prefix first. Then come at most the first 100 code units of
  the text, then `...` when the text was longer, then a fixed trailer saying
  that this is a test version with no API connected.
- the `App` component's state and the `handleRemix` lifecycle (module
  `RemixApp`). This is a class `App` with the five state cells `inputText`,
  `outputText`, `isLoading`, `selectedType` and `error`, plus a `request`
  field for the in-flight `handleRemix` closure. The closure's captured input
  and type are the `Snapshot`.

Strings are JavaScript strings: sequences of UTF-16 code units, because
`slice` and `.length` count code units (module `JsText`). Each emoji prefix
is a surrogate pair followed by a space, so it is three code units long. The
model writes the program's literals through `Bmp` (one unit per character)
and `EncodeChar` (a surrogate pair for a character outside the Basic
Multilingual Plane). That keeps every constant, and every length computed
from one, equal to what a JavaScript engine stores.

`handleRemix` suspends once, at its `await`. The model therefore splits it
in two:

- `BeginRemix` is everything before the `await`: set `isLoading`, clear
  `error`, and keep the snapshot.
- `CompleteSuccess` or `CompleteFailure` is everything after it. Each one
  ends with the `finally` block that clears `isLoading`.

The button is disabled while `isLoading || !inputText`, so `BeginRemix`
requires `Enabled()`. `PressRemixButton` models a click that does nothing on
a disabled button. The object invariant `Valid()` says two things:

- a request is outstanding exactly while `isLoading` holds;
- no error is shown while a request is outstanding.

Each setter's `modifies` clause names only the fields it writes. So
"nothing else changes" is part of every method's contract.

The program makes no network call: the only generator is the local
`mockRemix`, and the error text is the Spanish literal at `src/App.tsx:40`.

## Model

| member | source | states |
|---|---|---|
| Remix.Label | src/App.tsx:5-10 | every remix type has a label, and it is non-empty |
| Remix.LabelsDistinct | src/App.tsx:5-10 | no two types share a label |
| Remix.AllTypesListedOnce | src/App.tsx:3-10 | the selector lists each of the four types exactly once |
| Remix.Prefix | src/App.tsx:14-19 | every type has a prefix: a high surrogate, a low surrogate (one emoji) and a space, three code units |
| Remix.PrefixesDistinct | src/App.tsx:14-19 | no two types share a prefix |
| Remix.SliceFromStart | src/App.tsx:21 | `text.slice(0, n)` is a prefix of the text of length min(length, n) |
| Remix.MockRemix | src/App.tsx:13-21 | the output begins with the type's prefix and ends with the 40-unit trailer; its length is 3 + min(length, 100) + (3 if the text is longer than 100, else 0) + 40, so at most 146 whatever the input |
| Remix.MockRemixMiddle | src/App.tsx:21 | between prefix and trailer sits the whole text when it has at most 100 code units, and otherwise its first 100 followed by `...` |
| Remix.ParseRemix | src/App.tsx:21 | a string accepted by the parser is exactly prefix + body + trailer for the type and body returned |
| Remix.ParseMockRemix | src/App.tsx:13-21 | parsing `mockRemix(text, type)` gives back `type` and the kept body: the parser is the inverse of the generator |
| Remix.MockRemixInjective | src/App.tsx:13-21 | equal outputs come from the same type and, when either text has at most 100 code units, from the same text |
| Remix.MockRemixIgnoresTail | src/App.tsx:21 | two texts longer than 100 code units with the same first 100 give the same output |
| RemixApp.App.constructor | src/App.tsx:25-29 | initial state: empty input, output and error, not loading, type tweet, no request |
| RemixApp.App.SetType | src/App.tsx:61 | selecting a type changes `selectedType` and nothing else |
| RemixApp.App.SetInput | src/App.tsx:78 | editing the text changes `inputText` and nothing else, even during a request |
| RemixApp.App.BeginRemix | src/App.tsx:31-33 | only when enabled; sets `isLoading`, clears `error`, records the snapshot of input and type; output, input and type unchanged |
| RemixApp.App.CompleteSuccess | src/App.tsx:34-43 | `outputText` becomes `mockRemix` of the snapshot taken at begin; `isLoading` is cleared; `error` stays empty; input and type unchanged |
| RemixApp.App.CompleteFailure | src/App.tsx:38-43 | `error` becomes the fixed message; `outputText` is untouched; `isLoading` is cleared |
| RemixApp.App.Enabled | src/App.tsx:90 | the remix button is enabled iff the app is not loading and the text is non-empty; when it is, no request is outstanding |
| RemixApp.FailureMessage | src/App.tsx:40 | the fixed Spanish failure message: 67 code units, none of them a surrogate |
| RemixApp.App.PressRemixButton | src/App.tsx:88-90 | a click starts a remix exactly when `!isLoading && inputText != ""`, and otherwise changes nothing |
| RemixApp.StaleSnapshotScenario | src/App.tsx:31-37 | edits to the text or the type made while a request is outstanding do not reach its output |
| RemixApp.DoubleClickScenario | src/App.tsx:88-90 | a second click while a remix is outstanding starts nothing: at most one request is in flight |
| RemixApp.FailureKeepsOutputScenario | src/App.tsx:32-43 | a failure after a success keeps the earlier output and shows the message; the next attempt clears the message |

## Left out

- JSX layout, Tailwind class names and the conditional display of the error and result panels (`src/App.tsx:46-105`): presentation only.
- The one-second `setTimeout` delay (`src/App.tsx:36`) and the browser's event loop: completion is a separate method call, not a timed event.
- `console.error` (`src/App.tsx:39`): a logging side effect.
- React's `useState` machinery and render batching: each setter takes effect at once. The model assumes that a click cannot reach a button that a pending re-render is about to disable.
- RemixApp.App.CompleteFailure: nothing in the `try` block can throw as written. The timer promise never rejects, and `mockRemix` is total on its inputs. The failure branch is kept as an event the environment may deliver, as the `catch` clause allows.
- Remix.MockRemix: the cut at 100 code units may split a surrogate pair and leave a lone high surrogate before `...`. The model keeps this, as `slice` does, and proves nothing about well-formed UTF-16 in the output.
- Grapheme clusters and emoji rendering: strings are code-unit sequences only.
