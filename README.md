# Random facts navigator — a Dafny model

The page `RandomFactsApp` fetches random facts from a remote provider and
keeps a history of them. Its state has four fields: the append-only list of
fetched facts, a cursor into that list (`-1` until the first fact arrives),
a loading flag, and a nullable error message. The handlers move the cursor
back, forward or to a clicked entry. Moving forward from the last fact
fetches a new one. What the page shows is a pure function of the four fields.

The model has three modules:

- `FactHistory` (history.dfy) holds the values. These are `Fact`, the network
  result `Transport`, the state snapshot `BrowserState` and the transitions
  `Event`. `Step` gives each handler's effect as a pure function. `Run` applies
  a sequence of events. The lemmas cover multi-step behaviour: the cursor
  invariant is kept, the history is append-only, and a series of successful
  fetches is appended in order. A failed fetch and its retry are covered too,
  as is the full walk-through of fetching A and B, going back, clicking an
  entry, and a failed fetch.
- `Browser` (browser.dfy) holds the class `FactBrowser`. It has the four
  fields, and each handler is a method with `modifies this`. The asynchronous
  fetch awaits twice: for the response and for its decoded body. No field
  changes between the two awaits, so one resume point covers both.
  `FetchStart` is the synchronous part.
  `FetchSucceeded` and `FetchFailed` are the two ways the `try` ends, and each
  also does the `finally`. `CompleteFetch` picks between them from the network
  result. `FetchRandomFact` is the whole call. Each method states the whole
  new state field by field and as `Step` applied to the old `State()`. It also
  states that it keeps the invariant `Valid()`. `PageWalkthrough` is a client
  that replays the walk-through on an object.
- `Render` (render.dfy) holds the projections. These are the main panel
  (loading, then error, then current fact with its counter, then the empty
  message), the Previous and Next buttons, and the history entries with their
  80-character previews. The lemmas tie each button to the handler it
  triggers.

The network call is an input. `Transport` is either a delivered response
(its `ok` status and its decoded body, absent when decoding throws) or a
thrown transport error. `Completion` maps every failure kind to the same
catch branch.

Conditions are modelled with the page's own truthiness:

- `error ? … : …` holds for a present, non-empty string.
- `currentFact ? … : …` holds exactly when the cursor is inside the history,
  because `facts[currentIndex]` then yields a fact object.
- `source_url || 'Unknown'` falls back for an absent or empty url.

`goToFact` (random-facts-app/src/App.jsx:46-48) sets the cursor
unconditionally, and so does the model. The invariant is proved to survive
`GoToFact(i)` only for `0 <= i < |facts|`. These are the indices the history
list passes (random-facts-app/src/App.jsx:124, 132; `Admissible`, and
`Render.ClickHistoryEntry`).

## Model

| member | source | states |
|---|---|---|
| FactHistory.Completion | random-facts-app/src/App.jsx:13-25 | the fetch succeeds exactly when the response is delivered, ok and decodes; then it carries the decoded fact, and every other case is the single failure |
| FactHistory.Started | random-facts-app/src/App.jsx:10-11 | the start of a fetch sets loading, clears the error, and leaves history and cursor unchanged |
| FactHistory.Step | random-facts-app/src/App.jsx:9-48 | the effect of each handler and of each fetch completion; the old history is always a prefix of the new one, which is at most one fact longer (per-transition properties in StepHistory, GoToPreviousBounded, GoToNextAdvancesOrFetches and StepKeepsWellFormed) |
| FactHistory.StepKeepsWellFormed | random-facts-app/src/App.jsx:4-48 | every transition keeps the cursor invariant (`-1 <= currentIndex < |facts|`, `-1` exactly when empty) and keeps the error absent or the fixed message, for goToFact when the index is one the history list can pass |
| FactHistory.StepHistory | random-facts-app/src/App.jsx:20-23 | only a successful fetch changes the history, by appending exactly its fact, and the cursor then points at it |
| FactHistory.GoToPreviousBounded | random-facts-app/src/App.jsx:31-35 | goToPrevious decrements only above 0 and is a no-op at 0 or -1; it never takes the cursor below 0 |
| FactHistory.GoToNextAdvancesOrFetches | random-facts-app/src/App.jsx:37-44 | goToNext advances by exactly one without passing the last index, or else acts exactly as a fetch start |
| FactHistory.RunKeepsWellFormed | random-facts-app/src/App.jsx:4-48 | the invariant holds after any admissible sequence of transitions |
| FactHistory.RunAppendsFetched | random-facts-app/src/App.jsx:20-23 | after any sequence of transitions the history is the old history followed by the successfully fetched facts, in fetch order |
| FactHistory.SuccessfulFetchesAppend | random-facts-app/src/App.jsx:9-29 | after n successful fetches the history has grown by exactly those n facts, and the cursor is on the last one, with no error and not loading |
| FactHistory.FailureThenRetry | random-facts-app/src/App.jsx:9-29 | a failed fetch leaves history and cursor unchanged and sets the fixed message, not loading; a successful retry clears the error and appends normally |
| FactHistory.Walkthrough | random-facts-app/src/App.jsx:9-48 | the walk-through (fetch A; Next fetches B; Previous; click B; Next fails) ends in exactly the stated states |
| Browser.FactBrowser.constructor | random-facts-app/src/App.jsx:4-7 | initial state: no facts, cursor -1, not loading, no error; the invariant holds |
| Browser.FactBrowser.FetchStart | random-facts-app/src/App.jsx:10-11 | sets loading, clears the error, leaves history and cursor |
| Browser.FactBrowser.FetchSucceeded | random-facts-app/src/App.jsx:20-27 | appends the fact at the end with earlier facts unchanged, puts the cursor on it, clears loading |
| Browser.FactBrowser.FetchFailed | random-facts-app/src/App.jsx:24-28 | sets the fixed message, clears loading, leaves history and cursor |
| Browser.FactBrowser.CompleteFetch | random-facts-app/src/App.jsx:13-28 | resumes after the two awaits: success or failure exactly as `Completion` decides, loading cleared either way |
| Browser.FactBrowser.FetchRandomFact | random-facts-app/src/App.jsx:9-29 | whole fetch: on success one fact appended, cursor on it, no error; on failure history and cursor unchanged with the fixed message; never left loading |
| Browser.FactBrowser.GoToPrevious | random-facts-app/src/App.jsx:31-35 | decrements only above 0, never below 0, nothing else changes |
| Browser.FactBrowser.GoToNext | random-facts-app/src/App.jsx:37-44 | advances by one while before the last fact; otherwise starts exactly one fetch with the cursor unchanged; the history is never changed |
| Browser.FactBrowser.GoToFact | random-facts-app/src/App.jsx:46-48 | sets the cursor to the index unconditionally and nothing else; an in-range index keeps the invariant |
| Render.CurrentFact | random-facts-app/src/App.jsx:55 | the current fact exists exactly when the cursor is inside the history, and is the fact at the cursor |
| Render.SourceLabel | random-facts-app/src/App.jsx:87 | the source line is the url when present and non-empty, otherwise "Unknown"; never empty |
| Render.ShownPanel | random-facts-app/src/App.jsx:72-93 | panel priority loading > error > current fact > empty; a shown fact has counter `1 <= currentIndex + 1 <= |facts|` and is the fact at the cursor |
| Render.PreviousDisabled | random-facts-app/src/App.jsx:100 | Previous is disabled while loading; when it is enabled, its handler moves the cursor back by one (the converse is in PreviousButtonMatchesHandler) |
| Render.NextDisabled | random-facts-app/src/App.jsx:108 | Next is disabled exactly while the loading panel is shown |
| Render.NextLabel | random-facts-app/src/App.jsx:111 | the label is "Next" exactly when `currentIndex < |facts| - 1`, and "Get New Fact" exactly otherwise |
| Render.Preview | random-facts-app/src/App.jsx:135-138 | a text over 80 characters previews as its first 80 characters and "..." (length 83); a shorter one as itself |
| Render.EntriesFrom | random-facts-app/src/App.jsx:124-144 | one entry per fact in order, with its preview, its 1-based number, selected exactly at the cursor |
| Render.HistoryEntries | random-facts-app/src/App.jsx:124-144 | one entry per fact, in order; entry k previews fact k, is numbered k + 1 and is selected exactly when k is the cursor |
| Render.NoFactsYetShown | random-facts-app/src/App.jsx:146-148 | "No facts yet" is shown exactly when the history list is empty |
| Render.PanelOnWellFormed | random-facts-app/src/App.jsx:72-93 | on a well-formed state the error panel shows the fixed message exactly when an error is set, and a fact is shown exactly when not loading, no error and the history is non-empty; "No facts yet" appears exactly when the cursor is -1 |
| Render.FetchPanels | random-facts-app/src/App.jsx:9-29 | during a fetch the loading panel is shown; after success the new fact is shown as "Fact #n of n"; after failure the fixed message |
| Render.PreviousButtonMatchesHandler | random-facts-app/src/App.jsx:99-100 | outside loading, Previous is disabled exactly when its handler would change nothing; when enabled it moves back by one |
| Render.NextButtonMatchesHandler | random-facts-app/src/App.jsx:106-111 | the label "Next" is shown exactly when its handler advances the cursor; under "Get New Fact" the handler starts a fetch |
| Render.ButtonsLockedWhileFetching | random-facts-app/src/App.jsx:98-112 | immediately after a fetch starts, directly or from Next at the end of the history, both Previous and Next are disabled; after either completion Next is enabled again |
| Render.ButtonsStayLocked | random-facts-app/src/App.jsx:9-112 | from a loading state, every sequence of events that contains no fetch completion (history clicks included) keeps loading set and both buttons disabled |
| Render.ClickHistoryEntry | random-facts-app/src/App.jsx:124-132 | on a well-formed state only the entry at the cursor is selected; clicking entry k is admissible, changes only the cursor to k, keeps the invariant and selects entry k |

## Left out

- The request to the provider and the decoding of its JSON body (random-facts-app/src/App.jsx:14, 18) are network I/O. They are an input, `Transport`.
- The mount-time automatic fetch (random-facts-app/src/App.jsx:51-53) is not modelled. It is a framework effect, equivalent to calling `FetchRandomFact` once after the constructor.
- Setter batching, stale closures, and interleavings of concurrent fetches are framework concurrency. They are not modelled: every transition is atomic and they happen one after another.
- Previous and Next are disabled during loading (random-facts-app/src/App.jsx:100, 108). This is modelled for the buttons (`PreviousDisabled`, `NextDisabled`). The handlers themselves do not check it, and neither does the model.
- Layout, styling, the highlight colours of the selected entry, and the static texts ("Loading...", "No fact available", the "History (n facts)" heading) are markup. Of the history list's decisions, only the entries, the selection at the cursor (`EntriesFrom`), and whether "No facts yet" appears (`NoFactsYetShown`) are kept.
- Text is modelled as sequences of characters. JavaScript's UTF-16 `substring` and `length` are not modelled, so the 80-character cut counts characters of the sequence.
