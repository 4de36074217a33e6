/** What the page shows for a given state: the main panel, the two
    navigation buttons and the history list. Each is a pure projection of a
    `BrowserState`; the lemmas relate them to the handlers of the page. */
module Render {
  import opened FactHistory

  /** The main panel, in the order the page tests for them. `ShowFact`
      carries the text, the source line and the "Fact #number of total" counter. */
  datatype Panel =
    | Loading
    | ShowError(message: string)
    | ShowFact(text: string, source: string, number: int, total: int)
    | NoFact

  /** One history entry: the preview, its 1-based position and whether it
      is the entry at the cursor. */
  datatype Entry = Entry(preview: string, number: int, selected: bool)

  const PreviewLimit: nat := 80
  const Ellipsis: string := "..."
  const NextLabelAdvance: string := "Next"
  const NextLabelFetch: string := "Get New Fact"
  const UnknownSource: string := "Unknown"

  /** Whether a nullable string is truthy as a condition: present and non-empty. */
  predicate Truthy(o: Option<string>) {
    o.Some? && o.value != ""
  }

  /** `facts[currentIndex]`: a fact exactly when the cursor is inside the history. */
  function CurrentFact(s: BrowserState): (r: Option<Fact>)
    ensures r.Some? <==> 0 <= s.currentIndex < |s.facts|
    ensures r.Some? ==> r.value in s.facts && r.value == s.facts[s.currentIndex]
  {
    if 0 <= s.currentIndex < |s.facts| then Some(s.facts[s.currentIndex]) else None
  }

  /** The source line: the fact's url when it is present and non-empty, else "Unknown". */
  function SourceLabel(f: Fact): (r: string)
    ensures r != ""
    ensures Truthy(f.sourceUrl) ==> r == f.sourceUrl.value
    ensures !Truthy(f.sourceUrl) ==> r == UnknownSource
  {
    if Truthy(f.sourceUrl) then f.sourceUrl.value else UnknownSource
  }

  /** The main panel: loading before error before the current fact before the empty message. */
  function ShownPanel(s: BrowserState): (p: Panel)
    ensures p.Loading? <==> s.loading
    ensures p.ShowError? <==> !s.loading && Truthy(s.error)
    ensures p.ShowError? ==> p.message == s.error.value
    ensures p.ShowFact? <==> !s.loading && !Truthy(s.error) && CurrentFact(s).Some?
    ensures p.ShowFact? ==>
      && 1 <= p.number <= p.total
      && p.total == |s.facts|
      && p.number == s.currentIndex + 1
      && p.text == s.facts[p.number - 1].text
      && p.source == SourceLabel(s.facts[p.number - 1])
    ensures p.NoFact? <==> !s.loading && !Truthy(s.error) && CurrentFact(s).None?
  {
    if s.loading then Loading
    else if Truthy(s.error) then ShowError(s.error.value)
    else match CurrentFact(s)
      case Some(f) => ShowFact(f.text, SourceLabel(f), s.currentIndex + 1, |s.facts|)
      case None => NoFact
  }

  /** Previous is disabled at the first fact, before any fact, and while loading. */
  function PreviousDisabled(s: BrowserState): (disabled: bool)
    ensures s.loading ==> disabled
    ensures !disabled ==> Step(s, GoToPrevious).currentIndex == s.currentIndex - 1
  {
    s.currentIndex <= 0 || s.loading
  }

  /** Next is disabled exactly while the loading panel is shown. */
  function NextDisabled(s: BrowserState): (disabled: bool)
    ensures disabled <==> ShownPanel(s).Loading?
  {
    s.loading
  }

  /** The Next button's label: "Next" while there is a later fact in the
      history, "Get New Fact" otherwise. */
  function NextLabel(s: BrowserState): (caption: string)
    ensures caption == NextLabelAdvance <==> s.currentIndex < |s.facts| - 1
    ensures caption == NextLabelFetch <==> s.currentIndex >= |s.facts| - 1
  {
    if s.currentIndex < |s.facts| - 1 then NextLabelAdvance else NextLabelFetch
  }

  /** The history preview: the text itself when it has at most 80
      characters, otherwise its first 80 characters and an ellipsis. */
  function Preview(text: string): (p: string)
    ensures |text| <= PreviewLimit ==> p == text
    ensures |text| > PreviewLimit ==>
      |p| == PreviewLimit + |Ellipsis| && p[..PreviewLimit] == text[..PreviewLimit]
      && p[PreviewLimit..] == Ellipsis
    ensures |p| <= PreviewLimit + |Ellipsis|
  {
    if |text| > PreviewLimit then text[..PreviewLimit] + Ellipsis else text
  }

  /** The entries for `facts`, the first of them at history position `first`. */
  function EntriesFrom(facts: seq<Fact>, first: int, cursor: int): (entries: seq<Entry>)
    decreases |facts|
    ensures |entries| == |facts|
    ensures forall k :: 0 <= k < |facts| ==>
      entries[k] == Entry(Preview(facts[k].text), first + k + 1, first + k == cursor)
  {
    if facts == [] then []
    else [Entry(Preview(facts[0].text), first + 1, first == cursor)]
         + EntriesFrom(facts[1..], first + 1, cursor)
  }

  /** The history list: one entry per fact, in history order, numbered from
      1, with the entry at the cursor selected. */
  function HistoryEntries(s: BrowserState): (entries: seq<Entry>)
    ensures |entries| == |s.facts|
    ensures forall k :: 0 <= k < |entries| ==>
      && entries[k].preview == Preview(s.facts[k].text)
      && entries[k].number == k + 1
      && (entries[k].selected <==> k == s.currentIndex)
  {
    EntriesFrom(s.facts, 0, s.currentIndex)
  }

  /** The "No facts yet" line under the list: shown exactly when the list is empty. */
  function NoFactsYetShown(s: BrowserState): (shown: bool)
    ensures shown <==> HistoryEntries(s) == []
  {
    |s.facts| == 0
  }

  /** On a well-formed state the error panel shows exactly the fixed message,
      and a fact is shown exactly when the history is non-empty. */
  lemma PanelOnWellFormed(s: BrowserState)
    requires WellFormed(s)
    ensures ShownPanel(s).ShowError? <==> !s.loading && s.error.Some?
    ensures ShownPanel(s).ShowError? ==> ShownPanel(s).message == FetchErrorMessage
    ensures ShownPanel(s).ShowFact? <==> !s.loading && s.error == None && s.facts != []
    ensures ShownPanel(s).NoFact? <==> !s.loading && s.error == None && s.facts == []
    ensures NoFactsYetShown(s) <==> s.currentIndex == -1
  {
  }

  /** While a fetch is in flight the loading panel is shown; a successful
      fetch then shows the new fact as the last of the history, a failed one
      shows the fixed message. */
  lemma FetchPanels(s: BrowserState, f: Fact)
    ensures ShownPanel(Step(s, FetchStart)) == Loading
    ensures ShownPanel(Step(Step(s, FetchStart), FetchSucceeded(f)))
      == ShowFact(f.text, SourceLabel(f), |s.facts| + 1, |s.facts| + 1)
    ensures ShownPanel(Step(Step(s, FetchStart), FetchFailed)) == ShowError(FetchErrorMessage)
  {
  }

  /** Outside loading, the Previous button is enabled exactly when pressing
      it moves the cursor, and then it moves it back by exactly one. */
  lemma PreviousButtonMatchesHandler(s: BrowserState)
    ensures !s.loading ==> (PreviousDisabled(s) <==> Step(s, GoToPrevious) == s)
    ensures !PreviousDisabled(s) ==>
      Step(s, GoToPrevious) == s.(currentIndex := s.currentIndex - 1)
  {
  }

  /** The label "Next" is shown exactly when pressing Next advances the
      cursor; under "Get New Fact" pressing it starts a fetch and nothing else. */
  lemma NextButtonMatchesHandler(s: BrowserState)
    ensures NextLabel(s) == NextLabelAdvance <==> Step(s, GoToNext).currentIndex == s.currentIndex + 1
    ensures NextLabel(s) == NextLabelFetch ==> Step(s, GoToNext) == Step(s, FetchStart)
  {
  }

  /** Immediately after a fetch starts, from the fetch itself or from Next
      at the end of the history, both buttons are disabled; after either
      completion Next is enabled again. */
  lemma ButtonsLockedWhileFetching(s: BrowserState)
    ensures PreviousDisabled(Step(s, FetchStart)) && NextDisabled(Step(s, FetchStart))
    ensures NextLabel(s) == NextLabelFetch ==>
      PreviousDisabled(Step(s, GoToNext)) && NextDisabled(Step(s, GoToNext))
    ensures !NextDisabled(Step(Step(s, FetchStart), FetchFailed))
    ensures forall f: Fact :: !NextDisabled(Step(Step(s, FetchStart), FetchSucceeded(f)))
  {
  }

  /** While a fetch is in flight, no event other than its completion
      clears the loading flag: whatever the user does in between (history
      clicks stay possible, as does any handler called directly), both
      buttons stay disabled, so neither can start a second fetch. */
  lemma {:induction false} ButtonsStayLocked(s: BrowserState, events: seq<Event>)
    requires s.loading
    requires forall i :: 0 <= i < |events| ==> !events[i].FetchSucceeded? && !events[i].FetchFailed?
    ensures Run(s, events).loading
    ensures PreviousDisabled(Run(s, events)) && NextDisabled(Run(s, events))
    decreases |events|
  {
    if events != [] {
      assert forall i :: 0 <= i < |events[1..]| ==> events[1..][i] == events[i + 1];
      ButtonsStayLocked(Step(s, events[0]), events[1..]);
    }
  }

  /** On a non-empty well-formed state exactly the entry at the cursor is
      selected; clicking entry `k` selects it, keeps the state well-formed
      and changes nothing but the cursor. */
  lemma ClickHistoryEntry(s: BrowserState, k: int)
    requires WellFormed(s)
    requires 0 <= k < |HistoryEntries(s)|
    ensures HistoryEntries(s)[s.currentIndex].selected
    ensures forall j :: 0 <= j < |HistoryEntries(s)| && HistoryEntries(s)[j].selected ==> j == s.currentIndex
    ensures Admissible(s, GoToFact(k))
    ensures Step(s, GoToFact(k)) == s.(currentIndex := k)
    ensures WellFormed(Step(s, GoToFact(k)))
    ensures HistoryEntries(Step(s, GoToFact(k)))[k].selected
    ensures HistoryEntries(Step(s, GoToFact(k)))[k].number == k + 1
  {
  }
}
