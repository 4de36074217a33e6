/** The fact-history navigator of the random facts page: an append-only
    history of fetched facts, a cursor into it (-1 while nothing has been
    fetched), a loading flag and a nullable error message, together with the
    transitions the page's handlers perform on them. The transitions are given
    here as a pure step function; the class in module Browser performs them in
    place and is specified by it. */
module FactHistory {

  datatype Option<T> = None | Some(value: T)

  /** A fact as the provider returns it; `sourceUrl` may be absent. */
  datatype Fact = Fact(text: string, sourceUrl: Option<string>)

  /** The one message shown for every kind of failed fetch. */
  const FetchErrorMessage: string := "Failed to fetch a new fact. Please try again."

  /** What the awaited network call delivered. A delivered response carries its
      `ok` status and its decoded body, `None` when decoding the body throws;
      `Thrown` is a transport failure. */
  datatype Response = Response(ok: bool, body: Option<Fact>)
  datatype Transport = Delivered(response: Response) | Thrown

  /** The four fields of the page's state. */
  datatype BrowserState = BrowserState(
    facts: seq<Fact>,
    currentIndex: int,
    loading: bool,
    error: Option<string>)

  /** The state at mount: no facts, cursor -1, not loading, no error. */
  const Initial: BrowserState := BrowserState([], -1, false, None)

  /** The cursor invariant, and the error is either absent or the fixed message. */
  ghost predicate WellFormed(s: BrowserState) {
    && -1 <= s.currentIndex < |s.facts|
    && (s.currentIndex == -1 <==> s.facts == [])
    && (s.error == None || s.error == Some(FetchErrorMessage))
  }

  /** The transitions: the fetch as its synchronous start and its two
      completions, and the three navigation handlers. The fetch awaits twice,
      for the response and for its decoded body, but no field changes between
      the two awaits, so one completion covers both. */
  datatype Event =
    | FetchStart
    | FetchSucceeded(fact: Fact)
    | FetchFailed
    | GoToPrevious
    | GoToNext
    | GoToFact(index: int)

  /** How the body of the fetch ends for a given network result: a non-ok
      status, an undecodable body and a transport failure all land in the
      same catch branch. */
  function Completion(t: Transport): (e: Event)
    ensures e.FetchSucceeded? || e == FetchFailed
    ensures e.FetchSucceeded? <==> t.Delivered? && t.response.ok && t.response.body.Some?
    ensures e.FetchSucceeded? ==> e.fact == t.response.body.value
  {
    match t
    case Thrown => FetchFailed
    case Delivered(response) =>
      if !response.ok then FetchFailed
      else match response.body
        case None => FetchFailed
        case Some(f) => FetchSucceeded(f)
  }

  /** Setting `loading` and clearing `error` before the request goes out. */
  function Started(s: BrowserState): (t: BrowserState)
    ensures t.loading && t.error == None
    ensures t.facts == s.facts && t.currentIndex == s.currentIndex
  {
    s.(loading := true, error := None)
  }

  /** The effect of one transition. The old history is always a prefix of
      the new one, which is at most one fact longer. */
  function Step(s: BrowserState, e: Event): (t: BrowserState)
    ensures s.facts <= t.facts && |t.facts| <= |s.facts| + 1
  {
    match e
    case FetchStart => Started(s)
    case FetchSucceeded(f) =>
      s.(facts := s.facts + [f], currentIndex := |s.facts|, loading := false)
    case FetchFailed => s.(error := Some(FetchErrorMessage), loading := false)
    case GoToPrevious =>
      if s.currentIndex > 0 then s.(currentIndex := s.currentIndex - 1) else s
    case GoToNext =>
      if s.currentIndex < |s.facts| - 1 then s.(currentIndex := s.currentIndex + 1)
      else Started(s)
    case GoToFact(i) => s.(currentIndex := i)
  }

  /** The indices the page can pass to `GoToFact`: one per rendered history entry. */
  predicate Admissible(s: BrowserState, e: Event) {
    e.GoToFact? ==> 0 <= e.index < |s.facts|
  }

  /** The state after performing `events` one after another. */
  ghost function Run(s: BrowserState, events: seq<Event>): BrowserState
    decreases |events|
  {
    if events == [] then s else Run(Step(s, events[0]), events[1..])
  }

  ghost predicate AdmissibleRun(s: BrowserState, events: seq<Event>)
    decreases |events|
  {
    events == [] || (Admissible(s, events[0]) && AdmissibleRun(Step(s, events[0]), events[1..]))
  }

  /** The facts carried by the successful completions among `events`, in order. */
  ghost function Fetched(events: seq<Event>): seq<Fact>
    decreases |events|
  {
    if events == [] then []
    else (if events[0].FetchSucceeded? then [events[0].fact] else []) + Fetched(events[1..])
  }

  /** One successful fetch per fact of `fs`: start, then succeed. */
  ghost function SuccessfulFetches(fs: seq<Fact>): seq<Event>
    decreases |fs|
  {
    if fs == [] then [] else [FetchStart, FetchSucceeded(fs[0])] + SuccessfulFetches(fs[1..])
  }

  lemma RunPair(s: BrowserState, a: Event, b: Event)
    ensures Run(s, [a, b]) == Step(Step(s, a), b)
  {
    assert [a, b][1..] == [b];
    assert Run(s, [a, b]) == Run(Step(s, a), [b]);
    assert [b][1..] == [];
    assert Run(Step(s, a), [b]) == Run(Step(Step(s, a), b), []);
  }

  /** Running two event sequences one after the other is running their concatenation. */
  lemma {:induction false} RunConcat(s: BrowserState, xs: seq<Event>, ys: seq<Event>)
    ensures Run(s, xs + ys) == Run(Run(s, xs), ys)
    decreases |xs|
  {
    if xs == [] {
      assert xs + ys == ys;
    } else {
      assert (xs + ys)[0] == xs[0];
      assert (xs + ys)[1..] == xs[1..] + ys;
      RunConcat(Step(s, xs[0]), xs[1..], ys);
    }
  }

  /** Every admissible transition keeps the invariant. */
  lemma StepKeepsWellFormed(s: BrowserState, e: Event)
    requires WellFormed(s)
    requires Admissible(s, e)
    ensures WellFormed(Step(s, e))
  {
  }

  /** Only a successful completion changes the history, and it appends exactly
      its fact; the cursor then points at that fact. */
  lemma StepHistory(s: BrowserState, e: Event)
    ensures Step(s, e).facts == if e.FetchSucceeded? then s.facts + [e.fact] else s.facts
    ensures e.FetchSucceeded? ==> Step(s, e).currentIndex == |Step(s, e).facts| - 1
  {
  }

  /** `GoToPrevious` never moves the cursor below 0 and at 0 or -1 changes nothing. */
  lemma GoToPreviousBounded(s: BrowserState)
    ensures s.currentIndex > 0 ==> Step(s, GoToPrevious) == s.(currentIndex := s.currentIndex - 1)
    ensures s.currentIndex <= 0 ==> Step(s, GoToPrevious) == s
    ensures s.currentIndex >= 0 ==> Step(s, GoToPrevious).currentIndex >= 0
  {
  }

  /** `GoToNext` either advances by one without passing the last fact, or
      starts exactly one fetch and leaves the cursor alone. */
  lemma GoToNextAdvancesOrFetches(s: BrowserState)
    ensures s.currentIndex < |s.facts| - 1 ==>
      Step(s, GoToNext) == s.(currentIndex := s.currentIndex + 1)
      && Step(s, GoToNext).currentIndex <= |s.facts| - 1
    ensures s.currentIndex >= |s.facts| - 1 ==> Step(s, GoToNext) == Step(s, FetchStart)
  {
  }

  lemma {:induction false} RunKeepsWellFormed(s: BrowserState, events: seq<Event>)
    requires WellFormed(s)
    requires AdmissibleRun(s, events)
    ensures WellFormed(Run(s, events))
    decreases |events|
  {
    if events != [] {
      StepKeepsWellFormed(s, events[0]);
      RunKeepsWellFormed(Step(s, events[0]), events[1..]);
    }
  }

  /** The history is append-only: after any run it is the old history followed
      by the successfully fetched facts, in fetch order. */
  lemma {:induction false} RunAppendsFetched(s: BrowserState, events: seq<Event>)
    ensures Run(s, events).facts == s.facts + Fetched(events)
    decreases |events|
  {
    if events == [] {
      assert s.facts + [] == s.facts;
    } else {
      var t := Step(s, events[0]);
      StepHistory(s, events[0]);
      RunAppendsFetched(t, events[1..]);
      var added := if events[0].FetchSucceeded? then [events[0].fact] else [];
      assert t.facts == s.facts + added;
      assert s.facts + added + Fetched(events[1..]) == s.facts + (added + Fetched(events[1..]));
    }
  }

  /** After a series of successful fetches the history has grown by exactly
      those facts, and the cursor is on the last one with no error and not loading. */
  lemma {:induction false} SuccessfulFetchesAppend(s: BrowserState, fs: seq<Fact>)
    ensures Run(s, SuccessfulFetches(fs)).facts == s.facts + fs
    ensures fs != [] ==>
      var t := Run(s, SuccessfulFetches(fs));
      t.currentIndex == |t.facts| - 1 && !t.loading && t.error == None
    decreases |fs|
  {
    if fs == [] {
      assert s.facts + [] == s.facts;
    } else {
      var events := SuccessfulFetches(fs);
      var rest := SuccessfulFetches(fs[1..]);
      assert events[0] == FetchStart;
      assert events[1..][0] == FetchSucceeded(fs[0]);
      assert events[1..][1..] == rest;
      var t := Step(Step(s, FetchStart), FetchSucceeded(fs[0]));
      assert Run(s, events) == Run(t, rest);
      SuccessfulFetchesAppend(t, fs[1..]);
      assert t.facts + fs[1..] == s.facts + fs by {
        assert t.facts == s.facts + [fs[0]];
        assert [fs[0]] + fs[1..] == fs;
      }
    }
  }

  /** A failed fetch leaves history and cursor alone and sets the fixed
      message; a successful retry clears it again and appends normally. */
  lemma FailureThenRetry(s: BrowserState, f: Fact)
    ensures
      var failed := Run(s, [FetchStart, FetchFailed]);
      failed.facts == s.facts && failed.currentIndex == s.currentIndex
      && failed.error == Some(FetchErrorMessage) && !failed.loading
    ensures
      var retried := Run(s, [FetchStart, FetchFailed, FetchStart, FetchSucceeded(f)]);
      retried.facts == s.facts + [f] && retried.currentIndex == |s.facts|
      && retried.error == None && !retried.loading
  {
    RunPair(s, FetchStart, FetchFailed);
    var failed := Run(s, [FetchStart, FetchFailed]);
    RunPair(failed, FetchStart, FetchSucceeded(f));
    RunConcat(s, [FetchStart, FetchFailed], [FetchStart, FetchSucceeded(f)]);
    assert [FetchStart, FetchFailed] + [FetchStart, FetchSucceeded(f)]
      == [FetchStart, FetchFailed, FetchStart, FetchSucceeded(f)];
  }

  /** The walk-through: fetch A, fetch B via Next, Previous, click the entry
      for B, then a Next whose fetch fails. */
  lemma Walkthrough(a: Fact, b: Fact)
    ensures
      var s1 := Run(Initial, [FetchStart, FetchSucceeded(a)]);
      var s2 := Run(s1, [GoToNext, FetchSucceeded(b)]);
      var s3 := Step(s2, GoToPrevious);
      var s4 := Step(s3, GoToFact(1));
      var s5 := Run(s4, [GoToNext, FetchFailed]);
      && s1 == BrowserState([a], 0, false, None)
      && s2 == BrowserState([a, b], 1, false, None)
      && s3 == BrowserState([a, b], 0, false, None)
      && s4 == BrowserState([a, b], 1, false, None)
      && s5 == BrowserState([a, b], 1, false, Some(FetchErrorMessage))
  {
    RunPair(Initial, FetchStart, FetchSucceeded(a));
    var s1 := Run(Initial, [FetchStart, FetchSucceeded(a)]);
    RunPair(s1, GoToNext, FetchSucceeded(b));
    var s4 := Step(Step(Run(s1, [GoToNext, FetchSucceeded(b)]), GoToPrevious), GoToFact(1));
    RunPair(s4, GoToNext, FetchFailed);
  }
}
