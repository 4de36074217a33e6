/** The page component's state as an object whose fields the handlers update
    in place. Every method is specified both field by field and as the pure
    transition `FactHistory.Step` on the snapshot `State()`. */
module Browser {
  import opened FactHistory

  class FactBrowser {
    var facts: seq<Fact>
    var currentIndex: int
    var loading: bool
    var error: Option<string>

    /** The current values of the four fields. */
    function State(): BrowserState
      reads this
    {
      BrowserState(facts, currentIndex, loading, error)
    }

    ghost predicate Valid()
      reads this
    {
      WellFormed(State())
    }

    /** Mounting: empty history, cursor -1, not loading, no error. */
    constructor ()
      ensures facts == [] && currentIndex == -1 && !loading && error == None
      ensures State() == Initial
      ensures Valid()
    {
      facts := [];
      currentIndex := -1;
      loading := false;
      error := None;
    }

    /** The synchronous part of the fetch, up to the awaited request. */
    method FetchStart()
      modifies this
      ensures loading && error == None
      ensures facts == old(facts) && currentIndex == old(currentIndex)
      ensures State() == Step(old(State()), Event.FetchStart)
      ensures old(Valid()) ==> Valid()
    {
      loading := true;
      error := None;
    }

    /** The request delivered fact `f`: append it, point the cursor at it,
        and clear the loading flag in the `finally` branch. */
    method FetchSucceeded(f: Fact)
      modifies this
      ensures facts == old(facts) + [f]
      ensures currentIndex == |facts| - 1
      ensures !loading && error == old(error)
      ensures State() == Step(old(State()), Event.FetchSucceeded(f))
      ensures old(Valid()) ==> Valid()
    {
      var newFacts := facts + [f];
      facts := newFacts;
      currentIndex := |newFacts| - 1;
      loading := false;
    }

    /** The request failed in any way: set the fixed message, clear the
        loading flag, leave history and cursor as they were. */
    method FetchFailed()
      modifies this
      ensures error == Some(FetchErrorMessage) && !loading
      ensures facts == old(facts) && currentIndex == old(currentIndex)
      ensures State() == Step(old(State()), Event.FetchFailed)
      ensures old(Valid()) ==> Valid()
    {
      error := Some(FetchErrorMessage);
      loading := false;
    }

    /** Resumes the fetch with what the network delivered. The fetch awaits
        the response and then its decoded body; no field changes between the
        two awaits, so this one resume point covers both. */
    method CompleteFetch(t: Transport) returns (succeeded: bool)
      modifies this
      ensures succeeded <==> Completion(t).FetchSucceeded?
      ensures !loading
      ensures succeeded ==>
        facts == old(facts) + [Completion(t).fact] && currentIndex == |facts| - 1 && error == old(error)
      ensures !succeeded ==>
        facts == old(facts) && currentIndex == old(currentIndex) && error == Some(FetchErrorMessage)
      ensures State() == Step(old(State()), Completion(t))
      ensures old(Valid()) ==> Valid()
    {
      match Completion(t)
      case FetchSucceeded(f) =>
        FetchSucceeded(f);
        succeeded := true;
      case FetchFailed =>
        FetchFailed();
        succeeded := false;
    }

    /** A whole fetch, start to finish, with `t` standing for the network. */
    method FetchRandomFact(t: Transport) returns (succeeded: bool)
      modifies this
      ensures succeeded <==> Completion(t).FetchSucceeded?
      ensures !loading
      ensures succeeded ==>
        facts == old(facts) + [Completion(t).fact] && currentIndex == |facts| - 1 && error == None
      ensures !succeeded ==>
        facts == old(facts) && currentIndex == old(currentIndex) && error == Some(FetchErrorMessage)
      ensures State() == Step(Step(old(State()), Event.FetchStart), Completion(t))
      ensures old(Valid()) ==> Valid()
    {
      FetchStart();
      succeeded := CompleteFetch(t);
    }

    /** Moves the cursor back by one when it is above 0; otherwise does nothing. */
    method GoToPrevious()
      modifies this
      ensures currentIndex == if old(currentIndex) > 0 then old(currentIndex) - 1 else old(currentIndex)
      ensures old(currentIndex) >= 0 ==> currentIndex >= 0
      ensures facts == old(facts) && loading == old(loading) && error == old(error)
      ensures State() == Step(old(State()), Event.GoToPrevious)
      ensures old(Valid()) ==> Valid()
    {
      if currentIndex > 0 {
        currentIndex := currentIndex - 1;
      }
    }

    /** Moves the cursor forward by one when it is before the last fact;
        otherwise starts a fetch, whose completion `CompleteFetch` performs. */
    method GoToNext() returns (fetchStarted: bool)
      modifies this
      ensures fetchStarted <==> old(currentIndex) >= |old(facts)| - 1
      ensures facts == old(facts)
      ensures !fetchStarted ==>
        currentIndex == old(currentIndex) + 1 <= |facts| - 1 && loading == old(loading) && error == old(error)
      ensures fetchStarted ==> currentIndex == old(currentIndex) && loading && error == None
      ensures State() == Step(old(State()), Event.GoToNext)
      ensures old(Valid()) ==> Valid()
    {
      if currentIndex < |facts| - 1 {
        currentIndex := currentIndex + 1;
        fetchStarted := false;
      } else {
        FetchStart();
        fetchStarted := true;
      }
    }

    /** Sets the cursor to `index`, whatever it is. */
    method GoToFact(index: int)
      modifies this
      ensures currentIndex == index
      ensures facts == old(facts) && loading == old(loading) && error == old(error)
      ensures State() == Step(old(State()), Event.GoToFact(index))
      ensures old(Valid()) && 0 <= index < |facts| ==> Valid()
    {
      currentIndex := index;
    }
  }

  /** The walk-through driven through the object: fetch A, fetch B with Next,
      Previous, click the entry for B, then a Next whose fetch fails. */
  method PageWalkthrough(a: Fact, b: Fact)
  {
    var page := new FactBrowser();
    var ok := page.FetchRandomFact(Delivered(Response(true, Some(a))));
    assert ok && page.facts == [a] && page.currentIndex == 0;
    var fetching := page.GoToNext();
    assert fetching && page.loading;
    ok := page.CompleteFetch(Delivered(Response(true, Some(b))));
    assert page.facts == [a, b] && page.currentIndex == 1 && page.error == None;
    page.GoToPrevious();
    assert page.facts == [a, b] && page.currentIndex == 0;
    page.GoToFact(1);
    assert page.currentIndex == 1;
    fetching := page.GoToNext();
    ok := page.CompleteFetch(Thrown);
    assert !ok && page.facts == [a, b] && page.currentIndex == 1;
    assert page.error == Some(FetchErrorMessage) && !page.loading && page.Valid();
  }
}
