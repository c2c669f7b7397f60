/**
 * The network-event listener of fetchDetails. It watches the browser's event
 * stream for the two GraphQL requests the profile page issues, remembers
 * their request ids, counts down as their loading finishes and sends on the
 * `done` channel once the count is zero.
 *
 * The listener is a callback invoked once per event; here it is a step
 * function over the captured variables, and the channel is the number of
 * values sent on it. Events other than RequestWillBeSent and LoadingFinished
 * fall through the type switch and are modelled as `Ignored`.
 */
module ResponseCorrelator {

  import Strings

  const SubmissionsMarker: string := "recentAcSubmissions"
  const ContestMarker: string := "userContestRankingInfo"
  const ExpectedRequests: int := 2

  datatype Event =
    | RequestWillBeSent(requestId: string, postData: string)
    | LoadingFinished(requestId: string)
    | Ignored

  /**
   * The variables the listener captures: both request ids (Go's zero value,
   * the empty string, until bound), numberOfRequestsToWaitFor, and how many
   * times `true` was sent on `done`.
   */
  datatype ListenerState = ListenerState(submissionId: string, contestId: string, remaining: int, signals: nat)

  const Initial: ListenerState := ListenerState("", "", ExpectedRequests, 0)

  /** A request whose payload (re)binds the submissions id. */
  predicate BindsSubmission(ev: Event)
  {
    ev.RequestWillBeSent? && Strings.Contains(ev.postData, SubmissionsMarker)
  }

  /** A request whose payload (re)binds the contest id: the submissions test takes precedence. */
  predicate BindsContest(ev: Event)
  {
    ev.RequestWillBeSent? && !Strings.Contains(ev.postData, SubmissionsMarker) && Strings.Contains(ev.postData, ContestMarker)
  }

  /** The listener's reaction to one event. */
  function Step(s: ListenerState, ev: Event): ListenerState
  {
    match ev
    case RequestWillBeSent(id, postData) =>
      if Strings.Contains(postData, SubmissionsMarker) then s.(submissionId := id)
      else if Strings.Contains(postData, ContestMarker) then s.(contestId := id)
      else s
    case LoadingFinished(id) =>
      var remaining := if id == s.submissionId || id == s.contestId then s.remaining - 1 else s.remaining;
      s.(remaining := remaining, signals := if remaining == 0 then s.signals + 1 else s.signals)
    case Ignored => s
  }

  /** The listener's state after a stream of events, delivered in order. */
  function Run(s: ListenerState, events: seq<Event>): ListenerState
    decreases |events|
  {
    if |events| == 0 then s else Step(Run(s, events[..|events| - 1]), events[|events| - 1])
  }

  /** The closure's captured variables, updated in place by each callback. */
  class Correlator {
    var submissionId: string
    var contestId: string
    var remaining: int
    var signals: nat

    function Current(): ListenerState
      reads this
    {
      ListenerState(submissionId, contestId, remaining, signals)
    }

    constructor ()
      ensures Current() == Initial
    {
      submissionId, contestId := "", "";
      remaining := ExpectedRequests;
      signals := 0;
    }

    /** A request binds the submissions id if its payload names them, else possibly the contest id. */
    method OnRequestWillBeSent(requestId: string, postData: string)
      modifies this
      ensures Strings.Contains(postData, SubmissionsMarker) ==>
        submissionId == requestId && contestId == old(contestId)
      ensures !Strings.Contains(postData, SubmissionsMarker) && Strings.Contains(postData, ContestMarker) ==>
        submissionId == old(submissionId) && contestId == requestId
      ensures !Strings.Contains(postData, SubmissionsMarker) && !Strings.Contains(postData, ContestMarker) ==>
        submissionId == old(submissionId) && contestId == old(contestId)
      ensures remaining == old(remaining) && signals == old(signals)
    {
      if Strings.Contains(postData, SubmissionsMarker) {
        submissionId := requestId;
      } else if Strings.Contains(postData, ContestMarker) {
        contestId := requestId;
      }
    }

    /**
     * A finish of either bound id counts down once; after every finish, related
     * or not, a zero count sends on `done`.
     */
    method OnLoadingFinished(requestId: string)
      modifies this
      ensures submissionId == old(submissionId) && contestId == old(contestId)
      ensures remaining == old(remaining) - (if requestId == old(submissionId) || requestId == old(contestId) then 1 else 0)
      ensures signals == old(signals) + (if remaining == 0 then 1 else 0)
    {
      if requestId == submissionId || requestId == contestId {
        remaining := remaining - 1;
      }
      if remaining == 0 {
        signals := signals + 1;
      }
    }

    /** The type switch of the listener. */
    method Handle(ev: Event)
      modifies this
      ensures Current() == Step(old(Current()), ev)
    {
      match ev {
        case RequestWillBeSent(id, postData) => OnRequestWillBeSent(id, postData);
        case LoadingFinished(id) => OnLoadingFinished(id);
        case Ignored =>
      }
    }
  }

  /** A fresh listener fed a stream of events ends in the state Run describes. */
  method Listen(events: seq<Event>) returns (final: ListenerState)
    ensures final == Run(Initial, events)
  {
    var listener := new Correlator();
    for i := 0 to |events|
      invariant listener.Current() == Run(Initial, events[..i])
    {
      assert events[..i + 1][..i] == events[..i];
      listener.Handle(events[i]);
    }
    assert events[..|events|] == events;
    final := listener.Current();
  }

  /** Request events never touch the count or the channel. */
  lemma {:induction false} RequestsNeverCount(s: ListenerState, events: seq<Event>)
    requires forall k :: 0 <= k < |events| ==> !events[k].LoadingFinished?
    ensures Run(s, events).remaining == s.remaining && Run(s, events).signals == s.signals
    decreases |events|
  {
    if |events| > 0 {
      RequestsNeverCount(s, events[..|events| - 1]);
    }
  }

  /** The count never rises, and falls by at most one per finish event. */
  lemma {:induction false} RemainingNeverIncreases(s: ListenerState, events: seq<Event>)
    ensures s.remaining - |events| <= Run(s, events).remaining <= s.remaining
    decreases |events|
  {
    if |events| > 0 {
      RemainingNeverIncreases(s, events[..|events| - 1]);
    }
  }

  /** Running two streams in turn is running their concatenation. */
  lemma {:induction false} RunAppend(s: ListenerState, first: seq<Event>, second: seq<Event>)
    ensures Run(s, first + second) == Run(Run(s, first), second)
    decreases |second|
  {
    if |second| == 0 {
      assert first + second == first;
    } else {
      var n := |second| - 1;
      assert (first + second)[..|first| + n] == first + second[..n];
      RunAppend(s, first, second[..n]);
    }
  }

  lemma StepBindings(s: ListenerState, ev: Event)
    ensures Step(s, ev).submissionId == if BindsSubmission(ev) then ev.requestId else s.submissionId
    ensures Step(s, ev).contestId == if BindsContest(ev) then ev.requestId else s.contestId
  {
  }

  /** The submissions id is the one of the last request carrying the submissions marker. */
  lemma {:induction false} SubmissionIdIsLastMatch(s: ListenerState, events: seq<Event>, k: nat)
    requires k < |events| && BindsSubmission(events[k])
    requires forall j :: k < j < |events| ==> !BindsSubmission(events[j])
    ensures Run(s, events).submissionId == events[k].requestId
    decreases |events|
  {
    var n := |events| - 1;
    StepBindings(Run(s, events[..n]), events[n]);
    if k < n {
      SubmissionIdIsLastMatch(s, events[..n], k);
    }
  }

  /** The contest id is the one of the last request carrying only the contest marker. */
  lemma {:induction false} ContestIdIsLastMatch(s: ListenerState, events: seq<Event>, k: nat)
    requires k < |events| && BindsContest(events[k])
    requires forall j :: k < j < |events| ==> !BindsContest(events[j])
    ensures Run(s, events).contestId == events[k].requestId
    decreases |events|
  {
    var n := |events| - 1;
    StepBindings(Run(s, events[..n]), events[n]);
    if k < n {
      ContestIdIsLastMatch(s, events[..n], k);
    }
  }

  /** Without a binding request both ids keep their values, whatever else happens. */
  lemma {:induction false} UnboundIdsUnchanged(s: ListenerState, events: seq<Event>)
    ensures (forall k :: 0 <= k < |events| ==> !BindsSubmission(events[k])) ==>
      Run(s, events).submissionId == s.submissionId
    ensures (forall k :: 0 <= k < |events| ==> !BindsContest(events[k])) ==>
      Run(s, events).contestId == s.contestId
    decreases |events|
  {
    if |events| > 0 {
      var n := |events| - 1;
      UnboundIdsUnchanged(s, events[..n]);
      StepBindings(Run(s, events[..n]), events[n]);
    }
  }

  /** A finish event for an id no request in the stream ever bound, and not the unbound "". */
  predicate Unrelated(events: seq<Event>, id: string)
  {
    id != "" && forall k :: 0 <= k < |events| && (BindsSubmission(events[k]) || BindsContest(events[k])) ==>
      events[k].requestId != id
  }

  /** Every id the listener holds is "" or the id of some request in the stream that bound it. */
  lemma {:induction false} BoundIdsComeFromRequests(events: seq<Event>)
    ensures Run(Initial, events).submissionId == "" ||
      exists k :: 0 <= k < |events| && BindsSubmission(events[k]) && events[k].requestId == Run(Initial, events).submissionId
    ensures Run(Initial, events).contestId == "" ||
      exists k :: 0 <= k < |events| && BindsContest(events[k]) && events[k].requestId == Run(Initial, events).contestId
    decreases |events|
  {
    if |events| > 0 {
      var n := |events| - 1;
      var front := events[..n];
      BoundIdsComeFromRequests(front);
      StepBindings(Run(Initial, front), events[n]);
      assert forall k :: 0 <= k < n ==> front[k] == events[k];
    }
  }

  /** Finish events for unknown ids never count down and never raise a false readiness signal. */
  lemma {:induction false} UnrelatedFinishesNeverSignal(events: seq<Event>)
    requires forall k :: 0 <= k < |events| && events[k].LoadingFinished? ==> Unrelated(events, events[k].requestId)
    ensures Run(Initial, events).remaining == ExpectedRequests && Run(Initial, events).signals == 0
    decreases |events|
  {
    if |events| > 0 {
      var n := |events| - 1;
      var front := events[..n];
      assert forall k :: 0 <= k < n ==> front[k] == events[k];
      UnrelatedFinishesNeverSignal(front);
      if events[n].LoadingFinished? {
        BoundIdsComeFromRequests(front);
      }
    }
  }

  lemma PairBound(a: string, b: string, p: string, q: string, requests: seq<Event>)
    requires Strings.Contains(p, SubmissionsMarker)
    requires !Strings.Contains(q, SubmissionsMarker) && Strings.Contains(q, ContestMarker)
    requires requests == [RequestWillBeSent(a, p), RequestWillBeSent(b, q)]
          || requests == [RequestWillBeSent(b, q), RequestWillBeSent(a, p)]
    ensures Run(Initial, requests) == ListenerState(a, b, ExpectedRequests, 0)
  {
    assert requests[..1][..0] == [];
    var mid := Step(Initial, requests[0]);
    assert Run(Initial, requests[..1]) == mid;
    assert Run(Initial, requests) == Step(mid, requests[1]);
    StepBindings(Initial, requests[0]);
    StepBindings(mid, requests[1]);
  }

  lemma PairFinished(a: string, b: string, finishes: seq<Event>)
    requires a != b
    requires finishes == [LoadingFinished(a), LoadingFinished(b)]
          || finishes == [LoadingFinished(b), LoadingFinished(a)]
    ensures Run(ListenerState(a, b, ExpectedRequests, 0), finishes[..1]) == ListenerState(a, b, 1, 0)
    ensures Run(ListenerState(a, b, ExpectedRequests, 0), finishes) == ListenerState(a, b, 0, 1)
  {
    assert finishes[..1][..0] == [];
    assert finishes[..1] == [finishes[0]];
  }

  /**
   * Two distinct requests, one carrying each marker, sent in either order and
   * finishing in either order: the first finish only counts down, the second
   * brings the count to zero and sends exactly one signal.
   */
  lemma TrackedPairSignalsOnce(a: string, b: string, p: string, q: string, requests: seq<Event>, finishes: seq<Event>)
    requires a != b
    requires Strings.Contains(p, SubmissionsMarker)
    requires !Strings.Contains(q, SubmissionsMarker) && Strings.Contains(q, ContestMarker)
    requires requests == [RequestWillBeSent(a, p), RequestWillBeSent(b, q)]
          || requests == [RequestWillBeSent(b, q), RequestWillBeSent(a, p)]
    requires finishes == [LoadingFinished(a), LoadingFinished(b)]
          || finishes == [LoadingFinished(b), LoadingFinished(a)]
    ensures Run(Initial, requests + finishes[..1]) == ListenerState(a, b, 1, 0)
    ensures Run(Initial, requests + finishes) == ListenerState(a, b, 0, 1)
  {
    PairBound(a, b, p, q, requests);
    PairFinished(a, b, finishes);
    RunAppend(Initial, requests, finishes[..1]);
    RunAppend(Initial, requests, finishes);
  }

  /** Two events in a row are two steps. */
  lemma RunTwo(s: ListenerState, first: Event, second: Event)
    ensures Run(s, [first, second]) == Step(Step(s, first), second)
  {
    var events := [first, second];
    assert events[..1] == [first];
    assert [first][..0] == [];
    assert Run(s, [first]) == Step(Run(s, []), first);
    assert Run(s, events) == Step(Run(s, events[..1]), second);
  }

  /**
   * The same pair when each request finishes before the other is sent, in
   * either order: the first finish counts down to 1 without a signal, the
   * second brings the count to zero and sends exactly one signal.
   */
  lemma TrackedPairOneAtATime(a: string, b: string, p: string, q: string, events: seq<Event>)
    requires Strings.Contains(p, SubmissionsMarker)
    requires !Strings.Contains(q, SubmissionsMarker) && Strings.Contains(q, ContestMarker)
    requires events == [RequestWillBeSent(a, p), LoadingFinished(a), RequestWillBeSent(b, q), LoadingFinished(b)]
          || events == [RequestWillBeSent(b, q), LoadingFinished(b), RequestWillBeSent(a, p), LoadingFinished(a)]
    ensures Run(Initial, events[..2]).remaining == 1 && Run(Initial, events[..2]).signals == 0
    ensures Run(Initial, events) == ListenerState(a, b, 0, 1)
  {
    var first, second := events[..2], events[2..];
    assert events == first + second;
    RunTwo(Initial, events[0], events[1]);
    assert first == [events[0], events[1]];
    RunAppend(Initial, first, second);
    RunTwo(Run(Initial, first), events[2], events[3]);
    assert second == [events[2], events[3]];
  }

  /**
   * Once the count is zero, every further finish of an id other than the two
   * bound ones sends on `done` again: the signal repeats.
   */
  lemma {:induction false} SignalRepeatsAfterCompletion(s: ListenerState, events: seq<Event>)
    requires s.remaining == 0
    requires forall k :: 0 <= k < |events| ==>
      events[k].LoadingFinished? && events[k].requestId != s.submissionId && events[k].requestId != s.contestId
    ensures Run(s, events) == s.(signals := s.signals + |events|)
    decreases |events|
  {
    if |events| > 0 {
      SignalRepeatsAfterCompletion(s, events[..|events| - 1]);
    }
  }

  /** A count driven below zero (a bound id finishing twice) never sends again. */
  lemma {:induction false} NoSignalBelowZero(s: ListenerState, events: seq<Event>)
    requires s.remaining < 0
    ensures Run(s, events).signals == s.signals
    decreases |events|
  {
    if |events| > 0 {
      var front := events[..|events| - 1];
      NoSignalBelowZero(s, front);
      RemainingNeverIncreases(s, front);
    }
  }

  /**
   * An unbound id is "", so a finish carrying the empty id counts down exactly
   * when one of the two ids is still unbound.
   */
  lemma EmptyIdMatchesUnbound(s: ListenerState)
    ensures Step(s, LoadingFinished("")).remaining == s.remaining - 1 <==> s.submissionId == "" || s.contestId == ""
    ensures Step(s, LoadingFinished("")).remaining == s.remaining || Step(s, LoadingFinished("")).remaining == s.remaining - 1
  {
  }
}
