/** `CaseTimelinePanel`: one fetch per selected session, each with its own `cancelled` flag. */
module CaseTimeline {
  import opened Strings

  type SessionId = string
  type Items = seq<string>

  datatype Outcome = Loaded(items: Items) | Errored

  /** A request is open until its `then` or `catch` callback has run, and over once `finally` has. */
  datatype Phase = Open | Answered(outcome: Outcome) | Settled(outcome: Outcome)

  datatype Request = Request(session: SessionId, cancelled: bool, phase: Phase)

  datatype View = View(
    session: Option<SessionId>, timeline: Items, loading: bool, error: bool, requests: seq<Request>)

  /** The session prop changes and the effect runs again; a callback of request `i` runs. */
  datatype Event = Show(session: Option<SessionId>) | Respond(i: nat, outcome: Outcome) | Finish(i: nat)

  const START := View(None, [], false, false, [])

  /** The cleanup of the previous effect, which exists only if that effect made a request. */
  function Cleanup(v: View): seq<Request> {
    var n := |v.requests| - 1;
    if v.session.Some? && n >= 0 then v.requests[n := v.requests[n].(cancelled := true)] else v.requests
  }

  function Apply(v: View, e: Event): Option<View> {
    match e
    case Show(s) =>
      if s == v.session then None
      else
        var w := v.(session := s, requests := Cleanup(v));
        if s.None? then Some(w.(timeline := []))
        else Some(w.(loading := true, error := false, requests := w.requests + [Request(s.value, false, Open)]))
    case Respond(i, outcome) =>
      if i >= |v.requests| || v.requests[i].phase != Open then None
      else
        var w := v.(requests := v.requests[i := v.requests[i].(phase := Answered(outcome))]);
        if v.requests[i].cancelled then Some(w)
        else if outcome.Loaded? then Some(w.(timeline := outcome.items))
        else Some(w.(error := true))
    case Finish(i) =>
      if i >= |v.requests| || !v.requests[i].phase.Answered? then None
      else
        var w := v.(requests := v.requests[i := v.requests[i].(phase := Settled(v.requests[i].phase.outcome))]);
        if v.requests[i].cancelled then Some(w) else Some(w.(loading := false))
  }

  function Run(events: seq<Event>): Option<View> {
    if events == [] then Some(START)
    else
      var before := Run(events[..|events| - 1]);
      if before.None? then None else Apply(before.value, events[|events| - 1])
  }

  function Last(v: View): Request
    requires v.requests != []
  {
    v.requests[|v.requests| - 1]
  }

  ghost predicate Inv(v: View) {
    && (forall i :: 0 <= i < |v.requests| ==> (v.requests[i].cancelled <==> v.session.None? || i < |v.requests| - 1))
    && (v.session.None? ==> v.timeline == [])
    && (v.session.Some? ==> v.requests != [] && CurrentInv(v, Last(v)))
  }

  ghost predicate CurrentInv(v: View, current: Request) {
    && Some(current.session) == v.session
    && (v.loading <==> !current.phase.Settled?)
    && (current.phase.Open? ==> !v.error)
    && (!current.phase.Open? ==> (v.error <==> current.phase.outcome.Errored?))
    && (!current.phase.Open? && current.phase.outcome.Loaded? ==> v.timeline == current.phase.outcome.items)
  }

  lemma StepKeepsInv(v: View, e: Event)
    requires Inv(v) && Apply(v, e).Some?
    ensures Inv(Apply(v, e).value)
  {
  }

  lemma {:induction false} RunKeepsInv(events: seq<Event>)
    requires Run(events).Some?
    ensures Inv(Run(events).value)
  {
    if events != [] {
      RunKeepsInv(events[..|events| - 1]);
      StepKeepsInv(Run(events[..|events| - 1]).value, events[|events| - 1]);
    }
  }

  /** The sessions that were shown, in order: each of them makes one request. */
  function Shown(events: seq<Event>): seq<SessionId> {
    if events == [] then []
    else
      var e := events[|events| - 1];
      Shown(events[..|events| - 1]) + if e.Show? && e.session.Some? then [e.session.value] else []
  }

  function LastShown(events: seq<Event>): Option<SessionId> {
    if events == [] then None
    else if events[|events| - 1].Show? then events[|events| - 1].session
    else LastShown(events[..|events| - 1])
  }

  /** Request `k` was made for the session shown as number `k`, has the outcome of its own answer, and is
      over exactly after its own end. */
  ghost predicate RequestFollows(events: seq<Event>, r: Request, k: nat) {
    && k < |Shown(events)| && r.session == Shown(events)[k]
    && (r.phase.Open? ==> forall o :: Respond(k, o) !in events)
    && (!r.phase.Open? ==> Respond(k, r.phase.outcome) in events)
    && (r.phase.Settled? <==> Finish(k) in events)
  }

  ghost predicate ViewFollows(events: seq<Event>, v: View) {
    && v.session == LastShown(events)
    && |v.requests| == |Shown(events)|
    && (forall k :: 0 <= k < |v.requests| ==> RequestFollows(events, v.requests[k], k))
    && (forall k: nat :: k >= |v.requests| ==> Untouched(events, k))
  }

  ghost predicate Untouched(events: seq<Event>, k: nat) {
    Finish(k) !in events && forall o :: Respond(k, o) !in events
  }

  lemma FollowsStep(before: seq<Event>, v: View, e: Event)
    requires ViewFollows(before, v) && Apply(v, e).Some?
    ensures ViewFollows(before + [e], Apply(v, e).value)
  {
    var w, events := Apply(v, e).value, before + [e];
    assert events[..|before|] == before;
    forall k | 0 <= k < |w.requests| ensures RequestFollows(events, w.requests[k], k) {
      RequestStep(before, v, e, k);
    }
    forall k: nat | k >= |w.requests| ensures Untouched(events, k) {
      assert Untouched(before, k);
    }
  }

  predicate Moves(e: Event, k: nat, r: Request, next: Request) {
    && next.session == r.session
    && if e.Respond? && e.i == k then r.phase.Open? && next.phase == Answered(e.outcome)
       else if e == Finish(k) then r.phase.Answered? && next.phase == Settled(r.phase.outcome)
       else next.phase == r.phase
  }

  lemma RequestMoves(v: View, e: Event, k: nat)
    requires k < |v.requests| && Apply(v, e).Some?
    ensures k < |Apply(v, e).value.requests| && Moves(e, k, v.requests[k], Apply(v, e).value.requests[k])
  {
  }

  lemma FollowsOn(before: seq<Event>, e: Event, r: Request, next: Request, k: nat)
    requires RequestFollows(before, r, k) && Moves(e, k, r, next)
    ensures RequestFollows(before + [e], next, k)
  {
    assert (before + [e])[..|before|] == before;
  }

  lemma RequestStep(before: seq<Event>, v: View, e: Event, k: nat)
    requires ViewFollows(before, v) && Apply(v, e).Some? && k < |Apply(v, e).value.requests|
    ensures RequestFollows(before + [e], Apply(v, e).value.requests[k], k)
  {
    assert (before + [e])[..|before|] == before;
    if k < |v.requests| {
      RequestMoves(v, e, k);
      FollowsOn(before, e, v.requests[k], Apply(v, e).value.requests[k], k);
    } else {
      assert Untouched(before, k);
    }
  }

  /** In every run the panel's requests are those that its history of sessions and answers gives. */
  lemma {:induction false} RequestsFollowHistory(events: seq<Event>)
    requires Run(events).Some?
    ensures ViewFollows(events, Run(events).value)
  {
    if events != [] {
      var before, e := events[..|events| - 1], events[|events| - 1];
      RequestsFollowHistory(before);
      assert before + [e] == events;
      FollowsStep(before, Run(before).value, e);
    }
  }

  /** Over every order of session switches and responses: at most one request that is not yet over
      can still act, and it is the one for the session on screen. */
  lemma OneLiveRequest(events: seq<Event>, i: nat, j: nat)
    requires Run(events).Some?
    requires i < |Run(events).value.requests| && j < |Run(events).value.requests|
    requires var rs := Run(events).value.requests; !rs[i].cancelled && !rs[j].cancelled
    ensures i == j && Run(events).value.session == Some(Run(events).value.requests[i].session)
  {
    RunKeepsInv(events);
  }

  /** Whenever a session is selected, nothing is loading and no error shows, the timeline is the
      answer to that session's own latest request; and loading ends exactly with that request. */
  lemma TimelineBelongsToSession(events: seq<Event>)
    requires Run(events).Some? && Run(events).value.session.Some?
    ensures var v := Run(events).value;
      && v.requests != []
      && Last(v).session == v.session.value
      && (v.loading <==> !Last(v).phase.Settled?)
      && (!v.loading && !v.error ==> Last(v).phase == Settled(Loaded(v.timeline)))
  {
    RunKeepsInv(events);
  }

  /** An answer to a session that has been left never shows: it changes neither the timeline nor the
      loading or error state. */
  lemma LateAnswersAreIgnored(events: seq<Event>, e: Event)
    requires Run(events + [e]).Some? && !e.Show?
    requires e.i < |Run(events).value.requests| - 1 || (Run(events).Some? && Run(events).value.session == None)
    ensures var v, w := Run(events).value, Run(events + [e]).value;
      w.timeline == v.timeline && w.loading == v.loading && w.error == v.error && w.session == v.session
  {
    assert (events + [e])[..|events|] == events;
    RunKeepsInv(events);
  }

  /** Leaving all sessions clears the timeline, and with every request cancelled the loading and error
      marks then stay as they were left, whatever comes in, until a session is shown again. */
  lemma {:induction false} NoSessionFreezes(events: seq<Event>, n: nat)
    requires Run(events).Some? && n < |events| && events[n] == Show(None)
    requires forall k :: n < k < |events| ==> !events[k].Show?
    ensures Run(events[..n]).Some?
    ensures var v, w := Run(events[..n]).value, Run(events).value;
      w.session == None && w.timeline == [] && w.loading == v.loading && w.error == v.error
    decreases |events|
  {
    var m := |events| - 1;
    RunKeepsInv(events[..m]);
    if n < m {
      assert events[..m][..n] == events[..n] && forall k :: 0 <= k < m ==> events[..m][k] == events[k];
      NoSessionFreezes(events[..m], n);
      FrozenStep(Run(events[..m]).value, events[m]);
    }
  }

  lemma FrozenStep(v: View, e: Event)
    requires Inv(v) && v.session == None && !e.Show? && Apply(v, e).Some?
    ensures var w := Apply(v, e).value;
      w.session == None && w.timeline == v.timeline && w.loading == v.loading && w.error == v.error
  {
  }

  /** The last session switch of the run is the one at `n`, to the session `s`. */
  ghost predicate LastShow(events: seq<Event>, n: nat, s: SessionId) {
    && n < |events| && events[n] == Show(Some(s))
    && forall k :: n < k < |events| ==> !events[k].Show?
  }

  lemma LastShowBefore(events: seq<Event>, n: nat, s: SessionId)
    requires LastShow(events, n, s) && n < |events| - 1
    ensures LastShow(events[..|events| - 1], n, s) && !events[|events| - 1].Show?
  {
    assert forall k :: 0 <= k < |events| - 1 ==> events[..|events| - 1][k] == events[k];
  }

  /** What the timeline shows after a switch to a session: `previous` until an answer to the session's own
      request brings its items. */
  ghost predicate ShowsOwnOrOld(v: View, s: SessionId, previous: Items) {
    && v.session == Some(s) && v.requests != []
    && var phase := Last(v).phase;
       v.timeline == if phase.Open? || phase.outcome.Errored? then previous else phase.outcome.items
  }

  /** What the guard does not give. In every run, from the last switch to a session on, the timeline
      of before that switch stays on screen exactly while the session's own request is unanswered or
      has failed; once it is answered, the timeline is its answer. */
  lemma {:induction false} PreviousTimelineStays(events: seq<Event>, n: nat, s: SessionId)
    requires Run(events).Some? && LastShow(events, n, s)
    ensures Run(events[..n]).Some?
    ensures ShowsOwnOrOld(Run(events).value, s, Run(events[..n]).value.timeline)
    decreases |events|
  {
    RunKeepsInv(events[..|events| - 1]);
    if n < |events| - 1 {
      LastShowBefore(events, n, s);
      assert events[..|events| - 1][..n] == events[..n];
      PreviousTimelineStays(events[..|events| - 1], n, s);
      OwnOrOldStep(Run(events[..|events| - 1]).value, events[|events| - 1], s, Run(events[..n]).value.timeline);
    }
  }

  lemma OwnOrOldStep(v: View, e: Event, s: SessionId, previous: Items)
    requires Inv(v) && ShowsOwnOrOld(v, s, previous) && !e.Show? && Apply(v, e).Some?
    ensures ShowsOwnOrOld(Apply(v, e).value, s, previous)
  {
  }

  ghost predicate Steps(views: seq<View>, events: seq<Event>) {
    && |views| == |events| + 1 && views[0] == START
    && forall i :: 0 <= i < |events| ==> Apply(views[i], events[i]) == Some(views[i + 1])
  }

  lemma {:induction false} RunSteps(views: seq<View>, events: seq<Event>)
    requires Steps(views, events)
    ensures Run(events) == Some(views[|events|])
  {
    if events != [] { RunSteps(views[..|events|], events[..|events| - 1]); }
  }

  /** A session whose request failed, with everything over, still shows the other one's timeline. */
  lemma OldTimelineUnderNewSession(a: SessionId, b: SessionId, items: Items)
    requires a != b
    ensures var r := Run([Show(Some(a)), Respond(0, Loaded(items)), Finish(0),
                          Show(Some(b)), Respond(1, Errored), Finish(1)]);
      && r.Some? && r.value.session == Some(b) && r.value.timeline == items && r.value.error && !r.value.loading
      && forall i :: 0 <= i < |r.value.requests| ==> r.value.requests[i].phase.Settled?
  {
    var v1 := Apply(START, Show(Some(a))).value;
    var v2 := Apply(v1, Respond(0, Loaded(items))).value;
    var v3 := Apply(v2, Finish(0)).value;
    var v4 := Apply(v3, Show(Some(b))).value;
    var v5 := Apply(v4, Respond(1, Errored)).value;
    var v6 := Apply(v5, Finish(1)).value;
    RunSteps([START, v1, v2, v3, v4, v5, v6],
             [Show(Some(a)), Respond(0, Loaded(items)), Finish(0), Show(Some(b)), Respond(1, Errored), Finish(1)]);
  }

  class Panel {
    var session: Option<SessionId>
    var timeline: Items
    var loading: bool
    var error: bool
    var requests: seq<Request>

    ghost function State(): View
      reads this
    {
      View(session, timeline, loading, error, requests)
    }

    constructor ()
      ensures State() == START
    {
      session, timeline, loading, error, requests := None, [], false, false, [];
    }

    /** The effect, with the cleanup of the previous one. */
    method ShowSession(s: Option<SessionId>)
      requires s != session
      modifies this
      ensures Apply(old(State()), Show(s)) == Some(State())
    {
      var n := |requests| - 1;
      if session.Some? && n >= 0 {
        requests := requests[n := requests[n].(cancelled := true)];
      }
      session := s;
      if s.None? {
        timeline := [];
        return;
      }
      loading := true;
      error := false;
      requests := requests + [Request(s.value, false, Open)];
    }

    /** The `then` and `catch` callbacks. */
    method OnAnswer(i: nat, outcome: Outcome)
      requires i < |requests| && requests[i].phase == Open
      modifies this
      ensures Apply(old(State()), Respond(i, outcome)) == Some(State())
    {
      var cancelled := requests[i].cancelled;
      requests := requests[i := requests[i].(phase := Answered(outcome))];
      if !cancelled {
        if outcome.Loaded? { timeline := outcome.items; } else { error := true; }
      }
    }

    /** The `finally` callback. */
    method OnFinally(i: nat)
      requires i < |requests| && requests[i].phase.Answered?
      modifies this
      ensures Apply(old(State()), Finish(i)) == Some(State())
    {
      if !requests[i].cancelled { loading := false; }
      requests := requests[i := requests[i].(phase := Settled(requests[i].phase.outcome))];
    }
  }
}
