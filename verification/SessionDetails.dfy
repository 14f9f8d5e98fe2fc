/** The cockpit page's session details: fetches without any guard against late answers. */
module SessionDetails {
  import opened Strings

  type SessionId = string

  datatype Progress = Open | Succeeded | Failed

  datatype Fetch = Fetch(session: SessionId, progress: Progress)

  /** An operation under way for the session that was selected when it started. */
  datatype Task = Task(session: SessionId, returned: bool)

  /** `details` names the fetch whose packets and audit events are on screen; `None` means empty.
      `loads` are ticket loads, which move the selection when they return; `works` are the other
      operations that end with a fetch (evidence bundle, GLPI ticket, manual context, draft,
      greeting, writeback, and the `onChanged` of the two outbox panels). */
  datatype Page = Page(
    selected: Option<SessionId>, details: Option<nat>, loading: bool,
    fetches: seq<Fetch>, loads: seq<Task>, works: seq<Task>)

  datatype Event =
    | Select(session: SessionId)
    | DetailOk(i: nat)
    | DetailFail(i: nat)
    | StartTicket
    | TicketOk(t: nat)
    | StartWork
    | WorkOk(t: nat)

  const START := Page(None, None, false, [], [], [])

  function StartFetch(p: Page, s: SessionId): Page {
    p.(loading := true, fetches := p.fetches + [Fetch(s, Open)])
  }

  function Settle(p: Page, i: nat, progress: Progress): Page
    requires i < |p.fetches|
  {
    p.(loading := false, fetches := p.fetches[i := p.fetches[i].(progress := progress)])
  }

  function Apply(p: Page, e: Event): Option<Page> {
    match e
    case Select(s) => Some(StartFetch(p.(selected := Some(s), details := None), s))
    case DetailOk(i) =>
      if i >= |p.fetches| || p.fetches[i].progress != Open then None
      else Some(Settle(p, i, Succeeded).(details := Some(i)))
    case DetailFail(i) =>
      if i >= |p.fetches| || p.fetches[i].progress != Open then None
      else Some(Settle(p, i, Failed))
    case StartTicket =>
      if p.selected.None? then None else Some(p.(loads := p.loads + [Task(p.selected.value, false)]))
    case TicketOk(t) =>
      if t >= |p.loads| || p.loads[t].returned then None
      else
        var s := p.loads[t].session;
        Some(StartFetch(p.(selected := Some(s), loads := p.loads[t := Task(s, true)]), s))
    case StartWork =>
      if p.selected.None? then None else Some(p.(works := p.works + [Task(p.selected.value, false)]))
    case WorkOk(t) =>
      if t >= |p.works| || p.works[t].returned then None
      else Some(StartFetch(p.(works := p.works[t := Task(p.works[t].session, true)]), p.works[t].session))
  }

  function Run(events: seq<Event>): Option<Page> {
    if events == [] then Some(START)
    else
      var before := Run(events[..|events| - 1]);
      if before.None? then None else Apply(before.value, events[|events| - 1])
  }

  /** `j` is the last event that writes the details: a selection, or a successful answer. */
  ghost predicate LastWrite(events: seq<Event>, j: nat) {
    && j < |events|
    && (events[j].Select? || events[j].DetailOk?)
    && forall k :: j < k < |events| ==> !events[k].Select? && !events[k].DetailOk?
  }

  /** The fetch that the event at `k` started has the number of fetches before it. */
  function FetchOf(events: seq<Event>, k: nat): nat
    requires k <= |events| && Run(events[..k]).Some?
  {
    |Run(events[..k]).value.fetches|
  }

  lemma {:induction false} LastWriteDecides(events: seq<Event>, j: nat)
    requires Run(events).Some? && LastWrite(events, j)
    ensures Run(events).value.details == if events[j].Select? then None else Some(events[j].i)
    decreases |events|
  {
    var n := |events| - 1;
    WriteStep(Run(events[..n]).value, events[n]);
    if j < n {
      assert forall k :: 0 <= k < n ==> events[..n][k] == events[k];
      LastWriteDecides(events[..n], j);
    }
  }

  lemma WriteStep(p: Page, e: Event)
    requires Apply(p, e).Some?
    ensures e.Select? ==> Apply(p, e).value.details == None
    ensures e.DetailOk? ==> Apply(p, e).value.details == Some(e.i)
    ensures !e.Select? && !e.DetailOk? ==> Apply(p, e).value.details == p.details
  {
  }

  lemma {:induction false} FetchNumbersGrow(events: seq<Event>, k: nat)
    requires Run(events).Some? && k <= |events|
    ensures Run(events[..k]).Some? && FetchOf(events, k) <= |Run(events).value.fetches|
    ensures var earlier, now := Run(events[..k]).value.fetches, Run(events).value.fetches;
      forall i :: 0 <= i < |earlier| ==> now[i].session == earlier[i].session
    decreases |events|
  {
    if k == |events| {
      assert events[..k] == events;
    } else {
      FetchNumbersGrow(events[..|events| - 1], k);
      assert events[..|events| - 1][..k] == events[..k];
    }
  }

  lemma OwnFetch(events: seq<Event>, s: nat)
    requires Run(events).Some? && s < |events| && events[s].Select?
    ensures Run(events[..s]).Some? && FetchOf(events, s) < |Run(events).value.fetches|
    ensures Run(events).value.fetches[FetchOf(events, s)].session == events[s].session
  {
    FetchNumbersGrow(events, s);
    FetchNumbersGrow(events, s + 1);
    assert events[..s + 1][..s] == events[..s];
  }

  // ---- whose details are fetched --------------------------------------------------------

  function TicketsStarted(events: seq<Event>): nat {
    if events == [] then 0
    else TicketsStarted(events[..|events| - 1]) + if events[|events| - 1].StartTicket? then 1 else 0
  }

  function WorksStarted(events: seq<Event>): nat {
    if events == [] then 0
    else WorksStarted(events[..|events| - 1]) + if events[|events| - 1].StartWork? then 1 else 0
  }

  function FetchesStarted(events: seq<Event>): nat {
    if events == [] then 0
    else
      var e := events[|events| - 1];
      FetchesStarted(events[..|events| - 1]) + if e.Select? || e.TicketOk? || e.WorkOk? then 1 else 0
  }

  /** Session `s` was selected when the event at `i` happened. */
  ghost predicate SelectedAt(events: seq<Event>, i: nat, s: SessionId)
    requires i < |events|
  {
    Run(events[..i]).Some? && Run(events[..i]).value.selected == Some(s)
  }

  /** Session `s` was selected when ticket load number `t` started. */
  ghost predicate TicketFor(events: seq<Event>, t: nat, s: SessionId) {
    exists i: nat ::
      i < |events| && events[i].StartTicket? && TicketsStarted(events[..i]) == t && SelectedAt(events, i, s)
  }

  /** Session `s` was selected when the other operation number `t` started. */
  ghost predicate WorkFor(events: seq<Event>, t: nat, s: SessionId) {
    exists i: nat :: i < |events| && events[i].StartWork? && WorksStarted(events[..i]) == t && SelectedAt(events, i, s)
  }

  /** What `e` fetches, after `events`: the session selected, or the one that was selected when the ticket
      load or the other operation that returns was started. */
  ghost predicate Fetches(events: seq<Event>, e: Event, s: SessionId) {
    match e
    case Select(session) => s == session
    case TicketOk(t) => TicketFor(events, t, s)
    case WorkOk(t) => WorkFor(events, t, s)
    case _ => false
  }

  /** Fetch number `k` was started for the session `s`. */
  ghost predicate FetchFor(events: seq<Event>, k: nat, s: SessionId) {
    exists i: nat :: i < |events| && FetchesStarted(events[..i]) == k && Fetches(events[..i], events[i], s)
  }

  ghost predicate TasksFollow(events: seq<Event>, p: Page) {
    && |p.loads| == TicketsStarted(events)
    && |p.works| == WorksStarted(events)
    && (forall t :: 0 <= t < |p.loads| ==> TicketFor(events, t, p.loads[t].session))
    && (forall t :: 0 <= t < |p.works| ==> WorkFor(events, t, p.works[t].session))
  }

  ghost predicate FetchesFollow(events: seq<Event>, p: Page) {
    && |p.fetches| == FetchesStarted(events)
    && forall k :: 0 <= k < |p.fetches| ==> FetchFor(events, k, p.fetches[k].session)
  }

  /** In every run each selection, returning ticket load and returning operation starts one fetch, in
      order, for the session selected, or the one that was selected when the load or the operation
      was started. */
  lemma {:induction false} FetchesFollowHandlers(events: seq<Event>)
    requires Run(events).Some?
    ensures TasksFollow(events, Run(events).value) && FetchesFollow(events, Run(events).value)
  {
    if events != [] {
      var before, e := events[..|events| - 1], events[|events| - 1];
      FetchesFollowHandlers(before);
      assert before + [e] == events;
      TasksStep(before, Run(before).value, e);
      FetchesStep(before, Run(before).value, e);
    }
  }

  lemma TicketStays(before: seq<Event>, e: Event, t: nat, s: SessionId)
    requires TicketFor(before, t, s)
    ensures TicketFor(before + [e], t, s)
  {
    var i: nat :|
      i < |before| && before[i].StartTicket? && TicketsStarted(before[..i]) == t && SelectedAt(before, i, s);
    assert (before + [e])[..i] == before[..i] && (before + [e])[i] == before[i];
    assert SelectedAt(before + [e], i, s);
  }

  lemma WorkStays(before: seq<Event>, e: Event, t: nat, s: SessionId)
    requires WorkFor(before, t, s)
    ensures WorkFor(before + [e], t, s)
  {
    var i: nat :| i < |before| && before[i].StartWork? && WorksStarted(before[..i]) == t && SelectedAt(before, i, s);
    assert (before + [e])[..i] == before[..i] && (before + [e])[i] == before[i];
    assert SelectedAt(before + [e], i, s);
  }

  lemma NewTask(before: seq<Event>, e: Event, s: SessionId)
    requires Run(before).Some? && Run(before).value.selected == Some(s)
    ensures e.StartTicket? ==> TicketFor(before + [e], TicketsStarted(before), s)
    ensures e.StartWork? ==> WorkFor(before + [e], WorksStarted(before), s)
  {
    var events := before + [e];
    assert events[..|before|] == before && events[|before|] == e;
    assert SelectedAt(events, |before|, s);
  }

  lemma TasksStep(before: seq<Event>, p: Page, e: Event)
    requires Run(before) == Some(p) && TasksFollow(before, p) && Apply(p, e).Some?
    ensures TasksFollow(before + [e], Apply(p, e).value)
  {
    var events, q := before + [e], Apply(p, e).value;
    assert events[..|before|] == before;
    forall t | 0 <= t < |q.loads| ensures TicketFor(events, t, q.loads[t].session) {
      if t < |p.loads| { TicketStays(before, e, t, p.loads[t].session); }
      else { NewTask(before, e, q.loads[t].session); }
    }
    forall t | 0 <= t < |q.works| ensures WorkFor(events, t, q.works[t].session) {
      if t < |p.works| { WorkStays(before, e, t, p.works[t].session); }
      else { NewTask(before, e, q.works[t].session); }
    }
  }

  lemma FetchStays(before: seq<Event>, e: Event, k: nat, s: SessionId)
    requires FetchFor(before, k, s)
    ensures FetchFor(before + [e], k, s)
  {
    var i: nat :| i < |before| && FetchesStarted(before[..i]) == k && Fetches(before[..i], before[i], s);
    assert (before + [e])[..i] == before[..i] && (before + [e])[i] == before[i];
  }

  lemma NewFetch(before: seq<Event>, e: Event, s: SessionId)
    requires Fetches(before, e, s)
    ensures FetchFor(before + [e], FetchesStarted(before), s)
  {
    var events := before + [e];
    assert events[..|before|] == before && events[|before|] == e;
  }

  lemma FetchesStep(before: seq<Event>, p: Page, e: Event)
    requires Run(before) == Some(p) && TasksFollow(before, p) && FetchesFollow(before, p) && Apply(p, e).Some?
    ensures FetchesFollow(before + [e], Apply(p, e).value)
  {
    var events, q := before + [e], Apply(p, e).value;
    assert events[..|before|] == before;
    forall k | 0 <= k < |q.fetches| ensures FetchFor(events, k, q.fetches[k].session) {
      if k < |p.fetches| {
        FetchStays(before, e, k, p.fetches[k].session);
      } else {
        NewFetch(before, e, q.fetches[k].session);
      }
    }
  }

  /** Loading shows exactly until the first answer or failure after the latest fetch was started,
      whichever fetch that is about. */
  ghost predicate LastTraffic(events: seq<Event>, j: nat) {
    && j < |events| && Traffic(events[j])
    && forall k :: j < k < |events| ==> !Traffic(events[k])
  }

  predicate Traffic(e: Event) {
    !e.StartTicket? && !e.StartWork?
  }

  lemma {:induction false} LoadingMeaning(events: seq<Event>, j: nat)
    requires Run(events).Some? && LastTraffic(events, j)
    ensures Run(events).value.loading <==> !events[j].DetailOk? && !events[j].DetailFail?
    decreases |events|
  {
    if j < |events| - 1 {
      assert forall k :: 0 <= k < |events| - 1 ==> events[..|events| - 1][k] == events[k];
      LoadingMeaning(events[..|events| - 1], j);
    }
  }

  ghost predicate ProgressFollows(events: seq<Event>, p: Page) {
    && (forall k :: 0 <= k < |p.fetches| ==>
          && (p.fetches[k].progress == Succeeded <==> DetailOk(k) in events)
          && (p.fetches[k].progress == Failed <==> DetailFail(k) in events))
    && (forall k: nat :: k >= |p.fetches| ==> DetailOk(k) !in events && DetailFail(k) !in events)
  }

  /** A fetch is over exactly after its own answer or failure, and as that says. */
  lemma {:induction false} FetchesSettleOnce(events: seq<Event>)
    requires Run(events).Some?
    ensures ProgressFollows(events, Run(events).value)
  {
    if events != [] {
      var before, e := events[..|events| - 1], events[|events| - 1];
      FetchesSettleOnce(before);
      assert before + [e] == events;
      ProgressStep(before, Run(before).value, e);
    }
  }

  lemma ProgressStep(before: seq<Event>, p: Page, e: Event)
    requires ProgressFollows(before, p) && Apply(p, e).Some?
    ensures ProgressFollows(before + [e], Apply(p, e).value)
  {
  }

  /** What is on screen once the user has selected a session for the last time: the answer to that
      selection's own fetch, exactly when this fetch succeeded and no fetch succeeded after it. A
      late answer to any older fetch, of whatever session, takes its place. */
  lemma OwnDetailsShown(events: seq<Event>, s: nat)
    requires Run(events).Some? && s < |events| && events[s].Select?
    requires forall k :: s < k < |events| ==> !events[k].Select?
    ensures Run(events[..s]).Some? && FetchOf(events, s) < |Run(events).value.fetches|
    ensures Run(events).value.fetches[FetchOf(events, s)].session == events[s].session
    ensures Run(events).value.details == Some(FetchOf(events, s)) <==>
              exists j :: s < j < |events| && events[j] == DetailOk(FetchOf(events, s))
                          && forall k :: j < k < |events| ==> !events[k].DetailOk?
  {
    OwnFetch(events, s);
    var j := LastWriteIndex(events, s);
    LastWriteDecides(events, j);
    if events[j].DetailOk? {
      assert j > s;
    }
  }

  lemma {:induction false} LastWriteIndex(events: seq<Event>, s: nat) returns (j: nat)
    requires s < |events| && events[s].Select?
    ensures s <= j && LastWrite(events, j)
    decreases |events|
  {
    var n := |events| - 1;
    if events[n].Select? || events[n].DetailOk? {
      j := n;
    } else {
      j := LastWriteIndex(events[..n], s);
    }
  }

  ghost predicate Steps(pages: seq<Page>, events: seq<Event>) {
    && |pages| == |events| + 1 && pages[0] == START
    && forall i :: 0 <= i < |events| ==> Apply(pages[i], events[i]) == Some(pages[i + 1])
  }

  lemma {:induction false} RunSteps(pages: seq<Page>, events: seq<Event>)
    requires Steps(pages, events)
    ensures Run(events) == Some(pages[|events|])
  {
    if events != [] { RunSteps(pages[..|events|], events[..|events| - 1]); }
  }

  /** Two quick selections, answered in the reverse order, leave the details of the first session
      under the second one, with nothing outstanding and no sign of loading. */
  lemma WrongSessionShown(a: SessionId, b: SessionId)
    requires a != b
    ensures var r := Run([Select(a), Select(b), DetailOk(1), DetailOk(0)]);
      && r.Some? && r.value.selected == Some(b) && !r.value.loading && !DetailsMatch(r.value)
      && r.value.details.Some? && r.value.fetches[r.value.details.value].session == a
      && forall i :: 0 <= i < |r.value.fetches| ==> r.value.fetches[i].progress != Open
  {
    var p1 := Apply(START, Select(a)).value;
    var p2 := Apply(p1, Select(b)).value;
    var p3 := Apply(p2, DetailOk(1)).value;
    var p4 := Apply(p3, DetailOk(0)).value;
    RunSteps([START, p1, p2, p3, p4], [Select(a), Select(b), DetailOk(1), DetailOk(0)]);
  }

  /** A ticket load that returns after the user has moved on moves the selection back and keeps the
      details of the session it leaves; when the fetches that it has overtaken and started fail,
      these stay on screen, with nothing outstanding and no sign of loading. */
  lemma TicketMovesSelectionBack(a: SessionId, b: SessionId)
    requires a != b
    ensures var r := Run([Select(a), StartTicket, Select(b), DetailOk(1), TicketOk(0), DetailFail(0), DetailFail(2)]);
      && r.Some? && r.value.selected == Some(a) && !r.value.loading && !DetailsMatch(r.value)
      && r.value.details == Some(1) && |r.value.fetches| == 3 && r.value.fetches[1].session == b
      && forall i :: 0 <= i < |r.value.fetches| ==> r.value.fetches[i].progress != Open
  {
    var p1 := Apply(START, Select(a)).value;
    var p2 := Apply(p1, StartTicket).value;
    var p3 := Apply(p2, Select(b)).value;
    var p4 := Apply(p3, DetailOk(1)).value;
    var p5 := Apply(p4, TicketOk(0)).value;
    var p6 := Apply(p5, DetailFail(0)).value;
    var p7 := Apply(p6, DetailFail(2)).value;
    RunSteps([START, p1, p2, p3, p4, p5, p6, p7],
             [Select(a), StartTicket, Select(b), DetailOk(1), TicketOk(0), DetailFail(0), DetailFail(2)]);
  }

  /** The session that was chosen last, by a selection or by a returning ticket load. */
  ghost predicate LastChoice(events: seq<Event>, j: nat) {
    && j < |events|
    && (events[j].Select? || events[j].TicketOk?)
    && forall k :: j < k < |events| ==> !events[k].Select? && !events[k].TicketOk?
  }

  /** The session that the event at `j` chooses. */
  function ChosenSession(events: seq<Event>, j: nat): SessionId
    requires j < |events| && Run(events[..j + 1]).Some? && (events[j].Select? || events[j].TicketOk?)
  {
    assert events[..j + 1][..j] == events[..j];
    if events[j].Select? then events[j].session else Run(events[..j]).value.loads[events[j].t].session
  }

  /** The selection is the one that was chosen last; a ticket load chooses the session under which
      it was started, whatever the user has selected in the meantime. */
  lemma {:induction false} SelectionOwner(events: seq<Event>, j: nat)
    requires Run(events).Some? && LastChoice(events, j)
    ensures Run(events[..j + 1]).Some?
    ensures Run(events).value.selected == Some(ChosenSession(events, j))
    decreases |events|
  {
    var n := |events| - 1;
    if j < n {
      var before := events[..n];
      assert before[..j] == events[..j] && before[..j + 1] == events[..j + 1];
      LastChoiceBefore(events, j);
      SelectionOwner(before, j);
      SelectionStays(Run(before).value, events[n]);
    } else {
      LastEventSelects(events);
    }
  }

  lemma LastEventSelects(events: seq<Event>)
    requires events != [] && Run(events).Some?
    requires var e := events[|events| - 1]; e.Select? || e.TicketOk?
    ensures Run(events[..|events|]).Some?
    ensures Run(events).value.selected == Some(ChosenSession(events, |events| - 1))
  {
    var n := |events| - 1;
    assert events[..n + 1] == events;
    ChoiceSelects(Run(events[..n]).value, events[n]);
  }

  lemma SelectionStays(p: Page, e: Event)
    requires Apply(p, e).Some? && !e.Select? && !e.TicketOk?
    ensures Apply(p, e).value.selected == p.selected
  {
  }

  lemma ChoiceSelects(p: Page, e: Event)
    requires Apply(p, e).Some?
    ensures e.Select? ==> Apply(p, e).value.selected == Some(e.session)
    ensures e.TicketOk? ==> e.t < |p.loads| && Apply(p, e).value.selected == Some(p.loads[e.t].session)
  {
  }

  lemma LastChoiceBefore(events: seq<Event>, j: nat)
    requires LastChoice(events, j) && j < |events| - 1
    ensures LastChoice(events[..|events| - 1], j)
    ensures !events[|events| - 1].Select? && !events[|events| - 1].TicketOk?
  {
    var before := events[..|events| - 1];
    assert forall k :: 0 <= k < |before| ==> before[k] == events[k];
  }

  /** The details on screen are those of the selected session. */
  ghost predicate DetailsMatch(p: Page) {
    && p.details.Some? && p.selected.Some?
    && p.details.value < |p.fetches| && p.fetches[p.details.value].session == p.selected.value
  }

  lemma {:induction false} LastWriteExists(events: seq<Event>) returns (j: nat)
    requires Run(events).Some? && Run(events).value.details.Some?
    ensures LastWrite(events, j)
  {
    var n := |events| - 1;
    WriteStep(Run(events[..n]).value, events[n]);
    if events[n].Select? || events[n].DetailOk? {
      j := n;
    } else {
      j := LastWriteExists(events[..n]);
      assert forall k :: 0 <= k < n ==> events[..n][k] == events[k];
    }
  }

  lemma {:induction false} LastChoiceExists(events: seq<Event>) returns (j: nat)
    requires Run(events).Some? && Run(events).value.selected.Some?
    ensures LastChoice(events, j)
  {
    var n := |events| - 1;
    if events[n].Select? || events[n].TicketOk? {
      j := n;
    } else {
      SelectionStays(Run(events[..n]).value, events[n]);
      j := LastChoiceExists(events[..n]);
      assert forall k :: 0 <= k < n ==> events[..n][k] == events[k];
    }
  }

  lemma {:induction false} DetailsAreAFetch(events: seq<Event>)
    requires Run(events).Some?
    ensures var p := Run(events).value; p.details.Some? ==> p.details.value < |p.fetches|
  {
    if events != [] { DetailsAreAFetch(events[..|events| - 1]); }
  }

  /** The event at `w` is the last to write the details, the one at `c` the last to choose a
      session, and `w` is a successful answer to a fetch for the session chosen at `c`. */
  ghost predicate OwnAnswerLast(events: seq<Event>, w: nat, c: nat)
    requires Run(events).Some?
  {
    && LastWrite(events, w) && LastChoice(events, c)
    && events[w].DetailOk?
    && events[w].i < |Run(events).value.fetches|
    && Run(events[..c + 1]).Some?
    && Run(events).value.fetches[events[w].i].session == ChosenSession(events, c)
  }

  /** In every run of selections, ticket loads, other operations and answers in any order: the
      details on screen are those of the selected session if and only if the last event that wrote
      them is a successful answer to a fetch for the session that was chosen last. */
  lemma DetailsMatchSelection(events: seq<Event>)
    requires Run(events).Some?
    ensures DetailsMatch(Run(events).value) <==> exists w, c :: OwnAnswerLast(events, w, c)
  {
    var p := Run(events).value;
    DetailsAreAFetch(events);
    if DetailsMatch(p) {
      var w := LastWriteExists(events);
      var c := LastChoiceExists(events);
      LastWriteDecides(events, w);
      SelectionOwner(events, c);
      assert OwnAnswerLast(events, w, c);
    }
    if exists w, c :: OwnAnswerLast(events, w, c) {
      var w, c :| OwnAnswerLast(events, w, c);
      LastWriteDecides(events, w);
      SelectionOwner(events, c);
    }
  }

  class Cockpit {
    var selected: Option<SessionId>
    var details: Option<nat>
    var loading: bool
    var fetches: seq<Fetch>
    var loads: seq<Task>
    var works: seq<Task>

    ghost function State(): Page
      reads this
    {
      Page(selected, details, loading, fetches, loads, works)
    }

    constructor ()
      ensures State() == START
    {
      selected, details, loading, fetches, loads, works := None, None, false, [], [], [];
    }

    /** `fetchSessionDetails` up to its await. */
    method FetchSessionDetails(s: SessionId)
      modifies this`loading, this`fetches
      ensures State() == StartFetch(old(State()), s)
    {
      loading := true;
      fetches := fetches + [Fetch(s, Open)];
    }

    /** `fetchSessionDetails` after its await. */
    method DetailsArrive(i: nat, ok: bool)
      requires i < |fetches| && fetches[i].progress == Open
      modifies this
      ensures Apply(old(State()), if ok then DetailOk(i) else DetailFail(i)) == Some(State())
    {
      if ok { details := Some(i); }
      loading := false;
      fetches := fetches[i := fetches[i].(progress := if ok then Succeeded else Failed)];
    }

    /** `handleSelectSession` */
    method HandleSelectSession(s: SessionId)
      modifies this
      ensures Apply(old(State()), Select(s)) == Some(State())
    {
      selected := Some(s);
      details := None;
      FetchSessionDetails(s);
    }

    /** `handleLoadTicket` up to the answer, and from there to the next fetch. */
    method HandleLoadTicket()
      modifies this`loads
      ensures if selected.None? then State() == old(State())
              else Apply(old(State()), StartTicket) == Some(State())
    {
      if selected.None? { return; }
      loads := loads + [Task(selected.value, false)];
    }

    method TicketArrives(t: nat)
      requires t < |loads| && !loads[t].returned
      modifies this
      ensures Apply(old(State()), TicketOk(t)) == Some(State())
    {
      var s := loads[t].session;
      selected := Some(s);
      loads := loads[t := Task(s, true)];
      FetchSessionDetails(s);
    }

    /** Any other handler of the page that ends with `fetchSessionDetails(selectedSession)`: up to
        its first await, and from its answer to the fetch. */
    method HandleWork()
      modifies this`works
      ensures if selected.None? then State() == old(State())
              else Apply(old(State()), StartWork) == Some(State())
    {
      if selected.None? { return; }
      works := works + [Task(selected.value, false)];
    }

    method WorkReturns(t: nat)
      requires t < |works| && !works[t].returned
      modifies this
      ensures Apply(old(State()), WorkOk(t)) == Some(State())
    {
      var s := works[t].session;
      works := works[t := Task(s, true)];
      FetchSessionDetails(s);
    }
  }
}
