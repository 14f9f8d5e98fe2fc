/** `ActionOutboxPanel`: the review workflow, driven by any number of panels that work on lists
    which may be out of date. */
module ActionOutbox {
  import opened Strings
  import opened Permissions

  type ActionId = nat

  datatype Status =
    | Draft | ReviewRequired | Approved | Rejected
    | QueuedAction | Delivered | FailedAction | CancelledAction

  datatype Op = Submit | Approve | Reject | Queue | Deliver

  function Permission(op: Op): string {
    match op
    case Submit => "action:submit"
    case Approve => "action:approve"
    case Reject => "action:approve"
    case Queue => "action:approve"
    case Deliver => "outbox:mock_deliver"
  }

  /** The status that the latest action must show for the button to be enabled. */
  function Needs(op: Op): Status {
    match op
    case Submit => Draft
    case Approve => ReviewRequired
    case Reject => ReviewRequired
    case Queue => Approved
    case Deliver => QueuedAction
  }

  /** The status that the button names: where an accepted call takes the action. */
  function Target(op: Op): Status {
    match op
    case Submit => ReviewRequired
    case Approve => Approved
    case Reject => Rejected
    case Queue => QueuedAction
    case Deliver => Delivered
  }

  datatype Entry = Entry(id: ActionId, status: Status)

  datatype Request = Request(op: Op, id: ActionId)

  /** `shown` is the list on screen, newest action first; `answers` are lists that the server has
      sent and the panel may receive at any later time, in any order; `sent` are the calls that the
      panel has made, which the server may accept at any later time, also after the panel has
      given up on them; `busy` is the lock. */
  datatype Panel = Panel(
    permissions: set<string>, shown: seq<Entry>, answers: seq<seq<Entry>>, busy: bool, sent: seq<Request>)

  /** The server's statuses, and all calls it has accepted so far. */
  datatype System = System(statuses: map<ActionId, Status>, accepted: seq<Request>, panels: seq<Panel>)

  /** `Requeue` is a retry of an action's outbox item, which a queueing has created. `Move` stands for
      everything else that changes a status: new drafts, delivery by the worker, failures,
      cancellation. A call that the server accepts may also leave the status as it is. */
  datatype Event =
    | Move(id: ActionId, status: Status)
    | Requeue(id: ActionId)
    | At(p: nat, step: PanelEvent)
    | Accept(p: nat, k: nat, moves: bool)

  /** What happens inside one panel: the server answers a refresh, the answer arrives, a button is
      pressed, `run` ends. `ProveDenial` makes the call of the Approve button for those who may not
      approve; `Create` makes a call that concerns no existing action. */
  datatype PanelEvent =
    | Serve(list: seq<Entry>)
    | Receive(k: nat)
    | Press(op: Op)
    | ProveDenial
    | Create
    | Finish

  predicate Enabled(panel: Panel, op: Op) {
    && panel.shown != []
    && panel.shown[0].status == Needs(op)
    && Can(panel.permissions, Permission(op))
    && !panel.busy
  }

  predicate DenialEnabled(panel: Panel) {
    && panel.shown != []
    && panel.shown[0].status == ReviewRequired
    && !Can(panel.permissions, Permission(Approve))
    && !panel.busy
  }

  predicate CreateEnabled(panel: Panel) {
    Can(panel.permissions, "action:create") && !panel.busy
  }

  function With(s: System, p: nat, panel: Panel): System
    requires p < |s.panels|
  {
    s.(panels := s.panels[p := panel])
  }

  function Send(panel: Panel, op: Op): Panel
    requires panel.shown != []
  {
    panel.(busy := true, sent := panel.sent + [Request(op, panel.shown[0].id)])
  }

  function PanelStep(panel: Panel, e: PanelEvent): Option<Panel> {
    match e
    case Serve(list) => Some(panel.(answers := panel.answers + [list]))
    case Receive(k) =>
      if k >= |panel.answers| then None else Some(panel.(shown := panel.answers[k]))
    case Press(op) => if Enabled(panel, op) then Some(Send(panel, op)) else None
    case ProveDenial => if DenialEnabled(panel) then Some(Send(panel, Approve)) else None
    case Create => if CreateEnabled(panel) then Some(panel.(busy := true)) else None
    case Finish =>
      if !panel.busy then None else Some(panel.(busy := false))
  }

  function Apply(s: System, e: Event): Option<System> {
    match e
    case Move(id, status) =>
      if status == Approved || status == QueuedAction then None
      else Some(s.(statuses := s.statuses[id := status]))
    case Requeue(id) =>
      if !WasQueued(s.accepted, id) then None
      else Some(s.(statuses := s.statuses[id := QueuedAction]))
    case At(p, step) =>
      if p >= |s.panels| || (step.Serve? && !Current(s.statuses, step.list)) then None
      else
        var next := PanelStep(s.panels[p], step);
        if next.None? then None else Some(With(s, p, next.value))
    case Accept(p, k, moves) =>
      if p >= |s.panels| || k >= |s.panels[p].sent| then None
      else
        var r := s.panels[p].sent[k];
        Some(s.(statuses := if moves then s.statuses[r.id := Target(r.op)] else s.statuses,
                accepted := s.accepted + [r]))
  }

  predicate WasQueued(accepted: seq<Request>, id: ActionId) {
    exists k :: 0 <= k < |accepted| && accepted[k] == Request(Queue, id)
  }

  /** A list shows statuses that the server has at that moment. */
  predicate Current(statuses: map<ActionId, Status>, list: seq<Entry>) {
    forall i :: 0 <= i < |list| ==> list[i].id in statuses && statuses[list[i].id] == list[i].status
  }

  function Start(permissions: seq<set<string>>): System {
    System(map[], [], seq(|permissions|, i requires 0 <= i < |permissions| => Panel(permissions[i], [], [], false, [])))
  }

  function Run(permissions: seq<set<string>>, events: seq<Event>): Option<System> {
    if events == [] then Some(Start(permissions))
    else
      var before := Run(permissions, events[..|events| - 1]);
      if before.None? then None else Apply(before.value, events[|events| - 1])
  }

  // ---- approval and queueing come first -------------------------------------------------

  ghost predicate WasApproved(accepted: seq<Request>, id: ActionId) {
    exists i :: 0 <= i < |accepted| && accepted[i] == Request(Approve, id)
  }

  ghost predicate WasApprovedThenQueued(accepted: seq<Request>, id: ActionId) {
    exists i, k :: 0 <= i < k < |accepted| && accepted[i] == Request(Approve, id) && accepted[k] == Request(Queue, id)
  }

  /** What a status says about the past. */
  ghost predicate Earned(accepted: seq<Request>, id: ActionId, status: Status) {
    && (status == Approved ==> WasApproved(accepted, id))
    && (status == QueuedAction ==> WasApprovedThenQueued(accepted, id))
  }

  ghost predicate ListEarned(accepted: seq<Request>, list: seq<Entry>) {
    forall i :: 0 <= i < |list| ==> Earned(accepted, list[i].id, list[i].status)
  }

  ghost predicate PanelInv(accepted: seq<Request>, panel: Panel) {
    && ListEarned(accepted, panel.shown)
    && (forall k :: 0 <= k < |panel.answers| ==> ListEarned(accepted, panel.answers[k]))
    && (forall k :: 0 <= k < |panel.sent| ==> Earned(accepted, panel.sent[k].id, Needs(panel.sent[k].op)))
  }

  ghost predicate Inv(s: System) {
    && (forall id :: WasQueued(s.accepted, id) ==> WasApprovedThenQueued(s.accepted, id))
    && (forall id :: id in s.statuses ==> Earned(s.accepted, id, s.statuses[id]))
    && (forall p :: 0 <= p < |s.panels| ==> PanelInv(s.accepted, s.panels[p]))
  }

  lemma EarnedStays(accepted: seq<Request>, r: Request)
    ensures forall id, status :: Earned(accepted, id, status) ==> Earned(accepted + [r], id, status)
  {
    var after := accepted + [r];
    assert forall i :: 0 <= i < |accepted| ==> after[i] == accepted[i];
    forall id, status | Earned(accepted, id, status) ensures Earned(after, id, status) {
      if status == Approved {
        var i :| 0 <= i < |accepted| && accepted[i] == Request(Approve, id);
        assert after[i] == Request(Approve, id);
      }
      if status == QueuedAction {
        var i, k :| 0 <= i < k < |accepted| && accepted[i] == Request(Approve, id) && accepted[k] == Request(Queue, id);
        assert after[i] == Request(Approve, id) && after[k] == Request(Queue, id);
      }
    }
  }

  lemma PanelInvStays(accepted: seq<Request>, r: Request, panel: Panel)
    requires PanelInv(accepted, panel)
    ensures PanelInv(accepted + [r], panel)
  {
    EarnedStays(accepted, r);
    forall k | 0 <= k < |panel.answers| ensures ListEarned(accepted + [r], panel.answers[k]) {
      assert ListEarned(accepted, panel.answers[k]);
    }
  }

  lemma AcceptEarns(accepted: seq<Request>, r: Request)
    requires Earned(accepted, r.id, Needs(r.op))
    ensures Earned(accepted + [r], r.id, Target(r.op))
  {
    var after := accepted + [r];
    assert after[|accepted|] == r;
    if r.op == Queue {
      var i :| 0 <= i < |accepted| && accepted[i] == Request(Approve, r.id);
      assert after[i] == Request(Approve, r.id);
    }
  }

  lemma QueuesStayApproved(accepted: seq<Request>, r: Request)
    requires forall id :: WasQueued(accepted, id) ==> WasApprovedThenQueued(accepted, id)
    requires Earned(accepted, r.id, Needs(r.op))
    ensures forall id :: WasQueued(accepted + [r], id) ==> WasApprovedThenQueued(accepted + [r], id)
  {
    var after := accepted + [r];
    EarnedStays(accepted, r);
    AcceptEarns(accepted, r);
    forall id | WasQueued(after, id) ensures WasApprovedThenQueued(after, id) {
      var k :| 0 <= k < |after| && after[k] == Request(Queue, id);
      if k < |accepted| {
        assert accepted[k] == Request(Queue, id);
        assert Earned(accepted, id, QueuedAction);
        assert Earned(after, id, QueuedAction);
      }
    }
  }

  lemma AcceptKeepsInv(s: System, p: nat, k: nat, moves: bool)
    requires Inv(s) && Apply(s, Accept(p, k, moves)).Some?
    ensures Inv(Apply(s, Accept(p, k, moves)).value)
  {
    var t := Apply(s, Accept(p, k, moves)).value;
    assert PanelInv(s.accepted, s.panels[p]);
    var r := s.panels[p].sent[k];
    AcceptEarns(s.accepted, r);
    EarnedStays(s.accepted, r);
    QueuesStayApproved(s.accepted, r);
    forall q | 0 <= q < |t.panels| ensures PanelInv(t.accepted, t.panels[q]) {
      PanelInvStays(s.accepted, r, s.panels[q]);
    }
  }

  lemma StepKeepsInv(s: System, e: Event)
    requires Inv(s) && Apply(s, e).Some?
    ensures Inv(Apply(s, e).value)
  {
    if e.Accept? {
      AcceptKeepsInv(s, e.p, e.k, e.moves);
    } else if e.At? {
      assert PanelInv(s.accepted, s.panels[e.p]);
    }
  }

  lemma {:induction false} RunKeepsInv(permissions: seq<set<string>>, events: seq<Event>)
    requires Run(permissions, events).Some?
    ensures Inv(Run(permissions, events).value)
  {
    if events != [] {
      RunKeepsInv(permissions, events[..|events| - 1]);
      StepKeepsInv(Run(permissions, events[..|events| - 1]).value, events[|events| - 1]);
    }
  }

  /** In every run of any number of panels, however late their lists: a panel lets a user request
      the delivery of an action only after an approval of that action was accepted and, after it,
      a queueing; and it lets a user queue only after an approval. */
  lemma DeliveryNeedsApprovalAndQueueing(permissions: seq<set<string>>, events: seq<Event>, p: nat)
    requires Run(permissions, events).Some? && p < |Run(permissions, events).value.panels|
    ensures var s := Run(permissions, events).value;
      && (Enabled(s.panels[p], Deliver) ==> WasApprovedThenQueued(s.accepted, s.panels[p].shown[0].id))
      && (Enabled(s.panels[p], Queue) ==> WasApproved(s.accepted, s.panels[p].shown[0].id))
      && (s.panels[p].busy ==> forall op :: !Enabled(s.panels[p], op))
  {
    RunKeepsInv(permissions, events);
    var s := Run(permissions, events).value;
    assert PanelInv(s.accepted, s.panels[p]);
  }

  /** The same for what the server accepts: no delivery without the approval and the queueing. */
  lemma {:induction false} AcceptedInOrder(permissions: seq<set<string>>, events: seq<Event>, j: nat)
    requires Run(permissions, events).Some?
    requires j < |Run(permissions, events).value.accepted|
    requires Run(permissions, events).value.accepted[j].op == Deliver
    ensures var a := Run(permissions, events).value.accepted; WasApprovedThenQueued(a[..j], a[j].id)
  {
    if events != [] {
      var before, e := events[..|events| - 1], events[|events| - 1];
      var s, t := Run(permissions, before).value, Run(permissions, events).value;
      if j < |s.accepted| {
        AcceptedInOrder(permissions, before, j);
        assert t.accepted[..j] == s.accepted[..j];
      } else {
        RunKeepsInv(permissions, before);
        assert PanelInv(s.accepted, s.panels[e.p]);
        assert t.accepted[..j] == s.accepted;
      }
    }
  }

  // ---- what the buttons call ------------------------------------------------------------

  /** The server's own guards for the review calls: permission, and the status of the action. */
  predicate ServerAccepts(op: Op, permissions: set<string>, status: Status)
    requires op != Deliver
  {
    match op
    case Submit => Can(permissions, "action:submit") && status == Draft
    case Approve => Can(permissions, "action:approve") && status == ReviewRequired
    case Reject => Can(permissions, "action:approve") && status == ReviewRequired
    case Queue => Can(permissions, "action:approve") && status == Approved
  }

  /** A review button is enabled exactly when nothing is under way and the server would accept the call
      for the latest action as shown; the delivery button, when that action is queued. */
  lemma ButtonsMatchServer(panel: Panel, op: Op)
    ensures op != Deliver ==>
              (Enabled(panel, op) <==>
                !panel.busy && panel.shown != [] && ServerAccepts(op, panel.permissions, panel.shown[0].status))
    ensures op == Deliver ==>
              (Enabled(panel, op) <==>
                !panel.busy && panel.shown != [] && panel.shown[0].status == QueuedAction
                && Can(panel.permissions, "outbox:mock_deliver"))
  {
  }

  /** The workflow: where an accepted call leads, the buttons that follow it are enabled and no others;
      a rejected or delivered action enables none. */
  lemma WorkflowOrder(a: Op, b: Op)
    ensures Needs(b) == Target(a) <==>
              || (a == Submit && (b == Approve || b == Reject))
              || (a == Approve && b == Queue)
              || (a == Queue && b == Deliver)
    ensures Needs(b) == Draft <==> b == Submit
    ensures Needs(b) != Rejected && Needs(b) != Delivered && Target(Reject) == Rejected && Target(Deliver) == Delivered
  {
  }

  /** How many calls panel `p` has made, and the lists that the server has sent it. */
  function CallsMade(events: seq<Event>, p: nat): nat {
    if events == [] then 0
    else
      var e := events[|events| - 1];
      CallsMade(events[..|events| - 1], p)
      + if e.At? && e.p == p && (e.step.Press? || e.step.ProveDenial?) then 1 else 0
  }

  function Served(events: seq<Event>, p: nat): seq<seq<Entry>> {
    if events == [] then []
    else
      var e := events[|events| - 1];
      Served(events[..|events| - 1], p) + if e.At? && e.p == p && e.step.Serve? then [e.step.list] else []
  }

  /** The list on the screen of panel `p`: the one it received last. */
  function ShownList(events: seq<Event>, p: nat): seq<Entry> {
    if events == [] then []
    else
      var before, e := events[..|events| - 1], events[|events| - 1];
      if e.At? && e.p == p && e.step.Receive? && e.step.k < |Served(before, p)| then Served(before, p)[e.step.k]
      else ShownList(before, p)
  }

  /** The event at `i` is call number `k` of panel `p`: a press of `op`, or the denial button for an
      approval; and `id` is the latest action on its screen at that moment, in the status the
      button asks for. */
  ghost predicate CalledAt(events: seq<Event>, p: nat, i: int, k: nat, op: Op, id: ActionId) {
    && 0 <= i < |events| && CallsMade(events[..i], p) == k
    && (events[i] == At(p, Press(op)) || (op == Approve && events[i] == At(p, ProveDenial)))
    && var list := ShownList(events[..i], p);
       list != [] && list[0] == Entry(id, Needs(op))
  }

  ghost predicate Called(events: seq<Event>, p: nat, k: nat, r: Request) {
    exists i :: CalledAt(events, p, i, k, r.op, r.id)
  }

  ghost predicate PanelFollows(events: seq<Event>, p: nat, panel: Panel) {
    && panel.answers == Served(events, p)
    && panel.shown == ShownList(events, p)
    && |panel.sent| == CallsMade(events, p)
    && forall k :: 0 <= k < |panel.sent| ==> Called(events, p, k, panel.sent[k])
  }

  /** In every run each panel shows the list it received last, and has made one call per press, in
      order, each of them the one that the button names, for the latest action on screen. */
  lemma {:induction false} CallsAreForLatest(permissions: seq<set<string>>, events: seq<Event>, p: nat)
    requires Run(permissions, events).Some? && p < |permissions|
    ensures var panels := Run(permissions, events).value.panels;
      |panels| == |permissions| && panels[p].permissions == permissions[p] && PanelFollows(events, p, panels[p])
  {
    if events != [] {
      var before, e := events[..|events| - 1], events[|events| - 1];
      CallsAreForLatest(permissions, before, p);
      assert before + [e] == events;
      var s := Run(permissions, before).value;
      PanelsStep(s, e, p);
      FollowsStep(before, e, p, s.panels[p], Run(permissions, events).value.panels[p]);
    }
  }

  lemma PanelsStep(s: System, e: Event, p: nat)
    requires Apply(s, e).Some? && p < |s.panels|
    ensures var t := Apply(s, e).value;
      && |t.panels| == |s.panels|
      && if e.At? && e.p == p then PanelStep(s.panels[p], e.step) == Some(t.panels[p]) else t.panels[p] == s.panels[p]
  {
  }

  lemma FollowsStep(before: seq<Event>, e: Event, p: nat, panel: Panel, next: Panel)
    requires PanelFollows(before, p, panel)
    requires if e.At? && e.p == p then PanelStep(panel, e.step) == Some(next) else next == panel
    ensures PanelFollows(before + [e], p, next) && next.permissions == panel.permissions
  {
    var events := before + [e];
    assert events[..|before|] == before;
    forall k | 0 <= k < |next.sent| ensures Called(events, p, k, next.sent[k]) {
      if k < |panel.sent| {
        CalledStays(before, e, p, k, panel.sent[k]);
      } else {
        assert CalledAt(events, p, |before|, k, next.sent[k].op, next.sent[k].id);
      }
    }
  }

  lemma CalledStays(before: seq<Event>, e: Event, p: nat, k: nat, r: Request)
    requires Called(before, p, k, r)
    ensures Called(before + [e], p, k, r)
  {
    var i :| CalledAt(before, p, i, k, r.op, r.id);
    assert (before + [e])[..i] == before[..i];
    assert CalledAt(before + [e], p, i, k, r.op, r.id);
  }

  // ---- the lock -------------------------------------------------------------------------

  /** How many operations panel `p` has started, and how many of them have ended. */
  function Started(events: seq<Event>, p: nat): nat {
    if events == [] then 0
    else
      var e := events[|events| - 1];
      Started(events[..|events| - 1], p)
      + if e.At? && e.p == p && (e.step.Press? || e.step.ProveDenial? || e.step.Create?) then 1 else 0
  }

  function Ended(events: seq<Event>, p: nat): nat {
    if events == [] then 0
    else
      var e := events[|events| - 1];
      Ended(events[..|events| - 1], p) + if e.At? && e.p == p && e.step.Finish? then 1 else 0
  }

  /** In every run each panel has at most one operation under way, exactly while it is locked, and
      meanwhile none of its buttons is enabled. */
  lemma {:induction false} OneOperationAtATime(permissions: seq<set<string>>, events: seq<Event>, p: nat)
    requires Run(permissions, events).Some? && p < |permissions|
    ensures var s := Run(permissions, events).value;
      && |s.panels| == |permissions|
      && Started(events, p) == Ended(events, p) + (if s.panels[p].busy then 1 else 0)
      && (s.panels[p].busy ==>
            (forall op :: !Enabled(s.panels[p], op)) && !DenialEnabled(s.panels[p]) && !CreateEnabled(s.panels[p]))
  {
    if events != [] {
      OneOperationAtATime(permissions, events[..|events| - 1], p);
    }
  }

  // ---- the component --------------------------------------------------------------------

  class ActionPanel {
    const permissions: set<string>
    var actions: seq<Entry>
    var busy: bool
    ghost var answers: seq<seq<Entry>>
    var calls: seq<Request>

    /** This panel, as one of the panels of a `System`. */
    ghost function State(): Panel
      reads this
    {
      Panel(permissions, actions, answers, busy, calls)
    }

    constructor (permissions: set<string>)
      ensures State() == Panel(permissions, [], [], false, [])
    {
      this.permissions := permissions;
      actions, busy, answers, calls := [], false, [], [];
    }

    /** A button press up to the call; a disabled button does nothing. */
    method OnPress(op: Op) returns (sent: bool)
      modifies this
      ensures sent <==> old(Enabled(State(), op))
      ensures sent ==> PanelStep(old(State()), Press(op)) == Some(State())
      ensures !sent ==> State() == old(State())
    {
      if |actions| == 0 || actions[0].status != Needs(op) || !Can(permissions, Permission(op)) || busy {
        return false;
      }
      busy := true;
      calls := calls + [Request(op, actions[0].id)];
      return true;
    }

    /** The button that proves the denial, which is only there for those who may not approve. */
    method OnProveDenial() returns (sent: bool)
      modifies this
      ensures sent <==> old(DenialEnabled(State()))
      ensures sent ==> PanelStep(old(State()), ProveDenial) == Some(State())
      ensures !sent ==> State() == old(State())
    {
      var mayApprove := Can(permissions, "action:approve");
      if mayApprove || |actions| == 0 || actions[0].status != ReviewRequired || busy {
        return false;
      }
      busy := true;
      calls := calls + [Request(Approve, actions[0].id)];
      return true;
    }

    /** The create button, with a text that is not blank. */
    method OnCreate() returns (sent: bool)
      modifies this`busy
      ensures sent <==> old(CreateEnabled(State()))
      ensures sent ==> PanelStep(old(State()), Create) == Some(State())
      ensures !sent ==> State() == old(State())
    {
      if !Can(permissions, "action:create") || busy {
        return false;
      }
      busy := true;
      return true;
    }

    /** The server answers a refresh of this panel with a list that is current at that moment. */
    ghost method Serve(statuses: map<ActionId, Status>, list: seq<Entry>)
      requires Current(statuses, list)
      modifies this`answers
      ensures PanelStep(old(State()), PanelEvent.Serve(list)) == Some(State())
    {
      answers := answers + [list];
    }

    /** `refresh` when its list, the server's answer number `k`, arrives. */
    method OnList(list: seq<Entry>, ghost k: nat)
      requires k < |answers| && answers[k] == list
      modifies this
      ensures PanelStep(old(State()), Receive(k)) == Some(State())
    {
      actions := list;
    }

    /** The `finally` of `run`. */
    method OnRunEnds()
      requires busy
      modifies this
      ensures PanelStep(old(State()), Finish) == Some(State())
    {
      busy := false;
    }
  }
}
