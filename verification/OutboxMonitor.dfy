/** `OutboxMonitorPanel`: list refreshes, item clicks, and the lock around the four operations. */
module OutboxMonitor {
  import opened Strings
  import opened Permissions

  type ItemId = string

  datatype Status =
    | Queued | Processing | RetryScheduled | DeadLettered | FailedItem
    | MockDelivered | SandboxDelivered | Cancelled

  datatype Item = Item(id: ItemId, status: Status)

  datatype Op = ProcessOnce | Retry | DeadLetter | Cancel

  function Permission(op: Op): string {
    match op
    case ProcessOnce => "outbox:process_once"
    case Retry => "outbox:retry"
    case DeadLetter => "outbox:dead_letter"
    case Cancel => "outbox:cancel"
  }

  /** The statuses under which the panel enables an operation. */
  predicate Allows(op: Op, status: Status) {
    match op
    case ProcessOnce => status in {Queued, RetryScheduled}
    case Retry => status in {FailedItem, RetryScheduled, DeadLettered}
    case DeadLetter => status in {FailedItem, RetryScheduled, Processing}
    case Cancel => status in {Queued, Processing, FailedItem, RetryScheduled}
  }

  /** Delivered and cancelled items are the ones that enable nothing, for anybody. */
  lemma FinalItemsEnableNothing(status: Status)
    ensures (forall op :: !Allows(op, status)) <==> status in {MockDelivered, SandboxDelivered, Cancelled}
  {
    assert Allows(Cancel, status) || Allows(Retry, status) || status in {MockDelivered, SandboxDelivered, Cancelled};
  }

  /** The server's own guards: the permission and the item statuses that each call is accepted with.
      An item under processing may be claimed again when its lock has run out. */
  predicate ServerAccepts(op: Op, permissions: set<string>, status: Status) {
    match op
    case ProcessOnce => Can(permissions, "outbox:process_once") && status in {Queued, RetryScheduled, Processing}
    case Retry => Can(permissions, "outbox:retry") && status in {FailedItem, RetryScheduled, DeadLettered}
    case DeadLetter => Can(permissions, "outbox:dead_letter") && status in {FailedItem, RetryScheduled, Processing}
    case Cancel =>
      Can(permissions, "outbox:cancel") && status in {Queued, Processing, FailedItem, RetryScheduled}
  }

  /** The panel enables exactly what the server would accept for the item as shown, but for claiming an
      item again that is still under processing. */
  lemma ButtonsMatchServer(op: Op, permissions: set<string>, status: Status)
    ensures Can(permissions, Permission(op)) && Allows(op, status) <==>
              ServerAccepts(op, permissions, status) && !(op == ProcessOnce && status == Processing)
  {
  }

  // ---- panel state ----------------------------------------------------------------------

  /** A refresh waits for the list, then for the attempts of the selected item, then is over. */
  datatype Refresh = AwaitsList | AwaitsDetail(id: ItemId) | Over

  /** An operation waits for its call, then for its refresh, then for `onChanged`, then is over. */
  datatype Run = Calling(op: Op, id: ItemId) | Refreshing(refresh: nat) | Notifying | Ended

  /** `attempts` names the item whose attempts are shown; `None` is the empty list. `clicks` holds,
      for each click, the item whose attempts it asked for, until they have arrived. */
  datatype Panel = Panel(
    items: seq<Item>, ref: Option<Item>, selected: Option<Item>, attempts: Option<ItemId>,
    busy: Option<Op>, refreshes: seq<Refresh>, clicks: seq<Option<ItemId>>, runs: seq<Run>)

  datatype Event =
    | RefreshStarts
    | ListArrives(r: nat, list: seq<Item>)
    | RefreshFails(r: nat)
    | DetailArrives(r: nat)
    | Click(item: Item)
    | ClickDetailArrives(k: nat)
    | Press(op: Op)
    | CallSucceeds(k: nat)
    | CallFails(k: nat)
    | RefreshDone(k: nat)
    | Notified(k: nat)

  const START := Panel([], None, None, None, None, [], [], [])

  function FindItem(items: seq<Item>, id: ItemId): Option<Item> {
    if items == [] then None
    else if items[0].id == id then Some(items[0])
    else FindItem(items[1..], id)
  }

  lemma {:induction false} FindItemMeaning(items: seq<Item>, id: ItemId)
    ensures FindItem(items, id).Some? <==> exists i :: 0 <= i < |items| && items[i].id == id
    ensures FindItem(items, id).Some? ==> FindItem(items, id).value.id == id && FindItem(items, id).value in items
  {
    if items != [] {
      FindItemMeaning(items[1..], id);
      if exists i :: 0 <= i < |items| && items[i].id == id {
        var i :| 0 <= i < |items| && items[i].id == id;
        assert i > 0 ==> items[1..][i - 1].id == id;
      }
    }
  }

  /** What a refresh selects: the item selected at the time the list arrives, as the list has it, or
      else the first item. */
  function NextSelected(ref: Option<Item>, list: seq<Item>): Option<Item> {
    var still := if ref.Some? then FindItem(list, ref.value.id) else None;
    if still.Some? then still else if list != [] then Some(list[0]) else None
  }

  predicate Enabled(p: Panel, permissions: set<string>, op: Op) {
    && p.selected.Some?
    && Can(permissions, Permission(op))
    && p.busy.None?
    && Allows(op, p.selected.value.status)
  }

  /** A button is enabled exactly when nothing is under way and the server would accept the call. */
  lemma EnabledMatchesServer(p: Panel, permissions: set<string>, op: Op)
    ensures Enabled(p, permissions, op) <==>
              && p.busy.None? && p.selected.Some?
              && ServerAccepts(op, permissions, p.selected.value.status)
              && !(op == ProcessOnce && p.selected.value.status == Processing)
  {
    if p.selected.Some? { ButtonsMatchServer(op, permissions, p.selected.value.status); }
  }

  function Apply(p: Panel, permissions: set<string>, e: Event): Option<Panel> {
    match e
    case RefreshStarts => Some(p.(refreshes := p.refreshes + [AwaitsList]))
    case ListArrives(r, list) =>
      if r >= |p.refreshes| || p.refreshes[r] != AwaitsList then None
      else
        var next := NextSelected(p.ref, list);
        var q := p.(items := list, ref := next, selected := next);
        Some(if next.Some? then q.(refreshes := p.refreshes[r := AwaitsDetail(next.value.id)])
             else q.(attempts := None, refreshes := p.refreshes[r := Over]))
    case RefreshFails(r) =>
      if r >= |p.refreshes| || p.refreshes[r] == Over then None
      else Some(p.(refreshes := p.refreshes[r := Over]))
    case DetailArrives(r) =>
      if r >= |p.refreshes| || !p.refreshes[r].AwaitsDetail? then None
      else Some(p.(attempts := Some(p.refreshes[r].id), refreshes := p.refreshes[r := Over]))
    case Click(item) =>
      if item !in p.items then None
      else Some(p.(ref := Some(item), selected := Some(item), clicks := p.clicks + [Some(item.id)]))
    case ClickDetailArrives(k) =>
      if k >= |p.clicks| || p.clicks[k].None? then None
      else Some(p.(attempts := p.clicks[k], clicks := p.clicks[k := None]))
    case Press(op) =>
      if !Enabled(p, permissions, op) then None
      else Some(p.(busy := Some(op), runs := p.runs + [Calling(op, p.selected.value.id)]))
    case CallSucceeds(k) =>
      if k >= |p.runs| || !p.runs[k].Calling? then None
      else Some(p.(refreshes := p.refreshes + [AwaitsList], runs := p.runs[k := Refreshing(|p.refreshes|)]))
    case CallFails(k) =>
      if k >= |p.runs| || !p.runs[k].Calling? then None
      else Some(p.(busy := None, runs := p.runs[k := Ended]))
    case RefreshDone(k) =>
      if k >= |p.runs| || !p.runs[k].Refreshing? || p.runs[k].refresh >= |p.refreshes|
         || p.refreshes[p.runs[k].refresh] != Over then None
      else Some(p.(runs := p.runs[k := Notifying]))
    case Notified(k) =>
      if k >= |p.runs| || !p.runs[k].Notifying? then None
      else Some(p.(busy := None, runs := p.runs[k := Ended]))
  }

  function RunFrom(p: Panel, permissions: set<string>, events: seq<Event>): Option<Panel> {
    if events == [] then Some(p)
    else
      var before := RunFrom(p, permissions, events[..|events| - 1]);
      if before.None? then None else Apply(before.value, permissions, events[|events| - 1])
  }

  // ---- the lock -------------------------------------------------------------------------

  /** The ref and the state agree on an item of the list on screen. */
  ghost predicate SelectionInv(p: Panel) {
    && p.ref == p.selected
    && (p.selected.Some? ==> p.selected.value in p.items)
  }

  /** Only the newest operation can be under way; the lock is held exactly while it is; a call that is
      out was permitted and the lock names it. */
  ghost predicate LockInv(p: Panel, permissions: set<string>) {
    && (forall k :: 0 <= k < |p.runs| && p.runs[k] != Ended ==> k == |p.runs| - 1)
    && (p.busy.Some? <==> p.runs != [] && p.runs[|p.runs| - 1] != Ended)
    && (forall k :: 0 <= k < |p.runs| && p.runs[k].Calling? ==>
          Can(permissions, Permission(p.runs[k].op)) && p.busy == Some(p.runs[k].op))
  }

  ghost predicate Inv(p: Panel, permissions: set<string>) {
    SelectionInv(p) && LockInv(p, permissions)
  }

  lemma StepKeepsSelection(p: Panel, permissions: set<string>, e: Event)
    requires SelectionInv(p) && Apply(p, permissions, e).Some?
    ensures SelectionInv(Apply(p, permissions, e).value)
  {
    if e.ListArrives? && p.ref.Some? { FindItemMeaning(e.list, p.ref.value.id); }
  }

  lemma StepKeepsLock(p: Panel, permissions: set<string>, e: Event)
    requires LockInv(p, permissions) && Apply(p, permissions, e).Some?
    ensures LockInv(Apply(p, permissions, e).value, permissions)
  {
  }

  lemma {:induction false} RunKeepsInv(permissions: set<string>, events: seq<Event>)
    requires RunFrom(START, permissions, events).Some?
    ensures Inv(RunFrom(START, permissions, events).value, permissions)
  {
    if events != [] {
      var before, e := events[..|events| - 1], events[|events| - 1];
      RunKeepsInv(permissions, before);
      StepKeepsSelection(RunFrom(START, permissions, before).value, permissions, e);
      StepKeepsLock(RunFrom(START, permissions, before).value, permissions, e);
    }
  }

  /** In every run, at most one operation is under way, from its call to the end of `onChanged`; its
      call was permitted; and while it is under way no operation is enabled. */
  lemma OneOperationAtATime(permissions: set<string>, events: seq<Event>, j: nat, k: nat)
    requires RunFrom(START, permissions, events).Some?
    requires var rs := RunFrom(START, permissions, events).value.runs; j < |rs| && k < |rs|
    requires var rs := RunFrom(START, permissions, events).value.runs; rs[j] != Ended && rs[k] != Ended
    ensures j == k
    ensures var r := RunFrom(START, permissions, events).value.runs[j];
      r.Calling? ==> Can(permissions, Permission(r.op)) && RunFrom(START, permissions, events).value.busy == Some(r.op)
    ensures forall op :: !Enabled(RunFrom(START, permissions, events).value, permissions, op)
  {
    RunKeepsInv(permissions, events);
  }

  // ---- selection ------------------------------------------------------------------------

  ghost predicate Holds(id: ItemId, e: Event) {
    && !e.Click?
    && (e.ListArrives? ==> exists i :: 0 <= i < |e.list| && e.list[i].id == id)
  }

  /** A clicked item stays selected through any number of refreshes, also ones that were under way
      when it was clicked, for as long as every list that arrives still contains it. */
  lemma {:induction false} ClickSurvivesRefreshes(p: Panel, permissions: set<string>, item: Item, events: seq<Event>)
    requires item in p.items
    requires forall e :: e in events ==> Holds(item.id, e)
    requires RunFrom(Apply(p, permissions, Click(item)).value, permissions, events).Some?
    ensures var q := RunFrom(Apply(p, permissions, Click(item)).value, permissions, events).value;
      q.selected.Some? && q.selected.value.id == item.id && q.ref == q.selected
  {
    if events != [] {
      var before, e := events[..|events| - 1], events[|events| - 1];
      assert e in events && forall x :: x in before ==> x in events;
      ClickSurvivesRefreshes(p, permissions, item, before);
      if e.ListArrives? { FindItemMeaning(e.list, item.id); }
    }
  }

  /** When a list arrives without the selected item, the selection falls to the list's first item,
      and to nothing if the list is empty. */
  lemma LostSelectionFallsToFirst(p: Panel, permissions: set<string>, r: nat, list: seq<Item>)
    requires Apply(p, permissions, ListArrives(r, list)).Some?
    ensures var q := Apply(p, permissions, ListArrives(r, list)).value;
      && (q.selected.Some? ==> q.selected.value in list)
      && (q.selected.None? <==> list == [])
      && (list != [] && (p.ref.None? || forall i :: 0 <= i < |list| ==> list[i].id != p.ref.value.id) ==>
            q.selected == Some(list[0]))
  {
    if p.ref.Some? { FindItemMeaning(list, p.ref.value.id); }
  }

  // ---- what the panel owes to its history -----------------------------------------------

  function Presses(events: seq<Event>): nat {
    if events == [] then 0
    else Presses(events[..|events| - 1]) + if events[|events| - 1].Press? then 1 else 0
  }

  /** The event at `i` is press number `k`, of operation `op`, and what the user saw at that moment was
      item `id` selected, on the list on screen, in a status that the server accepts. */
  ghost predicate PressedAt(permissions: set<string>, events: seq<Event>, i: int, k: nat, op: Op, id: ItemId) {
    && 0 <= i < |events| && events[i] == Press(op) && Presses(events[..i]) == k
    && Before(permissions, events, i).Some?
    && var p := Before(permissions, events, i).value;
       p.selected.Some? && p.selected.value.id == id && p.selected.value in p.items
       && ServerAccepts(op, permissions, p.selected.value.status)
  }

  ghost predicate Pressed(permissions: set<string>, events: seq<Event>, k: nat, op: Op, id: ItemId) {
    exists i :: PressedAt(permissions, events, i, k, op, id)
  }

  ghost predicate CallsFollow(permissions: set<string>, events: seq<Event>, p: Panel) {
    && |p.runs| == Presses(events)
    && forall k :: 0 <= k < |p.runs| && p.runs[k].Calling? ==>
         Pressed(permissions, events, k, p.runs[k].op, p.runs[k].id)
  }

  /** In every run there is one call per press, in order, and each is the operation that was pressed,
      for the item that was selected when it was pressed. */
  lemma {:induction false} CallsAreForSelected(permissions: set<string>, events: seq<Event>)
    requires RunFrom(START, permissions, events).Some?
    ensures CallsFollow(permissions, events, RunFrom(START, permissions, events).value)
  {
    if events != [] {
      var before, e := events[..|events| - 1], events[|events| - 1];
      CallsAreForSelected(permissions, before);
      RunKeepsInv(permissions, before);
      assert before + [e] == events;
      CallsStep(permissions, before, RunFrom(START, permissions, before).value, e);
    }
  }

  lemma CallsStep(permissions: set<string>, before: seq<Event>, p: Panel, e: Event)
    requires RunFrom(START, permissions, before) == Some(p) && CallsFollow(permissions, before, p)
    requires Inv(p, permissions) && Apply(p, permissions, e).Some?
    ensures CallsFollow(permissions, before + [e], Apply(p, permissions, e).value)
  {
    var q := Apply(p, permissions, e).value;
    assert (before + [e])[..|before|] == before;
    forall k | 0 <= k < |q.runs| && q.runs[k].Calling?
      ensures Pressed(permissions, before + [e], k, q.runs[k].op, q.runs[k].id)
    {
      CallStep(permissions, before, p, e, k);
    }
  }

  lemma CallStep(permissions: set<string>, before: seq<Event>, p: Panel, e: Event, k: nat)
    requires RunFrom(START, permissions, before) == Some(p) && |p.runs| == Presses(before) && Inv(p, permissions)
    requires Apply(p, permissions, e).Some?
    requires k < |Apply(p, permissions, e).value.runs| && Apply(p, permissions, e).value.runs[k].Calling?
    requires k < |p.runs| && p.runs[k].Calling? ==> Pressed(permissions, before, k, p.runs[k].op, p.runs[k].id)
    ensures var r := Apply(p, permissions, e).value.runs[k]; Pressed(permissions, before + [e], k, r.op, r.id)
  {
    var r := Apply(p, permissions, e).value.runs[k];
    if k < |p.runs| {
      PressedStays(permissions, before, e, k, r.op, r.id);
    } else {
      var events := before + [e];
      ButtonsMatchServer(r.op, permissions, p.selected.value.status);
      assert events[..|before|] == before;
      assert PressedAt(permissions, events, |before|, k, r.op, r.id);
    }
  }

  lemma PressedStays(permissions: set<string>, before: seq<Event>, e: Event, k: nat, op: Op, id: ItemId)
    requires Pressed(permissions, before, k, op, id)
    ensures Pressed(permissions, before + [e], k, op, id)
  {
    var i :| PressedAt(permissions, before, i, k, op, id);
    assert (before + [e])[..i] == before[..i];
    assert PressedAt(permissions, before + [e], i, k, op, id);
  }

  /** How far operation `k` is: each phase ends with its own event and with no other. */
  ghost predicate PhaseFollows(p: Panel, events: seq<Event>, k: nat)
    requires k < |p.runs|
  {
    && (p.runs[k].Calling? <==> CallSucceeds(k) !in events && CallFails(k) !in events)
    && (p.runs[k].Refreshing? <==> CallSucceeds(k) in events && RefreshDone(k) !in events)
    && (p.runs[k].Notifying? <==> RefreshDone(k) in events && Notified(k) !in events)
    && (p.runs[k].Ended? <==> CallFails(k) in events || Notified(k) in events)
  }

  /** Nothing has happened to an operation number `k`. */
  predicate NoneOf(events: seq<Event>, k: nat) {
    && CallSucceeds(k) !in events && CallFails(k) !in events
    && RefreshDone(k) !in events && Notified(k) !in events
  }

  ghost predicate PhasesFollow(p: Panel, events: seq<Event>) {
    && (forall k :: 0 <= k < |p.runs| ==> PhaseFollows(p, events, k))
    && (forall k: nat :: k >= |p.runs| ==> NoneOf(events, k))
  }

  /** In every run each operation goes through call, refresh and notification, or ends with its failed
      call. */
  lemma {:induction false} OperationsFollowEvents(permissions: set<string>, events: seq<Event>)
    requires RunFrom(START, permissions, events).Some?
    ensures PhasesFollow(RunFrom(START, permissions, events).value, events)
  {
    if events != [] {
      var before, e := events[..|events| - 1], events[|events| - 1];
      OperationsFollowEvents(permissions, before);
      assert before + [e] == events;
      PhasesStep(RunFrom(START, permissions, before).value, permissions, before, e);
    }
  }

  lemma PhasesStep(p: Panel, permissions: set<string>, before: seq<Event>, e: Event)
    requires PhasesFollow(p, before) && Apply(p, permissions, e).Some?
    ensures PhasesFollow(Apply(p, permissions, e).value, before + [e])
  {
    var q := Apply(p, permissions, e).value;
    forall k | 0 <= k < |q.runs| ensures PhaseFollows(q, before + [e], k) {
      assert k < |p.runs| ==> PhaseFollows(p, before, k);
      PhaseStep(p, permissions, before, e, k);
    }
    forall k: nat | k >= |q.runs| ensures NoneOf(before + [e], k) {
      assert NoneOf(before, k);
    }
  }

  /** A refresh waits for its list until that comes or fails; a click's answer is due until it comes. */
  ghost predicate WaitsFollow(p: Panel, events: seq<Event>) {
    && |p.refreshes| == Refreshes(events)
    && |p.clicks| == Clicks(events)
    && (forall r: nat :: RefreshFollows(RefreshAt(p, r), events, r))
    && (forall k :: 0 <= k < |p.clicks| ==> (p.clicks[k].None? <==> ClickDetailArrives(k) in events))
    && (forall k: nat :: k >= |p.clicks| ==> ClickDetailArrives(k) !in events)
  }

  /** Refresh number `r`; one that has not been started waits for its list, too. */
  function RefreshAt(p: Panel, r: nat): Refresh {
    if r < |p.refreshes| then p.refreshes[r] else AwaitsList
  }

  ghost predicate RefreshFollows(refresh: Refresh, events: seq<Event>, r: nat) {
    && (refresh.AwaitsList? <==> (forall list :: ListArrives(r, list) !in events) && RefreshFails(r) !in events)
    && (refresh.AwaitsDetail? <==>
          (exists list :: list != [] && ListArrives(r, list) in events)
          && DetailArrives(r) !in events && RefreshFails(r) !in events)
    && (refresh.AwaitsList? ==> DetailArrives(r) !in events)
  }

  function Refreshes(events: seq<Event>): nat {
    if events == [] then 0
    else
      var e := events[|events| - 1];
      Refreshes(events[..|events| - 1]) + if e.RefreshStarts? || e.CallSucceeds? then 1 else 0
  }

  function Clicks(events: seq<Event>): nat {
    if events == [] then 0
    else Clicks(events[..|events| - 1]) + if events[|events| - 1].Click? then 1 else 0
  }

  /** In every run there is one refresh per start and per successful call, and one answer due per click;
      each of them is over exactly after its own answers or failure. */
  lemma {:induction false} RefreshesFollowEvents(permissions: set<string>, events: seq<Event>)
    requires RunFrom(START, permissions, events).Some?
    ensures WaitsFollow(RunFrom(START, permissions, events).value, events)
  {
    if events != [] {
      var before, e := events[..|events| - 1], events[|events| - 1];
      RefreshesFollowEvents(permissions, before);
      assert before + [e] == events;
      WaitsStep(RunFrom(START, permissions, before).value, permissions, before, e);
    }
  }

  lemma WaitsStep(p: Panel, permissions: set<string>, before: seq<Event>, e: Event)
    requires WaitsFollow(p, before) && Apply(p, permissions, e).Some?
    ensures WaitsFollow(Apply(p, permissions, e).value, before + [e])
  {
    var q, events := Apply(p, permissions, e).value, before + [e];
    assert events[..|before|] == before;
    forall r: nat ensures RefreshFollows(RefreshAt(q, r), events, r) {
      assert RefreshFollows(RefreshAt(p, r), before, r);
      RefreshStep(p, permissions, before, e, r);
    }
  }

  lemma RefreshStep(p: Panel, permissions: set<string>, before: seq<Event>, e: Event, r: nat)
    requires Apply(p, permissions, e).Some?
    requires RefreshFollows(RefreshAt(p, r), before, r)
    ensures RefreshFollows(RefreshAt(Apply(p, permissions, e).value, r), before + [e], r)
  {
    assert forall x :: x in before + [e] <==> x in before || x == e;
  }

  function LastList(events: seq<Event>): seq<Item> {
    if events == [] then []
    else if events[|events| - 1].ListArrives? then events[|events| - 1].list
    else LastList(events[..|events| - 1])
  }

  /** In every run the list on screen is the last one that arrived. */
  lemma {:induction false} ListIsTheLast(permissions: set<string>, events: seq<Event>)
    requires RunFrom(START, permissions, events).Some?
    ensures RunFrom(START, permissions, events).value.items == LastList(events)
  {
    if events != [] { ListIsTheLast(permissions, events[..|events| - 1]); }
  }

  lemma PhaseStep(p: Panel, permissions: set<string>, before: seq<Event>, e: Event, k: nat)
    requires Apply(p, permissions, e).Some? && k < |Apply(p, permissions, e).value.runs|
    requires if k < |p.runs| then PhaseFollows(p, before, k)
             else NoneOf(before, k)
    ensures PhaseFollows(Apply(p, permissions, e).value, before + [e], k)
  {
  }

  // ---- whose attempts are shown ---------------------------------------------------------

  ghost predicate LeavesRefresh(r: nat, e: Event) {
    && !e.Click? && !e.ListArrives?
    && e != DetailArrives(r) && e != RefreshFails(r)
  }

  /** The attempts on screen at the end of a refresh are those of the selected item, as long as
      nothing was clicked and no other list arrived since its own list. */
  lemma {:induction false} AttemptsFollowSelection(
    p: Panel, permissions: set<string>, r: nat, list: seq<Item>, events: seq<Event>)
    requires Apply(p, permissions, ListArrives(r, list)).Some? && list != []
    requires forall e :: e in events ==> LeavesRefresh(r, e)
    requires RunFrom(Apply(p, permissions, ListArrives(r, list)).value, permissions, events).Some?
    ensures var q := RunFrom(Apply(p, permissions, ListArrives(r, list)).value, permissions, events).value;
            var done := Apply(q, permissions, DetailArrives(r));
      && q.selected.Some? && r < |q.refreshes| && q.refreshes[r] == AwaitsDetail(q.selected.value.id)
      && done.Some? && done.value.selected == q.selected && done.value.attempts == Some(q.selected.value.id)
  {
    if events != [] {
      var before, e := events[..|events| - 1], events[|events| - 1];
      assert e in events && forall x :: x in before ==> x in events;
      AttemptsFollowSelection(p, permissions, r, list, before);
    }
  }

  /** The attempts on screen are those of the selected item. */
  predicate AttemptsMatch(p: Panel) {
    p.selected.Some? && p.attempts == Some(p.selected.value.id)
  }

  predicate Writes(e: Event) {
    e.DetailArrives? || e.ClickDetailArrives? || (e.ListArrives? && e.list == [])
  }

  predicate Selects(e: Event) {
    e.Click? || e.ListArrives?
  }

  /** The item whose attempts the event `e` shows, in the state it finds. */
  function Written(p: Panel, e: Event): Option<ItemId> {
    match e
    case DetailArrives(r) => if r < |p.refreshes| && p.refreshes[r].AwaitsDetail? then Some(p.refreshes[r].id) else None
    case ClickDetailArrives(k) => if k < |p.clicks| then p.clicks[k] else None
    case _ => None
  }

  /** The item that the event `e` selects, in the state it finds. */
  function Chosen(p: Panel, e: Event): Option<Item> {
    match e
    case Click(item) => Some(item)
    case ListArrives(_, list) => NextSelected(p.ref, list)
    case _ => None
  }

  lemma AttemptsStep(p: Panel, permissions: set<string>, e: Event)
    requires Apply(p, permissions, e).Some?
    ensures var q := Apply(p, permissions, e).value;
      && q.attempts == (if Writes(e) then Written(p, e) else p.attempts)
      && q.selected == (if Selects(e) then Chosen(p, e) else p.selected)
  {
  }

  ghost predicate LastWrite(events: seq<Event>, j: nat) {
    && j < |events| && Writes(events[j])
    && forall k :: j < k < |events| ==> !Writes(events[k])
  }

  ghost predicate LastSelection(events: seq<Event>, j: nat) {
    && j < |events| && Selects(events[j])
    && forall k :: j < k < |events| ==> !Selects(events[k])
  }

  /** The state that the event at `j` finds. */
  function Before(permissions: set<string>, events: seq<Event>, j: nat): Option<Panel>
    requires j <= |events|
  {
    RunFrom(START, permissions, events[..j])
  }

  lemma {:induction false} LastWriteDecides(permissions: set<string>, events: seq<Event>, j: nat)
    requires RunFrom(START, permissions, events).Some? && LastWrite(events, j)
    ensures Before(permissions, events, j).Some?
    ensures RunFrom(START, permissions, events).value.attempts
         == Written(Before(permissions, events, j).value, events[j])
    decreases |events|
  {
    var n := |events| - 1;
    var before := events[..n];
    AttemptsStep(RunFrom(START, permissions, before).value, permissions, events[n]);
    if j < n {
      assert before[..j] == events[..j] && forall k :: 0 <= k < n ==> before[k] == events[k];
      LastWriteDecides(permissions, before, j);
    }
  }

  lemma {:induction false} LastSelectionDecides(permissions: set<string>, events: seq<Event>, j: nat)
    requires RunFrom(START, permissions, events).Some? && LastSelection(events, j)
    ensures Before(permissions, events, j).Some?
    ensures RunFrom(START, permissions, events).value.selected
         == Chosen(Before(permissions, events, j).value, events[j])
    decreases |events|
  {
    var n := |events| - 1;
    var before := events[..n];
    AttemptsStep(RunFrom(START, permissions, before).value, permissions, events[n]);
    if j < n {
      assert before[..j] == events[..j] && forall k :: 0 <= k < n ==> before[k] == events[k];
      LastSelectionDecides(permissions, before, j);
    }
  }

  lemma {:induction false} LastWriteExists(permissions: set<string>, events: seq<Event>) returns (j: nat)
    requires RunFrom(START, permissions, events).Some?
    requires RunFrom(START, permissions, events).value.attempts.Some?
    ensures LastWrite(events, j)
  {
    var n := |events| - 1;
    AttemptsStep(RunFrom(START, permissions, events[..n]).value, permissions, events[n]);
    if Writes(events[n]) {
      j := n;
    } else {
      j := LastWriteExists(permissions, events[..n]);
      LastWriteStays(events, j);
    }
  }

  lemma LastWriteStays(events: seq<Event>, j: nat)
    requires events != [] && !Writes(events[|events| - 1]) && LastWrite(events[..|events| - 1], j)
    ensures LastWrite(events, j)
  {
    assert forall k :: 0 <= k < |events| - 1 ==> events[..|events| - 1][k] == events[k];
  }

  lemma {:induction false} LastSelectionExists(permissions: set<string>, events: seq<Event>) returns (j: nat)
    requires RunFrom(START, permissions, events).Some?
    requires RunFrom(START, permissions, events).value.selected.Some?
    ensures LastSelection(events, j)
  {
    var n := |events| - 1;
    AttemptsStep(RunFrom(START, permissions, events[..n]).value, permissions, events[n]);
    if Selects(events[n]) {
      j := n;
    } else {
      j := LastSelectionExists(permissions, events[..n]);
      LastSelectionStays(events, j);
    }
  }

  lemma LastSelectionStays(events: seq<Event>, j: nat)
    requires events != [] && !Selects(events[|events| - 1]) && LastSelection(events[..|events| - 1], j)
    ensures LastSelection(events, j)
  {
    assert forall k :: 0 <= k < |events| - 1 ==> events[..|events| - 1][k] == events[k];
  }

  /** The event at `w` is the last to write the attempts, the one at `c` the last to select, and
      `w` shows the attempts of the item that `c` selects. */
  ghost predicate AttemptsOfChoiceLast(permissions: set<string>, events: seq<Event>, w: nat, c: nat) {
    && LastWrite(events, w) && LastSelection(events, c)
    && Before(permissions, events, w).Some? && Before(permissions, events, c).Some?
    && var written, chosen := Written(Before(permissions, events, w).value, events[w]),
                              Chosen(Before(permissions, events, c).value, events[c]);
       chosen.Some? && written == Some(chosen.value.id)
  }

  /** In every run: the attempts on screen are those of the selected item if and only if the last
      answer that wrote them is about the item that the last click or list selected. */
  lemma AttemptsMatchSelection(permissions: set<string>, events: seq<Event>)
    requires RunFrom(START, permissions, events).Some?
    ensures AttemptsMatch(RunFrom(START, permissions, events).value) <==>
              exists w, c :: AttemptsOfChoiceLast(permissions, events, w, c)
  {
    if AttemptsMatch(RunFrom(START, permissions, events).value) {
      var w := LastWriteExists(permissions, events);
      var c := LastSelectionExists(permissions, events);
      LastWriteDecides(permissions, events, w);
      LastSelectionDecides(permissions, events, c);
      assert AttemptsOfChoiceLast(permissions, events, w, c);
    }
    if exists w, c :: AttemptsOfChoiceLast(permissions, events, w, c) {
      var w, c :| AttemptsOfChoiceLast(permissions, events, w, c);
      LastWriteDecides(permissions, events, w);
      LastSelectionDecides(permissions, events, c);
    }
  }

  /** The event at `i` selects the item `id`. */
  ghost predicate SelectsId(permissions: set<string>, events: seq<Event>, i: int, id: ItemId) {
    && 0 <= i < |events| && Selects(events[i]) && Before(permissions, events, i).Some?
    && var chosen := Chosen(Before(permissions, events, i).value, events[i]);
       chosen.Some? && chosen.value.id == id
  }

  ghost predicate ChosenByList(permissions: set<string>, events: seq<Event>, r: nat, id: ItemId) {
    exists i :: SelectsId(permissions, events, i, id) && events[i].ListArrives? && events[i].r == r
  }

  ghost predicate ChosenByClick(permissions: set<string>, events: seq<Event>, id: ItemId) {
    exists i :: SelectsId(permissions, events, i, id) && events[i].Click?
  }

  ghost predicate AsksForSelected(permissions: set<string>, events: seq<Event>, p: Panel) {
    && (forall r :: 0 <= r < |p.refreshes| && p.refreshes[r].AwaitsDetail? ==>
          ChosenByList(permissions, events, r, p.refreshes[r].id))
    && (forall k :: 0 <= k < |p.clicks| && p.clicks[k].Some? ==>
          ChosenByClick(permissions, events, p.clicks[k].value))
  }

  /** Every answer about attempts is about an item that was selected: a refresh asks for what its own
      list selected, a click for the item clicked. */
  lemma {:induction false} AnswersWereSelected(permissions: set<string>, events: seq<Event>)
    requires RunFrom(START, permissions, events).Some?
    ensures AsksForSelected(permissions, events, RunFrom(START, permissions, events).value)
  {
    if events != [] {
      var before, e := events[..|events| - 1], events[|events| - 1];
      AnswersWereSelected(permissions, before);
      assert before + [e] == events;
      AskingStep(permissions, before, e);
    }
  }

  lemma AskingStep(permissions: set<string>, before: seq<Event>, e: Event)
    requires RunFrom(START, permissions, before).Some?
    requires var p := RunFrom(START, permissions, before).value;
      Apply(p, permissions, e).Some? && AsksForSelected(permissions, before, p)
    ensures var p := RunFrom(START, permissions, before).value;
      AsksForSelected(permissions, before + [e], Apply(p, permissions, e).value)
  {
    var p := RunFrom(START, permissions, before).value;
    var q, events := Apply(p, permissions, e).value, before + [e];
    NewChoice(permissions, before, e);
    forall r | 0 <= r < |q.refreshes| && q.refreshes[r].AwaitsDetail?
      ensures ChosenByList(permissions, events, r, q.refreshes[r].id)
    {
      if !(e.ListArrives? && e.r == r) { ChoicesStay(permissions, before, e, r, q.refreshes[r].id); }
    }
    forall k | 0 <= k < |q.clicks| && q.clicks[k].Some?
      ensures ChosenByClick(permissions, events, q.clicks[k].value)
    {
      if k < |p.clicks| { ChoicesStay(permissions, before, e, 0, q.clicks[k].value); }
    }
  }

  lemma NewChoice(permissions: set<string>, before: seq<Event>, e: Event)
    requires RunFrom(START, permissions, before).Some?
    ensures var chosen := Chosen(RunFrom(START, permissions, before).value, e);
      Selects(e) && chosen.Some? ==>
        && (e.ListArrives? ==> ChosenByList(permissions, before + [e], e.r, chosen.value.id))
        && (e.Click? ==> ChosenByClick(permissions, before + [e], chosen.value.id))
  {
    var events, chosen := before + [e], Chosen(RunFrom(START, permissions, before).value, e);
    assert events[..|before|] == before && events[|before|] == e;
    if Selects(e) && chosen.Some? {
      assert SelectsId(permissions, events, |before|, chosen.value.id);
    }
  }

  lemma ChoicesStay(permissions: set<string>, before: seq<Event>, e: Event, r: nat, id: ItemId)
    ensures ChosenByList(permissions, before, r, id) ==> ChosenByList(permissions, before + [e], r, id)
    ensures ChosenByClick(permissions, before, id) ==> ChosenByClick(permissions, before + [e], id)
  {
    forall i | SelectsId(permissions, before, i, id)
      ensures SelectsId(permissions, before + [e], i, id) && (before + [e])[i] == before[i]
    {
      assert (before + [e])[..i] == before[..i];
    }
  }

  ghost predicate Steps(permissions: set<string>, panels: seq<Panel>, events: seq<Event>) {
    && |panels| == |events| + 1 && panels[0] == START
    && forall i :: 0 <= i < |events| ==> Apply(panels[i], permissions, events[i]) == Some(panels[i + 1])
  }

  lemma {:induction false} RunSteps(permissions: set<string>, panels: seq<Panel>, events: seq<Event>)
    requires Steps(permissions, panels, events)
    ensures RunFrom(START, permissions, events) == Some(panels[|events|])
  {
    if events != [] { RunSteps(permissions, panels[..|events|], events[..|events| - 1]); }
  }

  /** A click between the two answers of a refresh, answered first, leaves the clicked item on screen
      with the attempts of the other one, and nothing under way. */
  lemma AttemptsOfAnotherItem(permissions: set<string>, a: Item, b: Item)
    requires a.id != b.id
    ensures var r := RunFrom(START, permissions,
                             [RefreshStarts, ListArrives(0, [a, b]), Click(b),
                              ClickDetailArrives(0), DetailArrives(0)]);
      && r.Some? && r.value.selected == Some(b) && r.value.attempts == Some(a.id) && !AttemptsMatch(r.value)
      && r.value.refreshes == [Over] && r.value.clicks == [None] && r.value.busy == None
  {
    var p1 := Apply(START, permissions, RefreshStarts).value;
    var p2 := Apply(p1, permissions, ListArrives(0, [a, b])).value;
    var p3 := Apply(p2, permissions, Click(b)).value;
    var p4 := Apply(p3, permissions, ClickDetailArrives(0)).value;
    var p5 := Apply(p4, permissions, DetailArrives(0)).value;
    RunSteps(permissions, [START, p1, p2, p3, p4, p5],
             [RefreshStarts, ListArrives(0, [a, b]), Click(b), ClickDetailArrives(0), DetailArrives(0)]);
  }

  // ---- the component --------------------------------------------------------------------

  class MonitorPanel {
    const permissions: set<string>
    var items: seq<Item>
    var selectedRef: Option<Item>
    var selected: Option<Item>
    var attempts: Option<ItemId>
    var busy: Option<Op>
    var refreshes: seq<Refresh>
    var clicks: seq<Option<ItemId>>
    var runs: seq<Run>

    ghost function State(): Panel
      reads this
    {
      Panel(items, selectedRef, selected, attempts, busy, refreshes, clicks, runs)
    }

    constructor (permissions: set<string>)
      ensures State() == START && this.permissions == permissions
    {
      this.permissions := permissions;
      items, selectedRef, selected, attempts := [], None, None, None;
      busy, refreshes, clicks, runs := None, [], [], [];
    }

    /** `refresh` up to its first await. */
    method OnRefresh()
      modifies this
      ensures Apply(old(State()), permissions, RefreshStarts) == Some(State())
    {
      refreshes := refreshes + [AwaitsList];
    }

    /** The `catch` of `refresh`. */
    method OnRefreshFails(r: nat)
      requires r < |refreshes| && refreshes[r] != Over
      modifies this
      ensures Apply(old(State()), permissions, RefreshFails(r)) == Some(State())
    {
      refreshes := refreshes[r := Over];
    }

    /** `refresh` between its two awaits. */
    method OnList(r: nat, list: seq<Item>)
      requires r < |refreshes| && refreshes[r] == AwaitsList
      modifies this
      ensures Apply(old(State()), permissions, ListArrives(r, list)) == Some(State())
    {
      items := list;
      var selectedStillExists: Option<Item> := None;
      if selectedRef.Some? {
        selectedStillExists := FindItem(list, selectedRef.value.id);
      }
      var nextSelected := selectedStillExists;
      if nextSelected.None? && |list| > 0 {
        nextSelected := Some(list[0]);
      }
      selectedRef := nextSelected;
      selected := nextSelected;
      if nextSelected.Some? {
        refreshes := refreshes[r := AwaitsDetail(nextSelected.value.id)];
      } else {
        attempts := None;
        refreshes := refreshes[r := Over];
      }
    }

    /** `refresh` after its second await. */
    method OnDetail(r: nat)
      requires r < |refreshes| && refreshes[r].AwaitsDetail?
      modifies this
      ensures Apply(old(State()), permissions, DetailArrives(r)) == Some(State())
    {
      attempts := Some(refreshes[r].id);
      refreshes := refreshes[r := Over];
    }

    method OnClick(item: Item)
      requires item in items
      modifies this
      ensures Apply(old(State()), permissions, Click(item)) == Some(State())
    {
      selectedRef := Some(item);
      selected := Some(item);
      clicks := clicks + [Some(item.id)];
    }

    /** The click handler after its await. */
    method OnClickDetail(k: nat)
      requires k < |clicks| && clicks[k].Some?
      modifies this
      ensures Apply(old(State()), permissions, ClickDetailArrives(k)) == Some(State())
    {
      attempts := clicks[k];
      clicks := clicks[k := None];
    }

    /** A button press; a disabled button does nothing. */
    method OnPress(op: Op) returns (sent: bool)
      modifies this
      ensures sent <==> old(Enabled(State(), permissions, op))
      ensures sent ==> Apply(old(State()), permissions, Press(op)) == Some(State())
      ensures !sent ==> State() == old(State())
    {
      if selected.None? { return false; }
      var disabled := !Can(permissions, Permission(op)) || busy != None || !Allows(op, selected.value.status);
      if disabled { return false; }
      busy := Some(op);
      runs := runs + [Calling(op, selected.value.id)];
      return true;
    }

    /** `run` after the call. */
    method OnCallSettled(k: nat, ok: bool)
      requires k < |runs| && runs[k].Calling?
      modifies this
      ensures Apply(old(State()), permissions, if ok then CallSucceeds(k) else CallFails(k)) == Some(State())
    {
      if ok {
        runs := runs[k := Refreshing(|refreshes|)];
        refreshes := refreshes + [AwaitsList];
      } else {
        runs := runs[k := Ended];
        busy := None;
      }
    }

    /** `run` after its refresh. */
    method OnRefreshDone(k: nat)
      requires k < |runs| && runs[k].Refreshing? && runs[k].refresh < |refreshes| && refreshes[runs[k].refresh] == Over
      modifies this
      ensures Apply(old(State()), permissions, RefreshDone(k)) == Some(State())
    {
      runs := runs[k := Notifying];
    }

    /** `run` after `onChanged`. */
    method OnNotified(k: nat)
      requires k < |runs| && runs[k].Notifying?
      modifies this
      ensures Apply(old(State()), permissions, Notified(k)) == Some(State())
    {
      runs := runs[k := Ended];
      busy := None;
    }
  }
}
