/** `AuditExplorerPanel`: offset pagination over the result set of a filter, with one unguarded
    request for every change of filter or page. */
module AuditPager {
  import opened Strings

  type Row = string
  type Filters = string

  const LIMIT := 25
  const ALL: Filters := "all"

  function Min(a: int, b: int): int { if a < b then a else b }

  /** The rows that the API returns for an offset. */
  function PageAt(rows: seq<Row>, offset: nat): seq<Row> {
    if offset >= |rows| then [] else rows[offset..Min(offset + LIMIT, |rows|)]
  }

  /** `Math.ceil(total / limit)` */
  function TotalPages(total: nat): nat {
    (total + LIMIT - 1) / LIMIT
  }

  datatype Request = Request(filters: Filters, offset: nat, open: bool)

  /** `shown` names the request whose answer gave `rows` and `total`; `None` before any answer. */
  datatype View = View(
    filters: Filters, offset: nat, total: nat, rows: seq<Row>, loading: bool,
    shown: Option<nat>, requests: seq<Request>)

  /** The panel after its first effect. */
  const START := View(ALL, 0, 0, [], true, None, [Request(ALL, 0, true)])

  /** The pagination controls are on screen only when nothing is marked as loading, the page is not
      empty and there is more than one page. */
  predicate ShowsControls(v: View) {
    !v.loading && v.rows != [] && TotalPages(v.total) > 1
  }

  predicate NextEnabled(v: View) {
    ShowsControls(v) && v.offset + LIMIT < v.total
  }

  predicate PrevEnabled(v: View) {
    ShowsControls(v) && v.offset != 0
  }

  /** `Refresh` is the button that loads again. An answer may carry anything and may come in any
      order. */
  datatype Event =
    | ChangeFilters(filters: Filters)
    | Next
    | Prev
    | Refresh
    | Answer(i: nat, rows: seq<Row>, total: nat)
    | Fail(i: nat)

  /** `load` up to its await: a request for the current filters and offset. */
  function Load(v: View): View {
    v.(loading := true, requests := v.requests + [Request(v.filters, v.offset, true)])
  }

  predicate IsOpen(v: View, i: nat) {
    i < |v.requests| && v.requests[i].open
  }

  /** `load` after its await, whatever the answer. */
  function Settle(v: View, i: nat): View
    requires i < |v.requests|
  {
    v.(loading := false, requests := v.requests[i := v.requests[i].(open := false)])
  }

  function Apply(v: View, e: Event): Option<View> {
    match e
    case ChangeFilters(f) => Some(Load(v.(filters := f, offset := 0)))
    case Next => if NextEnabled(v) then Some(Load(v.(offset := v.offset + LIMIT))) else None
    case Prev =>
      if PrevEnabled(v) then Some(Load(v.(offset := if v.offset < LIMIT then 0 else v.offset - LIMIT))) else None
    case Refresh => if v.loading then None else Some(Load(v))
    case Answer(i, rows, total) =>
      if IsOpen(v, i) then Some(Settle(v, i).(rows := rows, total := total, shown := Some(i))) else None
    case Fail(i) => if IsOpen(v, i) then Some(Settle(v, i)) else None
  }

  function Run(events: seq<Event>): Option<View> {
    if events == [] then Some(START)
    else
      var before := Run(events[..|events| - 1]);
      if before.None? then None else Apply(before.value, events[|events| - 1])
  }

  function Latest(v: View): Request
    requires v.requests != []
  {
    v.requests[|v.requests| - 1]
  }

  ghost predicate Inv(v: View) {
    && v.offset % LIMIT == 0
    && v.requests != []
    && Latest(v).filters == v.filters && Latest(v).offset == v.offset
    && (v.shown.Some? ==> v.shown.value < |v.requests|)
    && (v.loading ==> exists i :: IsOpen(v, i))
    && (v.shown.None? ==> v.rows == [] && v.total == 0)
  }

  lemma StepKeepsInv(v: View, e: Event)
    requires Inv(v) && Apply(v, e).Some?
    ensures Inv(Apply(v, e).value)
  {
    var w := Apply(v, e).value;
    assert w.loading ==> IsOpen(w, |w.requests| - 1);
  }

  /** In every run, whatever the answers: the offset is a whole number of pages, the latest request is
      for the current filters and offset, and the panel never waits for nothing. */
  lemma {:induction false} RunKeepsInv(events: seq<Event>)
    requires Run(events).Some?
    ensures Inv(Run(events).value)
  {
    if events == [] {
      assert IsOpen(START, 0);
    } else {
      var before := events[..|events| - 1];
      RunKeepsInv(before);
      StepKeepsInv(Run(before).value, events[|events| - 1]);
    }
  }

  /** In every run, whatever the answers, the offset is a whole number of pages. */
  lemma OffsetIsWholePages(events: seq<Event>)
    requires Run(events).Some?
    ensures Run(events).value.offset % LIMIT == 0
  {
    RunKeepsInv(events);
  }

  // ---- what is requested ----------------------------------------------------------------

  predicate StartsRequest(e: Event) {
    e.ChangeFilters? || e.Next? || e.Prev? || e.Refresh?
  }

  function Started(events: seq<Event>): nat {
    if events == [] then 0
    else Started(events[..|events| - 1]) + if StartsRequest(events[|events| - 1]) then 1 else 0
  }

  /** The page at offset `o` under filters `f` is what `e` asks for when the request before was for the one
      at `o0` under `f0`: a filter change asks for the first page under the new filters, the page
      buttons for the neighbouring page under the same filters, a reload for the same again. */
  predicate AsksFor(e: Event, f0: Filters, o0: nat, f: Filters, o: nat) {
    match e
    case ChangeFilters(filters) => f == filters && o == 0
    case Next => f == f0 && o == o0 + 25
    case Prev => f == f0 && o == o0 - 25
    case Refresh => f == f0 && o == o0
    case _ => false
  }

  /** Request `k` was made by press number `k`, for what that asks for after the request before it. */
  ghost predicate Asked(events: seq<Event>, k: nat, f0: Filters, o0: nat, f: Filters, o: nat) {
    exists i :: 0 <= i < |events| && Started(events[..i]) == k - 1 && AsksFor(events[i], f0, o0, f, o)
  }

  ghost predicate RequestAsked(events: seq<Event>, requests: seq<Request>, k: nat)
    requires 0 < k < |requests|
  {
    Asked(events, k, requests[k - 1].filters, requests[k - 1].offset, requests[k].filters, requests[k].offset)
  }

  ghost predicate RequestsFollow(events: seq<Event>, v: View) {
    && |v.requests| == 1 + Started(events)
    && v.requests[0].filters == ALL && v.requests[0].offset == 0
    && forall k :: 0 < k < |v.requests| ==> RequestAsked(events, v.requests, k)
  }

  /** In every run there is one request for the first page and one more for each filter change, page turn
      and reload, in order and for what that asks for. */
  lemma {:induction false} RequestsFollowPresses(events: seq<Event>)
    requires Run(events).Some?
    ensures RequestsFollow(events, Run(events).value)
  {
    if events != [] {
      var before, e := events[..|events| - 1], events[|events| - 1];
      RequestsFollowPresses(before);
      RunKeepsInv(before);
      assert before + [e] == events;
      RequestsStep(before, Run(before).value, e);
    }
  }

  lemma AskedStays(before: seq<Event>, e: Event, k: nat, f0: Filters, o0: nat, f: Filters, o: nat)
    requires Asked(before, k, f0, o0, f, o)
    ensures Asked(before + [e], k, f0, o0, f, o)
  {
    var events := before + [e];
    var i :| 0 <= i < |before| && Started(before[..i]) == k - 1 && AsksFor(before[i], f0, o0, f, o);
    assert events[..i] == before[..i] && events[i] == before[i];
  }

  lemma AskedNow(before: seq<Event>, e: Event, f0: Filters, o0: nat, f: Filters, o: nat)
    requires AsksFor(e, f0, o0, f, o)
    ensures Asked(before + [e], Started(before) + 1, f0, o0, f, o)
  {
    var events := before + [e];
    assert events[..|before|] == before && events[|before|] == e;
  }

  lemma RequestsStep(before: seq<Event>, v: View, e: Event)
    requires RequestsFollow(before, v) && Inv(v) && Apply(v, e).Some?
    ensures RequestsFollow(before + [e], Apply(v, e).value)
  {
    var w := Apply(v, e).value;
    assert (before + [e])[..|before|] == before;
    RequestsKept(v, e);
    forall k | 0 < k < |w.requests| ensures RequestAsked(before + [e], w.requests, k) {
      var r0, r := w.requests[k - 1], w.requests[k];
      if k < |v.requests| {
        assert RequestAsked(before, v.requests, k);
        AskedStays(before, e, k, r0.filters, r0.offset, r.filters, r.offset);
      } else {
        AskedNow(before, e, r0.filters, r0.offset, r.filters, r.offset);
      }
    }
  }

  lemma RequestsKept(v: View, e: Event)
    requires Inv(v) && Apply(v, e).Some?
    ensures var earlier, now := v.requests, Apply(v, e).value.requests;
      && |now| == |earlier| + (if StartsRequest(e) then 1 else 0)
      && (forall k :: 0 <= k < |earlier| ==> now[k].filters == earlier[k].filters && now[k].offset == earlier[k].offset)
      && (StartsRequest(e) ==>
            var last, r := earlier[|earlier| - 1], now[|earlier|];
            AsksFor(e, last.filters, last.offset, r.filters, r.offset))
  {
  }

  predicate SettlesRequest(e: Event, k: nat) {
    (e.Answer? || e.Fail?) && e.i == k
  }

  ghost predicate SettledRequest(events: seq<Event>, k: nat) {
    exists i :: 0 <= i < |events| && SettlesRequest(events[i], k)
  }

  lemma SettledStep(before: seq<Event>, e: Event, k: nat)
    ensures SettledRequest(before + [e], k) <==> SettledRequest(before, k) || SettlesRequest(e, k)
  {
    var events := before + [e];
    assert events[|before|] == e;
    assert forall i :: 0 <= i < |before| ==> events[i] == before[i];
  }

  ghost predicate OpenFollows(events: seq<Event>, v: View) {
    && (forall k :: 0 <= k < |v.requests| ==> (v.requests[k].open <==> !SettledRequest(events, k)))
    && (forall k: nat :: k >= |v.requests| ==> !SettledRequest(events, k))
  }

  /** In every run a request is open exactly until its own answer or failure. */
  lemma {:induction false} OpenUntilSettled(events: seq<Event>)
    requires Run(events).Some?
    ensures OpenFollows(events, Run(events).value)
  {
    if events != [] {
      var before, e := events[..|events| - 1], events[|events| - 1];
      OpenUntilSettled(before);
      assert before + [e] == events;
      OpenStep(before, Run(before).value, e);
    }
  }

  lemma OpenStep(before: seq<Event>, v: View, e: Event)
    requires OpenFollows(before, v) && Apply(v, e).Some?
    ensures OpenFollows(before + [e], Apply(v, e).value)
  {
    forall k: nat
      ensures SettledRequest(before + [e], k) <==> SettledRequest(before, k) || SettlesRequest(e, k)
    {
      SettledStep(before, e, k);
    }
  }

  // ---- which answer is on screen --------------------------------------------------------

  /** `j` is the last event that brought rows. */
  ghost predicate LastAnswer(events: seq<Event>, j: nat) {
    && j < |events| && events[j].Answer?
    && forall k :: j < k < |events| ==> !events[k].Answer?
  }

  lemma LastAnswerStays(events: seq<Event>, j: nat)
    requires events != [] && !events[|events| - 1].Answer?
    ensures LastAnswer(events[..|events| - 1], j) <==> LastAnswer(events, j)
  {
    assert forall k :: 0 <= k < |events| - 1 ==> events[..|events| - 1][k] == events[k];
  }

  /** What is on screen is what the last answer brought, whichever request it answers. */
  lemma {:induction false} LastAnswerDecides(events: seq<Event>, j: nat)
    requires Run(events).Some? && LastAnswer(events, j)
    ensures var v, e := Run(events).value, events[j];
      v.shown == Some(e.i) && v.rows == e.rows && v.total == e.total
    decreases |events|
  {
    if j < |events| - 1 {
      LastAnswerStays(events, j);
      LastAnswerDecides(events[..|events| - 1], j);
    }
  }

  lemma {:induction false} LastAnswerExists(events: seq<Event>) returns (j: nat)
    requires Run(events).Some? && Run(events).value.shown.Some?
    ensures LastAnswer(events, j)
  {
    var n := |events| - 1;
    if events[n].Answer? {
      j := n;
    } else {
      j := LastAnswerExists(events[..n]);
      LastAnswerStays(events, j);
    }
  }

  /** The rows on screen answer a request for the current filters and offset. */
  predicate RowsMatch(v: View) {
    && v.shown.Some? && v.shown.value < |v.requests|
    && v.requests[v.shown.value].filters == v.filters && v.requests[v.shown.value].offset == v.offset
  }

  /** The last answer, at `j`, is to the latest request or to one for the same filters and offset. */
  ghost predicate LatestAnswered(events: seq<Event>, j: nat)
    requires Run(events).Some?
  {
    var v := Run(events).value;
    && LastAnswer(events, j)
    && events[j].i < |v.requests|
    && v.requests[events[j].i].filters == Latest(v).filters
    && v.requests[events[j].i].offset == Latest(v).offset
  }

  /** In every run: the rows on screen are those of the current filters and offset if and only if the
      last answer is to a request for what the latest request asks for. */
  lemma RowsMatchRequest(events: seq<Event>)
    requires Run(events).Some?
    ensures Run(events).value.requests != []
    ensures RowsMatch(Run(events).value) <==> exists j :: LatestAnswered(events, j)
  {
    RunKeepsInv(events);
    if RowsMatch(Run(events).value) {
      var j := LastAnswerExists(events);
      LastAnswerDecides(events, j);
      assert LatestAnswered(events, j);
    }
    if exists j :: LatestAnswered(events, j) {
      var j :| LatestAnswered(events, j);
      LastAnswerDecides(events, j);
    }
  }

  /** The last answer, at `j`, brought rows and a total of more than one page. */
  ghost predicate BroughtPages(events: seq<Event>, j: nat) {
    LastAnswer(events, j) && events[j].rows != [] && events[j].total > LIMIT
  }

  /** Exactly when the controls work, in every run: nothing is marked as loading, the last answer,
      whichever request it was for, brought rows and a total of more than one page, and the offset
      leaves a page in that direction. */
  lemma ControlsMeaning(events: seq<Event>)
    requires Run(events).Some?
    ensures var v := Run(events).value;
      && (PrevEnabled(v) <==> !v.loading && v.offset > 0 && exists j :: BroughtPages(events, j))
      && (NextEnabled(v) <==>
            !v.loading && exists j: nat :: BroughtPages(events, j) && v.offset + LIMIT < events[j].total)
  {
    RunKeepsInv(events);
    var v := Run(events).value;
    MorePages(v.total);
    if v.shown.Some? {
      var j := LastAnswerExists(events);
      LastAnswerDecides(events, j);
      assert v.rows != [] && v.total > LIMIT ==> BroughtPages(events, j);
    }
    forall j: nat | BroughtPages(events, j) ensures v.rows == events[j].rows && v.total == events[j].total {
      LastAnswerDecides(events, j);
    }
  }

  lemma MorePages(total: nat)
    ensures TotalPages(total) > 1 <==> total > LIMIT
  {
  }

  /** Loading shows exactly until the first settlement after the latest request, whichever request
      it settles: every event either starts a request and shows it, or settles one and hides it. */
  lemma LoadingMeaning(events: seq<Event>)
    requires events != [] && Run(events).Some?
    ensures Run(events).value.loading <==> !events[|events| - 1].Answer? && !events[|events| - 1].Fail?
  {
  }

  // ---- walking through a result set -----------------------------------------------------

  /** The panel shows its current page of an unchanging result set. */
  predicate Settled(v: View, rows: seq<Row>) {
    !v.loading && v.total == |rows| && v.rows == PageAt(rows, v.offset)
  }

  /** A press of Next and the answer to the request that it makes. */
  function NextPage(v: View, rows: seq<Row>): View
    requires NextEnabled(v)
  {
    var w := Apply(v, Next).value;
    Apply(w, Answer(|v.requests|, PageAt(rows, w.offset), |rows|)).value
  }

  lemma NextPageSettles(v: View, rows: seq<Row>)
    requires NextEnabled(v)
    ensures Settled(NextPage(v, rows), rows) && NextPage(v, rows).offset == v.offset + LIMIT
  {
  }

  /** The pages seen by pressing Next, with its answer each time, until it is disabled. */
  function Walk(v: View, rows: seq<Row>): seq<seq<Row>>
    requires Settled(v, rows)
    decreases |rows| - v.offset
  {
    if NextEnabled(v) then
      NextPageSettles(v, rows);
      [v.rows] + Walk(NextPage(v, rows), rows)
    else [v.rows]
  }

  function Concat(pages: seq<seq<Row>>): seq<Row> {
    if pages == [] then [] else pages[0] + Concat(pages[1..])
  }

  lemma PagesLeft(n: int)
    requires n > LIMIT
    ensures (n + LIMIT - 1) / LIMIT == 1 + (n - LIMIT + LIMIT - 1) / LIMIT
  {
  }

  lemma SettledControls(v: View, rows: seq<Row>)
    requires Settled(v, rows) && v.offset % LIMIT == 0
    ensures NextEnabled(v) <==> v.offset + LIMIT < |rows|
    ensures PrevEnabled(v) <==> 0 < v.offset < |rows|
  {
    MorePages(|rows|);
    if v.offset < |rows| { assert v.rows[0] == rows[v.offset]; }
  }

  lemma ConcatCons(page: seq<Row>, pages: seq<seq<Row>>)
    ensures Concat([page] + pages) == page + Concat(pages)
  {
    assert ([page] + pages)[1..] == pages;
  }

  lemma LastPage(v: View, rows: seq<Row>)
    requires Settled(v, rows) && v.offset < |rows| <= v.offset + LIMIT && !NextEnabled(v)
    ensures Concat(Walk(v, rows)) == rows[v.offset..]
    ensures |Walk(v, rows)| == 1 == (|rows| - v.offset + LIMIT - 1) / LIMIT
  {
    var none: seq<seq<Row>> := [];
    ConcatCons(v.rows, none);
    assert [v.rows] + none == [v.rows];
    assert rows[v.offset..|rows|] == rows[v.offset..];
    assert v.rows + [] == v.rows;
  }

  lemma {:induction false} WalkFrom(v: View, rows: seq<Row>)
    requires Settled(v, rows) && v.offset < |rows| && v.offset % LIMIT == 0
    ensures Concat(Walk(v, rows)) == rows[v.offset..]
    ensures |Walk(v, rows)| == (|rows| - v.offset + LIMIT - 1) / LIMIT
    decreases |rows| - v.offset
  {
    SettledControls(v, rows);
    if NextEnabled(v) {
      var next := NextPage(v, rows);
      NextPageSettles(v, rows);
      WalkFrom(next, rows);
      PagesLeft(|rows| - v.offset);
      ConcatCons(v.rows, Walk(next, rows));
      SplitAt(rows, v.offset);
    } else {
      LastPage(v, rows);
    }
  }

  lemma SplitAt(rows: seq<Row>, offset: nat)
    requires offset + LIMIT <= |rows|
    ensures rows[offset..] == rows[offset..offset + LIMIT] + rows[offset + LIMIT..]
  {
  }

  /** From offset 0, pressing Next until it is disabled shows every row of an unchanging result set
      once, in order, on `ceil(total / 25)` pages, or on one empty page. */
  lemma WalkVisitsAll(v: View, rows: seq<Row>)
    requires Settled(v, rows) && v.offset == 0
    ensures Concat(Walk(v, rows)) == rows
    ensures |Walk(v, rows)| == if rows == [] then 1 else TotalPages(|rows|)
  {
    if rows == [] {
      assert Walk(v, rows) == [[]];
      var none: seq<Row> := [];
      assert Walk(v, rows)[1..] == [] && none + none == none;
    } else {
      WalkFrom(v, rows);
      assert rows[0..] == rows;
    }
  }

  /** Prev undoes Next, and the page label counts from one to the number of pages. */
  lemma PrevUndoesNext(v: View, rows: seq<Row>)
    requires Settled(v, rows) && v.offset % LIMIT == 0 && NextEnabled(v)
    ensures var next := NextPage(v, rows);
      && Apply(next, Prev).Some?
      && Apply(next, Prev).value.offset == v.offset
      && 1 <= v.offset / LIMIT + 1 < next.offset / LIMIT + 1 <= TotalPages(|rows|)
  {
    SettledControls(v, rows);
    NextPageSettles(v, rows);
    SettledControls(NextPage(v, rows), rows);
  }

  /** With the current page of the current result set on screen, there is a way back from behind the
      first page exactly while the result set reaches beyond the offset. When it has shrunk to the
      offset or less, both controls are gone, and loading again changes nothing. */
  lemma WayBack(v: View, rows: seq<Row>)
    requires Settled(v, rows) && v.offset > 0 && v.offset % LIMIT == 0
    ensures PrevEnabled(v) <==> v.offset < |rows|
    ensures v.offset >= |rows| ==>
              var again := Apply(v, Refresh).value;
              var answered := Apply(again, Answer(|v.requests|, PageAt(rows, v.offset), |rows|)).value;
              && Apply(v, Next).None? && Apply(v, Prev).None?
              && Settled(answered, rows) && answered.offset == v.offset
              && Apply(answered, Next).None? && Apply(answered, Prev).None?
  {
    SettledControls(v, rows);
  }

  // ---- two runs that lose the controls --------------------------------------------------

  ghost predicate Steps(views: seq<View>, events: seq<Event>) {
    && |views| == |events| + 1 && views[0] == START
    && forall i :: 0 <= i < |events| ==> Apply(views[i], events[i]) == Some(views[i + 1])
  }

  lemma {:induction false} RunSteps(views: seq<View>, events: seq<Event>)
    requires Steps(views, events)
    ensures Run(events) == Some(views[|events|])
  {
    if events != [] { RunSteps(views[..|events|], events[..|events| - 1]); }
  }

  /** Neither Next nor Prev does anything on the page that is on screen, an empty one. */
  predicate Stuck(v: View) {
    !v.loading && v.rows == [] && v.offset > 0 && Apply(v, Next).None? && Apply(v, Prev).None?
  }

  /** The user is on the second page of 26 rows when one row disappears: the explorer shows an empty
      page although there are 25 rows. */
  lemma StuckBehindTheEnd(rows: seq<Row>, fewer: seq<Row>)
    requires |rows| == 26 && |fewer| == 25
    ensures var r := Run([Answer(0, PageAt(rows, 0), 26), Next, Answer(1, PageAt(rows, 25), 26),
                          Refresh, Answer(2, PageAt(fewer, 25), 25)]);
      r.Some? && Stuck(r.value) && r.value.total == 25 && RowsMatch(r.value)
  {
    var e1, e3, e5 := Answer(0, PageAt(rows, 0), 26), Answer(1, PageAt(rows, 25), 26), Answer(2, PageAt(fewer, 25), 25);
    assert PageAt(rows, 0)[0] == rows[0];
    var v1 := Apply(START, e1).value;
    var v2 := Apply(v1, Next).value;
    var v3 := Apply(v2, e3).value;
    var v4 := Apply(v3, Refresh).value;
    var v5 := Apply(v4, e5).value;
    RunSteps([START, v1, v2, v3, v4, v5], [e1, Next, e3, Refresh, e5]);
  }

  /** The user tries a filter that matches nothing, returns to all 60 rows and turns to their second
      page; then the answer for the abandoned filter comes in. With every request settled, the
      explorer says that nothing matches, and there is no way to the other pages. */
  lemma StuckByLateAnswer(rows: seq<Row>, other: Filters)
    requires |rows| == 60 && other != ALL
    ensures var r := Run([Answer(0, PageAt(rows, 0), 60), ChangeFilters(other), ChangeFilters(ALL),
                          Answer(2, PageAt(rows, 0), 60), Next, Answer(3, PageAt(rows, 25), 60), Answer(1, [], 0)]);
      && r.Some? && Stuck(r.value) && r.value.filters == ALL && r.value.offset == 25 && !RowsMatch(r.value)
      && forall i :: 0 <= i < |r.value.requests| ==> !r.value.requests[i].open
  {
    var e1, e4, e6 := Answer(0, PageAt(rows, 0), 60), Answer(2, PageAt(rows, 0), 60), Answer(3, PageAt(rows, 25), 60);
    assert PageAt(rows, 0)[0] == rows[0];
    var v1 := Apply(START, e1).value;
    var v2 := Apply(v1, ChangeFilters(other)).value;
    var v3 := Apply(v2, ChangeFilters(ALL)).value;
    var v4 := Apply(v3, e4).value;
    var v5 := Apply(v4, Next).value;
    var v6 := Apply(v5, e6).value;
    var v7 := Apply(v6, Answer(1, [], 0)).value;
    RunSteps([START, v1, v2, v3, v4, v5, v6, v7],
             [e1, ChangeFilters(other), ChangeFilters(ALL), e4, Next, e6, Answer(1, [], 0)]);
  }

  // ---- the component --------------------------------------------------------------------

  class AuditExplorer {
    var filters: Filters
    var offset: nat
    var total: nat
    var events: seq<Row>
    var loading: bool
    ghost var shown: Option<nat>
    var requests: seq<Request>

    ghost function State(): View
      reads this
    {
      View(filters, offset, total, events, loading, shown, requests)
    }

    /** The panel with its first effect. */
    constructor ()
      ensures State() == START
    {
      filters, offset, total, events, loading := ALL, 0, 0, [], true;
      shown := None;
      requests := [Request(ALL, 0, true)];
    }

    /** `load` up to its await. */
    method LoadPage()
      modifies this`loading, this`requests
      ensures State() == Load(old(State()))
    {
      loading := true;
      requests := requests + [Request(filters, offset, true)];
    }

    /** A filter field, with the effect that its change causes. */
    method OnFilterChange(f: Filters)
      modifies this
      ensures Apply(old(State()), ChangeFilters(f)) == Some(State())
    {
      filters := f;
      offset := 0;
      LoadPage();
    }

    /** The Next button with the effect; disabled or hidden, it does nothing. */
    method OnNext()
      modifies this
      ensures if old(NextEnabled(State())) then Apply(old(State()), Next) == Some(State()) else State() == old(State())
    {
      var totalPages := TotalPages(total);
      if !loading && |events| > 0 && totalPages > 1 && !(offset + LIMIT >= total) {
        offset := offset + LIMIT;
        LoadPage();
      }
    }

    /** The Prev button with the effect; disabled or hidden, it does nothing. */
    method OnPrev()
      modifies this
      ensures if old(PrevEnabled(State())) then Apply(old(State()), Prev) == Some(State()) else State() == old(State())
    {
      var totalPages := TotalPages(total);
      if !loading && |events| > 0 && totalPages > 1 && offset != 0 {
        var o := offset - LIMIT;
        offset := if o < 0 then 0 else o;
        LoadPage();
      }
    }

    /** The button that loads again; disabled, it does nothing. */
    method OnRefresh()
      modifies this
      ensures if old(loading) then State() == old(State()) else Apply(old(State()), Refresh) == Some(State())
    {
      if !loading { LoadPage(); }
    }

    /** `load` after its await. */
    method OnAnswer(i: nat, rows: seq<Row>, count: nat)
      requires i < |requests| && requests[i].open
      modifies this
      ensures Apply(old(State()), Answer(i, rows, count)) == Some(State())
    {
      events := rows;
      total := count;
      shown := Some(i);
      loading := false;
      requests := requests[i := requests[i].(open := false)];
    }

    /** The `catch` of `load`. */
    method OnFailure(i: nat)
      requires i < |requests| && requests[i].open
      modifies this
      ensures Apply(old(State()), Fail(i)) == Some(State())
    {
      loading := false;
      requests := requests[i := requests[i].(open := false)];
    }
  }
}
