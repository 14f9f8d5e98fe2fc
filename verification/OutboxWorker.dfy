/** The NATS outbox worker: one worker's loop, and any number of workers sharing one durable
    consumer with explicit acknowledgement. */
module OutboxWorker {
  import opened Strings

  type MsgId = nat

  /** What `JSON.parse` and the `outboxItemId` test make of a message. A body that does not parse,
      or parses to `null`, makes the worker throw. */
  datatype Envelope = Malformed | NoItem | ForItem(item: string)

  /** What one worker does, in order. `Crash` is an exception or the death of the process;
      `Fallback` is a successful poll of the API after an empty batch. */
  datatype Action =
    | Fetch
    | Deliver(m: MsgId)
    | Begin(m: MsgId, item: string)
    | Ok(m: MsgId, item: string)
    | Ack(m: MsgId)
    | EndOfBatch
    | Fallback
    | Exit
    | Crash
    | Restart

  /** Where a worker stands between two actions. */
  datatype Pc =
    | Top
    | Batch(processedAny: bool)
    | Holding(m: MsgId)
    | Calling(m: MsgId, item: string)
    | Done(m: MsgId, item: string)
    | MustPoll
    | Exited
    | Down

  type Contents = MsgId -> Envelope

  /** The worker's program as an automaton. Whether the shutdown flag is up when the loop head
      tests it is the environment's choice between `Fetch` and `Exit`. */
  function Next(kind: Contents, pc: Pc, a: Action): Option<Pc> {
    if a.Crash? then if pc.Down? || pc.Exited? then None else Some(Down)
    else match pc
      case Top =>
        if a.Fetch? then Some(Batch(false)) else if a.Exit? then Some(Exited) else None
      case Batch(any) =>
        if a.Deliver? then Some(Holding(a.m))
        else if a.EndOfBatch? then Some(if any then Top else MustPoll)
        else None
      case Holding(m) =>
        (match kind(m)
         case Malformed => None
         case NoItem => if a == Ack(m) then Some(Batch(true)) else None
         case ForItem(item) => if a == Begin(m, item) then Some(Calling(m, item)) else None)
      case Calling(m, item) => if a == Ok(m, item) then Some(Done(m, item)) else None
      case Done(m, item) => if a == Ack(m) then Some(Batch(true)) else None
      case MustPoll => if a.Fallback? then Some(Top) else None
      case Exited => if a.Restart? then Some(Top) else None
      case Down => if a.Restart? then Some(Top) else None
  }

  function RunFrom(kind: Contents, pc: Pc, trace: seq<Action>): Option<Pc> {
    if trace == [] then Some(pc)
    else
      var before := RunFrom(kind, pc, trace[..|trace| - 1]);
      if before.None? then None else Next(kind, before.value, trace[|trace| - 1])
  }

  lemma {:induction false} RunPrefix(kind: Contents, pc: Pc, trace: seq<Action>, i: nat)
    requires i <= |trace| && RunFrom(kind, pc, trace).Some?
    ensures RunFrom(kind, pc, trace[..i]).Some?
    decreases |trace|
  {
    if i == |trace| {
      assert trace[..i] == trace;
    } else {
      RunPrefix(kind, pc, trace[..|trace| - 1], i);
      assert trace[..|trace| - 1][..i] == trace[..i];
    }
  }

  lemma RunSnoc(kind: Contents, pc: Pc, trace: seq<Action>, a: Action)
    requires RunFrom(kind, pc, trace).Some?
    ensures RunFrom(kind, pc, trace + [a]) == Next(kind, RunFrom(kind, pc, trace).value, a)
  {
    assert (trace + [a])[..|trace|] == trace;
  }

  lemma {:induction false} RunSplit(kind: Contents, pc: Pc, s: seq<Action>, t: seq<Action>)
    requires RunFrom(kind, pc, s).Some?
    ensures RunFrom(kind, pc, s + t) == RunFrom(kind, RunFrom(kind, pc, s).value, t)
  {
    if t == [] {
      assert s + t == s;
    } else {
      RunSplit(kind, pc, s, t[..|t| - 1]);
      assert (s + t)[..|s + t| - 1] == s + t[..|t| - 1];
    }
  }

  // ---- one worker -----------------------------------------------------------------------

  function Delivered(trace: seq<Action>): seq<MsgId> {
    if trace == [] then []
    else
      var a := trace[|trace| - 1];
      Delivered(trace[..|trace| - 1]) + (if a.Deliver? then [a.m] else [])
  }

  function Acked(trace: seq<Action>): seq<MsgId> {
    if trace == [] then []
    else
      var a := trace[|trace| - 1];
      Acked(trace[..|trace| - 1]) + (if a.Ack? then [a.m] else [])
  }

  function Polls(trace: seq<Action>): nat {
    if trace == [] then 0
    else Polls(trace[..|trace| - 1]) + (if trace[|trace| - 1].Fallback? then 1 else 0)
  }

  ghost predicate OneIteration(body: seq<Action>) {
    forall a :: a in body ==> !a.Fetch? && !a.Crash? && !a.Restart? && !a.Exit?
  }

  function HeldBy(pc: Pc): Option<MsgId> {
    match pc
    case Holding(m) => Some(m)
    case Calling(m, _) => Some(m)
    case Done(m, _) => Some(m)
    case _ => None
  }

  /** Within an iteration every delivered message but the one in hand is acknowledged, in order. */
  lemma {:induction false} IterationProgress(kind: Contents, body: seq<Action>)
    requires OneIteration(body) && RunFrom(kind, Batch(false), body).Some?
    ensures var pc := RunFrom(kind, Batch(false), body).value;
      && Delivered(body) == Acked(body) + (if HeldBy(pc).Some? then [HeldBy(pc).value] else [])
      && (pc.Batch? ==> (pc.processedAny <==> Delivered(body) != []))
      && (pc.Batch? || HeldBy(pc).Some? || pc.MustPoll? || pc.Top?)
      && (pc.MustPoll? ==> Delivered(body) == [])
      && (pc.Top? ==> Polls(body) == if Delivered(body) == [] then 1 else 0)
      && (!pc.Top? ==> Polls(body) == 0)
  {
    if body != [] {
      var before, a := body[..|body| - 1], body[|body| - 1];
      assert a in body && forall b :: b in before ==> b in body;
      IterationProgress(kind, before);
    }
  }

  /** A complete loop iteration either acknowledges every message it was handed and makes no
      fallback call, or was handed none and makes exactly one. */
  lemma EitherMessagesOrOneFallback(kind: Contents, body: seq<Action>)
    requires OneIteration(body) && RunFrom(kind, Batch(false), body) == Some(Top)
    ensures Acked(body) == Delivered(body)
    ensures Polls(body) == if Delivered(body) == [] then 1 else 0
  {
    IterationProgress(kind, body);
    assert Acked(body) + [] == Acked(body);
  }

  predicate IsCall(a: Action, m: MsgId) {
    (a.Begin? || a.Ok?) && a.m == m
  }

  /** After a delivery the worker does nothing but process that message until it acknowledges it
      or dies; in particular a raised shutdown flag cannot come in between. */
  lemma {:induction false} HeldUntilAckOrCrash(kind: Contents, pc: Pc, trace: seq<Action>, i: nat)
    requires RunFrom(kind, pc, trace).Some?
    requires i < |trace| && trace[i].Deliver?
    ensures var m := trace[i].m;
      || (forall k :: i < k < |trace| ==> IsCall(trace[k], m))
      || (exists j :: i < j < |trace| && (trace[j] == Ack(m) || trace[j] == Crash)
                      && forall k :: i < k < j ==> IsCall(trace[k], m))
    ensures (forall k :: i < k < |trace| ==> IsCall(trace[k], trace[i].m)) ==>
              HeldBy(RunFrom(kind, pc, trace).value) == Some(trace[i].m)
    decreases |trace|
  {
    var n := |trace| - 1;
    var before, m := trace[..n], trace[i].m;
    if i < n {
      HeldUntilAckOrCrash(kind, pc, before, i);
      assert forall k :: 0 <= k < n ==> trace[k] == before[k];
      if forall k :: i < k < n ==> IsCall(before[k], m) {
        HeldStep(kind, RunFrom(kind, pc, before).value, trace[n], m);
      } else {
        var j :| i < j < n && (before[j] == Ack(m) || before[j] == Crash)
                 && forall k :: i < k < j ==> IsCall(before[k], m);
        assert trace[j] == before[j] && !IsCall(trace[j], m);
      }
    }
  }

  lemma HeldStep(kind: Contents, pc: Pc, a: Action, m: MsgId)
    requires HeldBy(pc) == Some(m) && Next(kind, pc, a).Some?
    ensures IsCall(a, m) || a == Ack(m) || a == Crash
    ensures IsCall(a, m) ==> HeldBy(Next(kind, pc, a).value) == Some(m)
  {
  }

  // ---- the loop itself ------------------------------------------------------------------

  datatype Call = Succeeds | Fails

  /** A message as it reaches the worker, and how the process call for it turns out. */
  datatype Delivery = Delivery(m: MsgId, envelope: Envelope, call: Call)

  /** How the broker and the API answer during one iteration: the batch, whether it breaks off with
      an error, the outcome of a fallback poll, and whether a shutdown signal is in by the end. */
  datatype Turn = Turn(batch: seq<Delivery>, broken: bool, poll: Call, stop: bool)

  /** What the loop head finds after `rounds` rounds. */
  predicate Stopped(early: bool, turns: seq<Turn>, rounds: nat)
    requires rounds <= |turns|
  {
    if rounds == 0 then early else turns[rounds - 1].stop
  }

  function Ids(batch: seq<Delivery>): seq<MsgId> {
    if batch == [] then [] else Ids(batch[..|batch| - 1]) + [batch[|batch| - 1].m]
  }

  function AllIds(turns: seq<Turn>): seq<MsgId> {
    if turns == [] then [] else AllIds(turns[..|turns| - 1]) + Ids(turns[|turns| - 1].batch)
  }

  lemma IdsSnoc(batch: seq<Delivery>, k: nat, start: seq<MsgId>)
    requires k < |batch|
    ensures start + Ids(batch[..k + 1]) == start + Ids(batch[..k]) + [batch[k].m]
  {
    assert batch[..k + 1][..k] == batch[..k];
  }

  lemma EmptyIds(batch: seq<Delivery>)
    ensures Ids(batch) == [] <==> batch == []
  {
  }

  /** The bodies of the delivered messages are those that were published. */
  ghost predicate Genuine(kind: Contents, batch: seq<Delivery>) {
    forall i :: 0 <= i < |batch| ==> batch[i].envelope == kind(batch[i].m)
  }

  /** The message is acknowledged: it carries no item, or its process call succeeds. */
  predicate Survives(d: Delivery) {
    d.envelope == NoItem || (d.envelope.ForItem? && d.call == Succeeds)
  }

  /** The worker gets through the round. */
  predicate GoodTurn(turn: Turn) {
    && (forall i :: 0 <= i < |turn.batch| ==> Survives(turn.batch[i]))
    && !turn.broken
    && (turn.batch != [] || turn.poll == Succeeds)
  }

  /** The number of messages before the first one that stops the worker. */
  function FirstFailure(batch: seq<Delivery>): (n: nat)
    ensures n <= |batch|
    ensures forall i :: 0 <= i < n ==> Survives(batch[i])
    ensures n < |batch| ==> !Survives(batch[n])
  {
    if batch == [] || !Survives(batch[0]) then 0 else 1 + FirstFailure(batch[1..])
  }

  lemma FirstFailureIs(batch: seq<Delivery>, n: nat)
    requires n <= |batch| && (forall i :: 0 <= i < n ==> Survives(batch[i]))
    requires n < |batch| ==> !Survives(batch[n])
    ensures FirstFailure(batch) == n
  {
  }

  /** What a trace of the loop amounts to. */
  datatype Progress = Progress(pc: Pc, delivered: seq<MsgId>, acked: seq<MsgId>, polls: nat) {
    function After(a: Action, to: Pc): Progress {
      Progress(to,
               if a.Deliver? then delivered + [a.m] else delivered,
               if a.Ack? then acked + [a.m] else acked,
               if a.Fallback? then polls + 1 else polls)
    }
  }

  /** What one round adds: a good one acknowledges its whole batch, or polls when the batch is empty;
      any other acknowledges what comes before the first failure, is handed the message that fails,
      and ends the worker without a poll. */
  function AfterTurn(p: Progress, turn: Turn): Progress {
    if GoodTurn(turn) then
      var ids := Ids(turn.batch);
      Progress(Top, p.delivered + ids, p.acked + ids, p.polls + if ids == [] then 1 else 0)
    else
      var n := FirstFailure(turn.batch);
      var handed := if n < |turn.batch| then n + 1 else n;
      Progress(Down, p.delivered + Ids(turn.batch[..handed]), p.acked + Ids(turn.batch[..n]), p.polls)
  }

  lemma TurnParts(turn: Turn)
    ensures var all := FirstFailure(turn.batch) == |turn.batch|;
      && (all ==> turn.batch[..FirstFailure(turn.batch)] == turn.batch)
      && (GoodTurn(turn) <==> all && !turn.broken && (turn.batch != [] || turn.poll == Succeeds))
    ensures Ids(turn.batch) == [] <==> turn.batch == []
  {
    EmptyIds(turn.batch);
  }

  function EmptyBatches(turns: seq<Turn>): nat {
    if turns == [] then 0
    else EmptyBatches(turns[..|turns| - 1]) + if turns[|turns| - 1].batch == [] then 1 else 0
  }

  /** Where the loop stands after `k` completed rounds. */
  function AfterRounds(start: Progress, turns: seq<Turn>, k: nat): Progress
    requires k <= |turns|
  {
    var ids := AllIds(turns[..k]);
    Progress(Top, start.delivered + ids, start.acked + ids, start.polls + EmptyBatches(turns[..k]))
  }

  /** Each of the first `k` rounds is good and none of them finds the shutdown flag up. */
  ghost predicate GoOn(early: bool, turns: seq<Turn>, k: nat)
    requires k <= |turns|
  {
    forall j :: 0 <= j < k ==> GoodTurn(turns[j]) && !Stopped(early, turns, j)
  }

  lemma NoRounds(start: Progress, turns: seq<Turn>)
    requires start.pc == Top
    ensures AfterRounds(start, turns, 0) == start
  {
    assert turns[..0] == [];
  }

  lemma AfterOneMore(start: Progress, turns: seq<Turn>, k: nat)
    requires k < |turns| && start.pc == Top
    ensures GoodTurn(turns[k]) ==>
              AfterRounds(start, turns, k + 1) == AfterTurn(AfterRounds(start, turns, k), turns[k])
  {
    assert turns[..k + 1][..k] == turns[..k];
    EmptyIds(turns[k].batch);
  }

  class NatsWorker {
    ghost const kind: Contents
    var trace: seq<Action>
    ghost var now: Progress

    /** The trace is one of the automaton's, so the lemmas about the automaton hold of the loop. */
    ghost predicate Valid()
      reads this
    {
      && RunFrom(kind, Top, trace) == Some(now.pc)
      && now.delivered == Delivered(trace)
      && now.acked == Acked(trace)
      && now.polls == Polls(trace)
    }

    constructor (ghost kind: Contents)
      ensures this.kind == kind && trace == [] && Valid()
      ensures now == Progress(Top, [], [], 0)
    {
      this.kind := kind;
      trace := [];
      now := Progress(Top, [], [], 0);
    }

    method Do(a: Action, ghost to: Pc)
      requires Valid() && Next(kind, now.pc, a) == Some(to)
      modifies this
      ensures Valid() && trace == old(trace) + [a] && now == old(now).After(a, to)
    {
      RunSnoc(kind, Top, trace, a);
      assert (trace + [a])[..|trace|] == trace;
      now := now.After(a, to);
      trace := trace + [a];
    }

    /** One message of a batch; false when the worker threw. */
    method Handle(d: Delivery) returns (alive: bool)
      requires Valid() && now.pc.Batch? && d.envelope == kind(d.m)
      modifies this
      ensures Valid()
      ensures alive <==> Survives(d)
      ensures var delivered, acked := old(now).delivered + [d.m], old(now).acked;
        now == if Survives(d) then Progress(Batch(true), delivered, acked + [d.m], old(now).polls)
               else Progress(Down, delivered, acked, old(now).polls)
    {
      var m, envelope := d.m, d.envelope;
      Do(Deliver(m), Holding(m));
      if envelope.Malformed? {
        Do(Crash, Down);
        return false;
      }
      if envelope.NoItem? {
        Do(Ack(m), Batch(true));
        return true;
      }
      var item := envelope.item;
      Do(Begin(m, item), Calling(m, item));
      if d.call == Fails {
        Do(Crash, Down);
        return false;
      }
      Do(Ok(m, item), Done(m, item));
      Do(Ack(m), Batch(true));
      return true;
    }

    /** The messages of one fetch, up to the first one that makes the worker throw. */
    method HandleBatch(batch: seq<Delivery>) returns (handled: nat)
      requires Valid() && now.pc == Batch(false) && Genuine(kind, batch)
      modifies this
      ensures Valid() && handled == FirstFailure(batch)
      ensures var acked := old(now).acked + Ids(batch[..handled]);
        now == if handled == |batch| then
                 Progress(Batch(batch != []), old(now).delivered + Ids(batch[..handled]), acked, old(now).polls)
               else
                 Progress(Down, old(now).delivered + Ids(batch[..handled + 1]), acked, old(now).polls)
    {
      ghost var start := now;
      handled := 0;
      assert batch[..0] == [];
      while handled < |batch|
        invariant 0 <= handled <= |batch| && Valid()
        invariant forall i :: 0 <= i < handled ==> Survives(batch[i])
        invariant now.pc == Batch(handled > 0) && now.polls == start.polls
        invariant now.delivered == start.delivered + Ids(batch[..handled])
        invariant now.acked == start.acked + Ids(batch[..handled])
      {
        IdsSnoc(batch, handled, start.delivered);
        IdsSnoc(batch, handled, start.acked);
        var ok := Handle(batch[handled]);
        if !ok { break; }
        handled := handled + 1;
      }
      FirstFailureIs(batch, handled);
    }

    /** What follows the messages of one fetch. */
    method FinishTurn(turn: Turn, processedAny: bool) returns (alive: bool)
      requires Valid() && now.pc == Batch(processedAny)
      modifies this
      ensures Valid()
      ensures alive <==> !turn.broken && (processedAny || turn.poll == Succeeds)
      ensures now == if !alive then old(now).(pc := Down)
                     else old(now).(pc := Top, polls := old(now).polls + if processedAny then 0 else 1)
    {
      if turn.broken {
        Do(Crash, Down);
        return false;
      }
      Do(EndOfBatch, if processedAny then Top else MustPoll);
      if !processedAny {
        if turn.poll == Fails {
          Do(Crash, Down);
          return false;
        }
        Do(Fallback, Top);
      }
      return true;
    }

    /** One pass through the loop body; false when the worker threw. */
    method OneTurn(turn: Turn) returns (alive: bool)
      requires Valid() && now.pc == Top && Genuine(kind, turn.batch)
      modifies this
      ensures Valid()
      ensures alive <==> GoodTurn(turn)
      ensures now == AfterTurn(old(now), turn)
    {
      Do(Fetch, Batch(false));
      var handled := HandleBatch(turn.batch);
      TurnParts(turn);
      if handled < |turn.batch| {
        return false;
      }
      alive := FinishTurn(turn, handled > 0);
    }

    /** The rounds of the loop, until the shutdown flag is up, the worker throws, or `turns` ends. */
    method Rounds(early: bool, turns: seq<Turn>) returns (rounds: nat, alive: bool)
      requires Valid() && now.pc == Top
      requires forall i :: 0 <= i < |turns| ==> Genuine(kind, turns[i].batch)
      modifies this
      ensures Valid() && rounds <= |turns|
      ensures GoOn(early, turns, rounds)
      ensures alive ==> rounds == |turns| || Stopped(early, turns, rounds)
      ensures !alive ==> !Stopped(early, turns, rounds) && rounds < |turns| && !GoodTurn(turns[rounds])
      ensures var done := AfterRounds(old(now), turns, rounds);
        now == if alive then done else AfterTurn(done, turns[rounds])
    {
      var shuttingDown := early;
      rounds, alive := 0, true;
      NoRounds(now, turns);
      while rounds < |turns| && !shuttingDown
        invariant 0 <= rounds <= |turns| && Valid() && alive
        invariant now == AfterRounds(old(now), turns, rounds)
        invariant GoOn(early, turns, rounds)
        invariant shuttingDown <==> Stopped(early, turns, rounds)
      {
        AfterOneMore(old(now), turns, rounds);
        alive := OneTurn(turns[rounds]);
        if !alive { return; }
        shuttingDown := turns[rounds].stop;
        rounds := rounds + 1;
      }
    }

    /** `loopNats`, as long as the environment answers `turns`; `early` says that a shutdown signal
        came in before the loop. It completes the good rounds before the first stop and exits at the
        stop, or dies in the first round that is not good. */
    method LoopNats(early: bool, turns: seq<Turn>) returns (rounds: nat)
      requires Valid() && now.pc == Top
      requires forall i :: 0 <= i < |turns| ==> Genuine(kind, turns[i].batch)
      modifies this
      ensures Valid() && rounds <= |turns|
      ensures GoOn(early, turns, rounds)
      ensures now.pc == Exited <==> Stopped(early, turns, rounds)
      ensures now.pc == Down <==>
                !Stopped(early, turns, rounds) && rounds < |turns| && !GoodTurn(turns[rounds])
      ensures now.pc == Top <==> !Stopped(early, turns, rounds) && rounds == |turns|
      ensures var done := AfterRounds(old(now), turns, rounds);
        now == if now.pc == Down then AfterTurn(done, turns[rounds]) else done.(pc := now.pc)
    {
      var alive;
      rounds, alive := Rounds(early, turns);
      if alive && Stopped(early, turns, rounds) {
        Do(Exit, Exited);
      }
    }
  }

  // ---- any number of workers and the broker ---------------------------------------------

  datatype Event =
    | Publish(m: MsgId)
    | Work(w: nat, a: Action)
    | BrokerAck(m: MsgId)

  /** `sent` holds the acknowledgements that workers have sent, whether or not they arrive. */
  datatype System = System(published: set<MsgId>, pending: set<MsgId>, sent: set<MsgId>, workers: seq<Pc>)

  function Start(workers: nat): System {
    System({}, {}, {}, seq(workers, _ => Top))
  }

  /** One step of the whole system. The broker may hand any message that it still counts as pending
      to any worker at any time, so redelivery is unrestricted. */
  function Apply(kind: Contents, s: System, e: Event): Option<System> {
    match e
    case Publish(m) =>
      if m in s.published then None
      else Some(s.(published := s.published + {m}, pending := s.pending + {m}))
    case BrokerAck(m) =>
      if m in s.sent && m in s.pending then Some(s.(pending := s.pending - {m})) else None
    case Work(w, a) =>
      if w >= |s.workers| || (a.Deliver? && a.m !in s.pending) then None
      else
        var pc := Next(kind, s.workers[w], a);
        if pc.None? then None
        else Some(s.(workers := s.workers[w := pc.value], sent := if a.Ack? then s.sent + {a.m} else s.sent))
  }

  function Run(kind: Contents, workers: nat, log: seq<Event>): Option<System> {
    if log == [] then Some(Start(workers))
    else
      var before := Run(kind, workers, log[..|log| - 1]);
      if before.None? then None else Apply(kind, before.value, log[|log| - 1])
  }

  lemma {:induction false} RunOfPrefix(kind: Contents, workers: nat, log: seq<Event>, i: nat)
    requires i <= |log| && Run(kind, workers, log).Some?
    ensures Run(kind, workers, log[..i]).Some?
    decreases |log|
  {
    if i == |log| {
      assert log[..i] == log;
    } else {
      RunOfPrefix(kind, workers, log[..|log| - 1], i);
      assert log[..|log| - 1][..i] == log[..i];
    }
  }

  /** What worker `w` did, in a log of the whole system. */
  function Trace(log: seq<Event>, w: nat): seq<Action> {
    if log == [] then []
    else
      var e := log[|log| - 1];
      Trace(log[..|log| - 1], w) + (if e.Work? && e.w == w then [e.a] else [])
  }

  lemma TraceSnoc(log: seq<Event>, e: Event, w: nat)
    ensures Trace(log + [e], w) == if e.Work? && e.w == w then Trace(log, w) + [e.a] else Trace(log, w)
  {
    assert (log + [e])[..|log|] == log;
    assert Trace(log, w) + [] == Trace(log, w);
  }

  lemma WorkerStep(kind: Contents, s: System, e: Event, w: nat)
    requires Apply(kind, s, e).Some? && w < |s.workers|
    ensures var t := Apply(kind, s, e).value;
      && |t.workers| == |s.workers|
      && if e.Work? && e.w == w then Next(kind, s.workers[w], e.a) == Some(t.workers[w])
         else t.workers[w] == s.workers[w]
  {
  }

  /** Each worker of the system runs the automaton, so the single-worker lemmas apply to it. */
  lemma {:induction false} EveryWorkerRunsTheLoop(kind: Contents, workers: nat, log: seq<Event>, w: nat)
    requires Run(kind, workers, log).Some? && w < workers
    ensures var s := Run(kind, workers, log).value;
      |s.workers| == workers && RunFrom(kind, Top, Trace(log, w)) == Some(s.workers[w])
  {
    if log != [] {
      var before, e := log[..|log| - 1], log[|log| - 1];
      EveryWorkerRunsTheLoop(kind, workers, before, w);
      WorkerStep(kind, Run(kind, workers, before).value, e, w);
      assert before + [e] == log;
      TraceSnoc(before, e, w);
      if e.Work? && e.w == w {
        RunSnoc(kind, Top, Trace(before, w), e.a);
      }
    }
  }

  /** So in every run of the system, every iteration that a worker has completed acknowledged each
      message it was handed and made no fallback call, or was handed none and made exactly one. */
  lemma IterationsOfEveryWorker(kind: Contents, workers: nat, log: seq<Event>, w: nat,
                                earlier: seq<Action>, body: seq<Action>)
    requires Run(kind, workers, log).Some? && w < workers
    requires Trace(log, w) == earlier + [Fetch] + body && OneIteration(body)
    requires RunFrom(kind, Top, Trace(log, w)) == Some(Top)
    ensures Acked(body) == Delivered(body)
    ensures Polls(body) == if Delivered(body) == [] then 1 else 0
  {
    var head := earlier + [Fetch];
    var trace := head + body;
    RunPrefix(kind, Top, trace, |head|);
    assert trace[..|head|] == head;
    RunPrefix(kind, Top, trace, |earlier|);
    assert trace[..|earlier|] == earlier;
    RunSnoc(kind, Top, earlier, Fetch);
    RunSplit(kind, Top, head, body);
    EitherMessagesOrOneFallback(kind, body);
  }

  ghost predicate SucceededAt(log: seq<Event>, w: nat, m: MsgId, item: string, k: int) {
    0 <= k < |log| && log[k] == Work(w, Ok(m, item))
  }

  /** Some worker acknowledged `m` after its own process call for the message's item succeeded. */
  ghost predicate Justified(kind: Contents, log: seq<Event>, m: MsgId) {
    match kind(m)
    case Malformed => false
    case NoItem => true
    case ForItem(item) =>
      exists w: nat, k: int, a: int ::
        SucceededAt(log, w, m, item, k) && k < a < |log| && log[a] == Work(w, Ack(m))
  }

  ghost predicate Inv(kind: Contents, s: System, log: seq<Event>) {
    && s.pending <= s.published
    && (forall m :: m in s.published && m !in s.pending ==> m in s.sent)
    && (forall m :: m in s.sent ==> m in s.published && Justified(kind, log, m))
    && (forall w :: 0 <= w < |s.workers| ==> WorkerInv(kind, s, log, w))
  }

  ghost predicate WorkerInv(kind: Contents, s: System, log: seq<Event>, w: nat)
    requires w < |s.workers|
  {
    var pc := s.workers[w];
    && (HeldBy(pc).Some? ==> HeldBy(pc).value in s.published)
    && (pc.Calling? ==> kind(pc.m) == ForItem(pc.item))
    && (pc.Done? ==> kind(pc.m) == ForItem(pc.item) && exists k :: SucceededAt(log, w, pc.m, pc.item, k))
  }

  lemma SucceededStays(log: seq<Event>, e: Event)
    ensures forall w: nat, m, item, k :: SucceededAt(log, w, m, item, k) ==> SucceededAt(log + [e], w, m, item, k)
  {
  }

  lemma JustifiedStays(kind: Contents, log: seq<Event>, e: Event, m: MsgId)
    requires Justified(kind, log, m)
    ensures Justified(kind, log + [e], m)
  {
    if kind(m).ForItem? {
      SucceededStays(log, e);
      var w: nat, k: int, a: int :|
        SucceededAt(log, w, m, kind(m).item, k) && k < a < |log| && log[a] == Work(w, Ack(m));
      assert (log + [e])[a] == log[a];
      assert SucceededAt(log + [e], w, m, kind(m).item, k);
    }
  }

  lemma AckJustified(kind: Contents, s: System, log: seq<Event>, w: nat, m: MsgId)
    requires Inv(kind, s, log) && w < |s.workers| && Next(kind, s.workers[w], Ack(m)).Some?
    ensures m in s.published && Justified(kind, log + [Work(w, Ack(m))], m)
  {
    assert WorkerInv(kind, s, log, w);
    var pc, e := s.workers[w], Work(w, Ack(m));
    if pc.Done? {
      var k :| SucceededAt(log, w, m, pc.item, k);
      SucceededStays(log, e);
      assert SucceededAt(log + [e], w, m, pc.item, k) && (log + [e])[|log|] == e;
    }
  }

  lemma {:induction false} RunKeepsInv(kind: Contents, workers: nat, log: seq<Event>)
    requires Run(kind, workers, log).Some?
    ensures Inv(kind, Run(kind, workers, log).value, log)
  {
    if log != [] {
      var before, e := log[..|log| - 1], log[|log| - 1];
      RunKeepsInv(kind, workers, before);
      StepKeepsInv(kind, Run(kind, workers, before).value, before, e);
      assert before + [e] == log;
    }
  }

  lemma StepKeepsInv(kind: Contents, s: System, log: seq<Event>, e: Event)
    requires Inv(kind, s, log) && Apply(kind, s, e).Some?
    ensures Inv(kind, Apply(kind, s, e).value, log + [e])
  {
    var t := Apply(kind, s, e).value;
    forall m | m in t.sent ensures m in t.published && Justified(kind, log + [e], m) {
      if m in s.sent {
        JustifiedStays(kind, log, e, m);
      } else {
        AckJustified(kind, s, log, e.w, m);
      }
    }
    SucceededStays(log, e);
    forall w | 0 <= w < |t.workers| ensures WorkerInv(kind, t, log + [e], w) {
      assert WorkerInv(kind, s, log, w);
      if e.Work? && e.w == w && e.a.Ok? {
        assert SucceededAt(log + [e], w, e.a.m, e.a.item, |log|);
      }
    }
  }

  /** In every run of any number of workers, with crashes, restarts, failing calls and unrestricted
      redelivery: when the broker takes an acknowledgement, the message carried no item, or a
      worker had a successful process call for its item and then acknowledged it. */
  lemma AckedWasProcessed(kind: Contents, workers: nat, log: seq<Event>, j: nat)
    requires Run(kind, workers, log).Some? && j < |log| && log[j].BrokerAck?
    ensures Justified(kind, log[..j], log[j].m)
  {
    RunOfPrefix(kind, workers, log, j + 1);
    RunOfPrefix(kind, workers, log, j);
    assert log[..j + 1][..j] == log[..j];
    RunKeepsInv(kind, workers, log[..j]);
  }

  /** No message is lost: each one is still pending, carried no item, or was processed. A message
      that does not parse stays pending for ever. */
  lemma PendingOrProcessed(kind: Contents, workers: nat, log: seq<Event>, m: MsgId)
    requires Run(kind, workers, log).Some?
    requires m in Run(kind, workers, log).value.published
    ensures var s := Run(kind, workers, log).value;
      && (m in s.pending || Justified(kind, log, m))
      && (kind(m).Malformed? ==> m in s.pending)
  {
    RunKeepsInv(kind, workers, log);
  }

  // ---- messages that do not parse -------------------------------------------------------

  lemma RunStep(kind: Contents, workers: nat, log: seq<Event>, e: Event)
    requires Run(kind, workers, log).Some?
    ensures Run(kind, workers, log + [e]) == Apply(kind, Run(kind, workers, log).value, e)
  {
    assert (log + [e])[..|log|] == log;
  }

  /** The only worker has published message `m` in hand, in state `pc`. */
  ghost predicate Alone(kind: Contents, log: seq<Event>, m: MsgId, pc: Pc) {
    && Run(kind, 1, log).Some?
    && var s := Run(kind, 1, log).value;
       && |s.workers| == 1 && s.workers[0] == pc
       && m in s.published && m in s.pending
  }

  lemma AloneStep(kind: Contents, log: seq<Event>, m: MsgId, pc: Pc, a: Action) returns (longer: seq<Event>)
    requires Alone(kind, log, m, pc) && Next(kind, pc, a).Some? && (a.Deliver? ==> a.m == m)
    ensures Alone(kind, longer, m, Next(kind, pc, a).value)
    ensures a.Ack? ==> a.m in Run(kind, 1, longer).value.sent
  {
    longer := Extend(kind, 1, log, Work(0, a));
  }

  lemma Fetched(kind: Contents, m: MsgId) returns (log: seq<Event>)
    ensures Alone(kind, log, m, Holding(m))
  {
    log := Extend(kind, 1, [], Publish(m));
    assert Alone(kind, log, m, Top);
    log := AloneStep(kind, log, m, Top, Fetch);
    log := AloneStep(kind, log, m, Batch(false), Deliver(m));
  }

  /** A single worker gets a message that parses, and the broker lets it go. */
  lemma SettlesOnce(kind: Contents, m: MsgId) returns (log: seq<Event>)
    requires !kind(m).Malformed?
    ensures SettledBy(kind, 1, log, m)
  {
    log := Fetched(kind, m);
    if kind(m).ForItem? {
      var item := kind(m).item;
      log := AloneStep(kind, log, m, Holding(m), Begin(m, item));
      log := AloneStep(kind, log, m, Calling(m, item), Ok(m, item));
      log := AloneStep(kind, log, m, Done(m, item), Ack(m));
    } else {
      log := AloneStep(kind, log, m, Holding(m), Ack(m));
    }
    log := Extend(kind, 1, log, BrokerAck(m));
  }

  lemma Extend(kind: Contents, workers: nat, log: seq<Event>, e: Event) returns (longer: seq<Event>)
    requires Run(kind, workers, log).Some? && Apply(kind, Run(kind, workers, log).value, e).Some?
    ensures longer == log + [e] && Run(kind, workers, longer) == Apply(kind, Run(kind, workers, log).value, e)
  {
    longer := log + [e];
    RunStep(kind, workers, log, e);
  }

  ghost predicate SettledBy(kind: Contents, workers: nat, log: seq<Event>, m: MsgId) {
    && Run(kind, workers, log).Some?
    && m in Run(kind, workers, log).value.published
    && m !in Run(kind, workers, log).value.pending
  }

  /** A message can be acknowledged in some run if and only if it parses. */
  lemma SettlesIffParses(kind: Contents, m: MsgId)
    ensures (exists workers, log :: SettledBy(kind, workers, log, m)) <==> !kind(m).Malformed?
  {
    if !kind(m).Malformed? {
      var log := SettlesOnce(kind, m);
      assert SettledBy(kind, 1, log, m);
    }
    forall workers, log | SettledBy(kind, workers, log, m) ensures !kind(m).Malformed? {
      PendingOrProcessed(kind, workers, log, m);
    }
  }

  /** A worker that has a message in hand is stopped by it, that is, it can do nothing but die, if
      and only if the message does not parse. */
  lemma MalformedStopsTheWorker(kind: Contents, workers: nat, log: seq<Event>, w: nat, m: MsgId)
    requires Run(kind, workers, log).Some? && w < |Run(kind, workers, log).value.workers|
    requires HeldBy(Run(kind, workers, log).value.workers[w]) == Some(m)
    ensures var s := Run(kind, workers, log).value;
      kind(m).Malformed? <==> forall a :: Apply(kind, s, Work(w, a)).Some? ==> a == Crash
  {
    RunKeepsInv(kind, workers, log);
    var s := Run(kind, workers, log).value;
    assert WorkerInv(kind, s, log, w);
    if !kind(m).Malformed? {
      var a := NextAction(kind, s.workers[w]);
      assert Apply(kind, s, Work(w, a)).Some? && a != Crash;
    }
  }

  // ---- progress when nothing goes wrong -------------------------------------------------

  function Held(workers: seq<Pc>): set<MsgId> {
    set w | 0 <= w < |workers| && HeldBy(workers[w]).Some? :: HeldBy(workers[w]).value
  }

  /** Pending messages that no worker holds and nobody has acknowledged. */
  function Available(s: System): set<MsgId> {
    s.pending - s.sent - Held(s.workers)
  }

  /** No failure, no new message, no redelivery, no fallback poll, no shutdown. */
  predicate Quiet(s: System, e: Event) {
    match e
    case Publish(_) => false
    case BrokerAck(_) => true
    case Work(_, a) =>
      && !a.Crash? && !a.Restart? && !a.Exit? && !a.Fallback?
      && (a.Deliver? ==> a.m in Available(s))
  }

  function Rank(pc: Pc): nat {
    match pc
    case Holding(_) => 7
    case Calling(_, _) => 6
    case Done(_, _) => 5
    case Batch(any) => if any then 3 else 1
    case Top => 2
    case _ => 0
  }

  function Ranks(workers: seq<Pc>): nat {
    if workers == [] then 0 else Rank(workers[0]) + Ranks(workers[1..])
  }

  function Measure(s: System): nat {
    7 * |Available(s)| + Ranks(s.workers) + |s.sent * s.pending|
  }

  lemma {:induction false} RanksUpdate(workers: seq<Pc>, w: nat, pc: Pc)
    requires w < |workers|
    ensures Ranks(workers[w := pc]) == Ranks(workers) - Rank(workers[w]) + Rank(pc)
  {
    if w == 0 {
      assert workers[w := pc][1..] == workers[1..];
    } else {
      RanksUpdate(workers[1..], w - 1, pc);
      assert workers[w := pc][1..] == workers[1..][w - 1 := pc];
    }
  }

  lemma HeldUpdate(workers: seq<Pc>, w: nat, pc: Pc)
    requires w < |workers|
    ensures var h, h' := Held(workers), Held(workers[w := pc]);
      && (HeldBy(pc).Some? ==> HeldBy(pc).value in h')
      && (forall m :: m in h && HeldBy(workers[w]) != Some(m) ==> m in h')
      && (forall m :: m in h' && HeldBy(pc) != Some(m) ==> m in h)
  {
    var after := workers[w := pc];
    assert after[w] == pc;
    forall m | m in Held(workers) && HeldBy(workers[w]) != Some(m) ensures m in Held(after) {
      var v :| 0 <= v < |workers| && HeldBy(workers[v]) == Some(m);
      assert after[v] == workers[v];
    }
  }

  lemma QuietNext(kind: Contents, pc: Pc, a: Action)
    requires Next(kind, pc, a).Some?
    requires !a.Crash? && !a.Restart? && !a.Exit? && !a.Fallback?
    ensures var pc' := Next(kind, pc, a).value;
      && Rank(pc') <= Rank(pc) + (if a.Deliver? then 6 else if a.Ack? then -2 else -1)
      && (a.Deliver? ==> HeldBy(pc) == None && HeldBy(pc') == Some(a.m))
      && (a.Ack? ==> HeldBy(pc) == Some(a.m) && HeldBy(pc') == None)
      && (!a.Deliver? && !a.Ack? ==> HeldBy(pc) == HeldBy(pc'))
  {
  }

  lemma AvailableAfter(kind: Contents, s: System, w: nat, a: Action)
    requires Apply(kind, s, Work(w, a)).Some? && Quiet(s, Work(w, a))
    ensures var t := Apply(kind, s, Work(w, a)).value;
      && |Available(t)| <= |Available(s)| - (if a.Deliver? then 1 else 0)
      && |t.sent * t.pending| <= |s.sent * s.pending| + (if a.Ack? then 1 else 0)
  {
    var t := Apply(kind, s, Work(w, a)).value;
    QuietNext(kind, s.workers[w], a);
    HeldUpdate(s.workers, w, t.workers[w]);
    if a.Deliver? {
      Fewer(Available(t), Available(s), a.m);
    } else {
      Subset(Available(t), Available(s));
    }
    if a.Ack? {
      Subset(t.sent * t.pending, s.sent * s.pending + {a.m});
    }
  }

  /** Every quiet step brings the system strictly nearer to an empty queue. */
  lemma QuietStepDecreases(kind: Contents, s: System, e: Event)
    requires Apply(kind, s, e).Some? && Quiet(s, e)
    ensures Measure(Apply(kind, s, e).value) < Measure(s)
  {
    var t := Apply(kind, s, e).value;
    if e.BrokerAck? {
      assert Available(t) == Available(s);
      assert t.sent * t.pending == s.sent * s.pending - {e.m};
    } else {
      QuietNext(kind, s.workers[e.w], e.a);
      RanksUpdate(s.workers, e.w, t.workers[e.w]);
      AvailableAfter(kind, s, e.w, e.a);
    }
  }

  lemma Subset(a: set<MsgId>, b: set<MsgId>)
    requires a <= b
    ensures |a| <= |b|
  {
    assert b == a + (b - a);
  }

  lemma Fewer(a: set<MsgId>, b: set<MsgId>, m: MsgId)
    requires m in b && a <= b - {m}
    ensures |a| < |b|
  {
    Subset(a, b - {m});
  }

  ghost predicate QuietRun(kind: Contents, s: System, events: seq<Event>)
    decreases |events|
  {
    events == [] ||
    (Quiet(s, events[0]) && Apply(kind, s, events[0]).Some?
     && QuietRun(kind, Apply(kind, s, events[0]).value, events[1..]))
  }

  /** So a run without failures and without new messages takes no more than `Measure` steps. */
  lemma {:induction false} QuietRunsEnd(kind: Contents, s: System, events: seq<Event>)
    requires QuietRun(kind, s, events)
    ensures |events| <= Measure(s)
    decreases |events|
  {
    if events != [] {
      QuietStepDecreases(kind, s, events[0]);
      QuietRunsEnd(kind, Apply(kind, s, events[0]).value, events[1..]);
    }
  }

  /** How a worker that is neither polling, stopped nor stuck goes on without a failure. */
  function NextAction(kind: Contents, pc: Pc): Action {
    match pc
    case Top => Fetch
    case Batch(_) => EndOfBatch
    case Holding(m) =>
      (match kind(m)
       case ForItem(item) => Begin(m, item)
       case _ => Ack(m))
    case Calling(m, item) => Ok(m, item)
    case Done(m, item) => Ack(m)
    case _ => Fallback
  }

  /** A worker without a quiet step: it is about to poll, or was stopped, or holds a message that
      does not parse. */
  predicate Rests(kind: Contents, pc: Pc) {
    pc.MustPoll? || pc.Exited? || pc.Down? || (pc.Holding? && kind(pc.m).Malformed?)
  }

  ghost predicate Settled(kind: Contents, s: System) {
    forall e :: Quiet(s, e) ==> Apply(kind, s, e).None?
  }

  /** Where quiet runs end: no quiet step is left exactly when every worker is about to poll, has
      been stopped, or holds a message that does not parse, and the broker has taken every
      acknowledgement that was sent. */
  lemma QuietEnd(kind: Contents, s: System)
    ensures Settled(kind, s) <==>
              (forall w :: 0 <= w < |s.workers| ==> Rests(kind, s.workers[w])) && s.sent * s.pending == {}
  {
    forall w: nat | w < |s.workers| && !Rests(kind, s.workers[w]) ensures !Settled(kind, s) {
      var e := Work(w, NextAction(kind, s.workers[w]));
      assert Quiet(s, e) && Apply(kind, s, e).Some?;
    }
    if s.sent * s.pending != {} {
      var m :| m in s.sent * s.pending;
      assert Quiet(s, BrokerAck(m)) && Apply(kind, s, BrokerAck(m)).Some?;
    }
    if (forall w :: 0 <= w < |s.workers| ==> Rests(kind, s.workers[w])) && s.sent * s.pending == {} {
      forall e | Quiet(s, e) ensures Apply(kind, s, e).None? {
        assert e.BrokerAck? ==> e.m !in s.sent * s.pending;
        assert e.Work? && e.w < |s.workers| ==> Rests(kind, s.workers[e.w]);
      }
    }
  }

  /** The broker does not let a fetch run out empty while a message is available. */
  ghost predicate Prompt(s: System, e: Event) {
    e.Work? && e.w < |s.workers| && s.workers[e.w] == Batch(false) && e.a.EndOfBatch? ==> Available(s) == {}
  }

  ghost predicate PromptRun(kind: Contents, s: System, events: seq<Event>)
    decreases |events|
  {
    events == [] ||
    (Quiet(s, events[0]) && Prompt(s, events[0]) && Apply(kind, s, events[0]).Some?
     && PromptRun(kind, Apply(kind, s, events[0]).value, events[1..]))
  }

  function EndOf(kind: Contents, s: System, events: seq<Event>): System
    requires PromptRun(kind, s, events)
    decreases |events|
  {
    if events == [] then s else EndOf(kind, Apply(kind, s, events[0]).value, events[1..])
  }

  /** A worker that is about to poll means that no message is available. */
  ghost predicate PollsWhenEmpty(s: System) {
    (exists w :: 0 <= w < |s.workers| && s.workers[w].MustPoll?) ==> Available(s) == {}
  }

  lemma PollerBefore(kind: Contents, s: System, e: Event, w: nat)
    requires Quiet(s, e) && Apply(kind, s, e).Some? && w < |s.workers|
    requires Apply(kind, s, e).value.workers[w].MustPoll?
    ensures s.workers[w].MustPoll? || (e.Work? && e.w == w && s.workers[w] == Batch(false) && e.a.EndOfBatch?)
  {
    WorkerStep(kind, s, e, w);
  }

  lemma AvailableShrinks(kind: Contents, s: System, e: Event)
    requires Quiet(s, e) && Apply(kind, s, e).Some? && Available(s) == {}
    ensures Available(Apply(kind, s, e).value) == {}
  {
    if e.BrokerAck? {
      assert Available(Apply(kind, s, e).value) == Available(s);
    } else {
      AvailableAfter(kind, s, e.w, e.a);
    }
  }

  lemma PromptStep(kind: Contents, s: System, e: Event)
    requires PollsWhenEmpty(s) && Quiet(s, e) && Prompt(s, e) && Apply(kind, s, e).Some?
    ensures PollsWhenEmpty(Apply(kind, s, e).value)
  {
    var t := Apply(kind, s, e).value;
    if w :| 0 <= w < |t.workers| && t.workers[w].MustPoll? {
      PollerBefore(kind, s, e, w);
      AvailableShrinks(kind, s, e);
    }
  }

  /** In a run without failures, new messages and redelivery a worker polls only when no message is
      available. */
  lemma {:induction false} PollMeansEmpty(kind: Contents, s: System, events: seq<Event>)
    requires PromptRun(kind, s, events) && PollsWhenEmpty(s)
    ensures PollsWhenEmpty(EndOf(kind, s, events))
    decreases |events|
  {
    if events != [] {
      PromptStep(kind, s, events[0]);
      PollMeansEmpty(kind, Apply(kind, s, events[0]).value, events[1..]);
    }
  }

  /** And where such a run can go no further, with a worker left to poll, the queue is empty but for
      messages that do not parse, each of them stuck in the hands of a worker. */
  lemma QuietQueueEmpties(kind: Contents, s: System, events: seq<Event>, m: MsgId)
    requires PromptRun(kind, s, events) && PollsWhenEmpty(s)
    requires var t := EndOf(kind, s, events);
      Settled(kind, t) && m in t.pending && exists w :: 0 <= w < |t.workers| && t.workers[w].MustPoll?
    ensures kind(m).Malformed?
    ensures var t := EndOf(kind, s, events); exists w :: 0 <= w < |t.workers| && t.workers[w] == Holding(m)
  {
    var t := EndOf(kind, s, events);
    PollMeansEmpty(kind, s, events);
    QuietEnd(kind, t);
    assert m !in Available(t) && m !in t.sent * t.pending;
    assert m in Held(t.workers);
    var w :| 0 <= w < |t.workers| && HeldBy(t.workers[w]) == Some(m);
    assert Rests(kind, t.workers[w]);
  }
}
