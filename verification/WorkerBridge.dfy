/** `WorkerBridge`: hands commands of server-side agents to polling workers and routes the
    results back by command id. Everything runs on one event loop, so each method up to its
    next `await` is one atomic step. */
module WorkerBridge {
  import opened Options
  import opened PyText

  datatype Command = Command(
    id: string, agentId: string, kind: string, cmd: string, timeout: int,
    task: string, thought: string, workdir: string, streamProgress: bool, hasSink: bool)

  /** The future a submitter awaits. The timer of `wait_for` cancels it while it waits. A timer
      that fires after the result is set, but before the submitter resumes, cannot cancel it
      any more and cancels the submitter instead: then `late` is set. */
  datatype Future = Waiting | Resolved(output: string, late: bool) | Cancelled

  /** What the outside world observes. */
  datatype Event =
    | Submitted(id: string, timeout: int)
    | Polled(id: string)
    | Accepted(id: string, output: string)   // `complete` returned True
    | Fired(id: string, chunk: string)       // a progress sink was called
    | Expired(id: string)                    // the timer of `wait_for` fired
    | Returned(id: string, value: string)    // `submit` returned

  function TimeoutMessage(timeout: int): string {
    "[worker did not return within " + DecimalInt(timeout) + "s \U{2014} is `scrappy worker` still connected?]"
  }

  /** The bridge as a value: the queue, the pending table, every future ever created, and
      the history of observations. */
  datatype Bridge = Bridge(
    queue: seq<Command>, pending: map<string, Command>, futures: map<string, Future>, log: seq<Event>)

  const EMPTY := Bridge([], map[], map[], [])

  // ----- the steps -----

  datatype Op =
    | Submit(command: Command)
    | Poll
    | Complete(id: string, output: string)
    | Progress(id: string, chunk: string)
    | Expire(id: string)   // the timer of a submitter fires
    | Resume(id: string)   // a submitter whose future is done continues

  /** Ids are fresh, and only a submitter that still waits can be resumed or time out. */
  predicate Enabled(b: Bridge, op: Op) {
    match op
    case Submit(c) => c.id !in b.futures
    case Expire(id) => id in b.pending && id in b.futures
    case Resume(id) => id in b.pending && id in b.futures && !b.futures[id].Waiting?
    case _ => true
  }

  function TimerFired(f: Future): Future {
    match f
    case Waiting => Cancelled
    case Resolved(output, _) => Resolved(output, true)
    case Cancelled => Cancelled
  }

  predicate InFlight(b: Bridge, id: string) {
    id in b.pending && id in b.futures && b.futures[id].Waiting?
  }

  function ValueOf(b: Bridge, id: string): string
    requires id in b.pending && id in b.futures && !b.futures[id].Waiting?
  {
    if b.futures[id].Resolved? && !b.futures[id].late then b.futures[id].output
      else TimeoutMessage(b.pending[id].timeout)
  }

  function Step(b: Bridge, op: Op): Bridge
    requires Enabled(b, op)
  {
    match op
    case Submit(c) =>
      Bridge(b.queue + [c], b.pending[c.id := c], b.futures[c.id := Waiting], b.log + [Submitted(c.id, c.timeout)])
    case Poll => if b.queue == [] then b else b.(queue := b.queue[1..], log := b.log + [Polled(b.queue[0].id)])
    case Complete(id, output) =>
      if InFlight(b, id)
      then b.(futures := b.futures[id := Resolved(output, false)], log := b.log + [Accepted(id, output)]) else b
    case Progress(id, chunk) =>
      if InFlight(b, id) && b.pending[id].hasSink then b.(log := b.log + [Fired(id, chunk)]) else b
    case Expire(id) => b.(futures := b.futures[id := TimerFired(b.futures[id])], log := b.log + [Expired(id)])
    case Resume(id) => b.(pending := b.pending - {id}, log := b.log + [Returned(id, ValueOf(b, id))])
  }

  /** What each step does, case by case. */
  lemma StepIs(b: Bridge, op: Op)
    requires Enabled(b, op)
    ensures var c := Step(b, op);
            match op
            case Submit(d) =>
              && c.queue == b.queue + [d] && d.id in c.pending && c.pending[d.id] == d
              && d.id in c.futures && c.futures[d.id] == Waiting && c.log == b.log + [Submitted(d.id, d.timeout)]
            case Poll =>
              if b.queue == [] then c == b
              else
                && b.queue == [b.queue[0]] + c.queue && c.futures == b.futures
                && c.log == b.log + [Polled(b.queue[0].id)]
            case Complete(id, output) =>
              if id in b.pending && id in b.futures && b.futures[id] == Waiting then
                c.log == b.log + [Accepted(id, output)] && id in c.futures && c.futures[id] == Resolved(output, false)
              else c == b
            case Progress(id, chunk) =>
              if id in b.pending && b.pending[id].hasSink && id in b.futures && b.futures[id] == Waiting then
                c == b.(log := b.log + [Fired(id, chunk)])
              else c == b
            case Expire(id) => c.log == b.log + [Expired(id)] && id in c.futures && c.futures[id] != Waiting
            case Resume(id) =>
              && id !in c.pending && c.queue == b.queue && c.futures == b.futures
              && var f, text := b.futures[id], TimeoutMessage(b.pending[id].timeout);
              c.log == b.log + [Returned(id, if f.Resolved? && !f.late then f.output else text)]
  {
    hide TimeoutMessage;
  }

  lemma TimeoutTextIs(timeout: int)
    ensures "[worker did not return within " + DecimalInt(timeout) <= TimeoutMessage(timeout)
  {
    hide DecimalInt;
    Prefix("[worker did not return within " + DecimalInt(timeout), "s \U{2014} is `scrappy worker` still connected?]");
  }

  lemma Prefix(a: string, b: string)
    ensures a <= a + b
  {
  }

  class WorkerBridge {
    var queue: seq<Command>
    var pending: map<string, Command>
    /** The futures of all commands ever submitted, by id. */
    var futures: map<string, Future>
    ghost var log: seq<Event>

    ghost function Model(): Bridge
      reads this
    {
      Bridge(queue, pending, futures, log)
    }

    constructor ()
      ensures Model() == EMPTY
    {
      queue, pending, futures, log := [], map[], map[], [];
    }

    /** The first half of `submit`, up to its `await`. */
    method SubmitCommand(command: Command)
      requires Enabled(Model(), Submit(command))
      modifies this
      ensures Model() == Step(old(Model()), Submit(command))
    {
      futures := futures[command.id := Waiting];
      pending := pending[command.id := command];
      queue := queue + [command];
      log := log + [Submitted(command.id, command.timeout)];
    }

    /** The second half of `submit`: the future is done, and the timer may have fired. */
    method FinishSubmit(id: string) returns (value: string)
      requires Enabled(Model(), Resume(id))
      modifies this
      ensures Model() == Step(old(Model()), Resume(id)) && value == ValueOf(old(Model()), id)
    {
      value := if futures[id].Resolved? && !futures[id].late then futures[id].output
        else TimeoutMessage(pending[id].timeout);
      pending := pending - {id};
      log := log + [Returned(id, value)];
    }

    method TimerFires(id: string)
      requires Enabled(Model(), Expire(id))
      modifies this
      ensures Model() == Step(old(Model()), Expire(id))
    {
      if futures[id].Waiting? {
        futures := futures[id := Cancelled];
      } else if futures[id].Resolved? {
        futures := futures[id := Resolved(futures[id].output, true)];
      }
      log := log + [Expired(id)];
    }

    /** `next_command`, when its wait ends: the oldest queued command, or None. A waiting poll
        whose timer fires as a command arrives leaves it in the queue. */
    method NextCommand(timedOut: bool) returns (c: Option<Command>)
      modifies this
      ensures Model() == if timedOut then old(Model()) else Step(old(Model()), Poll)
      ensures c == if timedOut || old(queue) == [] then None else Some(old(queue)[0])
    {
      if timedOut || queue == [] { return None; }
      c := Some(queue[0]);
      queue := queue[1..];
      log := log + [Polled(c.value.id)];
    }

    method CompleteCommand(id: string, output: string) returns (accepted: bool)
      modifies this
      ensures Model() == Step(old(Model()), Complete(id, output)) && accepted == InFlight(old(Model()), id)
    {
      if id !in pending || id !in futures || !futures[id].Waiting? {
        return false;
      }
      futures := futures[id := Resolved(output, false)];
      log := log + [Accepted(id, output)];
      accepted := true;
    }

    /** A raising sink is swallowed: it has fired, but the call reports False. */
    method PostProgress(id: string, chunk: string, sinkRaises: bool) returns (delivered: bool)
      modifies this
      ensures Model() == Step(old(Model()), Progress(id, chunk))
      ensures delivered == (InFlight(old(Model()), id) && old(pending)[id].hasSink && !sinkRaises)
    {
      if id !in pending || !pending[id].hasSink { return false; }
      if id !in futures || !futures[id].Waiting? { return false; }
      log := log + [Fired(id, chunk)];
      delivered := !sinkRaises;
    }
  }

  // ----- reading the history -----

  function SubmittedIds(log: seq<Event>): seq<string> {
    if log == [] then []
    else
      var e := log[|log| - 1];
      SubmittedIds(log[..|log| - 1]) + (if e.Submitted? then [e.id] else [])
  }

  function PolledIds(log: seq<Event>): seq<string> {
    if log == [] then []
    else
      var e := log[|log| - 1];
      PolledIds(log[..|log| - 1]) + (if e.Polled? then [e.id] else [])
  }

  /** The outputs `complete` accepted for an id. */
  function AcceptedFor(log: seq<Event>, id: string): seq<string> {
    if log == [] then []
    else
      var e := log[|log| - 1];
      AcceptedFor(log[..|log| - 1], id) + (if e.Accepted? && e.id == id then [e.output] else [])
  }

  /** The values `submit` returned for an id. */
  function ReturnedFor(log: seq<Event>, id: string): seq<string> {
    if log == [] then []
    else
      var e := log[|log| - 1];
      ReturnedFor(log[..|log| - 1], id) + (if e.Returned? && e.id == id then [e.value] else [])
  }

  lemma Logged(log: seq<Event>, e: Event, id: string)
    ensures SubmittedIds(log + [e]) == SubmittedIds(log) + (if e.Submitted? then [e.id] else [])
    ensures PolledIds(log + [e]) == PolledIds(log) + (if e.Polled? then [e.id] else [])
    ensures AcceptedFor(log + [e], id) == AcceptedFor(log, id) + (if e.Accepted? && e.id == id then [e.output] else [])
    ensures ReturnedFor(log + [e], id) == ReturnedFor(log, id) + (if e.Returned? && e.id == id then [e.value] else [])
  {
    assert (log + [e])[..|log|] == log;
  }

  /** The timer of a command has fired. */
  predicate TimedOut(log: seq<Event>, id: string) {
    Expired(id) in log
  }

  lemma {:induction false} NoneAccepted(log: seq<Event>, id: string)
    requires AcceptedFor(log, id) == []
    ensures forall i :: 0 <= i < |log| ==> !(log[i].Accepted? && log[i].id == id)
  {
    if log != [] {
      var e := log[|log| - 1];
      assert !(e.Accepted? && e.id == id);
      NoneAccepted(log[..|log| - 1], id);
      assert forall i :: 0 <= i < |log| - 1 ==> log[i] == log[..|log| - 1][i];
    }
  }

  // ----- the invariant -----

  ghost predicate Distinct(ids: seq<string>) {
    forall i, j :: 0 <= i < j < |ids| ==> ids[i] != ids[j]
  }

  function Ids(queue: seq<Command>): seq<string> {
    seq(|queue|, i requires 0 <= i < |queue| => queue[i].id)
  }

  /** No progress sink fires for a command once its output has been accepted. */
  ghost predicate QuietAfterAccept(log: seq<Event>) {
    forall i, j :: 0 <= i < j < |log| && log[i].Accepted? && log[j].Fired? ==> log[i].id != log[j].id
  }

  /** `value` is what the submitter of `id` gets: the accepted output, unless its timer fired. */
  ghost predicate Outcome(log: seq<Event>, id: string, value: string) {
    if TimedOut(log, id) then exists t :: Submitted(id, t) in log && value == TimeoutMessage(t)
    else AcceptedFor(log, id) == [value]
  }

  /** What has been accepted for an id and returned to its submitter, according to its future. */
  ghost predicate Resolution(b: Bridge, id: string) {
    if id !in b.futures then
      id !in b.pending && AcceptedFor(b.log, id) == [] && ReturnedFor(b.log, id) == [] && !TimedOut(b.log, id)
    else
      var f := b.futures[id];
      && AcceptedFor(b.log, id) == (if f.Resolved? then [f.output] else [])
      && (TimedOut(b.log, id) <==> f.Cancelled? || (f.Resolved? && f.late))
      && (f.Waiting? ==> id in b.pending)
      && if id in b.pending then
           b.pending[id].id == id && ReturnedFor(b.log, id) == [] && Submitted(id, b.pending[id].timeout) in b.log
         else |ReturnedFor(b.log, id)| == 1 && Outcome(b.log, id, ReturnedFor(b.log, id)[0])
  }

  /** The commands submitted are those polled and then those queued, each once. */
  ghost predicate InOrder(b: Bridge) {
    && SubmittedIds(b.log) == PolledIds(b.log) + Ids(b.queue)
    && Distinct(SubmittedIds(b.log))
    && forall id :: id in SubmittedIds(b.log) <==> id in b.futures
  }

  ghost predicate Inv(b: Bridge) {
    && InOrder(b)
    && (forall id {:trigger Resolution(b, id)} :: Resolution(b, id))
    && QuietAfterAccept(b.log)
  }

  lemma EmptyInv()
    ensures Inv(EMPTY)
  {
  }

  lemma TimedOutMore(log: seq<Event>, e: Event, id: string)
    ensures TimedOut(log + [e], id) <==> TimedOut(log, id) || e == Expired(id)
  {
  }

  /** What was returned stays explained by a longer history. */
  lemma OutcomeMore(log: seq<Event>, e: Event, id: string, value: string)
    requires Outcome(log, id, value) && e != Expired(id) && !(e.Accepted? && e.id == id)
    ensures Outcome(log + [e], id, value)
  {
    hide TimeoutMessage, AcceptedFor;
    Logged(log, e, id);
    TimedOutMore(log, e, id);
    if TimedOut(log, id) {
      var t :| Submitted(id, t) in log && value == TimeoutMessage(t);
      assert Submitted(id, t) in log + [e];
    }
  }

  lemma OutcomeAtReturn(b: Bridge, id: string)
    requires Resolution(b, id) && Enabled(b, Resume(id))
    ensures Outcome(b.log, id, ValueOf(b, id))
  {
    hide TimeoutMessage, AcceptedFor, ReturnedFor, TimedOut;
  }

  lemma StepResolution(b: Bridge, op: Op, id: string)
    requires Resolution(b, id) && Enabled(b, op)
    ensures Resolution(Step(b, op), id)
  {
    hide SubmittedIds, PolledIds, AcceptedFor, ReturnedFor, TimeoutMessage, Outcome, TimedOut, ValueOf;
    var c := Step(b, op);
    if c.log != b.log {
      var e := c.log[|b.log|];
      assert c.log == b.log + [e];
      Logged(b.log, e, id);
      TimedOutMore(b.log, e, id);
      if op == Resume(id) {
        OutcomeAtReturn(b, id);
        OutcomeMore(b.log, e, id, ValueOf(b, id));
      } else if id in b.futures && id !in b.pending {
        OutcomeMore(b.log, e, id, ReturnedFor(b.log, id)[0]);
      }
    }
  }

  lemma SubmitInOrder(b: Bridge, c: Command)
    requires InOrder(b) && Enabled(b, Submit(c))
    ensures InOrder(Step(b, Submit(c)))
  {
    hide SubmittedIds, PolledIds, AcceptedFor, ReturnedFor;
    Logged(b.log, Submitted(c.id, c.timeout), "");
    assert Ids(b.queue + [c]) == Ids(b.queue) + [c.id];
    assert PolledIds(b.log) + (Ids(b.queue) + [c.id]) == (PolledIds(b.log) + Ids(b.queue)) + [c.id];
    assert c.id !in SubmittedIds(b.log);
  }

  lemma PollInOrder(b: Bridge)
    requires InOrder(b)
    ensures InOrder(Step(b, Poll))
  {
    hide SubmittedIds, PolledIds, AcceptedFor, ReturnedFor, Distinct;
    if b.queue != [] {
      var id := b.queue[0].id;
      Logged(b.log, Polled(id), "");
      assert SubmittedIds(b.log) + [] == SubmittedIds(b.log);
      assert Ids(b.queue) == [id] + Ids(b.queue[1..]);
      assert PolledIds(b.log) + ([id] + Ids(b.queue[1..])) == (PolledIds(b.log) + [id]) + Ids(b.queue[1..]);
    }
  }

  lemma StepInOrder(b: Bridge, op: Op)
    requires InOrder(b) && Enabled(b, op)
    ensures InOrder(Step(b, op))
  {
    hide SubmittedIds, PolledIds, AcceptedFor, ReturnedFor, TimeoutMessage, Distinct, Ids;
    match op {
      case Submit(c) => SubmitInOrder(b, c);
      case Poll => PollInOrder(b);
      case _ =>
        var c := Step(b, op);
        if c.log != b.log {
          assert c.log == b.log + [c.log[|b.log|]];
          Logged(b.log, c.log[|b.log|], "");
          assert SubmittedIds(b.log) + [] == SubmittedIds(b.log) && PolledIds(b.log) + [] == PolledIds(b.log);
        }
    }
  }

  lemma StepQuiet(b: Bridge, op: Op)
    requires Enabled(b, op) && QuietAfterAccept(b.log)
    requires op.Progress? ==> Resolution(b, op.id)
    ensures QuietAfterAccept(Step(b, op).log)
  {
    hide SubmittedIds, PolledIds, AcceptedFor, ReturnedFor, TimeoutMessage;
    if op.Progress? && InFlight(b, op.id) { NoneAccepted(b.log, op.id); }
  }

  lemma StepInv(b: Bridge, op: Op)
    requires Inv(b) && Enabled(b, op)
    ensures Inv(Step(b, op))
  {
    hide SubmittedIds, PolledIds, AcceptedFor, ReturnedFor, Step, Enabled, Resolution, QuietAfterAccept, InOrder;
    StepInOrder(b, op);
    if op.Progress? { assert Resolution(b, op.id); }
    StepQuiet(b, op);
    forall id ensures Resolution(Step(b, op), id) {
      assert Resolution(b, id);
      StepResolution(b, op, id);
    }
  }

  // ----- runs -----

  predicate CanRun(b: Bridge, ops: seq<Op>)
    decreases |ops|
  {
    ops == [] || (Enabled(b, ops[0]) && CanRun(Step(b, ops[0]), ops[1..]))
  }

  function Run(b: Bridge, ops: seq<Op>): Bridge
    requires CanRun(b, ops)
    decreases |ops|
  {
    if ops == [] then b else Run(Step(b, ops[0]), ops[1..])
  }

  lemma {:induction false} RunInv(b: Bridge, ops: seq<Op>)
    requires Inv(b) && CanRun(b, ops)
    ensures Inv(Run(b, ops))
    decreases |ops|
  {
    hide Inv, Step, Enabled;
    if ops != [] {
      StepInv(b, ops[0]);
      RunInv(Step(b, ops[0]), ops[1..]);
    }
  }

  /** The guarantees of the bridge, for every interleaving of submits, polls, completions,
      progress posts, timers and resumptions with fresh ids. Commands are handed out in the
      order they were submitted, each at most once; at most one output is accepted per id;
      `submit` returns at most once per id, with the accepted output if its timer did not
      fire and with the timeout text if it did; no sink fires after the acceptance. */
  lemma BridgeGuarantees(ops: seq<Op>)
    requires CanRun(EMPTY, ops)
    ensures var log := Run(EMPTY, ops).log;
            && PolledIds(log) <= SubmittedIds(log) && Distinct(PolledIds(log))
            && (forall id :: |AcceptedFor(log, id)| <= 1 && |ReturnedFor(log, id)| <= 1)
            && (forall id :: ReturnedFor(log, id) != [] ==> Outcome(log, id, ReturnedFor(log, id)[0]))
            && QuietAfterAccept(log)
  {
    hide SubmittedIds, PolledIds, AcceptedFor, ReturnedFor, Run, CanRun, QuietAfterAccept, Outcome, TimedOut;
    EmptyInv();
    RunInv(EMPTY, ops);
    var b := Run(EMPTY, ops);
    assert SubmittedIds(b.log)[..|PolledIds(b.log)|] == PolledIds(b.log);
    forall i, j | 0 <= i < j < |PolledIds(b.log)| ensures PolledIds(b.log)[i] != PolledIds(b.log)[j] {
      assert SubmittedIds(b.log)[i] == PolledIds(b.log)[i] && SubmittedIds(b.log)[j] == PolledIds(b.log)[j];
    }
    forall id
      ensures |AcceptedFor(b.log, id)| <= 1 && |ReturnedFor(b.log, id)| <= 1
      ensures ReturnedFor(b.log, id) != [] ==> Outcome(b.log, id, ReturnedFor(b.log, id)[0])
    {
      assert Resolution(b, id);
    }
  }

  lemma StepPast(b: Bridge, op: Op, id: string)
    requires Enabled(b, op) && id in b.futures && id !in b.pending
    ensures var c := Step(b, op);
            && id in c.futures && id !in c.pending && ReturnedFor(c.log, id) == ReturnedFor(b.log, id)
            && op != Expire(id)
  {
    hide SubmittedIds, PolledIds, AcceptedFor, ReturnedFor, TimeoutMessage;
    var c := Step(b, op);
    if c.log != b.log {
      assert c.log == b.log + [c.log[|b.log|]];
      Logged(b.log, c.log[|b.log|], id);
    }
  }

  /** Once `submit` has returned, nothing changes its value, and its timer is gone. */
  lemma {:induction false} ReturnedStays(b: Bridge, ops: seq<Op>, id: string)
    requires CanRun(b, ops) && id in b.futures && id !in b.pending
    ensures ReturnedFor(Run(b, ops).log, id) == ReturnedFor(b.log, id) && id !in Run(b, ops).pending
    ensures Expire(id) !in ops
    decreases |ops|
  {
    hide ReturnedFor, Step, Enabled;
    if ops != [] {
      StepPast(b, ops[0], id);
      ReturnedStays(Step(b, ops[0]), ops[1..], id);
    }
  }

  /** What an accepted output comes to, whatever happens after its acceptance: the submitter
      has returned, or will return when it resumes, the output if its timer did not fire in
      the meantime, and the timeout text if it did. */
  lemma {:induction false} AcceptedOutcome(b: Bridge, ops: seq<Op>, id: string)
    requires Inv(b) && CanRun(b, ops) && id in b.pending && id in b.futures && b.futures[id].Resolved?
    ensures var c := Run(b, ops);
            var f := Resolved(b.futures[id].output, b.futures[id].late || Expire(id) in ops);
            var value := ValueOf(b.(futures := b.futures[id := f]), id);
            if id in c.pending then Enabled(c, Resume(id)) && ValueOf(c, id) == value
              else ReturnedFor(c.log, id) == [value]
    decreases |ops|
  {
    hide SubmittedIds, PolledIds, AcceptedFor, ReturnedFor, TimeoutMessage, Inv;
    if ops != [] {
      var op, c := ops[0], Step(b, ops[0]);
      StepInv(b, op);
      if op == Resume(id) {
        Logged(b.log, Returned(id, ValueOf(b, id)), id);
        NotReturned(b, id);
        ReturnedStays(c, ops[1..], id);
      } else {
        AcceptedOutcome(c, ops[1..], id);
      }
    }
  }

  lemma NotReturned(b: Bridge, id: string)
    requires Inv(b) && id in b.pending && id in b.futures
    ensures ReturnedFor(b.log, id) == []
  {
    hide ReturnedFor, AcceptedFor;
    assert Resolution(b, id);
  }

  /** An accepted output is what the submitter returns if and only if its timer does not fire
      between the acceptance and the resumption (or if the output happens to be the timeout
      text). In every run: `before`, then the completion, then `after`. */
  lemma AcceptedIsDelivered(before: seq<Op>, id: string, output: string, after: seq<Op>)
    requires CanRun(EMPTY, before) && InFlight(Run(EMPTY, before), id)
    requires CanRun(Step(Run(EMPTY, before), Complete(id, output)), after)
    ensures var b := Run(EMPTY, before);
            var c := Run(Step(b, Complete(id, output)), after);
            && (id in c.pending ==> Enabled(c, Resume(id)))
            && ((if id in c.pending then ValueOf(c, id) == output else ReturnedFor(c.log, id) == [output]) <==>
                Expire(id) !in after || output == TimeoutMessage(b.pending[id].timeout))
  {
    hide SubmittedIds, PolledIds, AcceptedFor, ReturnedFor, TimeoutMessage, Inv, Run, CanRun;
    EmptyInv();
    RunInv(EMPTY, before);
    var b := Run(EMPTY, before);
    StepInv(b, Complete(id, output));
    AcceptedOutcome(Step(b, Complete(id, output)), after, id);
  }

  /** A run on which an accepted output is lost: the worker's `complete` returned True, but
      the timer fired before the submitter resumed. */
  lemma AcceptedIsLost(c: Command, output: string)
    requires output != TimeoutMessage(c.timeout)
    ensures var ops := [Submit(c), Poll, Complete(c.id, output), Expire(c.id), Resume(c.id)];
            && CanRun(EMPTY, ops)
            && AcceptedFor(Run(EMPTY, ops).log, c.id) == [output]
            && ReturnedFor(Run(EMPTY, ops).log, c.id) == [TimeoutMessage(c.timeout)]
  {
    hide TimeoutMessage, AcceptedFor, ReturnedFor, Run, CanRun;
    LostRun(c, output);
    var l1 := [Submitted(c.id, c.timeout)];
    var l2 := l1 + [Polled(c.id)];
    var l3 := l2 + [Accepted(c.id, output)];
    var l4 := l3 + [Expired(c.id)];
    NothingLogged(c.id);
    Logged([], l1[0], c.id);
    Logged(l1, Polled(c.id), c.id);
    Logged(l2, Accepted(c.id, output), c.id);
    Logged(l3, Expired(c.id), c.id);
    Logged(l4, Returned(c.id, TimeoutMessage(c.timeout)), c.id);
    assert [] + l1 == l1;
  }

  lemma LostRun(c: Command, output: string)
    ensures var ops := [Submit(c), Poll, Complete(c.id, output), Expire(c.id), Resume(c.id)];
            && CanRun(EMPTY, ops)
            && Run(EMPTY, ops).log ==
               [Submitted(c.id, c.timeout)] + [Polled(c.id)] + [Accepted(c.id, output)] + [Expired(c.id)]
               + [Returned(c.id, TimeoutMessage(c.timeout))]
  {
    hide TimeoutMessage, Run, CanRun, Step, Enabled;
    var id, text := c.id, TimeoutMessage(c.timeout);
    var log := [Submitted(id, c.timeout)];
    var b1 := Bridge([c], map[id := c], map[id := Waiting], log);
    var b2 := Bridge([], map[id := c], map[id := Waiting], log + [Polled(id)]);
    var b3 := b2.(futures := map[id := Resolved(output, false)], log := b2.log + [Accepted(id, output)]);
    var b4 := b3.(futures := map[id := Resolved(output, true)], log := b3.log + [Expired(id)]);
    var b5 := b4.(pending := map[], log := b4.log + [Returned(id, text)]);
    FirstSteps(c);
    LastSteps(b2, c, output);
    var ops := [Submit(c), Poll, Complete(id, output), Expire(id), Resume(id)];
    NoSteps(b5);
    assert ops[5..] == [] && ops[0..] == ops;
    RunFrom(b4, ops, 4);
    RunFrom(b3, ops, 3);
    RunFrom(b2, ops, 2);
    RunFrom(b1, ops, 1);
    RunFrom(EMPTY, ops, 0);
  }

  lemma FirstSteps(c: Command)
    ensures var b1 := Bridge([c], map[c.id := c], map[c.id := Waiting], [Submitted(c.id, c.timeout)]);
            && Enabled(EMPTY, Submit(c)) && Step(EMPTY, Submit(c)) == b1
            && Enabled(b1, Poll) && Step(b1, Poll) == b1.(queue := [], log := b1.log + [Polled(c.id)])
  {
  }

  lemma LastSteps(b2: Bridge, c: Command, output: string)
    requires b2.pending == map[c.id := c] && b2.futures == map[c.id := Waiting]
    ensures var id, text := c.id, TimeoutMessage(c.timeout);
            var b3 := b2.(futures := map[id := Resolved(output, false)], log := b2.log + [Accepted(id, output)]);
            var b4 := b3.(futures := map[id := Resolved(output, true)], log := b3.log + [Expired(id)]);
            && Enabled(b2, Complete(id, output)) && Step(b2, Complete(id, output)) == b3
            && Enabled(b3, Expire(id)) && Step(b3, Expire(id)) == b4
            && Enabled(b4, Resume(id))
            && Step(b4, Resume(id)) == b4.(pending := map[], log := b4.log + [Returned(id, text)])
  {
    hide TimeoutMessage;
  }

  lemma NoSteps(b: Bridge)
    ensures CanRun(b, []) && Run(b, []) == b
  {
  }

  lemma RunFrom(b: Bridge, ops: seq<Op>, i: nat)
    requires i < |ops| && Enabled(b, ops[i]) && CanRun(Step(b, ops[i]), ops[i + 1..])
    ensures CanRun(b, ops[i..]) && Run(b, ops[i..]) == Run(Step(b, ops[i]), ops[i + 1..])
  {
    hide Step, Enabled;
    assert ops[i..][1..] == ops[i + 1..];
  }

  lemma NothingLogged(id: string)
    ensures AcceptedFor([], id) == [] && ReturnedFor([], id) == []
  {
  }

  /** Which command an operation is about. */
  predicate Concerns(b: Bridge, op: Op, id: string) {
    match op
    case Submit(c) => c.id == id
    case Poll => b.queue != [] && b.queue[0].id == id
    case _ => op.id == id
  }

  /** No operation affects any submitter but its own: another id keeps its future, its
      pending entry and its history. */
  lemma OthersUntouched(b: Bridge, op: Op, id: string)
    requires Enabled(b, op) && !Concerns(b, op, id)
    ensures var c := Step(b, op);
            && (id in c.futures <==> id in b.futures) && (id in b.futures ==> c.futures[id] == b.futures[id])
            && (id in c.pending <==> id in b.pending) && (id in b.pending ==> c.pending[id] == b.pending[id])
            && AcceptedFor(c.log, id) == AcceptedFor(b.log, id) && ReturnedFor(c.log, id) == ReturnedFor(b.log, id)
  {
    hide SubmittedIds, PolledIds, AcceptedFor, ReturnedFor, TimeoutMessage;
    var c := Step(b, op);
    if c.log != b.log {
      assert c.log == b.log + [c.log[|b.log|]];
      Logged(b.log, c.log[|b.log|], id);
    }
  }
}
