/**
 The fetch, execute, report loop (Flush in internal/controlplane/outbox.go and
 internal/controlplane/poller.go).

 Control, the executor, the disk and the clock are unknown functions of a tick
 that every call advances, so a proof covers whatever they do. What the loop
 does is recorded in a trace, and `Observe` is the protocol the trace must keep.
 */
module Poller {
  import opened Wrappers
  import D = Durable
  import O = Outbox
  import StoreFile
  import Strings

  /** `reset` says that the command is a system reset. */
  datatype Command = Command(id: string, leaseToken: string, reset: bool)

  datatype Execution = Execution(status: string, output: string, error: Option<string>)

  datatype Answer = Accepted | LeaseRejected | Unreachable

  datatype Event =
    | Fetched(batch: seq<Command>)
    | FetchFailed
    | Executed(command: Command, execution: Execution)
    | Cleared
    | Queued(result: O.Pending, stored: bool)
    | Reported(result: O.Pending, answer: Answer)

  /** What Control is owed for an execution. */
  function ResultFor(command: Command, execution: Execution, createdAt: int): O.Pending {
    match execution.error
    case Some(error) => O.Pending(command.id, command.leaseToken, "failed", execution.output, error, createdAt)
    case None => O.Pending(command.id, command.leaseToken, execution.status, execution.output, "", createdAt)
  }

  // ---------- The protocol ----------

  /** A command between its start and its result; `cleared` says whether the outbox was reset for it. */
  datatype Run = Run(command: Command, execution: Execution, cleared: bool)

  /** `unsettled` holds the stored results that Control has neither accepted nor fenced; `batch[..done]` is executed. */
  datatype Progress = Progress(unsettled: O.Backlog, running: Option<Run>, batch: seq<Command>, done: nat,
                               stopped: bool)

  const START := Progress(map[], None, [], 0, true)

  /** A successful system reset, and nothing else, clears the outbox. */
  predicate Clears(run: Run) {
    run.command.reset && run.execution.error == None
  }

  /** None: the protocol forbids the event here. */
  function Next(p: Progress, e: Event): Option<Progress> {
    match e
    case Fetched(batch) =>
      if p.running == None && p.unsettled == map[] then Some(Progress(map[], None, batch, 0, false)) else None
    case FetchFailed =>
      if p.running == None && p.unsettled == map[] then Some(START) else None
    case Executed(command, execution) =>
      if p.running == None && p.unsettled == map[] && !p.stopped && p.done < |p.batch| && p.batch[p.done] == command
      then Some(p.(running := Some(Run(command, execution, false)), done := p.done + 1)) else None
    case Cleared =>
      if p.running.Some? && Clears(p.running.value) && !p.running.value.cleared
      then Some(p.(running := Some(p.running.value.(cleared := true)))) else None
    case Queued(result, stored) =>
      if p.running == None || p.running.value.cleared != Clears(p.running.value)
         || result != ResultFor(p.running.value.command, p.running.value.execution, result.createdAt) then None
      else Some(p.(running := None, stopped := p.stopped || !stored,
                   unsettled := if stored then p.unsettled[result.commandID := result] else p.unsettled))
    case Reported(result, answer) =>
      if p.running.Some? || (result.commandID in p.unsettled && p.unsettled[result.commandID] != result) then None
      else Some(p.(unsettled := if answer.Unreachable? then p.unsettled else Without(p.unsettled, result.commandID)))
  }

  function Observe(trace: seq<Event>): Option<Progress> {
    if trace == [] then Some(START)
    else
      match Observe(trace[..|trace| - 1])
      case None => None
      case Some(p) => Next(p, trace[|trace| - 1])
  }

  lemma ObserveNext(trace: seq<Event>, e: Event)
    requires Observe(trace).Some?
    ensures Observe(trace + [e]) == Next(Observe(trace).value, e)
  {
    assert (trace + [e])[..|trace|] == trace;
  }

  lemma {:induction false} PrefixIsObserved(trace: seq<Event>, n: nat)
    requires n <= |trace| && Observe(trace).Some?
    ensures Observe(trace[..n]).Some?
    ensures n < |trace| ==> Next(Observe(trace[..n]).value, trace[n]) == Observe(trace[..n + 1])
    decreases |trace| - n
  {
    if n < |trace| {
      PrefixIsObserved(trace, n + 1);
      assert trace[..n + 1][..n] == trace[..n];
    } else {
      assert trace[..n] == trace;
    }
  }

  // ---------- What the protocol means ----------

  predicate Settles(e: Event, id: string) {
    e.Reported? && e.result.commandID == id && !e.answer.Unreachable?
  }

  /** The result for `id` holds up the loop: it is unsettled, or with `started` its command is not reported yet. */
  predicate Blocked(p: Progress, id: string, started: bool) {
    id in p.unsettled || (started && ((p.running.Some? && p.running.value.command.id == id) || p.stopped))
  }

  lemma BlockedStays(p: Progress, e: Event, id: string, started: bool)
    requires Blocked(p, id, started) && Next(p, e).Some? && !Settles(e, id) && (started ==> !e.Fetched?)
    ensures Blocked(Next(p, e).value, id, started)
    ensures !e.Executed? && !e.Fetched?
  {
  }

  lemma {:induction false} BlockedUntilSettled(trace: seq<Event>, i: nat, n: nat, id: string)
    requires Observe(trace).Some? && i < n <= |trace|
    requires (trace[i].Queued? && trace[i].stored && trace[i].result.commandID == id)
             || (trace[i].Executed? && trace[i].command.id == id)
    requires forall k | i < k < n :: !Settles(trace[k], id) && (trace[i].Executed? ==> !trace[k].Fetched?)
    ensures Observe(trace[..n]).Some? && Blocked(Observe(trace[..n]).value, id, trace[i].Executed?)
    decreases n
  {
    PrefixIsObserved(trace, n - 1);
    PrefixIsObserved(trace, n);
    if i < n - 1 {
      BlockedUntilSettled(trace, i, n - 1, id);
      BlockedStays(Observe(trace[..n - 1]).value, trace[n - 1], id, trace[i].Executed?);
    }
  }

  /** A pass fetches, and a command starts, only after every stored result was accepted or lease-rejected. */
  lemma SettledBeforeGoingOn(trace: seq<Event>, i: nat, j: nat)
    requires Observe(trace).Some? && i < j < |trace|
    requires trace[i].Queued? && trace[i].stored && (trace[j].Fetched? || trace[j].Executed?)
    ensures exists k | i < k < j :: Settles(trace[k], trace[i].result.commandID)
  {
    if forall k | i < k < j :: !Settles(trace[k], trace[i].result.commandID) {
      BlockedUntilSettled(trace, i, j, trace[i].result.commandID);
      PrefixIsObserved(trace, j);
    }
  }

  /** Of two commands of one batch, the earlier had its result accepted or lease-rejected before the later started. */
  lemma SettledBeforeNextCommand(trace: seq<Event>, i: nat, j: nat)
    requires Observe(trace).Some? && i < j < |trace|
    requires trace[i].Executed? && trace[j].Executed? && forall k | i < k < j :: !trace[k].Fetched?
    ensures exists k | i < k < j :: Settles(trace[k], trace[i].command.id)
  {
    if forall k | i < k < j :: !Settles(trace[k], trace[i].command.id) {
      BlockedUntilSettled(trace, i, j, trace[i].command.id);
      PrefixIsObserved(trace, j);
    }
  }

  function ExecutedSinceFetch(trace: seq<Event>): seq<Command> {
    if trace == [] then []
    else
      match trace[|trace| - 1]
      case Fetched(_) => []
      case FetchFailed => []
      case Executed(command, _) => ExecutedSinceFetch(trace[..|trace| - 1]) + [command]
      case _ => ExecutedSinceFetch(trace[..|trace| - 1])
  }

  function LastBatch(trace: seq<Event>): seq<Command> {
    if trace == [] then []
    else
      match trace[|trace| - 1]
      case Fetched(batch) => batch
      case FetchFailed => []
      case _ => LastBatch(trace[..|trace| - 1])
  }

  /** What has been executed since the last fetch is a prefix of what it brought, in order. */
  lemma {:induction false} ExecutesAPrefix(trace: seq<Event>)
    requires Observe(trace).Some?
    ensures ExecutedSinceFetch(trace) <= LastBatch(trace)
    ensures var p := Observe(trace).value;
            p.batch == LastBatch(trace) && p.done <= |p.batch| && ExecutedSinceFetch(trace) == p.batch[..p.done]
    decreases |trace|
  {
    if trace != [] {
      ExecutesAPrefix(trace[..|trace| - 1]);
    }
  }

  lemma {:induction false} RunningWasExecuted(trace: seq<Event>)
    requires Observe(trace).Some? && Observe(trace).value.running.Some?
    ensures var run := Observe(trace).value.running.value;
            exists i | 0 <= i < |trace| :: trace[i] == Executed(run.command, run.execution)
    decreases |trace|
  {
    var front, e := trace[..|trace| - 1], trace[|trace| - 1];
    if e.Executed? {
      assert trace[|front|] == e;
    } else {
      RunningWasExecuted(front);
      var run := Observe(front).value.running.value;
      var i :| 0 <= i < |front| && front[i] == Executed(run.command, run.execution);
      assert trace[i] == front[i];
    }
  }

  lemma StepAt(trace: seq<Event>, j: nat)
    requires Observe(trace).Some? && j < |trace|
    ensures Observe(trace[..j]).Some? && Observe(trace[..j + 1]).Some?
    ensures Next(Observe(trace[..j]).value, trace[j]) == Some(Observe(trace[..j + 1]).value)
  {
    hide Observe, Next;
    PrefixIsObserved(trace, j);
    PrefixIsObserved(trace, j + 1);
  }

  /** What is put into the outbox speaks of a command that was executed: its id and lease, its output, and either its
      status and no error, or "failed" and the error it ended with. */
  lemma QueuedIsWhatWasExecuted(trace: seq<Event>, j: nat)
    requires Observe(trace).Some? && j < |trace| && trace[j].Queued?
    ensures exists i | 0 <= i < j ::
              trace[i].Executed? && TellsOf(trace[j].result, trace[i].command, trace[i].execution)
  {
    StepAt(trace, j);
    hide Observe, TellsOf, Next;
    QueuedTells(Observe(trace[..j]).value, trace[j]);
    var run := Observe(trace[..j]).value.running.value;
    RunningWasExecuted(trace[..j]);
    var i :| 0 <= i < j && trace[..j][i] == Executed(run.command, run.execution);
    assert trace[i] == Executed(run.command, run.execution);
  }

  lemma QueuedTells(p: Progress, e: Event)
    requires e.Queued? && Next(p, e).Some?
    ensures p.running.Some? && TellsOf(e.result, p.running.value.command, p.running.value.execution)
  {
  }

  predicate TellsOf(result: O.Pending, command: Command, execution: Execution) {
    && result.commandID == command.id && result.leaseToken == command.leaseToken
    && result.output == execution.output
    && (execution.error == None ==> result.status == execution.status && result.error == "")
    && (execution.error != None ==> result.status == "failed" && result.error == execution.error.value)
  }

  /** The outbox is cleared straight after a system reset that succeeded, and at no other time. */
  lemma ClearedIffReset(trace: seq<Event>, j: nat)
    requires Observe(trace).Some? && j < |trace|
    ensures trace[j].Cleared? ==> 0 < j && trace[j - 1].Executed?
    ensures 0 < j && trace[j - 1].Executed? ==>
              (trace[j].Cleared? <==> trace[j - 1].command.reset && trace[j - 1].execution.error == None)
  {
    StepAt(trace, j);
    hide Observe, Next, Clears;
    if trace[j].Cleared? {
      ClearsFresh(Observe(trace[..j]).value, trace[j]);
      UnclearedIsFresh(trace[..j]);
    }
    if 0 < j && trace[j - 1].Executed? {
      StepAt(trace, j - 1);
      AfterExecution(Observe(trace[..j - 1]).value, trace[j - 1], trace[j]);
    }
  }

  lemma ClearsFresh(p: Progress, e: Event)
    requires e.Cleared? && Next(p, e).Some?
    ensures p.running.Some? && Clears(p.running.value) && !p.running.value.cleared
  {
  }

  lemma AfterExecution(p: Progress, e: Event, next: Event)
    requires e.Executed? && Next(p, e).Some? && Next(Next(p, e).value, next).Some?
    ensures next.Cleared? <==> e.command.reset && e.execution.error == None
  {
  }

  /** A run for which the outbox is not cleared yet, though it is to be, has only just been executed. */
  lemma UnclearedIsFresh(trace: seq<Event>)
    requires Observe(trace).Some? && Observe(trace).value.running.Some?
    requires Clears(Observe(trace).value.running.value) && !Observe(trace).value.running.value.cleared
    ensures trace != [] && trace[|trace| - 1].Executed?
  {
  }

  // ---------- The outbox behind the protocol ----------

  /** Every unsettled result is in memory, in the file and in every state a crash may leave. */
  ghost predicate Secured(unsettled: O.Backlog, b: O.Box) {
    forall id <- unsettled :: unsettled[id].commandID == id && O.Holds(b, unsettled[id])
  }

  ghost predicate Keeps(trace: seq<Event>, b: O.Box) {
    Observe(trace).Some? && Observe(trace).value.running == None && Secured(Observe(trace).value.unsettled, b)
  }

  lemma DeleteKeepsSecured(unsettled: O.Backlog, b: O.Box, id: string, outcome: D.Outcome)
    requires Secured(unsettled, b) && id !in unsettled
    ensures Secured(unsettled, O.AfterDelete(b, id, outcome))
  {
    forall other | other in unsettled ensures O.Holds(O.AfterDelete(b, id, outcome), unsettled[other]) {
      if id in b.memory {
        O.WriteHolds(b, Without(b.memory, id), outcome, unsettled[other]);
      }
    }
  }

  lemma PutSecures(c: StoreFile.Codec<O.Backlog>, l: O.Limits, b: O.Box, r: O.Pending, outcome: D.Outcome)
    requires O.PutReplyFor(c, l, b, r, outcome).Stored?
    ensures Secured(map[r.commandID := r], O.AfterPut(c, l, b, r, outcome))
  {
    O.WriteHolds(b, b.memory[r.commandID := r], outcome, r);
  }

  // ---------- The loop ----------

  class World {
    const answers: nat -> Answer
    const fetches: nat -> Option<seq<Command>>
    const executions: nat -> Execution
    const weather: nat -> D.Weather
    const clock: nat -> int
    var tick: nat
    ghost var trace: seq<Event>

    constructor (answers: nat -> Answer, fetches: nat -> Option<seq<Command>>, executions: nat -> Execution,
                 weather: nat -> D.Weather, clock: nat -> int)
      ensures trace == []
    {
      this.answers, this.fetches, this.executions := answers, fetches, executions;
      this.weather, this.clock, this.tick, this.trace := weather, clock, 0, [];
    }

    method Report(result: O.Pending) returns (answer: Answer)
      modifies this
      ensures trace == old(trace) + [Reported(result, answer)]
      ensures answer == answers(old(tick)) && tick == old(tick) + 1
    {
      answer := answers(tick);
      tick, trace := tick + 1, trace + [Reported(result, answer)];
    }

    method Fetch() returns (batch: Option<seq<Command>>)
      modifies this
      ensures trace == old(trace) + [if batch.Some? then Fetched(batch.value) else FetchFailed]
      ensures batch == fetches(old(tick))
    {
      batch := fetches(tick);
      tick, trace := tick + 1, trace + [if batch.Some? then Fetched(batch.value) else FetchFailed];
    }

    method Execute(command: Command) returns (execution: Execution)
      modifies this
      ensures trace == old(trace) + [Executed(command, execution)]
      ensures execution == executions(old(tick))
    {
      execution := executions(tick);
      tick, trace := tick + 1, trace + [Executed(command, execution)];
    }
  }

  function Reports(list: seq<O.Pending>, answers: seq<Answer>): (events: seq<Event>)
    requires |answers| <= |list|
    ensures |events| == |answers|
  {
    seq(|answers|, i requires 0 <= i < |answers| => Reported(list[i], answers[i]))
  }

  function AcceptedIn(answers: seq<Answer>): nat {
    if answers == [] then 0
    else AcceptedIn(answers[..|answers| - 1]) + if answers[|answers| - 1].Accepted? then 1 else 0
  }

  /** How far a drain got: all entries before the last answered one are settled, those after it untouched. */
  ghost predicate Drained(list: seq<O.Pending>, answers: seq<Answer>, pending: O.Backlog, ok: bool) {
    && |answers| <= |list|
    && (forall i | 0 <= i < |answers| - 1 :: !answers[i].Unreachable?)
    && (forall i | |answers| <= i < |list| :: O.HeldIn(pending, list[i]))
    && (forall i | 0 <= i < |answers| && answers[i].Accepted? && (ok || i < |answers| - 1) ::
          list[i].commandID !in pending)
    && (ok ==> |answers| == |list| && Unreachable !in answers)
    && (!ok ==> answers != [] && !answers[|answers| - 1].LeaseRejected? && O.HeldIn(pending, list[|answers| - 1]))
  }

  // ---------- Why a pass stops, and when it cannot ----------

  /** The last thing done was a fetch that failed, a result that was not stored, or a report after which the result is
      still in the outbox: Control did not answer, or the deletion failed. */
  ghost predicate StoppedBy(trace: seq<Event>, pending: O.Backlog) {
    && trace != []
    && match trace[|trace| - 1]
       case FetchFailed => true
       case Queued(_, stored) => !stored
       case Reported(result, answer) => !answer.LeaseRejected? && O.HeldIn(pending, result)
       case _ => false
  }

  function ExecutionsIn(trace: seq<Event>): nat {
    if trace == [] then 0
    else ExecutionsIn(trace[..|trace| - 1]) + if trace[|trace| - 1].Executed? then 1 else 0
  }

  /** What each successful fetch brought. */
  function Batches(trace: seq<Event>): seq<seq<Command>> {
    if trace == [] then []
    else
      Batches(trace[..|trace| - 1])
      + if trace[|trace| - 1].Fetched? then [trace[|trace| - 1].batch] else []
  }

  lemma CountOne(trace: seq<Event>, e: Event)
    ensures ExecutionsIn(trace + [e]) == ExecutionsIn(trace) + if e.Executed? then 1 else 0
    ensures Batches(trace + [e]) == Batches(trace) + if e.Fetched? then [e.batch] else []
  {
    assert (trace + [e])[..|trace|] == trace;
  }

  lemma {:induction false} ReportsCountForNothing(trace: seq<Event>, list: seq<O.Pending>, answers: seq<Answer>)
    requires |answers| <= |list|
    ensures ExecutionsIn(trace + Reports(list, answers)) == ExecutionsIn(trace)
    ensures Batches(trace + Reports(list, answers)) == Batches(trace)
  {
    if answers == [] {
      assert trace + Reports(list, answers) == trace;
    } else {
      var front := answers[..|answers| - 1];
      ReportsCountForNothing(trace, list, front);
      ReportsOne(list, front, answers[|answers| - 1]);
      assert front + [answers[|answers| - 1]] == answers;
      var last := Reported(list[|front|], answers[|front|]);
      assert trace + Reports(list, answers) == (trace + Reports(list, front)) + [last];
      CountOne(trace + Reports(list, front), last);
    }
  }

  /** Nothing fails: no call on the disk, no request to Control, and one result fits the outbox by itself. */
  ghost predicate Serene(world: World, outbox: O.FileOutbox)
    reads outbox, outbox.fs
  {
    && (forall t: nat :: D.Untroubled(world.weather(t)))
    && (forall t: nat :: world.answers(t) != Unreachable && world.fetches(t).Some?)
    && (forall m: O.Backlog | |m| <= 1 :: O.Fits(outbox.codec, outbox.limits, m))
    && D.FIXED !in outbox.fs.disk.dir
  }

  /** Reports one result and, once Control has answered, deletes it. */
  method ReportOne(world: World, outbox: O.FileOutbox, result: O.Pending) returns (answer: Answer, gone: bool)
    requires outbox.Valid() && Keeps(world.trace, outbox.State()) && O.HeldIn(outbox.pending, result)
    modifies world, outbox, outbox.fs
    ensures outbox.Valid() && Keeps(world.trace, outbox.State())
    ensures world.trace == old(world.trace) + [Reported(result, answer)]
    ensures Next(Observe(old(world.trace)).value, Reported(result, answer)) == Observe(world.trace)
    ensures answer.Unreachable? ==> !gone
    ensures old(Serene(world, outbox)) ==> Serene(world, outbox) && !answer.Unreachable? && gone
    ensures outbox.pending == if gone then Without(old(outbox.pending), result.commandID) else old(outbox.pending)
  {
    answer := world.Report(result);
    ObserveNext(old(world.trace), Reported(result, answer));
    if answer == Unreachable {
      return answer, false;
    }
    ghost var box := outbox.State();
    ghost var outcome := D.ExpectedOutcome(outbox.fs.disk, world.weather(world.tick));
    gone := outbox.Delete(result.commandID, world.weather(world.tick));
    DeleteKeepsSecured(Observe(world.trace).value.unsettled, box, result.commandID, outcome);
    world.tick := world.tick + 1;
  }

  ghost predicate Distinct(list: seq<O.Pending>) {
    forall i, j | 0 <= i < j < |list| :: list[i].commandID != list[j].commandID
  }

  lemma ListIsDistinct(list: seq<O.Pending>, m: O.Backlog)
    requires O.Lists(list, m)
    ensures Distinct(list)
  {
    var ids := O.Ids(list);
    forall i, j | 0 <= i < j < |list| ensures list[i].commandID != list[j].commandID {
      assert Strings.Below(ids[i], ids[j]);
      Strings.BelowIsTotal(ids[i], ids[j]);
    }
  }

  /** Every unsettled result is among the entries still to be reported. */
  ghost predicate StillListed(unsettled: O.Backlog, list: seq<O.Pending>, from: nat) {
    forall id <- unsettled :: exists k :: from <= k < |list| && list[k].commandID == id
  }

  lemma EverythingIsListed(unsettled: O.Backlog, list: seq<O.Pending>, b: O.Box)
    requires O.Lists(list, b.memory) && Secured(unsettled, b)
    ensures StillListed(unsettled, list, 0)
  {
    forall id | id in unsettled ensures exists k :: 0 <= k < |list| && list[k].commandID == id {
      assert id in O.Ids(list);
      var k :| 0 <= k < |list| && O.Ids(list)[k] == id;
      assert list[k].commandID == id;
    }
  }

  lemma ListedAfter(unsettled: O.Backlog, list: seq<O.Pending>, i: nat)
    requires StillListed(unsettled, list, i) && i < |list|
    ensures StillListed(Without(unsettled, list[i].commandID), list, i + 1)
  {
    forall id | id in Without(unsettled, list[i].commandID)
      ensures exists k :: i + 1 <= k < |list| && list[k].commandID == id
    {
      var k :| i <= k < |list| && list[k].commandID == id;
    }
  }

  /**
   Splits the pending entries, in command-id order, into accepted, lease-rejected and an untouched
   suffix that is empty when it succeeds. An accepted entry leaves the outbox; a lease-rejected one
   may stay, since the error of its deletion is ignored.
   */
  method Flush(world: World, outbox: O.FileOutbox)
    returns (drained: nat, ok: bool, ghost list: seq<O.Pending>, ghost answers: seq<Answer>)
    requires outbox.Valid() && Keeps(world.trace, outbox.State())
    modifies world, outbox, outbox.fs
    ensures outbox.Valid() && Keeps(world.trace, outbox.State())
    ensures O.Lists(list, old(outbox.pending)) && Drained(list, answers, outbox.pending, ok)
    ensures Within(outbox.pending, old(outbox.pending))
    ensures world.trace == old(world.trace) + Reports(list, answers)
    ensures drained == if ok || answers[|answers| - 1].Unreachable? then AcceptedIn(answers)
                       else AcceptedIn(answers) - 1
    ensures ok ==> Observe(world.trace).value == Observe(old(world.trace)).value.(unsettled := map[])
    ensures !ok ==> StoppedBy(world.trace, outbox.pending)
    ensures ExecutionsIn(world.trace) == ExecutionsIn(old(world.trace))
    ensures Batches(world.trace) == Batches(old(world.trace))
    ensures old(Serene(world, outbox)) ==> Serene(world, outbox) && ok && outbox.pending == map[]
  {
    hide At, Draining, Drained, Within, O.Lists, Secured, Next, Serene, StoppedBy, ExecutionsIn, Batches;
    var entries := outbox.List();
    list, answers := entries, [];
    drained := 0;
    var i := 0;
    DrainStarts(list, outbox.State(), world.trace);
    while i < |entries|
      invariant 0 <= i == |answers| <= |entries| && list == entries
      invariant outbox.Valid() && Keeps(world.trace, outbox.State())
      invariant At(list, answers, old(outbox.pending), outbox.pending, old(world.trace), world.trace)
      invariant drained == AcceptedIn(answers)
      invariant old(Serene(world, outbox)) ==> Serene(world, outbox) && NoneOf(entries[..i], outbox.pending)
    {
      ghost var pending, trace := outbox.pending, world.trace;
      NextIsHeld(list, answers, old(outbox.pending), pending, old(world.trace), trace);
      var answer, gone := ReportOne(world, outbox, entries[i]);
      DrainOne(list, answers, old(outbox.pending), pending, old(world.trace), trace, answer, gone);
      AcceptedOne(answers, answer);
      answers := answers + [answer];
      NoneOfMore(entries, i, pending, outbox.pending);
      if answer == Unreachable || (answer == Accepted && !gone) {
        DrainStops(list, answers, outbox.pending, old(world.trace));
        return drained, false, list, answers;
      }
      if answer == Accepted {
        drained := drained + 1;
      }
      i := i + 1;
    }
    DrainEnds(list, answers, old(outbox.pending), outbox.pending, old(world.trace), world.trace);
    ReportsCountForNothing(old(world.trace), list, answers);
    assert entries[..i] == list;
    NoneLeft(list, old(outbox.pending), outbox.pending);
    ok := true;
  }

  ghost predicate NoneOf(list: seq<O.Pending>, pending: O.Backlog) {
    forall k | 0 <= k < |list| :: list[k].commandID !in pending
  }

  lemma NoneOfMore(list: seq<O.Pending>, i: nat, pending: O.Backlog, pending': O.Backlog)
    requires i < |list|
    ensures NoneOf(list[..i], pending) && pending' == Without(pending, list[i].commandID) ==>
              NoneOf(list[..i + 1], pending')
  {
    assert list[..i + 1] == list[..i] + [list[i]];
  }

  lemma NoneLeft(list: seq<O.Pending>, was: O.Backlog, pending: O.Backlog)
    requires O.Lists(list, was) && Within(pending, was)
    ensures NoneOf(list, pending) ==> pending == map[]
  {
    forall id | id in pending ensures exists k :: 0 <= k < |list| && list[k].commandID == id {
      assert id in O.Ids(list);
      var k :| 0 <= k < |list| && O.Ids(list)[k] == id;
      assert list[k].commandID == id;
    }
  }

  lemma DrainStops(list: seq<O.Pending>, answers: seq<Answer>, pending: O.Backlog, trace0: seq<Event>)
    requires Drained(list, answers, pending, false)
    ensures StoppedBy(trace0 + Reports(list, answers), pending)
    ensures ExecutionsIn(trace0 + Reports(list, answers)) == ExecutionsIn(trace0)
    ensures Batches(trace0 + Reports(list, answers)) == Batches(trace0)
  {
    ReportsCountForNothing(trace0, list, answers);
    var trace := trace0 + Reports(list, answers);
    assert trace[|trace| - 1] == Reports(list, answers)[|answers| - 1];
  }

  ghost predicate Within(pending: O.Backlog, was: O.Backlog) {
    forall id <- pending :: id in was && pending[id] == was[id]
  }

  /** Entry `k` was answered or is still there, as its answer demands. */
  ghost predicate Handled(list: seq<O.Pending>, answers: seq<Answer>, pending: O.Backlog, k: nat)
    requires |answers| <= |list|
  {
    if k < |answers| then !answers[k].Unreachable? && (answers[k].Accepted? ==> list[k].commandID !in pending)
    else k < |list| ==> O.HeldIn(pending, list[k])
  }

  ghost predicate Draining(list: seq<O.Pending>, answers: seq<Answer>, pending: O.Backlog) {
    |answers| <= |list| && forall k | 0 <= k < |list| :: Handled(list, answers, pending, k)
  }

  lemma RemoveOne(list: seq<O.Pending>, answers: seq<Answer>, pending: O.Backlog, answer: Answer, pending': O.Backlog)
    requires Draining(list, answers, pending) && |answers| < |list| && Distinct(list)
    requires pending' == Without(pending, list[|answers|].commandID) || pending' == pending
    ensures forall k: nat | k < |list| && k != |answers| :: Handled(list, answers + [answer], pending', k)
  {
    var i := |answers|;
    forall k: nat | k < |list| && k != i ensures Handled(list, answers + [answer], pending', k) {
      assert Handled(list, answers, pending, k);
      assert list[k].commandID != list[i].commandID;
    }
  }

  lemma HandleOne(list: seq<O.Pending>, answers: seq<Answer>, pending: O.Backlog, answer: Answer, gone: bool)
    requires Draining(list, answers, pending) && |answers| < |list| && Distinct(list) && (answer.Unreachable? ==> !gone)
    ensures var pending' := if gone then Without(pending, list[|answers|].commandID) else pending;
            if answer.Unreachable? || (answer.Accepted? && !gone)
            then Drained(list, answers + [answer], pending', false)
            else Draining(list, answers + [answer], pending')
  {
    var i, answers' := |answers|, answers + [answer];
    var pending' := if gone then Without(pending, list[i].commandID) else pending;
    RemoveOne(list, answers, pending, answer, pending');
    assert Handled(list, answers, pending, i);
    if answer.Unreachable? || (answer.Accepted? && !gone) {
      forall k | 0 <= k < i
        ensures !answers'[k].Unreachable? && (answers'[k].Accepted? ==> list[k].commandID !in pending')
      {
        assert Handled(list, answers', pending', k);
      }
      forall k | i < k < |list| ensures O.HeldIn(pending', list[k]) {
        assert Handled(list, answers', pending', k);
      }
    } else {
      assert Handled(list, answers', pending', i);
    }
  }

  lemma DrainedAll(list: seq<O.Pending>, answers: seq<Answer>, pending: O.Backlog)
    requires Draining(list, answers, pending) && |answers| == |list|
    ensures Drained(list, answers, pending, true)
  {
    forall k | 0 <= k < |list|
      ensures !answers[k].Unreachable? && (answers[k].Accepted? ==> list[k].commandID !in pending)
    {
      assert Handled(list, answers, pending, k);
    }
  }

  lemma ReportsOne(list: seq<O.Pending>, answers: seq<Answer>, answer: Answer)
    requires |answers| < |list|
    ensures Reports(list, answers + [answer]) == Reports(list, answers) + [Reported(list[|answers|], answer)]
  {
    var longer := Reports(list, answers) + [Reported(list[|answers|], answer)];
    assert |Reports(list, answers + [answer])| == |longer|;
    forall k | 0 <= k < |longer| ensures Reports(list, answers + [answer])[k] == longer[k] {
      assert (answers + [answer])[k] == if k < |answers| then answers[k] else answer;
    }
  }

  /** What the protocol has seen of a drain after `answers`: only what is still unsettled has changed, and all of it is
      yet to be reported. */
  ghost predicate Reporting(list: seq<O.Pending>, answers: seq<Answer>, trace0: seq<Event>, trace: seq<Event>) {
    && |answers| <= |list| && trace == trace0 + Reports(list, answers)
    && Observe(trace0).Some? && Observe(trace).Some?
    && Observe(trace).value == Observe(trace0).value.(unsettled := Observe(trace).value.unsettled)
    && StillListed(Observe(trace).value.unsettled, list, |answers|)
  }

  /** The state of a drain after `answers`. */
  ghost predicate At(list: seq<O.Pending>, answers: seq<Answer>, was: O.Backlog, pending: O.Backlog,
                     trace0: seq<Event>, trace: seq<Event>) {
    && Distinct(list) && Draining(list, answers, pending) && Within(pending, was)
    && Reporting(list, answers, trace0, trace)
  }

  lemma ReportGoesOn(list: seq<O.Pending>, answers: seq<Answer>, trace0: seq<Event>, trace: seq<Event>, answer: Answer)
    requires Reporting(list, answers, trace0, trace) && |answers| < |list|
    requires Next(Observe(trace).value, Reported(list[|answers|], answer)).Some?
    ensures trace + [Reported(list[|answers|], answer)] == trace0 + Reports(list, answers + [answer])
    ensures !answer.Unreachable? ==>
              Reporting(list, answers + [answer], trace0, trace + [Reported(list[|answers|], answer)])
  {
    hide Reports, StillListed;
    ReportsOne(list, answers, answer);
    ListedAfter(Observe(trace).value.unsettled, list, |answers|);
    ObserveNext(trace, Reported(list[|answers|], answer));
  }

  lemma NextIsHeld(list: seq<O.Pending>, answers: seq<Answer>, was: O.Backlog, pending: O.Backlog,
                   trace0: seq<Event>, trace: seq<Event>)
    requires At(list, answers, was, pending, trace0, trace) && |answers| < |list|
    ensures O.HeldIn(pending, list[|answers|])
  {
    assert Handled(list, answers, pending, |answers|);
  }

  lemma DrainStarts(list: seq<O.Pending>, b: O.Box, trace: seq<Event>)
    requires O.Lists(list, b.memory) && Keeps(trace, b)
    ensures At(list, [], b.memory, b.memory, trace, trace)
  {
    ListIsDistinct(list, b.memory);
    EverythingIsListed(Observe(trace).value.unsettled, list, b);
    assert trace == trace + Reports(list, []);
  }

  lemma DrainOne(list: seq<O.Pending>, answers: seq<Answer>, was: O.Backlog, pending: O.Backlog,
                 trace0: seq<Event>, trace: seq<Event>, answer: Answer, gone: bool)
    requires At(list, answers, was, pending, trace0, trace) && |answers| < |list| && (answer.Unreachable? ==> !gone)
    requires Next(Observe(trace).value, Reported(list[|answers|], answer)).Some?
    ensures var pending' := if gone then Without(pending, list[|answers|].commandID) else pending;
            var trace' := trace + [Reported(list[|answers|], answer)];
            && Within(pending', was) && trace' == trace0 + Reports(list, answers + [answer])
            && if answer.Unreachable? || (answer.Accepted? && !gone)
               then Drained(list, answers + [answer], pending', false)
               else At(list, answers + [answer], was, pending', trace0, trace')
  {
    hide Distinct, Draining, Drained, Reporting, Next;
    HandleOne(list, answers, pending, answer, gone);
    ReportGoesOn(list, answers, trace0, trace, answer);
  }

  lemma DrainEnds(list: seq<O.Pending>, answers: seq<Answer>, was: O.Backlog, pending: O.Backlog,
                  trace0: seq<Event>, trace: seq<Event>)
    requires At(list, answers, was, pending, trace0, trace) && |answers| == |list|
    ensures Drained(list, answers, pending, true) && Within(pending, was) && trace == trace0 + Reports(list, answers)
    ensures Observe(trace).value == Observe(trace0).value.(unsettled := map[])
  {
    DrainedAll(list, answers, pending);
  }

  lemma AcceptedOne(answers: seq<Answer>, answer: Answer)
    ensures AcceptedIn(answers + [answer]) == AcceptedIn(answers) + if answer.Accepted? then 1 else 0
  {
    assert (answers + [answer])[..|answers|] == answers;
  }

  /** Executes one command and queues its result, after a successful system reset in a cleared outbox. */
  method ExecuteAndQueue(world: World, outbox: O.FileOutbox, command: Command) returns (stored: bool)
    requires outbox.Valid() && Keeps(world.trace, outbox.State())
    requires Ready(Observe(world.trace).value, command)
    modifies world, outbox, outbox.fs
    ensures outbox.Valid() && Keeps(world.trace, outbox.State())
    ensures old(world.trace) <= world.trace
    ensures stored ==> var p := Observe(old(world.trace)).value;
                       Observe(world.trace).value
                           == p.(done := p.done + 1, unsettled := Observe(world.trace).value.unsettled)
    ensures !stored ==> StoppedBy(world.trace, outbox.pending)
    ensures ExecutionsIn(world.trace) == ExecutionsIn(old(world.trace)) + 1
    ensures Batches(world.trace) == Batches(old(world.trace))
    ensures old(Serene(world, outbox)) && old(outbox.pending) == map[] ==> Serene(world, outbox) && stored
  {
    hide StoppedBy, ExecutionsIn, Batches;
    var execution := world.Execute(command);
    ObserveNext(old(world.trace), Executed(command, execution));
    CountOne(old(world.trace), Executed(command, execution));
    if command.reset && execution.error == None {
      var _ := outbox.Reset(world.weather(world.tick));
      ObserveNext(world.trace, Cleared);
      CountOne(world.trace, Cleared);
      world.tick, world.trace := world.tick + 1, world.trace + [Cleared];
    }
    var result := O.Pending(command.id, command.leaseToken,
                            if execution.error.Some? then "failed" else execution.status, execution.output,
                            if execution.error.Some? then execution.error.value else "", 0);
    stored := Queue(world, outbox, result);
  }

  predicate Ready(p: Progress, command: Command) {
    p.running == None && p.unsettled == map[] && !p.stopped && p.done < |p.batch| && p.batch[p.done] == command
  }

  method Queue(world: World, outbox: O.FileOutbox, result: O.Pending) returns (stored: bool)
    requires outbox.Valid() && Observe(world.trace).Some?
    requires var p := Observe(world.trace).value;
             && p.unsettled == map[] && p.running.Some? && p.running.value.cleared == Clears(p.running.value)
             && result == ResultFor(p.running.value.command, p.running.value.execution, 0)
    modifies world, outbox, outbox.fs
    ensures outbox.Valid() && Keeps(world.trace, outbox.State())
    ensures old(world.trace) <= world.trace
    ensures stored ==> var p := Observe(old(world.trace)).value;
                       Observe(world.trace).value
                           == p.(running := None, unsettled := Observe(world.trace).value.unsettled)
    ensures !stored ==> StoppedBy(world.trace, outbox.pending)
    ensures ExecutionsIn(world.trace) == ExecutionsIn(old(world.trace))
    ensures Batches(world.trace) == Batches(old(world.trace))
    ensures old(Serene(world, outbox)) && old(outbox.pending) == map[] ==> Serene(world, outbox) && stored
  {
    hide ExecutionsIn, Batches, O.Fits, O.Wrote, O.AfterPut, O.HeldIn, D.ExpectedOutcome;
    ghost var box := outbox.State();
    ghost var outcome := D.ExpectedOutcome(outbox.fs.disk, world.weather(world.tick));
    var now := world.clock(world.tick);
    SerenePutStores(world, outbox, O.Stamped(result, now), world.tick);
    var reply := outbox.Put(result, now, world.weather(world.tick));
    stored := reply.Stored?;
    ghost var stamped := O.Stamped(result, now);
    if stored {
      PutSecures(outbox.codec, outbox.limits, box, stamped, outcome);
    }
    ObserveNext(world.trace, Queued(stamped, stored));
    CountOne(world.trace, Queued(stamped, stored));
    world.tick, world.trace := world.tick + 1, world.trace + [Queued(stamped, stored)];
  }

  lemma SerenePutStores(world: World, outbox: O.FileOutbox, r: O.Pending, tick: nat)
    ensures Serene(world, outbox) && outbox.pending == map[] ==>
              O.PutReplyFor(outbox.codec, outbox.limits, outbox.State(), r,
                            D.ExpectedOutcome(outbox.fs.disk, world.weather(tick))).Stored?
  {
    if Serene(world, outbox) && outbox.pending == map[] {
      assert |outbox.pending[r.commandID := r]| == 1;
    }
  }

  method ExecuteAndReport(world: World, outbox: O.FileOutbox, command: Command) returns (ok: bool)
    requires outbox.Valid() && Keeps(world.trace, outbox.State())
    requires Ready(Observe(world.trace).value, command)
    modifies world, outbox, outbox.fs
    ensures outbox.Valid() && Keeps(world.trace, outbox.State())
    ensures old(world.trace) <= world.trace
    ensures ok ==> var p := Observe(old(world.trace)).value;
                   Observe(world.trace).value == p.(done := p.done + 1)
    ensures !ok ==> StoppedBy(world.trace, outbox.pending)
    ensures ExecutionsIn(world.trace) == ExecutionsIn(old(world.trace)) + 1
    ensures Batches(world.trace) == Batches(old(world.trace))
    ensures old(Serene(world, outbox)) && old(outbox.pending) == map[] ==>
              Serene(world, outbox) && ok && outbox.pending == map[]
  {
    hide StoppedBy, ExecutionsIn, Batches, Serene;
    var stored := ExecuteAndQueue(world, outbox, command);
    if !stored {
      return false;
    }
    var _, flushed, _, _ := Flush(world, outbox);
    return flushed;
  }

  /** One pass. Without an error everything fetched was executed and settled; with one, the last thing done says why:
      a flush that could not end, a fetch that failed, a result that was not stored. `executed` counts what was handed
      to the executor, `fetched` what the one fetch brought. If nothing fails there is no error. */
  method PollOnce(world: World, outbox: O.FileOutbox) returns (fetched: nat, executed: nat, ok: bool)
    requires outbox.Valid() && Keeps(world.trace, outbox.State())
    modifies world, outbox, outbox.fs
    ensures outbox.Valid() && Keeps(world.trace, outbox.State())
    ensures old(world.trace) <= world.trace && |old(world.trace)| < |world.trace|
    ensures executed <= fetched
    ensures ok ==> var p := Observe(world.trace).value;
                   p.unsettled == map[] && p.done == executed == fetched == |p.batch|
    ensures !ok ==> StoppedBy(world.trace, outbox.pending)
    ensures executed == ExecutionsIn(world.trace) - ExecutionsIn(old(world.trace))
    ensures var before, after := Batches(old(world.trace)), Batches(world.trace);
            if after == before then !ok && fetched == executed == 0
            else |after| == |before| + 1 && before <= after && |after[|before|]| == fetched && (ok || executed > 0)
    ensures old(Serene(world, outbox)) ==> Serene(world, outbox) && ok && outbox.pending == map[]
  {
    hide ExecutionsIn, Batches;
    var _, flushed, _, _ := Flush(world, outbox);
    if !flushed {
      return 0, 0, false;
    }
    ghost var trace0 := world.trace;
    var batch := world.Fetch();
    ObserveNext(trace0, if batch.Some? then Fetched(batch.value) else FetchFailed);
    CountOne(trace0, if batch.Some? then Fetched(batch.value) else FetchFailed);
    if batch == None {
      return 0, 0, false;
    }
    fetched, executed := |batch.value|, 0;
    while executed < |batch.value|
      invariant executed <= |batch.value| == fetched
      invariant outbox.Valid() && Keeps(world.trace, outbox.State())
      invariant old(world.trace) <= world.trace && |old(world.trace)| < |world.trace|
      invariant Observe(world.trace).value == Progress(map[], None, batch.value, executed, false)
      invariant executed == ExecutionsIn(world.trace) - ExecutionsIn(old(world.trace))
      invariant Batches(world.trace) == Batches(old(world.trace)) + [batch.value]
      invariant old(Serene(world, outbox)) ==> Serene(world, outbox) && outbox.pending == map[]
    {
      var command := batch.value[executed];
      executed := executed + 1;
      var reported := ExecuteAndReport(world, outbox, command);
      if !reported {
        return fetched, executed, false;
      }
    }
    ok := true;
  }

  /** The loop over any number of ticks keeps the protocol, whatever fails in between; if nothing fails every tick
      fetches once. */
  method Poll(world: World, outbox: O.FileOutbox, passes: nat)
    requires outbox.Valid() && Keeps(world.trace, outbox.State())
    modifies world, outbox, outbox.fs
    ensures old(world.trace) <= world.trace
    ensures outbox.Valid() && Keeps(world.trace, outbox.State())
    ensures old(Serene(world, outbox)) ==> |Batches(world.trace)| == |Batches(old(world.trace))| + passes
  {
    hide Serene, Batches;
    var i := 0;
    while i < passes
      invariant i <= passes && old(world.trace) <= world.trace
      invariant outbox.Valid() && Keeps(world.trace, outbox.State())
      invariant old(Serene(world, outbox)) ==>
          Serene(world, outbox) && |Batches(world.trace)| == |Batches(old(world.trace))| + i
    {
      var _, _, _ := PollOnce(world, outbox);
      i := i + 1;
    }
  }
}
