/**
 Idempotent execution (ExecuteContext and runWithTimeout in internal/command/executor.go,
 over the store of internal/command/file_store.go).

 The executor's mutex serialises whole executions, and a provisioner that is still
 unwinding never writes the store, so an execution is one step of a node. Between
 steps the process may be killed or the host may lose power.
 */
module Executor {
  import opened Wrappers
  import D = Durable
  import opened StoreFile
  import FS = FileStore
  import A = Admission
  import SiteResources

  datatype Command = Command(id: string, ctype: A.CommandType, key: string, valid: bool)

  /** Read-only queries should observe current state. Contrary to ADR-005 the admin-password type is not among them. */
  predicate ResultIsNotCached(t: A.CommandType) {
    match t
    case SiteFilesList | SiteFilesRead | SiteUsage | SiteLogsRead => true
    case SiteCronList | SiteBackupList | SiteBackupVerify => true
    case _ => false
  }

  /** How a dispatched command ends for its dispatcher. */
  datatype Fate = Finishes(result: FS.Result) | Fails | DeadlineFires | ParentCancelled

  /** The circumstances of one execution: the gates before dispatch, and what follows it. */
  datatype Attempt = Attempt(cancelled: bool, rateLimited: bool, admitted: bool, fate: Fate, now: int)

  datatype Reply =
    | Answered(result: FS.Result)       // nil error
    | Terminal(result: FS.Result)       // refused: an earlier run timed out
    | Rejected                          // refused before dispatch
    | Failed                            // dispatched, and reported as an error

  datatype Node = Node(store: FS.Mirror, timedOut: FS.Results, dispatched: seq<string>)

  datatype Setup = Setup(codec: Codec<FS.Results>, limits: FS.Limits)

  /** Of the named types, those whose results are kept are exactly those that change a site, and every command of such
      a type is fenced: what may be answered again from the record never overlaps another change of its site. */
  lemma KeptTypesAreFenced(t: A.CommandType, payload: A.Payload)
    requires !t.Other? && payload.Payload? && payload.siteID != ""
    requires SiteResources.Valid(SiteResources.WithDefaults(payload.resources))
    ensures A.Fenced(A.DemandOf(A.Command(t, payload))) <==> !ResultIsNotCached(t)
  {
  }

  // ---------- One execution ----------

  /** The checks of ExecuteContext in order; None lets the command through to its provisioner. */
  function Gate(n: Node, command: Command, at: Attempt): Option<Reply> {
    if at.cancelled || !command.valid || at.rateLimited then Some(Rejected)
    else if command.key in n.timedOut then Some(Terminal(n.timedOut[command.key]))
    else if command.key in n.store.memory && n.store.memory[command.key].timedOut then
      Some(Terminal(n.store.memory[command.key]))
    else if !ResultIsNotCached(command.ctype) && command.key in n.store.memory then
      Some(Answered(n.store.memory[command.key]))
    else if !at.admitted then Some(Rejected)
    else None
  }

  function TimeoutResult(command: Command): FS.Result {
    FS.Result(command.id, "failed", "command exceeded timeout", true, 0, false)
  }

  ghost function Execute(s: Setup, n: Node, command: Command, at: Attempt, outcome: D.Outcome): (Node, Reply) {
    match Gate(n, command, at)
    case Some(reply) => (n, reply)
    case None =>
      var started := n.(dispatched := n.dispatched + [command.key]);
      match at.fate
      case Fails => (started, Failed)
      case ParentCancelled => (started, Failed)
      case Finishes(result) =>
        if ResultIsNotCached(command.ctype) then (started, Answered(result))
        else
          var plan := FS.PlanFor(s.codec, s.limits, n.store.memory, command.key, FS.Stamped(result, at.now));
          (started.(store := FS.SaveMirror(n.store, plan, outcome)),
           if FS.SaveReply(plan, outcome).Saved? then Answered(result) else Failed)
      case DeadlineFires =>
        var plan := FS.PlanFor(s.codec, s.limits, n.store.memory, command.key,
                               FS.Stamped(TimeoutResult(command), at.now));
        (started.(store := FS.SaveMirror(n.store, plan, outcome),
                  timedOut := n.timedOut[command.key := TimeoutResult(command)]),
         Failed)
  }

  class Agent {
    const store: FS.Store
    var timedOut: FS.Results
    ghost var dispatched: seq<string>

    constructor (store: FS.Store)
      ensures this.store == store && timedOut == map[] && dispatched == []
    {
      this.store, timedOut, dispatched := store, map[], [];
    }

    ghost function State(): Node
      reads this, store
    {
      Node(store.State(), timedOut, dispatched)
    }

    method ExecuteContext(command: Command, at: Attempt, weather: D.Weather) returns (reply: Reply)
      requires store.Valid()
      modifies this, store, store.fs
      ensures store.Valid()
      ensures var outcome := D.ExpectedOutcome(old(store.fs.disk), weather);
              (State(), reply) == Execute(Setup(store.codec, store.limits), old(State()), command, at, outcome)
    {
      if at.cancelled || !command.valid || at.rateLimited {
        return Rejected;
      }
      if command.key in timedOut {
        return Terminal(timedOut[command.key]);
      }
      var persisted := store.Get(command.key);
      if persisted.Some? && persisted.value.timedOut {
        return Terminal(persisted.value);
      }
      var cacheResult := !ResultIsNotCached(command.ctype);
      if cacheResult && persisted.Some? {
        return Answered(persisted.value);
      }
      if !at.admitted {
        return Rejected;
      }
      dispatched := dispatched + [command.key];
      match at.fate
      case Fails => return Failed;
      case ParentCancelled => return Failed;
      case Finishes(result) =>
        if cacheResult {
          var saved := store.Save(command.key, result, at.now, weather);
          if !saved.Saved? {
            return Failed;
          }
        }
        return Answered(result);
      case DeadlineFires =>
        var _ := store.Save(command.key, TimeoutResult(command), at.now, weather);
        timedOut := timedOut[command.key := TimeoutResult(command)];
        return Failed;
    }
  }

  // ---------- Runs of a node ----------

  /**
   `Killed` restarts the process on what the file shows, `PowerLost` on what survived.
   A restart that cannot open its store does not serve, so such an event is not enabled.
   */
  datatype Event =
    | Ran(command: Command, at: Attempt, outcome: D.Outcome)
    | Killed(rewritten: bool)
    | PowerLost(survivor: FS.Results)

  ghost predicate Opens(s: Setup, results: FS.Results) {
    |FS.LiveKeys(results)| <= s.limits.maxEntries && |s.codec.encode(results)| <= s.limits.maxBytes
  }

  ghost function Step(s: Setup, n: Node, e: Event): Option<Node> {
    match e
    case Ran(command, at, outcome) => Some(Execute(s, n, command, at, outcome).0)
    case Killed(rewritten) =>
      var shown := n.store.file.visible;
      if !Opens(s, shown) then None
      else Some(Node(FS.Mirror(shown, if rewritten then Image(shown, {shown}) else n.store.file), map[], n.dispatched))
    case PowerLost(survivor) =>
      if survivor !in n.store.file.crash || !Opens(s, survivor) then None
      else Some(Node(FS.Mirror(survivor, Image(survivor, {survivor})), map[], n.dispatched))
  }

  ghost function After(s: Setup, n: Node, trace: seq<Event>): Option<Node> {
    if trace == [] then Some(n)
    else
      match After(s, n, trace[..|trace| - 1])
      case None => None
      case Some(before) => Step(s, before, trace[|trace| - 1])
  }

  /** A restart serves exactly if the store opens what the file shows or the power loss left. It starts on just that,
      remembers no deadline, and a file that it did not rewrite may still be lost as before. */
  lemma RestartServesIff(s: Setup, n: Node, e: Event)
    requires RoundTrips(s.codec) && !e.Ran?
    ensures var kept := if e.Killed? then n.store.file.visible else e.survivor;
            && (Step(s, n, e).Some?
                <==> (e.Killed? || kept in n.store.file.crash)
                     && FS.Opened(s.codec, s.limits, Some(s.codec.encode(kept))) == Some(kept))
            && (Step(s, n, e).Some? ==>
                  var n' := Step(s, n, e).value;
                  && n'.store.memory == n'.store.file.visible == kept
                  && n'.timedOut == map[] && n'.dispatched == n.dispatched
                  && (e == Killed(false) ==> n'.store.file == n.store.file)
                  && (e != Killed(false) ==> n'.store.file.crash == {kept}))
  {
  }

  /** The key was not handed to a provisioner between the two nodes. */
  ghost predicate NotDispatchedSince(n: Node, n': Node, key: string) {
    n.dispatched <= n'.dispatched && key !in n'.dispatched[|n.dispatched|..]
  }

  // ---------- At most once ----------

  /** The command reaches its provisioner exactly when every gate is open and nothing is recorded that stops it. */
  lemma DispatchIff(s: Setup, n: Node, command: Command, at: Attempt, outcome: D.Outcome)
    ensures Execute(s, n, command, at, outcome).0.dispatched == n.dispatched + [command.key]
            <==> && !at.cancelled && command.valid && !at.rateLimited && at.admitted
                 && command.key !in n.timedOut
                 && (command.key in n.store.memory ==>
                       ResultIsNotCached(command.ctype) && !n.store.memory[command.key].timedOut)
  {
  }

  /** A record for `key` in memory, on disk and in every state a crash may leave, which answers
      or refuses a command of a cached type, and with `anyType` a command of any type. */
  ghost predicate Sealed(n: Node, key: string, anyType: bool) {
    SealedIn(n.store, key, anyType)
  }

  ghost predicate SealedIn(m: FS.Mirror, key: string, anyType: bool) {
    && Seals(m.memory, key, anyType) && Seals(m.file.visible, key, anyType)
    && forall results <- m.file.crash :: Seals(results, key, anyType)
  }

  predicate Seals(results: FS.Results, key: string, anyType: bool) {
    key in results && (anyType ==> results[key].timedOut)
  }

  lemma WriteKeepsSeal(m: FS.Mirror, results: FS.Results, outcome: D.Outcome, key: string, anyType: bool)
    requires SealedIn(m, key, anyType) && Seals(results, key, anyType)
    ensures SealedIn(FS.Wrote(m, results, outcome), key, anyType)
  {
  }

  /** Commands that carry `key` are of a cached type, or the seal covers every type. */
  ghost predicate KeyIsCached(e: Event, key: string) {
    e.Ran? && e.command.key == key ==> !ResultIsNotCached(e.command.ctype)
  }

  lemma SealSurvivesExecution(s: Setup, n: Node, command: Command, at: Attempt, outcome: D.Outcome, key: string,
      anyType: bool)
    requires Sealed(n, key, anyType) && (anyType || command.key != key || !ResultIsNotCached(command.ctype))
    ensures Sealed(Execute(s, n, command, at, outcome).0, key, anyType)
    ensures NotDispatchedSince(n, Execute(s, n, command, at, outcome).0, key)
  {
    if command.key == key {
      SealedIsAnsweredOrRefused(s, n, command, at, outcome, anyType);
    } else if Gate(n, command, at) == None
           && (at.fate.DeadlineFires? || (at.fate.Finishes? && !ResultIsNotCached(command.ctype))) {
      var result := if at.fate.DeadlineFires? then TimeoutResult(command) else at.fate.result;
      var plan := FS.PlanFor(s.codec, s.limits, n.store.memory, command.key, FS.Stamped(result, at.now));
      if !plan.Drop? {
        assert plan.results[key] == n.store.memory[key];
        WriteKeepsSeal(n.store, plan.results, outcome, key, anyType);
      }
    }
  }

  lemma SealStep(s: Setup, n: Node, e: Event, key: string, anyType: bool, n': Node)
    requires Sealed(n, key, anyType) && (anyType || KeyIsCached(e, key))
    requires Step(s, n, e) == Some(n')
    ensures Sealed(n', key, anyType) && NotDispatchedSince(n, n', key)
  {
    if e.Ran? {
      SealSurvivesExecution(s, n, e.command, e.at, e.outcome, key, anyType);
    }
  }

  /** Once recorded, a key never reaches a provisioner again: not in this process, nor after any
      number of kills and power losses with a successful reopen. */
  lemma {:induction false} NeverAgainOnceSealed(s: Setup, n: Node, trace: seq<Event>, key: string, anyType: bool,
      n': Node)
    requires Sealed(n, key, anyType) && (anyType || forall e <- trace :: KeyIsCached(e, key))
    requires After(s, n, trace) == Some(n')
    ensures Sealed(n', key, anyType) && NotDispatchedSince(n, n', key)
    decreases |trace|
  {
    if trace != [] {
      var front, e := trace[..|trace| - 1], trace[|trace| - 1];
      var before := After(s, n, front).value;
      NeverAgainOnceSealed(s, n, front, key, anyType, before);
      SealStep(s, before, e, key, anyType, n');
      assert n'.dispatched[|n.dispatched|..]
          == before.dispatched[|n.dispatched|..] + n'.dispatched[|before.dispatched|..];
    }
  }

  /** Every later execution with a sealed key is answered from a record or refused. */
  lemma SealedIsAnsweredOrRefused(s: Setup, n: Node, command: Command, at: Attempt, outcome: D.Outcome, anyType: bool)
    requires Sealed(n, command.key, anyType) && (anyType || !ResultIsNotCached(command.ctype))
    ensures var (n', reply) := Execute(s, n, command, at, outcome);
            && n' == n
            && (reply == Rejected
                || reply == Answered(n.store.memory[command.key])
                || reply.Terminal?)
  {
  }

  /** Whether this execution's save returned nil or stored a tombstone. */
  ghost predicate SaveRecorded(s: Setup, n: Node, command: Command, at: Attempt, outcome: D.Outcome) {
    && Gate(n, command, at) == None && outcome.Written?
    && match at.fate
       case Finishes(result) =>
         !ResultIsNotCached(command.ctype)
         && !FS.PlanFor(s.codec, s.limits, n.store.memory, command.key, FS.Stamped(result, at.now)).Drop?
       case DeadlineFires =>
         !FS.PlanFor(s.codec, s.limits, n.store.memory, command.key, FS.Stamped(TimeoutResult(command), at.now)).Drop?
       case _ => false
  }

  /** Such an execution seals its key, and a timeout stored as itself seals it for every type. */
  lemma RecordingSeals(s: Setup, n: Node, command: Command, at: Attempt, outcome: D.Outcome)
    requires SaveRecorded(s, n, command, at, outcome)
    ensures Sealed(Execute(s, n, command, at, outcome).0, command.key, false)
    ensures at.fate.DeadlineFires?
            && FS.PlanFor(s.codec, s.limits, n.store.memory, command.key,
                          FS.Stamped(TimeoutResult(command), at.now)).Keep?
            ==> Sealed(Execute(s, n, command, at, outcome).0, command.key, true)
  {
  }

  /** The main theorem: record once, and whatever happens later the provisioner is not reached again. */
  lemma AtMostOnceAfterRecording(s: Setup, n: Node, command: Command, at: Attempt, outcome: D.Outcome,
                                 later: seq<Event>, n': Node)
    requires SaveRecorded(s, n, command, at, outcome)
    requires forall e <- later :: KeyIsCached(e, command.key)
    requires After(s, Execute(s, n, command, at, outcome).0, later) == Some(n')
    ensures NotDispatchedSince(Execute(s, n, command, at, outcome).0, n', command.key)
  {
    RecordingSeals(s, n, command, at, outcome);
    NeverAgainOnceSealed(s, Execute(s, n, command, at, outcome).0, later, command.key, false, n');
  }

  /** Over a whole life from an empty store: a key whose every dispatch is recorded is dispatched at most once. */
  lemma {:induction false} AtMostOnceInALife(s: Setup, trace: seq<Event>, key: string, n: Node)
    requires After(s, FreshNode(), trace) == Some(n)
    requires forall e <- trace :: KeyIsCached(e, key)
    requires EveryDispatchRecords(s, FreshNode(), trace, key)
    ensures Dispatches(n.dispatched, key) <= 1
    ensures 0 < Dispatches(n.dispatched, key) ==> Sealed(n, key, false)
    decreases |trace|
  {
    if trace != [] {
      var front, e := trace[..|trace| - 1], trace[|trace| - 1];
      var before := After(s, FreshNode(), front).value;
      AtMostOnceInALife(s, front, key, before);
      if 0 < Dispatches(before.dispatched, key) {
        SealStep(s, before, e, key, false, n);
      } else if n.dispatched != before.dispatched && e.command.key == key {
        RecordingSeals(s, before, e.command, e.at, e.outcome);
      }
    }
  }

  function FreshNode(): Node {
    Node(FS.Mirror(map[], Image(map[], {map[]})), map[], [])
  }

  function Dispatches(dispatched: seq<string>, key: string): nat {
    if dispatched == [] then 0
    else Dispatches(dispatched[..|dispatched| - 1], key) + if dispatched[|dispatched| - 1] == key then 1 else 0
  }

  ghost predicate EveryDispatchRecords(s: Setup, n: Node, trace: seq<Event>, key: string) {
    trace != [] ==>
      && EveryDispatchRecords(s, n, trace[..|trace| - 1], key)
      && var before := After(s, n, trace[..|trace| - 1]);
      var e := trace[|trace| - 1];
      before.Some? && e.Ran? && e.command.key == key && Gate(before.value, e.command, e.at) == None
      ==> SaveRecorded(s, before.value, e.command, e.at, e.outcome)
  }

  // ---------- What is answered ----------

  /** Nothing but the gates keeps a valid command of an ordinary sender out. */
  predicate Unhindered(command: Command, at: Attempt) {
    !at.cancelled && command.valid && !at.rateLimited
  }

  /** The answers before dispatch: a hindered command is rejected, a timed-out key is terminal with the result that
      says so, a recorded result of a cached type is answered as recorded, and only what is left is admitted. */
  lemma GateReplies(n: Node, command: Command, at: Attempt)
    ensures var reply := Gate(n, command, at);
            var known := Lookup(n.store.memory, command.key);
            && (!Unhindered(command, at) ==> reply == Some(Rejected))
            && (Unhindered(command, at) && command.key in n.timedOut ==>
                  reply == Some(Terminal(n.timedOut[command.key])))
            && (Unhindered(command, at) && command.key !in n.timedOut && known.Some? ==>
                  && (known.value.timedOut ==> reply == Some(Terminal(known.value)))
                  && (!known.value.timedOut && !ResultIsNotCached(command.ctype) ==>
                        reply == Some(Answered(known.value))))
            && (reply == None ==> at.admitted)
  {
  }

  /** A finished command is answered with its result exactly if that need not be kept or was kept; in every other
      case in which the command was dispatched the reply is an error. */
  lemma DispatchedIsAnsweredIff(s: Setup, n: Node, command: Command, at: Attempt, outcome: D.Outcome)
    requires Gate(n, command, at) == None
    ensures var reply := Execute(s, n, command, at, outcome).1;
            && (reply != Failed
                <==> && at.fate.Finishes?
                     && (ResultIsNotCached(command.ctype) || (outcome.Written? && KeptIn(s, n, command, at))))
            && (reply != Failed ==> reply == Answered(at.fate.result))
  {
    if at.fate.Finishes? {
      FS.SaveReplyIff(s.codec, s.limits, n.store, command.key, FS.Stamped(at.fate.result, at.now), outcome);
    }
  }

  ghost predicate KeptIn(s: Setup, n: Node, command: Command, at: Attempt)
    requires at.fate.Finishes?
  {
    FS.FitsIn(s.codec, s.limits, n.store.memory, command.key, FS.Stamped(at.fate.result, at.now))
  }

  /** The very record `r` for `key`, in memory, in the file and in every state a crash may leave, and no timeout. */
  ghost predicate HoldsRecord(n: Node, key: string, r: FS.Result) {
    && Lookup(n.store.memory, key) == Some(r) && Lookup(n.store.file.visible, key) == Some(r)
    && (forall results <- n.store.file.crash :: Lookup(results, key) == Some(r))
    && !r.timedOut && key !in n.timedOut
  }

  lemma WriteKeepsRecord(n: Node, results: FS.Results, outcome: D.Outcome, key: string, r: FS.Result)
    requires HoldsRecord(n, key, r) && Lookup(results, key) == Some(r)
    ensures HoldsRecord(n.(store := FS.Wrote(n.store, results, outcome)), key, r)
  {
  }

  lemma RecordStep(s: Setup, n: Node, e: Event, key: string, r: FS.Result, n': Node)
    requires HoldsRecord(n, key, r) && KeyIsCached(e, key) && Step(s, n, e) == Some(n')
    ensures HoldsRecord(n', key, r)
  {
    if e.Ran? && e.command.key != key && Gate(n, e.command, e.at) == None
       && (e.at.fate.DeadlineFires? || (e.at.fate.Finishes? && !ResultIsNotCached(e.command.ctype))) {
      var result := if e.at.fate.DeadlineFires? then TimeoutResult(e.command) else e.at.fate.result;
      var plan := FS.PlanFor(s.codec, s.limits, n.store.memory, e.command.key, FS.Stamped(result, e.at.now));
      if !plan.Drop? {
        WriteKeepsRecord(n, plan.results, e.outcome, key, r);
      }
    }
  }

  lemma {:induction false} RecordStays(s: Setup, n: Node, trace: seq<Event>, key: string, r: FS.Result, n': Node)
    requires HoldsRecord(n, key, r) && (forall e <- trace :: KeyIsCached(e, key)) && After(s, n, trace) == Some(n')
    ensures HoldsRecord(n', key, r)
    decreases |trace|
  {
    if trace != [] {
      var front := trace[..|trace| - 1];
      RecordStays(s, n, front, key, r, After(s, n, front).value);
      RecordStep(s, After(s, n, front).value, trace[|trace| - 1], key, r, n');
    }
  }

  /** The same answer every time: a command of a cached type that was answered once is answered, at each later
      delivery that is not hindered and whatever commands, kills and power losses come between, with what its first
      delivery was answered, a missing time filled in. */
  lemma RedeliveryAnswersTheSame(s: Setup, n: Node, command: Command, at: Attempt, outcome: D.Outcome,
      later: seq<Event>, n': Node, again: Command, at': Attempt, outcome': D.Outcome)
    requires Gate(n, command, at) == None && !ResultIsNotCached(command.ctype)
    requires at.fate.Finishes? && !at.fate.result.timedOut
    requires Execute(s, n, command, at, outcome).1 == Answered(at.fate.result)
    requires (forall e <- later :: KeyIsCached(e, command.key))
    requires After(s, Execute(s, n, command, at, outcome).0, later) == Some(n')
    requires again.key == command.key && !ResultIsNotCached(again.ctype) && Unhindered(again, at')
    ensures var first := at.fate.result;
            Execute(s, n', again, at', outcome')
            == (n', Answered(first.(createdAt := if first.createdAt != 0 then first.createdAt else at.now)))
  {
    var first := at.fate.result;
    var kept := first.(createdAt := if first.createdAt != 0 then first.createdAt else at.now);
    FS.SavedIsReadBack(s.codec, s.limits, n.store, command.key, first, at.now, outcome);
    RecordStays(s, Execute(s, n, command, at, outcome).0, later, command.key, kept, n');
  }

  // ---------- Deadlines and cancellation ----------

  /** Once a deadline has fired, the same holds for every type and the rest of the process, even if the save failed. */
  lemma {:induction false} TimedOutStaysRefused(s: Setup, n: Node, trace: seq<Event>, key: string, n': Node)
    requires key in n.timedOut && After(s, n, trace) == Some(n') && forall e <- trace :: e.Ran?
    ensures key in n'.timedOut && NotDispatchedSince(n, n', key)
    decreases |trace|
  {
    if trace != [] {
      var front, e := trace[..|trace| - 1], trace[|trace| - 1];
      var before := After(s, n, front).value;
      TimedOutStaysRefused(s, n, front, key, before);
      TimedOutStep(s, before, e, key, n');
      assert n'.dispatched[|n.dispatched|..]
          == before.dispatched[|n.dispatched|..] + n'.dispatched[|before.dispatched|..];
    }
  }

  lemma TimedOutStep(s: Setup, n: Node, e: Event, key: string, n': Node)
    requires key in n.timedOut && e.Ran? && Step(s, n, e) == Some(n')
    ensures key in n'.timedOut && NotDispatchedSince(n, n', key)
  {
  }

  /** A deadline is remembered, whatever becomes of the save: the next delivery is refused with a failed result of
      the command that ran out of time. */
  lemma DeadlineIsRemembered(s: Setup, n: Node, command: Command, at: Attempt, outcome: D.Outcome, again: Command,
      at': Attempt)
    requires Gate(n, command, at) == None && at.fate.DeadlineFires?
    requires again.key == command.key && Unhindered(again, at')
    ensures var (after, reply) := Execute(s, n, command, at, outcome);
            && reply == Failed && command.key in after.timedOut
            && var refused := Gate(after, again, at');
            && refused.Some? && refused.value.Terminal? && refused.value.result.commandID == command.id
            && refused.value.result.status == "failed" && refused.value.result.timedOut
            && !refused.value.result.tombstone
  {
  }

  /** A parent cancellation or a plain failure records nothing: the same command may run again at once,
      even while the first provisioner is still unwinding. Only the site fence stands between the two. */
  lemma CancelledCommandMayRunAgain(s: Setup, n: Node, command: Command, at: Attempt, outcome: D.Outcome)
    requires Gate(n, command, at) == None && (at.fate.ParentCancelled? || at.fate.Fails?)
    ensures var n' := Execute(s, n, command, at, outcome).0;
            && n' == n.(dispatched := n.dispatched + [command.key])
            && Gate(n', command, at) == None
  {
  }

  /** A finished command is protected in this process exactly if it is of a cached type, its result fits
      by itself and the rename happened; otherwise its next delivery runs it again. */
  lemma FinishedCommandRunsAgainIff(s: Setup, n: Node, command: Command, at: Attempt, outcome: D.Outcome)
    requires Gate(n, command, at) == None && at.fate.Finishes? && !at.fate.result.timedOut
    ensures Gate(Execute(s, n, command, at, outcome).0, command, at) == None
            <==> || ResultIsNotCached(command.ctype)
                 || |s.codec.encode(map[command.key := FS.Stamped(at.fate.result, at.now)])| > s.limits.maxBytes
                 || outcome.NotCommitted?
  {
  }
}
