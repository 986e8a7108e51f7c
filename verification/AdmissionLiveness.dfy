/**
 Nothing that admission takes can get stuck (internal/command/admission.go, internal/command/executor.go): from
 every reachable state each run can leave by its own events, and the node can come to rest.
 */
module AdmissionLiveness {
  import opened Wrappers
  import opened Admission
  import opened AdmissionSlots
  import opened AdmissionRuns
  import opened MapCount
  import C = Capacity

  /** How many events a run is from its end, at most. */
  function Distance(phase: Phase): nat {
    match phase
    case Waiting => 7
    case Sent => 6
    case Admitting => 5
    case Running => 4
    case Returned(_) => 3
    case Releasing => 2
    case Draining => 1
    case Done => 0
  }

  /** The way out: a waiting run gives up, a provisioner returns (`ok` is its own affair), everything else moves on. */
  function WayOut(c: Config, id: nat, r: Run, ok: bool): Event {
    match r.phase
    case Waiting => if Limited(c, r) then GiveUp(id) else Take(id)
    case Sent => Raise(id)
    case Admitting => Admit(id)
    case Running => Return(id, ok)
    case Returned(_) => Settle(id)
    case Releasing => Drain(id)
    case _ => Lower(id)
  }

  lemma OneIsCounted(runs: map<nat, Run>, id: nat, p: Run -> bool)
    requires id in runs && p(runs[id])
    ensures 0 < Tally(runs, p)
  {
    CountAfterPut(Without(runs, id), id, runs[id], p);
    assert Without(runs, id)[id := runs[id]] == runs;
  }

  /** A run that still holds its slot finds the channel non-empty. */
  lemma HeldSlotIsThere(c: Config, s: State, id: nat)
    requires SlotsKept(c, s) && id in s.runs && s.runs[id].phase.Releasing? && Limited(c, s.runs[id])
    ensures var kind := s.runs[id].kind; kind in s.occupied && 0 < s.occupied[kind]
  {
    var kind := s.runs[id].kind;
    assert SlotFitsPhase(c, s.runs[id]) && SlotsOf(c, s, kind);
    OneIsCounted(s.runs, id, Holding(kind));
  }

  /** The way out is open in every state that satisfies the invariant, and leads on. */
  lemma WayOutIsOpen(c: Config, s: State, id: nat, ok: bool)
    requires SlotsKept(c, s) && id in s.runs && !s.runs[id].phase.Done?
    ensures var s' := Step(c, s, WayOut(c, id, s.runs[id], ok));
            && s'.Some? && id in s'.value.runs && s'.value.runs == s.runs[id := s'.value.runs[id]]
            && Distance(s'.value.runs[id].phase) < Distance(s.runs[id].phase)
  {
    hide NextLedger, NextOccupied, NextInUse, NextSettled, NextRemoved, SlotsKept, BeginFor;
    if s.runs[id].phase.Releasing? && Limited(c, s.runs[id]) {
      HeldSlotIsThere(c, s, id);
    }
    SlotsFit(c, s, id);
  }

  lemma SlotsFit(c: Config, s: State, id: nat)
    requires SlotsKept(c, s) && id in s.runs
    ensures SlotFitsPhase(c, s.runs[id])
  {
  }

  // ---------- Traces ----------

  lemma {:induction false} AfterBoth(c: Config, s: State, first: seq<Event>, more: seq<Event>)
    requires After(c, s, first).Some?
    ensures After(c, s, first + more) == After(c, After(c, s, first).value, more)
    decreases |more|
  {
    hide Step;
    if more == [] {
      assert first + more == first;
    } else {
      assert (first + more)[..|first + more| - 1] == first + more[..|more| - 1];
      AfterBoth(c, s, first, more[..|more| - 1]);
    }
  }

  lemma AfterOne(c: Config, s: State, e: Event)
    ensures After(c, s, [e]) == Step(c, s, e)
  {
    assert [e][..0] == [];
    hide Step;
  }

  /** `more` consists of events of run `id` alone, and at its end the run is done and no other has moved. */
  ghost predicate Finishes(c: Config, s: State, id: nat, more: seq<Event>, s': State) {
    && (forall e <- more :: e.id == id && !e.Arrive?)
    && After(c, s, more) == Some(s')
    && id in s.runs && id in s'.runs && s'.runs[id].phase.Done? && s'.runs == s.runs[id := s'.runs[id]]
  }

  lemma {:induction false} FinishFrom(c: Config, s: State, id: nat, ok: bool)
    requires Invariant(c, s) && id in s.runs
    ensures exists more, s' :: Finishes(c, s, id, more, s') && Invariant(c, s')
    decreases Distance(s.runs[id].phase)
  {
    hide Invariant, Step, WayOut;
    if s.runs[id].phase.Done? {
      assert s.runs[id := s.runs[id]] == s.runs;
      assert Finishes(c, s, id, [], s);
    } else {
      var e := WayOut(c, id, s.runs[id], ok);
      InvariantHasSlots(c, s);
      WayOutIsOpen(c, s, id, ok);
      var s1 := Step(c, s, e).value;
      InvariantStep(c, s, e, s1);
      FinishFrom(c, s1, id, ok);
      var rest, s' :| Finishes(c, s1, id, rest, s') && Invariant(c, s');
      WayOutIsOwn(c, id, s.runs[id], ok);
      AfterOne(c, s, e);
      AfterBoth(c, s, [e], rest);
      assert s1.runs[id := s'.runs[id]] == s.runs[id := s'.runs[id]];
      assert Finishes(c, s, id, [e] + rest, s');
    }
  }

  lemma InvariantHasSlots(c: Config, s: State)
    requires Invariant(c, s)
    ensures SlotsKept(c, s)
  {
  }

  lemma WayOutIsOwn(c: Config, id: nat, r: Run, ok: bool)
    ensures WayOut(c, id, r, ok).id == id && !WayOut(c, id, r, ok).Arrive?
  {
  }

  // ---------- Theorems ----------

  /** In every reachable state each run that is not done has an event of its own enabled that takes it on: what it
      has taken is not stuck, whoever else is waiting, and whichever way its provisioner returns. */
  lemma NothingIsStuck(c: Config, start: C.Ledger, trace: seq<Event>, s: State, id: nat, ok: bool)
    requires Reachable(c, start, trace, s) && id in s.runs && !s.runs[id].phase.Done?
    ensures var s' := Step(c, s, WayOut(c, id, s.runs[id], ok));
            s'.Some? && id in s'.value.runs && Distance(s'.value.runs[id].phase) < Distance(s.runs[id].phase)
  {
    EveryTraceKeepsInvariant(c, start, trace, s);
    hide Step, WayOut;
    WayOutIsOpen(c, s, id, ok);
  }

  /** Every run can be brought to its end from every reachable state without a step of any other. */
  lemma EveryRunCanFinish(c: Config, start: C.Ledger, trace: seq<Event>, s: State, id: nat)
    requires Reachable(c, start, trace, s) && id in s.runs
    ensures exists more, s' :: Finishes(c, s, id, more, s')
  {
    EveryTraceKeepsInvariant(c, start, trace, s);
    FinishFrom(c, s, id, true);
  }

  ghost function Unfinished(s: State): set<nat> {
    set id | id in s.runs && !s.runs[id].phase.Done?
  }

  /** Without a further arrival the state `s'` is reached, in which every run is done. */
  ghost predicate ComesToRest(c: Config, s: State, more: seq<Event>, s': State) {
    && (forall e <- more :: !e.Arrive?)
    && After(c, s, more) == Some(s') && s'.runs.Keys == s.runs.Keys
    && forall id <- s'.runs :: s'.runs[id].phase.Done?
  }

  lemma {:induction false} RestFrom(c: Config, s: State)
    requires Invariant(c, s)
    ensures exists more, s' :: ComesToRest(c, s, more, s')
    decreases |Unfinished(s)|
  {
    hide Invariant, Step;
    if Unfinished(s) == {} {
      assert forall id <- s.runs :: s.runs[id].phase.Done? || id in Unfinished(s);
      assert ComesToRest(c, s, [], s);
    } else {
      var id :| id in Unfinished(s);
      FinishFrom(c, s, id, true);
      var first, s1 :| Finishes(c, s, id, first, s1) && Invariant(c, s1);
      assert Unfinished(s1) == Unfinished(s) - {id};
      RestFrom(c, s1);
      var rest, s' :| ComesToRest(c, s1, rest, s');
      AfterBoth(c, s, first, rest);
      assert ComesToRest(c, s, first + rest, s');
    }
  }

  /** From every reachable state the node can come to rest, with no slot held, nothing fenced but deleted sites, and
      every reservation the last successful one. */
  lemma NodeCanComeToRest(c: Config, start: C.Ledger, trace: seq<Event>, s: State)
    requires Reachable(c, start, trace, s)
    ensures exists more, s' :: ComesToRest(c, s, more, s') && AtRest(c, s')
  {
    EveryTraceKeepsInvariant(c, start, trace, s);
    RestFrom(c, s);
    hide Invariant, Step;
    var more, s' :| ComesToRest(c, s, more, s');
    AfterBoth(c, Initial(c, start), trace, more);
    QuietNodeHoldsNothing(c, start, trace + more, s');
    assert AtRest(c, s');
  }

  ghost predicate AtRest(c: Config, s: State) {
    && (forall kind <- c.slots :: Lookup(s.occupied, kind) == Some(0) && Lookup(s.inUse, kind) == Some(0))
    && (forall site :: C.Counter(s.ledger.fences, site) != 0 <==> site in s.removed)
    && s.ledger.reservations == s.settled && s.dispatcher == None
  }

  /** A command that has to wait for a slot waits for provisioners whose dispatcher is gone: the channel is full,
      and each slot in it is held by a run that is past its admission. */
  lemma WaitingIsForDetachedRuns(c: Config, start: C.Ledger, trace: seq<Event>, s: State, id: nat, other: nat)
    requires Reachable(c, start, trace, s) && id in s.runs && s.runs[id].phase.Waiting?
    requires Step(c, s, Take(id)) == None
    ensures Limited(c, s.runs[id]) && Lookup(s.occupied, s.runs[id].kind) == Some(c.slots[s.runs[id].kind])
    ensures other in s.runs && s.runs[other].kind == s.runs[id].kind && HoldsSlot(s.runs[other]) ==>
              other != id && s.dispatcher != Some(other) && !BeforeAdmission(s.runs[other])
  {
    EveryTraceKeepsInvariant(c, start, trace, s);
    hide Reachable, Exclusion, LedgerKept, DemandsBounded;
    InvariantHasSlots(c, s);
    BlockedByAFullChannel(c, s, id);
    if other in s.runs && HoldsSlot(s.runs[other]) {
      SlotsFit(c, s, other);
      SlotsFit(c, s, id);
      assert s.dispatcher == Some(id);
    }
  }

  lemma BlockedByAFullChannel(c: Config, s: State, id: nat)
    requires SlotsKept(c, s) && id in s.runs && s.runs[id].phase.Waiting? && Step(c, s, Take(id)) == None
    ensures Limited(c, s.runs[id]) && Lookup(s.occupied, s.runs[id].kind) == Some(c.slots[s.runs[id].kind])
  {
    hide NextLedger, NextOccupied, NextInUse, NextSettled, NextRemoved, Tally;
    if Limited(c, s.runs[id]) {
      assert SlotsOf(c, s, s.runs[id].kind);
    }
  }
}
