/**
 Conservation of operation slots (AcquireOperation in internal/capacity/manager.go
 and its release in internal/command/admission.go), at the granularity of single
 channel steps and single sections under the mutex.
 */
module AdmissionSlots {
  import opened Wrappers
  import opened MapCount
  import opened Admission

  predicate HoldsSlot(r: Run) {
    r.given < r.taken
  }

  /** Between raising and lowering the reported count. */
  predicate IsCounted(c: Config, r: Run) {
    Limited(c, r) && (r.phase.Admitting? || r.phase.Running? || r.phase.Returned? || r.phase.Releasing?
                      || r.phase.Draining?)
  }

  /** A run takes and gives back at most one slot, each at its own point of the path. */
  predicate SlotFitsPhase(c: Config, r: Run) {
    if !Limited(c, r) then r.taken == r.given == 0 && !r.phase.Sent? && !r.phase.Draining?
    else
      match r.phase
      case Waiting => r.taken == r.given == 0
      case Draining => r.taken == r.given == 1
      case Done => r.taken == r.given <= 1
      case _ => r.taken == 1 && r.given == 0
  }

  function Holding(kind: Kind): Run -> bool {
    (r: Run) => r.kind == kind && HoldsSlot(r)
  }

  function Reported(c: Config, kind: Kind): Run -> bool {
    (r: Run) => r.kind == kind && IsCounted(c, r)
  }

  function InPhase(kind: Kind, phase: Phase): Run -> bool {
    (r: Run) => r.kind == kind && r.phase == phase
  }

  ghost predicate SlotsKept(c: Config, s: State) {
    && s.occupied.Keys == s.inUse.Keys == c.slots.Keys
    && (forall id <- s.runs :: SlotFitsPhase(c, s.runs[id]))
    && (forall kind <- c.slots :: SlotsOf(c, s, kind))
  }

  ghost predicate SlotsOf(c: Config, s: State, kind: Kind)
    requires kind in c.slots && kind in s.occupied && kind in s.inUse
  {
    && s.occupied[kind] == Tally(s.runs, Holding(kind)) <= c.slots[kind]
    && s.inUse[kind] == Tally(s.runs, Reported(c, kind))
  }

  /** One run moves; its kind's two counters move by exactly what it takes, gives, enters or leaves. */
  ghost predicate SlotMove(c: Config, s: State, id: nat, s': State) {
    && id in s'.runs && s'.runs == s.runs[id := s'.runs[id]]
    && s'.occupied.Keys == s.occupied.Keys && s'.inUse.Keys == s.inUse.Keys
    && (id in s.runs ==> s.runs[id].kind == s'.runs[id].kind)
    && SlotFitsPhase(c, s'.runs[id])
    && (forall kind <- c.slots :: kind in s.occupied && kind in s.inUse ==> CountersMove(c, s, id, s', kind))
  }

  ghost predicate CountersMove(c: Config, s: State, id: nat, s': State, kind: Kind)
    requires id in s'.runs && kind in c.slots
    requires kind in s.occupied && kind in s'.occupied && kind in s.inUse && kind in s'.inUse
  {
    && s'.occupied[kind] == s.occupied[kind] + One(s'.runs[id].kind == kind && HoldsSlot(s'.runs[id]))
                            - One(id in s.runs && s.runs[id].kind == kind && HoldsSlot(s.runs[id]))
    && s'.inUse[kind] == s.inUse[kind] + One(s'.runs[id].kind == kind && IsCounted(c, s'.runs[id]))
                         - One(id in s.runs && s.runs[id].kind == kind && IsCounted(c, s.runs[id]))
    && (s'.occupied[kind] <= s.occupied[kind] || s'.occupied[kind] <= c.slots[kind])
  }

  lemma SlotMoveKeepsSlots(c: Config, s: State, id: nat, s': State)
    requires SlotsKept(c, s) && SlotMove(c, s, id, s')
    ensures SlotsKept(c, s')
  {
    forall kind | kind in c.slots ensures SlotsOf(c, s', kind) {
      assert SlotsOf(c, s, kind) && CountersMove(c, s, id, s', kind);
      CountAfterPut(s.runs, id, s'.runs[id], Holding(kind));
      CountAfterPut(s.runs, id, s'.runs[id], Reported(c, kind));
    }
  }

  /** A run's own slot use changes exactly at the four channel and counter events. */
  lemma RunUsesSlot(c: Config, s: State, e: Event, r: Run, r': Run)
    requires !e.Arrive? && NextRun(c, s, e, r) == Some(r') && SlotFitsPhase(c, r)
    ensures SlotFitsPhase(c, r') && r'.kind == r.kind
    ensures One(HoldsSlot(r')) - One(HoldsSlot(r)) == One(Limited(c, r) && e.Take?) - One(Limited(c, r) && e.Drain?)
    ensures One(IsCounted(c, r')) - One(IsCounted(c, r))
            == One(Limited(c, r) && e.Raise?) - One(Limited(c, r) && e.Lower?)
    ensures Limited(c, r) && e.Take? ==> r.kind in s.occupied && s.occupied[r.kind] < c.slots[r.kind]
    ensures Limited(c, r) && e.Drain? ==> r.kind in s.occupied && 0 < s.occupied[r.kind]
  {
  }

  lemma OccupiedMoves(c: Config, occupied: map<Kind, nat>, e: Event, r: Run, kind: Kind)
    requires kind in occupied && (kind == r.kind && Limited(c, r) && e.Drain? ==> 0 < occupied[kind])
    ensures kind in NextOccupied(c, occupied, e, r)
    ensures NextOccupied(c, occupied, e, r)[kind] ==
            occupied[kind] + One(kind == r.kind && Limited(c, r) && e.Take?)
            - One(kind == r.kind && Limited(c, r) && e.Drain?)
  {
  }

  lemma InUseMoves(c: Config, inUse: map<Kind, int>, e: Event, r: Run, kind: Kind)
    requires kind in inUse
    ensures kind in NextInUse(c, inUse, e, r)
    ensures NextInUse(c, inUse, e, r)[kind] ==
            inUse[kind] + One(kind == r.kind && Limited(c, r) && e.Raise?)
            - One(kind == r.kind && Limited(c, r) && e.Lower?)
  {
  }

  lemma EveryEventIsASlotMove(c: Config, s: State, e: Event, s': State)
    requires SlotsKept(c, s) && Step(c, s, e) == Some(s')
    ensures SlotMove(c, s, e.id, s')
  {
    if !e.Arrive? {
      var r := s.runs[e.id];
      assert SlotFitsPhase(c, r);
      EventMovesCounters(c, s, e, r, s');
    }
  }

  lemma EventMovesCounters(c: Config, s: State, e: Event, r: Run, s': State)
    requires !e.Arrive? && e.id in s.runs && r == s.runs[e.id] && SlotFitsPhase(c, r)
    requires e.id in s'.runs && NextRun(c, s, e, r) == Some(s'.runs[e.id])
    requires s'.occupied == NextOccupied(c, s.occupied, e, r) && s'.inUse == NextInUse(c, s.inUse, e, r)
    requires s.occupied.Keys == s.inUse.Keys == c.slots.Keys
    ensures SlotFitsPhase(c, s'.runs[e.id]) && r.kind == s'.runs[e.id].kind
    ensures s'.occupied.Keys == s'.inUse.Keys == c.slots.Keys
    ensures forall kind <- c.slots :: CountersMove(c, s, e.id, s', kind)
  {
    RunUsesSlot(c, s, e, r, s'.runs[e.id]);
    KeysStay(c, s, e, r);
    forall kind | kind in c.slots ensures CountersMove(c, s, e.id, s', kind) {
      OccupiedMoves(c, s.occupied, e, r, kind);
      InUseMoves(c, s.inUse, e, r, kind);
    }
  }

  lemma KeysStay(c: Config, s: State, e: Event, r: Run)
    ensures NextOccupied(c, s.occupied, e, r).Keys == s.occupied.Keys
    ensures NextInUse(c, s.inUse, e, r).Keys == s.inUse.Keys
  {
  }

  lemma SlotStep(c: Config, s: State, e: Event, s': State)
    requires SlotsKept(c, s) && Step(c, s, e) == Some(s')
    ensures SlotsKept(c, s')
  {
    EveryEventIsASlotMove(c, s, e, s');
    SlotMoveKeepsSlots(c, s, e.id, s');
  }

  /** The count that `Snapshot` reports lags behind the channel by the runs in between. */
  lemma ReportedCount(c: Config, s: State, kind: Kind)
    requires SlotsKept(c, s) && kind in c.slots
    ensures s.inUse[kind] == s.occupied[kind] - Tally(s.runs, InPhase(kind, Sent))
            + Tally(s.runs, InPhase(kind, Draining))
  {
    assert SlotsOf(c, s, kind);
    forall id | id in s.runs ensures SlotFitsPhase(c, s.runs[id]) {
    }
    hide SlotsKept, SlotFitsPhase;
    PhasesBalance(c, s.runs, kind);
  }

  /** Holders plus those about to be uncounted are the counted plus those about to be counted. */
  lemma PhasesBalance(c: Config, runs: map<nat, Run>, kind: Kind)
    requires forall id <- runs :: SlotFitsPhase(c, runs[id])
    ensures Tally(runs, Holding(kind)) + Tally(runs, InPhase(kind, Draining))
            == Tally(runs, Reported(c, kind)) + Tally(runs, InPhase(kind, Sent))
  {
    forall id | id in runs ensures BalancedAt(c, runs[id], kind) {
      assert SlotFitsPhase(c, runs[id]);
    }
    hide SlotFitsPhase, Tally;
    CountBalance(runs, Holding(kind), InPhase(kind, Draining), Reported(c, kind), InPhase(kind, Sent));
  }

  ghost predicate BalancedAt(c: Config, r: Run, kind: Kind) {
    && (Holding(kind)(r) || InPhase(kind, Draining)(r)) == (Reported(c, kind)(r) || InPhase(kind, Sent)(r))
    && !(Holding(kind)(r) && InPhase(kind, Draining)(r)) && !(Reported(c, kind)(r) && InPhase(kind, Sent)(r))
  }
}
