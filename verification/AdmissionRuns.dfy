/**
 What holds after every trace of admission events: the theorems about
 internal/command/admission.go and the executor's detached runs.
 */
module AdmissionRuns {
  import opened Wrappers
  import opened Admission
  import opened AdmissionSlots
  import opened MapCount
  import C = Capacity
  import SiteResources

  // ---------- The invariant of every trace ----------

  /** A run that has not been admitted yet is the one holding the executor's mutex. */
  ghost predicate DispatcherKept(s: State) {
    && (forall id <- s.runs :: BeforeAdmission(s.runs[id]) ==> s.dispatcher == Some(id))
    && (s.dispatcher.Some? ==> s.dispatcher.value in s.runs && !s.runs[s.dispatcher.value].phase.Done?)
  }

  predicate BeforeAdmission(r: Run) {
    r.phase.Waiting? || r.phase.Sent? || r.phase.Admitting?
  }

  /** Requests have passed the payload parser, so they are bounded. */
  ghost predicate DemandsBounded(s: State) {
    forall id <- s.runs :: s.runs[id].demand.Resize? ==>
          C.Between(C.ZERO, s.runs[id].demand.requested, SiteResources.MOST)
  }

  ghost predicate Invariant(c: Config, s: State) {
    Exclusion(s) && LedgerKept(s) && SlotsKept(c, s) && DispatcherKept(s) && DemandsBounded(s)
  }

  lemma InitialHolds(c: Config, start: C.Ledger)
    requires start.fences == map[]
    ensures Invariant(c, Initial(c, start))
  {
    var s := Initial(c, start);
    forall kind | kind in c.slots ensures SlotsOf(c, s, kind) {
      NoneCounted(s.runs, Holding(kind));
      NoneCounted(s.runs, Reported(c, kind));
    }
  }

  lemma DispatcherStep(c: Config, s: State, e: Event, s': State)
    requires DispatcherKept(s) && Step(c, s, e) == Some(s')
    ensures DispatcherKept(s')
  {
    if !e.Arrive? {
      assert BeforeAdmission(s.runs[e.id]) ==> s.dispatcher == Some(e.id);
      assert BeforeAdmission(s'.runs[e.id]) ==> BeforeAdmission(s.runs[e.id]) && s'.dispatcher == s.dispatcher;
    }
  }

  lemma DemandsStep(c: Config, s: State, e: Event, s': State)
    requires DemandsBounded(s) && Step(c, s, e) == Some(s')
    ensures DemandsBounded(s')
  {
    if e.Arrive? {
      if s'.runs[e.id].demand.Resize? {
        SiteResources.ValidReservationIsBounded(e.command.payload.resources);
      }
    } else {
      assert s'.runs[e.id].demand == s.runs[e.id].demand;
    }
  }

  lemma InvariantStep(c: Config, s: State, e: Event, s': State)
    requires Invariant(c, s) && Step(c, s, e) == Some(s')
    ensures Invariant(c, s')
  {
    ExclusionStep(c, s, e, s');
    LedgerStep(c, s, e, s');
    SlotStep(c, s, e, s');
    DispatcherStep(c, s, e, s');
    DemandsStep(c, s, e, s');
  }

  /** Every state that any interleaving reaches satisfies the invariant. */
  lemma {:induction false} EveryTraceKeepsInvariant(c: Config, start: C.Ledger, trace: seq<Event>, s: State)
    requires Reachable(c, start, trace, s)
    ensures Invariant(c, s)
    decreases |trace|
  {
    if trace == [] {
      InitialHolds(c, start);
    } else {
      var before := After(c, Initial(c, start), trace[..|trace| - 1]).value;
      EveryTraceKeepsInvariant(c, start, trace[..|trace| - 1], before);
      InvariantStep(c, before, trace[|trace| - 1], s);
    }
  }

  // ---------- Theorems ----------

  /** At most one run of a fenced type is live per site, and the site's fence is that run's generation. */
  lemma SiteExclusion(c: Config, start: C.Ledger, trace: seq<Event>, s: State, i: nat, j: nat, site: string)
    requires Reachable(c, start, trace, s) && LiveOn(s, i, site) && LiveOn(s, j, site)
    ensures i == j
    ensures C.Current(s.ledger, s.runs[i].admission.value)
  {
    EveryTraceKeepsInvariant(c, start, trace, s);
    assert OwnsFence(s, i);
  }

  /** A site holds what its last successful create or resize asked for, unless one is open; then it
      holds the open request and that run's admission remembers exactly the former value. */
  lemma ReservationIsTheLastSuccess(c: Config, start: C.Ledger, trace: seq<Event>, s: State, site: string)
    requires Reachable(c, start, trace, s)
    ensures !HasPendingResize(s, site) ==> Lookup(s.ledger.reservations, site) == Lookup(s.settled, site)
    ensures forall id :: LiveOn(s, id, site) && s.runs[id].demand.Resize? ==>
                           && Lookup(s.ledger.reservations, site) == Some(s.runs[id].demand.requested)
                           && FormerValue(s.runs[id].admission.value) == Lookup(s.settled, site)
  {
    EveryTraceKeepsInvariant(c, start, trace, s);
  }

  /** However late a create or resize fails, its site is back at the settled value. */
  lemma LateFailureRestores(c: Config, start: C.Ledger, trace: seq<Event>, s: State, id: nat, s': State)
    requires Reachable(c, start, trace, s) && Step(c, s, Settle(id)) == Some(s')
    requires s.runs[id].demand.Resize? && s.runs[id].phase == Returned(false)
    ensures Lookup(s'.ledger.reservations, s.runs[id].demand.site) == Lookup(s.settled, s.runs[id].demand.site)
    ensures s'.settled == s.settled && C.Counter(s'.ledger.fences, s.runs[id].demand.site) == 0
  {
    EveryTraceKeepsInvariant(c, start, trace, s);
    var r := s.runs[id];
    assert PhaseFits(r);
    SettleLeavesSite(c, s, id, s');
    FinishSettlesFence(c, s.ledger, r.demand, r.admission.value, false);
  }

  /** The channel never holds more than its limit, and the reported count is exact up to runs in between. */
  lemma SlotConservation(c: Config, start: C.Ledger, trace: seq<Event>, s: State, kind: Kind)
    requires Reachable(c, start, trace, s) && kind in c.slots
    ensures kind in s.occupied && kind in s.inUse
    ensures s.occupied[kind] == Tally(s.runs, Holding(kind)) <= c.slots[kind]
    ensures s.inUse[kind] == s.occupied[kind] - Tally(s.runs, InPhase(kind, Sent))
            + Tally(s.runs, InPhase(kind, Draining))
  {
    EveryTraceKeepsInvariant(c, start, trace, s);
    assert SlotsOf(c, s, kind);
    ReportedCount(c, s, kind);
  }

  /** A finished run gave back exactly the slots it took, whatever path it left by. */
  lemma FinishedRunsReleasedOnce(c: Config, start: C.Ledger, trace: seq<Event>, s: State, id: nat)
    requires Reachable(c, start, trace, s) && id in s.runs && s.runs[id].phase.Done?
    ensures s.runs[id].given == s.runs[id].taken <= 1
    ensures forall e: Event :: !e.Arrive? && e.id == id ==> Step(c, s, e) == None
  {
    EveryTraceKeepsInvariant(c, start, trace, s);
    assert SlotFitsPhase(c, s.runs[id]);
  }

  /** With no run left, no slot is held or reported, only deleted sites are fenced, and every
      reservation is the last successful one. */
  lemma QuietNodeHoldsNothing(c: Config, start: C.Ledger, trace: seq<Event>, s: State)
    requires Reachable(c, start, trace, s)
    requires forall id <- s.runs :: s.runs[id].phase.Done?
    ensures forall kind <- c.slots :: Lookup(s.occupied, kind) == Some(0) && Lookup(s.inUse, kind) == Some(0)
    ensures forall site :: C.Counter(s.ledger.fences, site) != 0 <==> site in s.removed
    ensures s.ledger.reservations == s.settled
    ensures s.dispatcher == None
  {
    EveryTraceKeepsInvariant(c, start, trace, s);
    hide Reachable, SlotsKept, Exclusion, LedgerKept, DispatcherKept, DemandsBounded;
    NoSlotIsHeld(c, s);
    OnlyRemovedAreFenced(s);
    OnlySettledIsReserved(s);
    NoDispatcher(s);
  }

  lemma NoSlotIsHeld(c: Config, s: State)
    requires SlotsKept(c, s) && forall id <- s.runs :: s.runs[id].phase.Done?
    ensures forall kind <- c.slots :: Lookup(s.occupied, kind) == Some(0) && Lookup(s.inUse, kind) == Some(0)
  {
    forall id | id in s.runs ensures SlotFitsPhase(c, s.runs[id]) {
    }
    forall kind | kind in c.slots
      ensures Lookup(s.occupied, kind) == Some(0) && Lookup(s.inUse, kind) == Some(0)
    {
      assert SlotsOf(c, s, kind);
      NoneCounted(s.runs, Holding(kind));
      NoneCounted(s.runs, Reported(c, kind));
    }
  }

  lemma OnlyRemovedAreFenced(s: State)
    requires Exclusion(s) && forall id <- s.runs :: s.runs[id].phase.Done?
    ensures forall site :: C.Counter(s.ledger.fences, site) != 0 <==> site in s.removed
  {
    forall site ensures !HasLive(s, site) {
    }
  }

  lemma OnlySettledIsReserved(s: State)
    requires LedgerKept(s) && forall id <- s.runs :: s.runs[id].phase.Done?
    ensures s.ledger.reservations == s.settled
  {
    forall site ensures !HasPendingResize(s, site) {
    }
    SameLookups(s.ledger.reservations, s.settled);
  }

  lemma NoDispatcher(s: State)
    requires DispatcherKept(s) && forall id <- s.runs :: s.runs[id].phase.Done?
    ensures s.dispatcher == None
  {
  }

  lemma SameLookups<K, V>(m: map<K, V>, n: map<K, V>)
    requires forall k :: Lookup(m, k) == Lookup(n, k)
    ensures m == n
  {
    forall k ensures k in m <==> k in n {
      assert Lookup(m, k) == Lookup(n, k);
    }
    forall k | k in m ensures m[k] == n[k] {
      assert Lookup(m, k) == Lookup(n, k);
    }
  }

  /** A deadline or a cancellation may come at any time while a provisioner runs or its result is not yet taken, and
      only for the dispatched run. It frees the dispatcher for the next command and touches nothing else. */
  lemma DetachFreesTheDispatcher(c: Config, start: C.Ledger, trace: seq<Event>, s: State, id: nat, deadline: bool,
      next: nat, command: Command)
    requires Reachable(c, start, trace, s) && id in s.runs
    ensures var s' := Step(c, s, Detach(id, deadline));
            && (s'.Some? <==> s.dispatcher == Some(id) && (s.runs[id].phase.Running? || s.runs[id].phase.Returned?))
            && (s'.Some? ==> s'.value == s.(dispatcher := None))
            && (s'.Some? && next !in s.runs ==> Step(c, s'.value, Arrive(next, command)).Some?)
  {
    assert s.runs[id := s.runs[id]] == s.runs;
  }

  /** Only the run in the dispatcher can be short of its admission: every other unfinished run
      is a provisioner whose dispatcher gave up, or the tail of its callback. */
  lemma OtherRunsAreDetached(c: Config, start: C.Ledger, trace: seq<Event>, s: State, id: nat)
    requires Reachable(c, start, trace, s) && id in s.runs && s.dispatcher != Some(id)
    ensures !BeforeAdmission(s.runs[id])
  {
    EveryTraceKeepsInvariant(c, start, trace, s);
  }

  /** A refused admission leaves reservations, fences, generations and history as they were. */
  lemma RefusalChangesNothing(c: Config, s: State, e: Event, s': State)
    requires Step(c, s, e) == Some(s')
    requires e.GiveUp? || e.RefuseScratch? || (e.Admit? && s'.runs[e.id].phase.Releasing?)
    ensures s'.ledger == s.ledger && s'.settled == s.settled && s'.removed == s.removed
  {
  }

  /** Which runs are admitted, in every reachable state: an unparsable one never, one without a site always, and a
      fenced one exactly if its site is not deleted, no other run is live on it and, for a create or resize, the
      request fits beside what the other sites hold. */
  lemma AdmittedIff(c: Config, start: C.Ledger, trace: seq<Event>, s: State, id: nat)
    requires Reachable(c, start, trace, s) && id in s.runs && s.runs[id].phase.Admitting?
    ensures var d := s.runs[id].demand;
            var s' := Step(c, s, Admit(id));
            && s'.Some? && id in s'.value.runs
            && (s'.value.runs[id].phase.Running? || s'.value.runs[id].phase.Releasing?)
            && (s'.value.runs[id].phase.Running? <==>
                  d.NoSite? || (Fenced(d) && d.site !in s.removed && !HasLive(s, d.site) && RoomFor(c, s.ledger, d)))
            && (Fenced(d) && s'.value.runs[id].phase.Running? ==> LiveOn(s'.value, id, d.site))
  {
    EveryTraceKeepsInvariant(c, start, trace, s);
    hide Reachable, LedgerKept, SlotsKept, DispatcherKept, DemandsBounded, Exclusion, RoomFor, HasLive, Fenced;
    AdmitMoves(c, s, id);
    if Fenced(s.runs[id].demand) {
      FreeIffUnfenced(s, s.runs[id].demand.site);
      BegunIff(c, s.ledger, s.runs[id].demand);
      if BeginFor(c, s.ledger, s.runs[id].demand).Begun? {
        AdmitEntersSite(c, s, id, Step(c, s, Admit(id)).value);
      }
    }
  }

  lemma AdmitMoves(c: Config, s: State, id: nat)
    requires id in s.runs && s.runs[id].phase.Admitting?
    ensures var d := s.runs[id].demand;
            var s' := Step(c, s, Admit(id));
            && s'.Some? && id in s'.value.runs
            && (s'.value.runs[id].phase.Running? || s'.value.runs[id].phase.Releasing?)
            && (s'.value.runs[id].phase.Running? <==> d.NoSite? || (Fenced(d) && BeginFor(c, s.ledger, d).Begun?))
  {
    hide NextLedger, NextOccupied, NextInUse, NextSettled, NextRemoved, BeginFor;
  }

  /** What a create or resize asks for fits beside everything the other sites hold. */
  ghost predicate RoomFor(c: Config, l: C.Ledger, d: Demand)
    requires Fenced(d)
  {
    d.Resize? ==> C.Fits(C.Wrapped(C.Plus(C.IdealTotal(Without(l.reservations, d.site)), d.requested)), c.limit)
  }

  lemma BegunIff(c: Config, l: C.Ledger, d: Demand)
    requires Fenced(d)
    ensures BeginFor(c, l, d).Begun? <==> C.Counter(l.fences, d.site) == 0 && RoomFor(c, l, d)
  {
    hide C.Wrapped, C.IdealTotal, C.BeginSite;
    if d.Resize? {
      C.BeginSiteAdmitsIff(l, c.limit, d.site, d.requested);
    }
  }

  lemma FreeIffUnfenced(s: State, site: string)
    requires Exclusion(s)
    ensures C.Counter(s.ledger.fences, site) == 0 <==> site !in s.removed && !HasLive(s, site)
  {
    hide PhaseFits;
    if C.Counter(s.ledger.fences, site) == 0 {
      FreeSiteHasNoRun(s, site);
    }
  }

  /** A name whose delete succeeded is refused to every later fenced command of this process. */
  lemma {:induction false} DeletedSiteStaysFenced(
      c: Config, start: C.Ledger, trace: seq<Event>, more: seq<Event>, s: State, s': State, site: string)
    requires Reachable(c, start, trace, s) && site in s.removed
    requires After(c, s, more) == Some(s')
    ensures site in s'.removed && site !in s'.ledger.reservations
    ensures forall id :: !LiveOn(s', id, site)
    ensures forall d :: Fenced(d) && d.site == site ==> BeginFor(c, s'.ledger, d) == C.Refused(C.SiteConflict)
    decreases |more|
  {
    EveryTraceKeepsInvariant(c, start, trace, s);
    RemovedStaysRemoved(c, s, more, s', site);
    assert forall id <- s'.runs :: Live(s'.runs[id]) ==> OwnsFence(s', id);
  }

  lemma {:induction false} RemovedStaysRemoved(c: Config, s: State, more: seq<Event>, s': State, site: string)
    requires Exclusion(s) && site in s.removed && After(c, s, more) == Some(s')
    ensures Exclusion(s') && site in s'.removed
    decreases |more|
  {
    if more != [] {
      var before := After(c, s, more[..|more| - 1]).value;
      RemovedStaysRemoved(c, s, more[..|more| - 1], before, site);
      ExclusionStep(c, before, more[|more| - 1], s');
    }
  }

  // ---------- The capacity envelope ----------

  lemma {:induction false} DegradedIsAlwaysReal(c: Config, start: C.Ledger, trace: seq<Event>, s: State)
    requires Reachable(c, start, trace, s) && C.DegradedIsReal(start, c.limit)
    ensures C.DegradedIsReal(s.ledger, c.limit)
    decreases |trace|
  {
    if trace != [] {
      var before := After(c, Initial(c, start), trace[..|trace| - 1]).value;
      DegradedIsAlwaysReal(c, start, trace[..|trace| - 1], before);
      var e := trace[|trace| - 1];
      if !e.Arrive? {
        DegradedStep(c, before.ledger, e, before.runs[e.id]);
      }
    }
  }

  lemma DegradedStep(c: Config, l: C.Ledger, e: Event, r: Run)
    requires C.DegradedIsReal(l, c.limit)
    ensures C.DegradedIsReal(NextLedger(c, l, e, r), c.limit)
  {
    if e.Admit? && Fenced(r.demand) && BeginFor(c, l, r.demand).Begun? {
      C.DegradedStaysReal(l, c.limit, r.demand.site, if r.demand.Resize? then r.demand.requested else C.ZERO,
                          BeginFor(c, l, r.demand).admission, true);
    } else if e.Settle? && Fenced(r.demand) && r.phase.Returned? && r.admission.Some? {
      C.DegradedStaysReal(l, c.limit, r.demand.site, C.ZERO, r.admission.value, r.phase.ok);
    }
  }

  /** The event is not a failed resize that puts back more than its request had reserved. */
  ghost predicate NoGrowingRollback(s: State, e: Event) {
    e.Settle? && e.id in s.runs && s.runs[e.id].demand.Resize? && s.runs[e.id].phase == Returned(false)
    && s.runs[e.id].admission.Some? && s.runs[e.id].admission.value.existed
    ==> C.Fits(s.runs[e.id].admission.value.previous, s.runs[e.id].demand.requested)
  }

  ghost predicate NeverGrowsBack(c: Config, s: State, trace: seq<Event>) {
    trace != [] ==>
      && NeverGrowsBack(c, s, trace[..|trace| - 1])
      && var before := After(c, s, trace[..|trace| - 1]);
      before.Some? ==> NoGrowingRollback(before.value, trace[|trace| - 1])
  }

  /** Reservations are valid tiers and their exact sum is within the limit. */
  ghost predicate Enveloped(c: Config, l: C.Ledger) {
    C.AllWithin(l.reservations, SiteResources.MOST) && C.Fits(C.IdealTotal(l.reservations), c.limit)
  }

  /** From a start that fits, the exact total fits as long as no failed resize grows back. */
  lemma {:induction false} EnvelopeHolds(c: Config, start: C.Ledger, trace: seq<Event>, s: State)
    requires Reachable(c, start, trace, s) && Enveloped(c, start)
    requires NeverGrowsBack(c, Initial(c, start), trace)
    requires C.Representable(C.Plus(c.limit, SiteResources.MOST))
    ensures Enveloped(c, s.ledger) && C.AllWithin(s.settled, SiteResources.MOST)
    decreases |trace|
  {
    if trace != [] {
      var front, e := trace[..|trace| - 1], trace[|trace| - 1];
      var before := After(c, Initial(c, start), front).value;
      EnvelopeHolds(c, start, front, before);
      EveryTraceKeepsInvariant(c, start, front, before);
      hide Reachable, Enveloped, Invariant, Step, NoGrowingRollback, C.AllWithin;
      EnvelopeStep(c, before, e, s);
    }
  }

  lemma EnvelopeStep(c: Config, s: State, e: Event, s': State)
    requires Invariant(c, s) && Enveloped(c, s.ledger) && C.AllWithin(s.settled, SiteResources.MOST)
    requires Step(c, s, e) == Some(s') && NoGrowingRollback(s, e)
    requires C.Representable(C.Plus(c.limit, SiteResources.MOST))
    ensures Enveloped(c, s'.ledger) && C.AllWithin(s'.settled, SiteResources.MOST)
  {
    if !e.Arrive? {
      var r := s.runs[e.id];
      LedgerAndHistoryAfter(c, s, e, s');
      SettledWithin(s.settled, e, r);
      if e.Admit? && Fenced(r.demand) && BeginFor(c, s.ledger, r.demand).Begun? {
        hide Step, Enveloped, C.AllWithin, C.BeginSite, C.BeginCommand, NoGrowingRollback;
        BeginKeepsEnvelope(c, s.ledger, r.demand);
      } else if e.Settle? && r.phase.Returned? && Fenced(r.demand) && r.admission.Some? {
        SettleKeepsEnvelope(c, s, e.id, s');
      }
    }
  }

  lemma LedgerAndHistoryAfter(c: Config, s: State, e: Event, s': State)
    requires Step(c, s, e) == Some(s') && !e.Arrive?
    ensures s'.ledger == NextLedger(c, s.ledger, e, s.runs[e.id])
            && s'.settled == NextSettled(s.settled, e, s.runs[e.id])
  {
    hide NextRun, NextLedger, NextSettled, NextOccupied, NextInUse, NextRemoved;
  }

  lemma SettledWithin(settled: map<string, C.Resources>, e: Event, r: Run)
    requires C.AllWithin(settled, SiteResources.MOST)
    requires r.demand.Resize? ==> C.Between(C.ZERO, r.demand.requested, SiteResources.MOST)
    ensures C.AllWithin(NextSettled(settled, e, r), SiteResources.MOST)
  {
  }

  lemma SettleKeepsEnvelope(c: Config, s: State, id: nat, s': State)
    requires Invariant(c, s) && Enveloped(c, s.ledger) && C.AllWithin(s.settled, SiteResources.MOST)
    requires Step(c, s, Settle(id)) == Some(s') && s.runs[id].admission.Some? && NoGrowingRollback(s, Settle(id))
    ensures Enveloped(c, s'.ledger)
  {
    hide Step, Enveloped, SlotsKept, DispatcherKept, Exclusion, LedgerKept, Fenced, C.Current;
    SettledByItsOwn(c, s, id, s');
    var r := s.runs[id];
    if r.demand.Resize? {
      OpenResize(s, id, r.demand.site);
    }
    FinishKeepsEnvelope(c, s.ledger, r.demand, r.admission.value, r.phase.ok);
  }

  /** What a settling run brings along, and what its callback makes of the ledger. */
  lemma SettledByItsOwn(c: Config, s: State, id: nat, s': State)
    requires Exclusion(s) && Step(c, s, Settle(id)) == Some(s') && s.runs[id].admission.Some?
    ensures var r := s.runs[id];
            && Fenced(r.demand) && r.phase.Returned? && LiveOn(s, id, r.demand.site)
            && C.Current(s.ledger, r.admission.value) && r.admission.value.name == r.demand.site
            && s'.ledger == FinishFor(c, s.ledger, r.demand, r.admission.value, r.phase.ok)
  {
    SettleLeavesSite(c, s, id, s');
    hide SiteMove, Exclusion, FinishFor;
  }

  lemma OpenResize(s: State, id: nat, site: string)
    requires LedgerKept(s) && LiveOn(s, id, site) && s.runs[id].demand.Resize?
    ensures Lookup(s.ledger.reservations, site) == Some(s.runs[id].demand.requested)
    ensures FormerValue(s.runs[id].admission.value) == Lookup(s.settled, site)
  {
  }

  /** Inside the envelope no int64 sum wraps: not in any iteration order of `totalLocked`, and
      not in the incremental arithmetic of a further valid request. */
  lemma NoSumWraps(c: Config, start: C.Ledger, trace: seq<Event>, s: State,
                   order: seq<string>, n: nat, site: string, resources: SiteResources.Resources)
    requires Reachable(c, start, trace, s) && Enveloped(c, start)
    requires NeverGrowsBack(c, Initial(c, start), trace)
    requires C.Representable(C.Plus(c.limit, SiteResources.MOST))
    requires C.ListsOnce(order, s.ledger.reservations.Keys) && n <= |order|
    requires SiteResources.Valid(SiteResources.WithDefaults(resources))
    ensures C.Between(C.ZERO, C.PrefixFold(order, s.ledger.reservations, n), c.limit)
    ensures n == |order| ==> C.PrefixFold(order, s.ledger.reservations, n) == C.IdealTotal(s.ledger.reservations)
    ensures var r, m := SiteResources.Reservation(resources), s.ledger.reservations;
            C.Add(C.Subtract(C.Total(m), C.Held(m, site)), r) == C.IdealTotal(m[site := r])
  {
    EnvelopeHolds(c, start, trace, s);
    SiteResources.ValidReservationIsBounded(resources);
    C.ReservationArithmeticDoesNotWrap(s.ledger.reservations, site, SiteResources.Reservation(resources),
                                       SiteResources.MOST, c.limit);
    C.IdealTotalBounds(s.ledger.reservations, SiteResources.MOST);
    WithinPlus(c.limit);
    C.PartialSumsDoNotWrap(order, s.ledger.reservations, n, SiteResources.MOST, c.limit);
  }

  /** A limit that is the ceiling of a non-negative sum is itself representable. */
  lemma WithinPlus(limit: C.Resources)
    requires C.Fits(C.ZERO, limit) && C.Representable(C.Plus(limit, SiteResources.MOST))
    ensures C.Representable(limit)
  {
  }

  lemma BeginKeepsEnvelope(c: Config, l: C.Ledger, d: Demand)
    requires Enveloped(c, l) && C.Representable(C.Plus(c.limit, SiteResources.MOST))
    requires Fenced(d) && BeginFor(c, l, d).Begun?
    requires d.Resize? ==> C.Between(C.ZERO, d.requested, SiteResources.MOST)
    ensures Enveloped(c, BeginFor(c, l, d).ledger)
  {
    if d.Resize? {
      C.BeginSiteStaysWithin(l, c.limit, d.site, d.requested, SiteResources.MOST);
    }
  }

  lemma FinishKeepsEnvelope(c: Config, l: C.Ledger, d: Demand, a: C.Admission, ok: bool)
    requires Enveloped(c, l) && Fenced(d) && C.Current(l, a) && a.name == d.site
    requires d.Resize? ==> Lookup(l.reservations, d.site) == Some(d.requested)
                           && C.Between(C.ZERO, d.requested, SiteResources.MOST)
    requires d.Resize? && !ok && a.existed ==> C.Between(C.ZERO, a.previous, d.requested)
    ensures Enveloped(c, FinishFor(c, l, d, a, ok))
  {
    hide C.Wrapped, C.IdealTotal;
    if d.Resize? && !ok && a.existed {
      C.IdealTotalPut(l.reservations, d.site, a.previous);
    } else {
      C.IdealTotalDrop(l.reservations, d.site);
    }
  }
}
