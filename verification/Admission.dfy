/**
 Admission of commands whose provisioner may outlive its dispatcher
 (internal/command/admission.go, and ExecuteContext and runWithTimeout in
 internal/command/executor.go, with the ledger of internal/capacity/manager.go).

 A run is one command on its way through the executor. Every event below is one
 atomic step of one run: a channel operation, a section under the manager's
 mutex, or a return. A trace is any sequence of enabled events, so it covers
 every interleaving of the dispatcher with any number of provisioners that are
 still unwinding after their deadline fired or their poll was cancelled.
 */
module Admission {
  import opened Wrappers
  import C = Capacity
  import SiteResources

  // ---------- Command classification ----------

  /** The command catalogue, in the order of internal/command/command.go; `Other` stands for
      the types admission treats alike: pings, updates, inspections, mail, TLS and unknown ones. */
  datatype CommandType =
    | SiteCreate | SiteSuspend | SiteResume | SiteAddDomain | SiteRemoveDomain | SiteDelete | SiteSetResources
    | SiteAppInstall | SiteAppUpdate | SiteAppAdminPassword | RuntimeSetVersion
    | SFTPCreate | SFTPUpdateKey | SFTPRevoke | SFTPUserCreate | SFTPUserUpdateKey | SFTPUserDelete
    | DatabaseCreate | DatabaseRotatePassword | DatabaseDelete
    | DatabaseUserCreate | DatabaseUserDelete | DatabaseGrant | DatabaseRevoke
    | SiteFilesList | SiteFilesMkdir | SiteFilesWrite | SiteFilesRead | SiteFilesDelete | SiteFilesUnzip
    | SiteFilesRename
    | SiteUsage | SiteLogsRead | SiteCronList | SiteCronReplace
    | SiteBackupList | SiteBackupCreate | SiteBackupRestore | SiteBackupVerify
    | Other

  datatype Payload = Malformed | Payload(siteID: string, resources: SiteResources.Resources)

  /** A payload that its parser refuses is `Malformed`. */
  datatype Command = Command(ctype: CommandType, payload: Payload)

  /** The types of the second case of `siteMutationID`, less the one with a branch of its own. */
  predicate MutatesSite(t: CommandType) {
    match t
    case RuntimeSetVersion | SiteSuspend | SiteResume | SiteAddDomain | SiteRemoveDomain => true
    case SiteAppInstall | SiteAppUpdate | SiteAppAdminPassword | SFTPCreate | SFTPUpdateKey | SFTPRevoke => true
    case SFTPUserCreate | SFTPUserUpdateKey | SFTPUserDelete => true
    case DatabaseCreate | DatabaseRotatePassword | DatabaseDelete => true
    case DatabaseUserCreate | DatabaseUserDelete | DatabaseGrant | DatabaseRevoke => true
    case SiteFilesMkdir | SiteFilesWrite | SiteFilesDelete | SiteFilesUnzip | SiteFilesRename => true
    case SiteCronReplace | SiteBackupCreate | SiteBackupRestore => true
    case _ => false
  }

  datatype Kind = Backup | Restore | Archive | Usage | Logs | Database | Unlimited

  function OperationKind(t: CommandType): Kind {
    match t
    case SiteBackupCreate | SiteBackupVerify => Backup
    case SiteBackupRestore => Restore
    case SiteFilesUnzip | SiteAppInstall | SiteAppUpdate => Archive
    case SiteUsage => Usage
    case SiteLogsRead => Logs
    case DatabaseCreate | DatabaseRotatePassword | DatabaseDelete => Database
    case DatabaseUserCreate | DatabaseUserDelete | DatabaseGrant | DatabaseRevoke => Database
    case _ => Unlimited
  }

  /** docs/capacity.md: the pools cover backup, restore, archive, usage, logs and database work. */
  lemma PoolsCover(t: CommandType)
    ensures OperationKind(t) == Backup <==> t in {SiteBackupCreate, SiteBackupVerify}
    ensures OperationKind(t) == Restore <==> t == SiteBackupRestore
    ensures OperationKind(t) == Archive <==> t in {SiteFilesUnzip, SiteAppInstall, SiteAppUpdate}
    ensures OperationKind(t) == Usage <==> t == SiteUsage
    ensures OperationKind(t) == Logs <==> t == SiteLogsRead
    ensures OperationKind(t) == Database
            <==> || t in {DatabaseCreate, DatabaseRotatePassword, DatabaseDelete}
                 || t in {DatabaseUserCreate, DatabaseUserDelete, DatabaseGrant, DatabaseRevoke}
    ensures NeedsScratch(OperationKind(t)) <==> OperationKind(t) in {Backup, Restore, Archive}
  {
  }

  predicate NeedsScratch(kind: Kind) {
    kind.Backup? || kind.Restore? || kind.Archive?
  }

  /** What admission asks of the ledger on behalf of a command. */
  datatype Demand =
    | Unparsable
    | NoSite
    | Mutate(site: string)
    | Resize(site: string, requested: C.Resources)
    | Remove(site: string)

  function DemandOf(command: Command): Demand {
    match (command.ctype, command.payload)
    case (SiteCreate, Payload(site, resources)) => ResizeDemand(site, resources)
    case (SiteSetResources, Payload(site, resources)) => ResizeDemand(site, resources)
    case (SiteDelete, Payload(site, _)) => Remove(site)
    case (SiteCreate, Malformed) => Unparsable
    case (SiteSetResources, Malformed) => Unparsable
    case (SiteDelete, Malformed) => Unparsable
    case (t, Payload(site, _)) => if MutatesSite(t) && site != "" then Mutate(site) else NoSite
    case (_, Malformed) => NoSite
  }

  function ResizeDemand(site: string, resources: SiteResources.Resources): Demand {
    if SiteResources.Valid(SiteResources.WithDefaults(resources))
    then Resize(site, SiteResources.Reservation(resources))
    else Unparsable
  }

  /** What is asked of the ledger: creating and resizing ask for the reservation of the tier, which has to be one that
      is sold; deleting and every other change of a named site ask for its fence; nothing else asks for anything. */
  lemma DemandIff(t: CommandType, site: string, resources: SiteResources.Resources)
    ensures var d := DemandOf(Command(t, Payload(site, resources)));
            var sold := SiteResources.Valid(SiteResources.WithDefaults(resources));
            && (t in {SiteCreate, SiteSetResources} ==>
                  d == if sold then Resize(site, SiteResources.Reservation(resources)) else Unparsable)
            && (t == SiteDelete ==> d == Remove(site))
            && (t !in {SiteCreate, SiteSetResources, SiteDelete} ==>
                  d == if MutatesSite(t) && site != "" then Mutate(site) else NoSite)
    ensures DemandOf(Command(t, Malformed)) == Unparsable <==> t in {SiteCreate, SiteSetResources, SiteDelete}
    ensures DemandOf(Command(t, Malformed)) in {Unparsable, NoSite}
  {
  }

  predicate Fenced(d: Demand) {
    d.Mutate? || d.Resize? || d.Remove?
  }

  // ---------- Runs and states ----------

  datatype Phase =
    | Waiting             // at the channel send in AcquireOperation
    | Sent                // slot taken, `inUse` not yet raised
    | Admitting           // slot counted (or none needed), admission not yet decided
    | Running             // admitted; the provisioner has not returned
    | Returned(ok: bool)  // the provisioner returned, its finish callback has not run
    | Releasing           // ledger settled or admission refused; slot still held
    | Draining            // slot given back, `inUse` not yet lowered
    | Done

  /** `taken` and `given` count the channel sends and receives of the run's slot. */
  datatype Run = Run(kind: Kind, demand: Demand, phase: Phase, admission: Option<C.Admission>, taken: nat, given: nat)

  datatype Config = Config(limit: C.Resources, slots: map<Kind, nat>)

  /**
   `dispatcher` is the run that holds the executor's mutex. `settled` and
   `removed` are history: what the last successful create or resize of a site
   asked for, and the sites deleted successfully.
   */
  datatype State = State(
    ledger: C.Ledger,
    occupied: map<Kind, nat>,
    inUse: map<Kind, int>,
    runs: map<nat, Run>,
    dispatcher: Option<nat>,
    settled: map<string, C.Resources>,
    removed: set<string>)

  datatype Event =
    | Arrive(id: nat, command: Command)
    | GiveUp(id: nat)                     // the context ends while waiting for a slot
    | Take(id: nat)
    | Raise(id: nat)                      // raise `inUse`
    | RefuseScratch(id: nat)
    | Admit(id: nat)
    | Detach(id: nat, deadline: bool)     // deadline fired, or the parent was cancelled
    | Return(id: nat, ok: bool)
    | Settle(id: nat)
    | Drain(id: nat)
    | Lower(id: nat)                      // lower `inUse`

  predicate Limited(c: Config, r: Run) {
    r.kind in c.slots
  }

  function Initial(c: Config, ledger: C.Ledger): State {
    State(ledger, map k | k in c.slots :: 0, map k | k in c.slots :: 0, map[], None, ledger.reservations, {})
  }

  /** The state after event `e`, or None where the event is not enabled. */
  ghost function Step(c: Config, s: State, e: Event): Option<State> {
    if e.Arrive? then
      if e.id in s.runs || s.dispatcher.Some? then None
      else Some(s.(runs := s.runs[e.id := NewRun(e.command)], dispatcher := Some(e.id)))
    else if e.id !in s.runs then None
    else
      var r := s.runs[e.id];
      match NextRun(c, s, e, r)
      case None => None
      case Some(r') =>
        Some(State(NextLedger(c, s.ledger, e, r), NextOccupied(c, s.occupied, e, r), NextInUse(c, s.inUse, e, r),
                   s.runs[e.id := r'],
                   if s.dispatcher == Some(e.id) && (e.Detach? || r'.phase.Done?) then None else s.dispatcher,
                   NextSettled(s.settled, e, r), NextRemoved(s.removed, e, r)))
  }

  function NewRun(command: Command): Run {
    Run(OperationKind(command.ctype), DemandOf(command), Waiting, None, 0, 0)
  }

  /** The run after its event; a full channel blocks a send, an empty one a receive. */
  ghost function NextRun(c: Config, s: State, e: Event, r: Run): Option<Run> {
    match (e, r.phase)
    case (GiveUp(_), Waiting) => if Limited(c, r) then Some(r.(phase := Done)) else None
    case (Take(_), Waiting) =>
      if !Limited(c, r) then Some(r.(phase := Admitting))
      else if r.kind in s.occupied && s.occupied[r.kind] < c.slots[r.kind] then
        Some(r.(phase := Sent, taken := r.taken + 1))
      else None
    case (Raise(_), Sent) => Some(r.(phase := Admitting))
    case (RefuseScratch(_), Admitting) => if NeedsScratch(r.kind) then Some(r.(phase := Releasing)) else None
    case (Admit(_), Admitting) => Some(AdmittedRun(c, s.ledger, r))
    case (Detach(id, _), Running) => if s.dispatcher == Some(id) then Some(r) else None
    case (Detach(id, _), Returned(_)) => if s.dispatcher == Some(id) then Some(r) else None
    case (Return(_, ok), Running) => Some(r.(phase := Returned(ok)))
    case (Settle(_), Returned(_)) => Some(r.(phase := Releasing))
    case (Drain(_), Releasing) =>
      if !Limited(c, r) then Some(r.(phase := Done))
      else if r.kind in s.occupied && 0 < s.occupied[r.kind] then Some(r.(phase := Draining, given := r.given + 1))
      else None
    case (Lower(_), Draining) => Some(r.(phase := Done))
    case _ => None
  }

  /** The rest of `admit`, once the slot is held. */
  ghost function AdmittedRun(c: Config, l: C.Ledger, r: Run): Run {
    if r.demand.Unparsable? then r.(phase := Releasing)
    else if r.demand.NoSite? then r.(phase := Running)
    else
      match BeginFor(c, l, r.demand)
      case Refused(_) => r.(phase := Releasing)
      case Begun(_, admission) => r.(phase := Running, admission := Some(admission))
  }

  ghost function BeginFor(c: Config, l: C.Ledger, d: Demand): C.Begun
    requires Fenced(d)
  {
    if d.Resize? then C.BeginSite(l, c.limit, d.site, d.requested) else C.BeginCommand(l, d.site)
  }

  /** The ledger part of the finish callback. */
  ghost function FinishFor(c: Config, l: C.Ledger, d: Demand, a: C.Admission, ok: bool): C.Ledger
    requires Fenced(d)
  {
    if d.Resize? then C.FinishSite(l, c.limit, a, ok)
    else if d.Remove? && ok then C.ReleaseSite(l, c.limit, d.site)
    else C.FinishCommand(l, a)
  }

  ghost function NextLedger(c: Config, l: C.Ledger, e: Event, r: Run): C.Ledger {
    if e.Admit? && Fenced(r.demand) && BeginFor(c, l, r.demand).Begun? then BeginFor(c, l, r.demand).ledger
    else if e.Settle? && Fenced(r.demand) && r.phase.Returned? && r.admission.Some? then
      FinishFor(c, l, r.demand, r.admission.value, r.phase.ok)
    else l
  }

  /** Whether this event is a finish callback that reports success. */
  predicate Succeeds(e: Event, r: Run) {
    e.Settle? && r.phase == Returned(true) && r.admission.Some?
  }

  function NextSettled(settled: map<string, C.Resources>, e: Event, r: Run): map<string, C.Resources> {
    if Succeeds(e, r) && r.demand.Resize? then settled[r.demand.site := r.demand.requested]
    else if Succeeds(e, r) && r.demand.Remove? then Without(settled, r.demand.site)
    else settled
  }

  function NextRemoved(removed: set<string>, e: Event, r: Run): set<string> {
    if Succeeds(e, r) && r.demand.Remove? then removed + {r.demand.site} else removed
  }

  function NextOccupied(c: Config, occupied: map<Kind, nat>, e: Event, r: Run): map<Kind, nat> {
    if !Limited(c, r) || r.kind !in occupied then occupied
    else if e.Take? then occupied[r.kind := occupied[r.kind] + 1]
    else if e.Drain? && 0 < occupied[r.kind] then occupied[r.kind := occupied[r.kind] - 1]
    else occupied
  }

  function NextInUse(c: Config, inUse: map<Kind, int>, e: Event, r: Run): map<Kind, int> {
    if !Limited(c, r) || r.kind !in inUse then inUse
    else if e.Raise? then inUse[r.kind := inUse[r.kind] + 1]
    else if e.Lower? then inUse[r.kind := inUse[r.kind] - 1]
    else inUse
  }

  /** The state after a whole trace, or None if some event was not enabled. */
  ghost function After(c: Config, s: State, trace: seq<Event>): Option<State> {
    if trace == [] then Some(s)
    else
      match After(c, s, trace[..|trace| - 1])
      case None => None
      case Some(before) => Step(c, before, trace[|trace| - 1])
  }

  ghost predicate Reachable(c: Config, start: C.Ledger, trace: seq<Event>, s: State) {
    start.fences == map[] && start.generations == map[] && After(c, Initial(c, start), trace) == Some(s)
  }

  // ---------- Site exclusion ----------

  /** Between a successful admission and the ledger part of its finish. */
  predicate Live(r: Run) {
    r.admission.Some? && (r.phase.Running? || r.phase.Returned?)
  }

  ghost predicate LiveOn(s: State, id: nat, site: string) {
    id in s.runs && Live(s.runs[id]) && s.runs[id].admission.value.name == site
  }

  ghost predicate OwnsFence(s: State, id: nat)
    requires id in s.runs && s.runs[id].admission.Some?
  {
    var a := s.runs[id].admission.value;
    && Fenced(s.runs[id].demand) && s.runs[id].demand.site == a.name
    && 0 < a.generation == C.Counter(s.ledger.fences, a.name) == C.Counter(s.ledger.generations, a.name)
    && a.name !in s.removed
  }

  ghost predicate FencesHeld(s: State) {
    && (forall id <- s.runs :: PhaseFits(s.runs[id]))
    && (forall id <- s.runs :: Live(s.runs[id]) ==> OwnsFence(s, id))
  }

  ghost predicate OneLivePerSite(s: State) {
    forall i, j, site :: LiveOn(s, i, site) && LiveOn(s, j, site) ==> i == j
  }

  ghost predicate HasLive(s: State, site: string) {
    exists id :: LiveOn(s, id, site)
  }

  ghost predicate FencesAccountedFor(s: State) {
    && (forall site :: C.Counter(s.ledger.fences, site) != 0 ==> site in s.removed || HasLive(s, site))
    && (forall site <- s.removed :: C.Counter(s.ledger.fences, site) != 0
                                    && site !in s.ledger.reservations && site !in s.settled)
  }

  ghost predicate Exclusion(s: State) {
    FencesHeld(s) && OneLivePerSite(s) && FencesAccountedFor(s)
  }

  /** Early phases carry no admission; between admission and finish a run carries one exactly if its type is fenced. */
  predicate PhaseFits(r: Run) {
    match r.phase
    case Waiting => r.admission.None?
    case Sent => r.admission.None?
    case Admitting => r.admission.None?
    case Running => Fenced(r.demand) <==> r.admission.Some?
    case Returned(_) => Fenced(r.demand) <==> r.admission.Some?
    case _ => true
  }

  /** One run moves on, with no change to the ledger, to its admission or to its being live. */
  ghost predicate QuietMove(s: State, id: nat, s': State) {
    && id in s'.runs && s'.runs == s.runs[id := s'.runs[id]] && PhaseFits(s'.runs[id])
    && s'.ledger == s.ledger && s'.removed == s.removed && s'.settled == s.settled
    && if id in s.runs
       then Live(s.runs[id]) == Live(s'.runs[id]) && s.runs[id].admission == s'.runs[id].admission
            && s.runs[id].demand == s'.runs[id].demand
       else !Live(s'.runs[id])
  }

  lemma MostEventsAreQuiet(c: Config, s: State, e: Event, s': State)
    requires FencesHeld(s) && Step(c, s, e) == Some(s') && !e.Admit? && !e.Settle?
    ensures QuietMove(s, e.id, s')
  {
    assert e.id in s.runs ==> PhaseFits(s.runs[e.id]);
  }

  lemma ExclusionStep(c: Config, s: State, e: Event, s': State)
    requires Exclusion(s) && Step(c, s, e) == Some(s')
    ensures Exclusion(s')
  {
    if e.Admit? {
      AdmitKeepsExclusion(c, s, e.id, s');
    } else if e.Settle? {
      SettleKeepsExclusion(c, s, e.id, s');
    } else {
      MostEventsAreQuiet(c, s, e, s');
      QuietMoveKeepsExclusion(s, e.id, s');
    }
  }

  lemma QuietMoveKeepsExclusion(s: State, id: nat, s': State)
    requires Exclusion(s) && QuietMove(s, id, s')
    ensures Exclusion(s')
  {
    forall i, site ensures LiveOn(s, i, site) <==> LiveOn(s', i, site) {}
    forall site | HasLive(s, site) ensures HasLive(s', site) {
      var i :| LiveOn(s, i, site);
      assert LiveOn(s', i, site);
    }
    forall i | i in s'.runs && Live(s'.runs[i]) ensures OwnsFence(s', i) {
      assert OwnsFence(s, i);
    }
  }

  /** Ledgers and histories that differ at most at one site. */
  ghost predicate SameElsewhere(s: State, s': State, site: string) {
    && C.TouchesOnly(s.ledger, s'.ledger, site)
    && (forall other | other != site :: (other in s'.removed <==> other in s.removed)
                                        && Lookup(s'.settled, other) == Lookup(s.settled, other))
  }

  /** One run enters or leaves one site, on which no other run is live. */
  ghost predicate SiteMove(s: State, id: nat, s': State, site: string) {
    && id in s.runs && id in s'.runs && s'.runs == s.runs[id := s'.runs[id]]
    && PhaseFits(s'.runs[id]) && s'.runs[id].demand == s.runs[id].demand
    && SameElsewhere(s, s', site)
    && (forall i | i != id :: !LiveOn(s, i, site))
    && (Live(s.runs[id]) ==> LiveOn(s, id, site))
    && (Live(s'.runs[id]) ==> LiveOn(s', id, site))
  }

  lemma SiteMoveKeepsExclusion(s: State, id: nat, s': State, site: string)
    requires Exclusion(s) && SiteMove(s, id, s', site)
    requires Live(s'.runs[id]) ==> OwnsFence(s', id)
    requires C.Counter(s'.ledger.fences, site) != 0 ==> site in s'.removed || Live(s'.runs[id])
    requires site in s'.removed ==> C.Counter(s'.ledger.fences, site) != 0
                                    && site !in s'.ledger.reservations && site !in s'.settled
    ensures Exclusion(s')
  {
    forall i, other | i != id ensures LiveOn(s', i, other) <==> LiveOn(s, i, other) {}
    forall i | i in s'.runs && Live(s'.runs[i]) ensures OwnsFence(s', i) {
      if i != id {
        assert LiveOn(s, i, s.runs[i].admission.value.name);
        assert OwnsFence(s, i);
      }
    }
    forall other | C.Counter(s'.ledger.fences, other) != 0 ensures other in s'.removed || HasLive(s', other) {
      if other == site {
        assert Live(s'.runs[id]) ==> LiveOn(s', id, site);
      } else if other !in s.removed {
        var i :| LiveOn(s, i, other);
        assert LiveOn(s', i, other);
      }
    }
    forall other | other in s'.removed
      ensures C.Counter(s'.ledger.fences, other) != 0 && other !in s'.ledger.reservations && other !in s'.settled
    {
      if other != site {
        assert Lookup(s'.ledger.reservations, other) == Lookup(s.ledger.reservations, other);
        assert Lookup(s'.settled, other) == Lookup(s.settled, other);
      }
    }
  }

  lemma BeginRaisesFence(c: Config, l: C.Ledger, d: Demand)
    requires Fenced(d) && BeginFor(c, l, d).Begun?
    ensures C.RaisesFence(l, BeginFor(c, l, d), d.site)
    ensures var b := BeginFor(c, l, d);
            if d.Resize?
            then Lookup(b.ledger.reservations, d.site) == Some(d.requested)
                 && FormerValue(b.admission) == Lookup(l.reservations, d.site)
            else b.ledger.reservations == l.reservations
  {
    if d.Resize? {
      C.BeginSiteRaisesFence(l, c.limit, d.site, d.requested);
    } else {
      C.BeginCommandRaisesFence(l, d.site);
    }
  }

  /** What an admission remembers of the reservation it replaced. */
  function FormerValue(a: C.Admission): Option<C.Resources> {
    if a.existed then Some(a.previous) else None
  }

  lemma FinishSettlesFence(c: Config, l: C.Ledger, d: Demand, a: C.Admission, ok: bool)
    requires Fenced(d) && a.name == d.site && C.Current(l, a)
    ensures var l' := FinishFor(c, l, d, a, ok);
            && C.TouchesOnly(l, l', d.site)
            && (C.Counter(l'.fences, d.site) != 0 <==> d.Remove? && ok)
            && Lookup(l'.reservations, d.site) ==
               if d.Remove? && ok then None
               else if d.Resize? && !ok then FormerValue(a)
               else Lookup(l.reservations, d.site)
  {
    C.FinishLowersFence(l, c.limit, a, ok);
    C.ReleaseKeepsFence(l, c.limit, a.name);
  }

  lemma AdmitEntersSite(c: Config, s: State, id: nat, s': State)
    requires Exclusion(s) && Step(c, s, Admit(id)) == Some(s')
    requires Fenced(s.runs[id].demand) && BeginFor(c, s.ledger, s.runs[id].demand).Begun?
    ensures var d := s.runs[id].demand;
            && SiteMove(s, id, s', d.site) && OwnsFence(s', id) && Live(s'.runs[id])
            && s'.removed == s.removed && s'.settled == s.settled && d.site !in s.removed
            && s'.ledger == BeginFor(c, s.ledger, d).ledger
            && s'.runs[id].admission == Some(BeginFor(c, s.ledger, d).admission)
  {
    var d := s.runs[id].demand;
    assert PhaseFits(s.runs[id]);
    BeginRaisesFence(c, s.ledger, d);
    FreeSiteHasNoRun(s, d.site);
    assert d.site !in s.removed;
    assert LiveOn(s', id, d.site);
  }

  lemma SettleLeavesSite(c: Config, s: State, id: nat, s': State)
    requires Exclusion(s) && Step(c, s, Settle(id)) == Some(s') && s.runs[id].admission.Some?
    ensures var r := s.runs[id];
            && Fenced(r.demand) && LiveOn(s, id, r.demand.site)
            && C.Current(s.ledger, r.admission.value) && r.admission.value.name == r.demand.site
            && SiteMove(s, id, s', r.demand.site) && !Live(s'.runs[id])
            && s'.ledger == FinishFor(c, s.ledger, r.demand, r.admission.value, r.phase.ok)
            && r.demand.site !in s.removed
  {
    var r := s.runs[id];
    assert PhaseFits(r) && OwnsFence(s, id) && LiveOn(s, id, r.demand.site);
    FinishSettlesFence(c, s.ledger, r.demand, r.admission.value, r.phase.ok);
  }

  lemma AdmitKeepsExclusion(c: Config, s: State, id: nat, s': State)
    requires Exclusion(s) && Step(c, s, Admit(id)) == Some(s')
    ensures Exclusion(s')
  {
    var d := s.runs[id].demand;
    assert PhaseFits(s.runs[id]);
    if !Fenced(d) || BeginFor(c, s.ledger, d).Refused? {
      QuietMoveKeepsExclusion(s, id, s');
    } else {
      AdmitEntersSite(c, s, id, s');
      SiteMoveKeepsExclusion(s, id, s', d.site);
    }
  }

  lemma FreeSiteHasNoRun(s: State, site: string)
    requires Exclusion(s) && C.Counter(s.ledger.fences, site) == 0
    ensures forall i :: !LiveOn(s, i, site)
  {
    assert forall i <- s.runs :: Live(s.runs[i]) ==> OwnsFence(s, i);
  }

  lemma SettleKeepsExclusion(c: Config, s: State, id: nat, s': State)
    requires Exclusion(s) && Step(c, s, Settle(id)) == Some(s')
    ensures Exclusion(s')
  {
    var r := s.runs[id];
    assert PhaseFits(r);
    if r.admission.None? {
      QuietMoveKeepsExclusion(s, id, s');
    } else {
      SettleLeavesSite(c, s, id, s');
      FinishSettlesFence(c, s.ledger, r.demand, r.admission.value, r.phase.ok);
      SiteMoveKeepsExclusion(s, id, s', r.demand.site);
    }
  }

  // ---------- Reservation ledger ----------

  ghost predicate HasPendingResize(s: State, site: string) {
    exists id :: LiveOn(s, id, site) && s.runs[id].demand.Resize?
  }

  /** While a create or resize is open the site holds its request and the admission carries the
      settled value; at any other time the site holds the settled value. */
  ghost predicate LedgerKept(s: State) {
    && (forall id, site :: LiveOn(s, id, site) && s.runs[id].demand.Resize? ==>
          && Lookup(s.ledger.reservations, site) == Some(s.runs[id].demand.requested)
          && FormerValue(s.runs[id].admission.value) == Lookup(s.settled, site))
    && (forall site :: !HasPendingResize(s, site) ==> Lookup(s.ledger.reservations, site) == Lookup(s.settled, site))
  }

  lemma LedgerStep(c: Config, s: State, e: Event, s': State)
    requires Exclusion(s) && LedgerKept(s) && Step(c, s, e) == Some(s')
    ensures LedgerKept(s')
  {
    if e.Admit? {
      AdmitKeepsLedger(c, s, e.id, s');
    } else if e.Settle? {
      SettleKeepsLedger(c, s, e.id, s');
    } else {
      MostEventsAreQuiet(c, s, e, s');
      QuietMoveKeepsLedger(s, e.id, s');
    }
  }

  lemma QuietMoveKeepsLedger(s: State, id: nat, s': State)
    requires LedgerKept(s) && QuietMove(s, id, s')
    ensures LedgerKept(s')
  {
    forall i, site ensures LiveOn(s, i, site) <==> LiveOn(s', i, site) {}
    forall site | HasPendingResize(s, site) ensures HasPendingResize(s', site) {
      var i :| LiveOn(s, i, site) && s.runs[i].demand.Resize?;
      assert LiveOn(s', i, site);
    }
  }

  lemma SiteMoveKeepsLedger(s: State, id: nat, s': State, site: string)
    requires LedgerKept(s) && SiteMove(s, id, s', site)
    requires if Live(s'.runs[id]) && s'.runs[id].demand.Resize?
             then Lookup(s'.ledger.reservations, site) == Some(s'.runs[id].demand.requested)
                  && FormerValue(s'.runs[id].admission.value) == Lookup(s'.settled, site)
             else Lookup(s'.ledger.reservations, site) == Lookup(s'.settled, site)
    ensures LedgerKept(s')
  {
    forall i, other | i != id ensures LiveOn(s', i, other) <==> LiveOn(s, i, other) {}
    forall i, other | LiveOn(s', i, other) && s'.runs[i].demand.Resize?
      ensures Lookup(s'.ledger.reservations, other) == Some(s'.runs[i].demand.requested)
      ensures FormerValue(s'.runs[i].admission.value) == Lookup(s'.settled, other)
    {
      if i != id {
        assert LiveOn(s, i, other) && other != site;
      }
    }
    forall other | other != site && HasPendingResize(s, other) ensures HasPendingResize(s', other) {
      var i :| LiveOn(s, i, other) && s.runs[i].demand.Resize?;
      assert LiveOn(s', i, other);
    }
    assert Live(s'.runs[id]) && s'.runs[id].demand.Resize? ==> LiveOn(s', id, site);
  }

  lemma AdmitKeepsLedger(c: Config, s: State, id: nat, s': State)
    requires Exclusion(s) && LedgerKept(s) && Step(c, s, Admit(id)) == Some(s')
    ensures LedgerKept(s')
  {
    var d := s.runs[id].demand;
    assert PhaseFits(s.runs[id]);
    if !Fenced(d) || BeginFor(c, s.ledger, d).Refused? {
      QuietMoveKeepsLedger(s, id, s');
    } else {
      AdmitEntersSite(c, s, id, s');
      BeginRaisesFence(c, s.ledger, d);
      assert forall i :: !LiveOn(s, i, d.site);
      assert !HasPendingResize(s, d.site);
      SiteMoveKeepsLedger(s, id, s', d.site);
    }
  }

  lemma SettleKeepsLedger(c: Config, s: State, id: nat, s': State)
    requires Exclusion(s) && LedgerKept(s) && Step(c, s, Settle(id)) == Some(s')
    ensures LedgerKept(s')
  {
    var r := s.runs[id];
    assert PhaseFits(r);
    if r.admission.None? {
      QuietMoveKeepsLedger(s, id, s');
    } else {
      SettleLeavesSite(c, s, id, s');
      FinishSettlesFence(c, s.ledger, r.demand, r.admission.value, r.phase.ok);
      if !r.demand.Resize? {
        assert !HasPendingResize(s, r.demand.site);
      }
      SiteMoveKeepsLedger(s, id, s', r.demand.site);
    }
  }
}
