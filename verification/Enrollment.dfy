/**
 Committing key, certificate and CA as one generation (internal/enrollment/manager.go).

 A writer holds a lock and writes one file after another; readers hold none and resolve
 each file through the manifest on their own. Every file has an image as in StoreFile:
 what a process sees, and what a power loss may leave.
 */
module Enrollment {
  import opened Wrappers
  import D = Durable
  import opened StoreFile

  datatype Name = Key | Certificate | CA

  /** Inside a generation directory, or at the path older tooling reads. */
  datatype Location = InGeneration(generation: string, name: Name) | Mirror(name: Name)

  /** persistGeneration under way: `done` of its seven writes have returned nil. */
  datatype Job = Job(generation: string, key: string, certificate: string, ca: string, done: nat)

  type Contents = Image<Option<string>>

  /** `manifest` names the committed generation; its other fields follow from the name. */
  datatype State = State(dirs: set<string>, files: map<Location, Contents>, manifest: Contents, job: Option<Job>)

  const ABSENT: Contents := Image(None, {None})

  function At(s: State, l: Location): Contents {
    if l in s.files then s.files[l] else ABSENT
  }

  /** `materialPath` */
  function Resolve(s: State, name: Name): Location {
    match s.manifest.visible
    case None => Mirror(name)
    case Some(generation) => InGeneration(generation, name)
  }

  function Read(s: State, l: Location): Option<string> {
    At(s, l).visible
  }

  function Current(s: State, name: Name): Option<string> {
    Read(s, Resolve(s, name))
  }

  predicate Enrolled(s: State) {
    Current(s, Key).Some? && Current(s, Certificate).Some? && Current(s, CA).Some?
  }

  // ---------- Steps ----------

  function NameAt(i: nat): Name {
    if i == 0 then Key else if i == 1 then Certificate else CA
  }

  function Rank(name: Name): nat {
    match name case Key => 0 case Certificate => 1 case CA => 2
  }

  function DataOf(j: Job, name: Name): string {
    match name case Key => j.key case Certificate => j.certificate case CA => j.ca
  }

  function WriteAt(s: State, l: Location, data: string, outcome: D.Outcome): State {
    s.(files := s.files[l := Rewritten(At(s, l), Some(data), outcome)])
  }

  /** Three generation files, the manifest, three mirrors. */
  function Written(s: State, j: Job, outcome: D.Outcome): State {
    if j.done < 3 then WriteAt(s, InGeneration(j.generation, NameAt(j.done)), DataOf(j, NameAt(j.done)), outcome)
    else if j.done == 3 then s.(manifest := Rewritten(s.manifest, Some(j.generation), outcome))
    else WriteAt(s, Mirror(NameAt(j.done - 4)), DataOf(j, NameAt(j.done - 4)), outcome)
  }

  /** An error ends the job, and so does the last write. */
  function Advance(s: State, j: Job, outcome: D.Outcome): State {
    Written(s, j, outcome).(job := if outcome.Written? && j.done < 6 then Some(j.(done := j.done + 1)) else None)
  }

  /** `found` is what survives in each file. */
  datatype Event =
    | StartEnroll(generation: string, key: string, certificate: string, ca: string)
    | StartRenew(generation: string, certificate: string, ca: string)
    | Write(outcome: D.Outcome)
    | Killed
    | PowerLost(manifest: Option<string>, found: map<Location, Option<string>>)

  /** `matches` says that a certificate was issued for a key; an issued one that does not match is refused. */
  function Next(matches: (string, string) -> bool, s: State, e: Event): Option<State> {
    match e
    case StartEnroll(generation, key, certificate, ca) =>
      if s.job.Some? || generation in s.dirs || !matches(key, certificate) then None
      else Some(s.(dirs := s.dirs + {generation}, job := Some(Job(generation, key, certificate, ca, 0))))
    case StartRenew(generation, certificate, ca) =>
      if s.job.Some? || generation in s.dirs || !Enrolled(s) || !matches(Current(s, Key).value, certificate) then None
      else
        Some(s.(dirs := s.dirs + {generation},
                job := Some(Job(generation, Current(s, Key).value, certificate, ca, 0))))
    case Write(outcome) => if s.job == None then None else Some(Advance(s, s.job.value, outcome))
    case Killed => Some(s.(job := None))
    case PowerLost(manifest, found) =>
      if manifest !in s.manifest.crash || found.Keys != s.files.Keys then None
      else if exists l :: l in s.files && found[l] !in s.files[l].crash then None
      else Some(State(s.dirs, map l | l in s.files :: Image(found[l], {found[l]}), Image(manifest, {manifest}), None))
  }

  // ---------- Crash points ----------

  predicate Durable(c: Contents) {
    c.visible.Some? && c.crash == {c.visible}
  }

  /** All three files are written for good, and the certificate is for the key. */
  ghost predicate Complete(matches: (string, string) -> bool, s: State, generation: string) {
    && generation in s.dirs
    && (forall name: Name :: Durable(At(s, InGeneration(generation, name))))
    && matches(Read(s, InGeneration(generation, Key)).value, Read(s, InGeneration(generation, Certificate)).value)
  }

  /** The mirrors as the first generation found them: a complete set from before manifests, or nothing. */
  ghost predicate Untouched(matches: (string, string) -> bool, s: State) {
    || (forall name: Name :: At(s, Mirror(name)) == ABSENT)
    || ((forall name: Name :: Durable(At(s, Mirror(name))))
        && matches(Read(s, Mirror(Key)).value, Read(s, Mirror(Certificate)).value))
  }

  ghost predicate Named(s: State, m: Option<string>) {
    m == s.manifest.visible || m in s.manifest.crash
  }

  /** What the running job has achieved. */
  ghost predicate JobSound(matches: (string, string) -> bool, s: State, j: Job) {
    && j.generation in s.dirs && matches(j.key, j.certificate) && j.done <= 6
    && (forall name: Name | Rank(name) < j.done ::
          At(s, InGeneration(j.generation, name)) == Image(Some(DataOf(j, name)), {Some(DataOf(j, name))}))
    && (j.done <= 3 ==> !Named(s, Some(j.generation)))
    && (j.done > 3 ==> s.manifest == Image(Some(j.generation), {Some(j.generation)}))
  }

  ghost predicate Sound(matches: (string, string) -> bool, s: State) {
    && (forall generation | Named(s, Some(generation)) :: Complete(matches, s, generation))
    && (Named(s, None) ==> Untouched(matches, s))
    && (s.job.Some? ==> JobSound(matches, s, s.job.value))
    && s.manifest.visible in s.manifest.crash
  }

  /** The manifest is written last, so a generation named by it is complete. */
  lemma CommitIsSound(matches: (string, string) -> bool, s: State, j: Job, outcome: D.Outcome)
    requires Sound(matches, s) && s.job == Some(j) && j.done == 3
    ensures Sound(matches, Advance(s, j, outcome))
  {
    var s' := Advance(s, j, outcome);
    forall name: Name ensures Durable(At(s', InGeneration(j.generation, name))) {
      assert Rank(name) < j.done;
    }
    assert Complete(matches, s', j.generation);
    forall generation | Named(s', Some(generation)) ensures Complete(matches, s', generation) {
      if generation != j.generation {
        assert Named(s, Some(generation));
      }
    }
    assert Named(s', None) ==> Named(s, None);
  }

  lemma GenerationFileIsSound(matches: (string, string) -> bool, s: State, j: Job, outcome: D.Outcome)
    requires Sound(matches, s) && s.job == Some(j) && j.done < 3
    ensures Sound(matches, Advance(s, j, outcome))
  {
    var s' := Advance(s, j, outcome);
    forall generation | Named(s', Some(generation)) ensures Complete(matches, s', generation) {
      assert Named(s, Some(generation)) && generation != j.generation;
      forall name: Name ensures At(s', InGeneration(generation, name)) == At(s, InGeneration(generation, name)) {
      }
    }
    forall name: Name ensures At(s', Mirror(name)) == At(s, Mirror(name)) {
    }
  }

  lemma MirrorIsSound(matches: (string, string) -> bool, s: State, j: Job, outcome: D.Outcome)
    requires Sound(matches, s) && s.job == Some(j) && j.done > 3
    ensures Sound(matches, Advance(s, j, outcome))
  {
    var s' := Advance(s, j, outcome);
    forall generation | Named(s', Some(generation)) ensures Complete(matches, s', generation) {
      assert Named(s, Some(generation));
      forall name: Name ensures At(s', InGeneration(generation, name)) == At(s, InGeneration(generation, name)) {
      }
    }
  }

  lemma PowerLossIsSound(matches: (string, string) -> bool, s: State, e: Event, s': State)
    requires Sound(matches, s) && e.PowerLost? && Next(matches, s, e) == Some(s')
    ensures Sound(matches, s')
  {
    forall l ensures Survives(At(s, l), At(s', l)) {
    }
    forall generation | Named(s', Some(generation)) ensures Complete(matches, s', generation) {
      assert Named(s, Some(generation));
      forall name: Name ensures At(s', InGeneration(generation, name)) == At(s, InGeneration(generation, name)) {
        assert Durable(At(s, InGeneration(generation, name)));
        assert Survives(At(s, InGeneration(generation, name)), At(s', InGeneration(generation, name)));
      }
    }
    if Named(s', None) {
      assert Named(s, None);
      forall name: Name ensures At(s', Mirror(name)) == At(s, Mirror(name)) {
        assert Survives(At(s, Mirror(name)), At(s', Mirror(name)));
        assert At(s, Mirror(name)) == ABSENT || Durable(At(s, Mirror(name)));
      }
    }
  }

  ghost predicate Survives(before: Contents, after: Contents) {
    after.visible in before.crash && after.crash == {after.visible}
  }

  lemma NextIsSound(matches: (string, string) -> bool, s: State, e: Event, s': State)
    requires Sound(matches, s) && Next(matches, s, e) == Some(s')
    ensures Sound(matches, s')
  {
    match e
    case StartEnroll(_, _, _, _) => StartIsSound(matches, s, s');
    case StartRenew(_, _, _) => StartIsSound(matches, s, s');
    case Write(outcome) =>
      var j := s.job.value;
      if j.done < 3 {
        GenerationFileIsSound(matches, s, j, outcome);
      } else if j.done == 3 {
        CommitIsSound(matches, s, j, outcome);
      } else {
        MirrorIsSound(matches, s, j, outcome);
      }
    case Killed => StartIsSound(matches, s, s');
    case PowerLost(_, _) => PowerLossIsSound(matches, s, e, s');
  }

  lemma StartIsSound(matches: (string, string) -> bool, s: State, s': State)
    requires Sound(matches, s) && s'.files == s.files && s'.manifest == s.manifest && s.dirs <= s'.dirs
    requires s'.job.Some? ==> s'.job.value.generation !in s.dirs && s'.job.value.generation in s'.dirs
                              && matches(s'.job.value.key, s'.job.value.certificate) && s'.job.value.done == 0
    ensures Sound(matches, s')
  {
    forall generation | Named(s', Some(generation)) ensures Complete(matches, s', generation) {
      assert Named(s, Some(generation));
      forall name: Name ensures At(s', InGeneration(generation, name)) == At(s, InGeneration(generation, name)) {
      }
    }
    forall name: Name ensures At(s', Mirror(name)) == At(s, Mirror(name)) {
    }
  }

  function After(matches: (string, string) -> bool, s: State, events: seq<Event>): Option<State> {
    if events == [] then Some(s)
    else
      match After(matches, s, events[..|events| - 1])
      case None => None
      case Some(before) => Next(matches, before, events[|events| - 1])
  }

  lemma {:induction false} RunsAreSound(matches: (string, string) -> bool, s: State, events: seq<Event>, s': State)
    requires Sound(matches, s) && After(matches, s, events) == Some(s')
    ensures Sound(matches, s')
  {
    if events != [] {
      var front := events[..|events| - 1];
      RunsAreSound(matches, s, front, After(matches, s, front).value);
      NextIsSound(matches, After(matches, s, front).value, events[|events| - 1], s');
    }
  }

  lemma FreshIsSound(matches: (string, string) -> bool, s: State)
    requires s.manifest == ABSENT && s.job == None && Untouched(matches, s)
    ensures Sound(matches, s)
  {
  }

  /** Three files of one set, the certificate for the key; or none at all. */
  ghost predicate OneSetOrNone(matches: (string, string) -> bool, s: State) {
    || (Enrolled(s) && matches(Current(s, Key).value, Current(s, Certificate).value))
    || (forall name: Name :: Current(s, name) == None)
  }

  /** One enrolment or renewal: the key, certificate and CA that belong together. */
  datatype Material = Material(key: string, certificate: string, ca: string)

  /** What each generation was started with; a renewal brings the key that was in use. */
  function Issued(matches: (string, string) -> bool, s: State, events: seq<Event>): map<string, Material> {
    if events == [] then map[]
    else
      var front, e := events[..|events| - 1], events[|events| - 1];
      var before := After(matches, s, front);
      if e.StartEnroll? then
        Issued(matches, s, front)[e.generation := Material(e.key, e.certificate, e.ca)]
      else if e.StartRenew? && before.Some? && Current(before.value, Key).Some? then
        Issued(matches, s, front)[e.generation := Material(Current(before.value, Key).value, e.certificate, e.ca)]
      else Issued(matches, s, front)
  }

  /** The three files of a generation are those of one material. */
  predicate Bears(s: State, generation: string, m: Material) {
    && Read(s, InGeneration(generation, Key)) == Some(m.key)
    && Read(s, InGeneration(generation, Certificate)) == Some(m.certificate)
    && Read(s, InGeneration(generation, CA)) == Some(m.ca)
  }

  /** Where everything comes from: a generation the manifest may name bears what it was started with, and as long as
      there may be no manifest the mirrors are as they were. */
  ghost predicate Traced(s0: State, s: State, issued: map<string, Material>) {
    && (forall generation | Named(s, Some(generation)) ::
          generation in issued && Bears(s, generation, issued[generation]))
    && (s.job.Some? ==> Lookup(issued, s.job.value.generation)
                        == Some(Material(s.job.value.key, s.job.value.certificate, s.job.value.ca)))
    && (Named(s, None) ==> forall name: Name :: At(s, Mirror(name)) == At(s0, Mirror(name)))
    && issued.Keys <= s.dirs
  }

  /** A step that leaves manifest and files alone; it may start a job in a new generation. */
  lemma QuietStaysTraced(s0: State, s: State, s': State, issued: map<string, Material>, issued': map<string, Material>)
    requires Traced(s0, s, issued) && s'.files == s.files && s'.manifest == s.manifest && s.dirs <= s'.dirs
    requires issued'.Keys <= s'.dirs && forall g <- issued :: g in issued' && issued'[g] == issued[g]
    requires s'.job.Some? ==> Lookup(issued', s'.job.value.generation)
                              == Some(Material(s'.job.value.key, s'.job.value.certificate, s'.job.value.ca))
    ensures Traced(s0, s', issued')
  {
    forall generation | Named(s', Some(generation))
      ensures generation in issued' && Bears(s', generation, issued'[generation])
    {
      assert Named(s, Some(generation));
    }
    forall name: Name ensures At(s', Mirror(name)) == At(s, Mirror(name)) {
    }
  }

  lemma WriteStaysTraced(matches: (string, string) -> bool, s0: State, s: State, j: Job, outcome: D.Outcome,
      issued: map<string, Material>)
    requires Sound(matches, s) && s.job == Some(j) && Traced(s0, s, issued)
    ensures Traced(s0, Advance(s, j, outcome), issued)
  {
    if j.done == 3 {
      CommitStaysTraced(matches, s0, s, j, outcome, issued);
    } else {
      FileStaysTraced(matches, s0, s, j, outcome, issued);
    }
  }

  lemma CommitStaysTraced(matches: (string, string) -> bool, s0: State, s: State, j: Job, outcome: D.Outcome,
      issued: map<string, Material>)
    requires Sound(matches, s) && s.job == Some(j) && Traced(s0, s, issued) && j.done == 3
    ensures Traced(s0, Advance(s, j, outcome), issued)
  {
    var s' := Advance(s, j, outcome);
    assert forall l :: Read(s', l) == Read(s, l) && At(s', l) == At(s, l);
    JobBearsItsMaterial(matches, s, j);
    forall generation | Named(s', Some(generation))
      ensures generation in issued && Bears(s', generation, issued[generation])
    {
      assert generation != j.generation ==> Named(s, Some(generation));
    }
    assert Named(s', None) ==> Named(s, None);
  }

  lemma FileStaysTraced(matches: (string, string) -> bool, s0: State, s: State, j: Job, outcome: D.Outcome,
      issued: map<string, Material>)
    requires Sound(matches, s) && s.job == Some(j) && Traced(s0, s, issued) && j.done != 3
    ensures Traced(s0, Advance(s, j, outcome), issued)
  {
    var s' := Advance(s, j, outcome);
    forall generation | Named(s', Some(generation))
      ensures generation in issued && Bears(s', generation, issued[generation])
    {
      assert Named(s, Some(generation)) && (j.done < 3 ==> generation != j.generation);
    }
    if Named(s', None) {
      assert Named(s, None) && j.done < 3;
      forall name: Name ensures At(s', Mirror(name)) == At(s, Mirror(name)) {
      }
    }
  }

  lemma JobBearsItsMaterial(matches: (string, string) -> bool, s: State, j: Job)
    requires JobSound(matches, s, j) && j.done >= 3
    ensures Bears(s, j.generation, Material(j.key, j.certificate, j.ca))
  {
    assert At(s, InGeneration(j.generation, Key)).visible == Some(DataOf(j, Key));
    assert At(s, InGeneration(j.generation, Certificate)).visible == Some(DataOf(j, Certificate));
    assert At(s, InGeneration(j.generation, CA)).visible == Some(DataOf(j, CA));
  }

  lemma PowerLossStaysTraced(matches: (string, string) -> bool, s0: State, s: State, e: Event, s': State,
      issued: map<string, Material>)
    requires Sound(matches, s) && Traced(s0, s, issued) && e.PowerLost? && Next(matches, s, e) == Some(s')
    ensures Traced(s0, s', issued)
  {
    forall l ensures Survives(At(s, l), At(s', l)) {
    }
    forall generation | Named(s', Some(generation))
      ensures generation in issued && Bears(s', generation, issued[generation])
    {
      assert Named(s, Some(generation)) && Complete(matches, s, generation);
      forall name: Name ensures At(s', InGeneration(generation, name)) == At(s, InGeneration(generation, name)) {
        assert Durable(At(s, InGeneration(generation, name)));
        assert Survives(At(s, InGeneration(generation, name)), At(s', InGeneration(generation, name)));
      }
    }
    if Named(s', None) {
      assert Named(s, None);
      forall name: Name ensures At(s', Mirror(name)) == At(s, Mirror(name)) {
        assert Survives(At(s, Mirror(name)), At(s', Mirror(name)));
        assert At(s, Mirror(name)) == ABSENT || Durable(At(s, Mirror(name)));
      }
    }
  }

  lemma NextIsTraced(matches: (string, string) -> bool, s0: State, events: seq<Event>, s: State, e: Event, s': State)
    requires After(matches, s0, events) == Some(s) && Sound(matches, s) && Next(matches, s, e) == Some(s')
    requires Traced(s0, s, Issued(matches, s0, events))
    ensures Traced(s0, s', Issued(matches, s0, events + [e]))
  {
    assert (events + [e])[..|events|] == events;
    var issued := Issued(matches, s0, events);
    match e
    case StartEnroll(g, key, certificate, ca) =>
      QuietStaysTraced(s0, s, s', issued, issued[g := Material(key, certificate, ca)]);
    case StartRenew(g, certificate, ca) =>
      QuietStaysTraced(s0, s, s', issued, issued[g := Material(Current(s, Key).value, certificate, ca)]);
    case Write(outcome) => WriteStaysTraced(matches, s0, s, s.job.value, outcome, issued);
    case Killed => QuietStaysTraced(s0, s, s', issued, issued);
    case PowerLost(_, _) => PowerLossStaysTraced(matches, s0, s, e, s', issued);
  }

  lemma {:induction false} RunsAreTraced(matches: (string, string) -> bool, s: State, events: seq<Event>, s': State)
    requires s.manifest == ABSENT && s.job == None && Untouched(matches, s)
    requires After(matches, s, events) == Some(s')
    ensures Traced(s, s', Issued(matches, s, events))
  {
    if events != [] {
      var front := events[..|events| - 1];
      var before := After(matches, s, front).value;
      RunsAreTraced(matches, s, front, before);
      FreshIsSound(matches, s);
      RunsAreSound(matches, s, front, before);
      NextIsTraced(matches, s, front, before, events[|events| - 1], s');
      assert front + [events[|events| - 1]] == events;
    }
  }

  /** The main theorem: however often enrolling and renewing were cut short by errors, kills and power losses, what
      key, certificate and CA resolve to is one complete set or nothing. With a manifest it is the very set that the
      generation it names was started with, and without one what was there before the first. */
  lemma EveryCrashPointIsWhole(matches: (string, string) -> bool, s: State, events: seq<Event>, s': State)
    requires s.manifest == ABSENT && s.job == None && Untouched(matches, s)
    requires After(matches, s, events) == Some(s')
    ensures OneSetOrNone(matches, s')
    ensures match s'.manifest.visible
            case None => forall name: Name :: Current(s', name) == Current(s, name)
            case Some(generation) =>
              && generation in Issued(matches, s, events)
              && var m := Issued(matches, s, events)[generation];
              && Current(s', Key) == Some(m.key) && Current(s', Certificate) == Some(m.certificate)
              && Current(s', CA) == Some(m.ca) && matches(m.key, m.certificate)
  {
    FreshIsSound(matches, s);
    RunsAreSound(matches, s, events, s');
    RunsAreTraced(matches, s, events, s');
    assert Named(s', s'.manifest.visible);
    if s'.manifest.visible.Some? {
      var generation := s'.manifest.visible.value;
      assert Complete(matches, s', generation);
      forall name: Name ensures Current(s', name).Some? {
        assert Durable(At(s', InGeneration(generation, name)));
      }
    } else if At(s', Mirror(Key)) != ABSENT {
      forall name: Name ensures Current(s', name).Some? {
        assert Durable(At(s', Mirror(name)));
      }
    }
  }

  // ---------- Readers beside renewals ----------

  /** What the location shows is right for key `k`. */
  ghost predicate RightFor(matches: (string, string) -> bool, s: State, k: string, l: Location) {
    match l.name
    case Key => Read(s, l) == Some(k)
    case Certificate => Read(s, l).Some? && matches(k, Read(s, l).value)
    case CA => true
  }

  /** Every location that a reader may have resolved, `seen`, is right for the one key, and so is all the job writes. */
  ghost predicate OneKey(matches: (string, string) -> bool, s: State, k: string, seen: set<Location>) {
    && (forall l <- seen :: RightFor(matches, s, k, l))
    && (forall name: Name :: Resolve(s, name) in seen)
    && (forall l <- seen | l.InGeneration? :: l.generation in s.dirs)
    && (s.job.Some? ==>
          && s.job.value.key == k && matches(k, s.job.value.certificate) && s.job.value.generation in s.dirs
          && (s.job.value.done <= 3 ==> forall l <- seen | l.InGeneration? :: l.generation != s.job.value.generation)
          && forall name: Name | Rank(name) < s.job.value.done ::
               Read(s, InGeneration(s.job.value.generation, name)) == Some(DataOf(s.job.value, name)))
  }

  predicate Renewing(e: Event) {
    e.StartRenew? || e.Write? || e.Killed?
  }

  function SeenAfter(s: State, seen: set<Location>): set<Location> {
    seen + {Resolve(s, Key), Resolve(s, Certificate), Resolve(s, CA)}
  }

  lemma WriteKeepsOneKey(matches: (string, string) -> bool, s: State, k: string, seen: set<Location>, l: Location,
      data: string, outcome: D.Outcome)
    requires forall m <- seen :: RightFor(matches, s, k, m)
    requires l in seen ==> (l.name.Key? ==> data == k) && (l.name.Certificate? ==> matches(k, data))
    ensures forall m <- seen :: RightFor(matches, WriteAt(s, l, data, outcome), k, m)
  {
    forall m | m in seen ensures RightFor(matches, WriteAt(s, l, data, outcome), k, m) {
      assert RightFor(matches, s, k, m);
    }
  }

  lemma SameSeen(s: State, s': State, seen: set<Location>)
    requires s'.manifest.visible == s.manifest.visible && forall name: Name :: Resolve(s, name) in seen
    ensures SeenAfter(s', seen) == seen && forall name: Name :: Resolve(s', name) in seen
  {
    forall name: Name ensures Resolve(s', name) in seen {
      assert Resolve(s', name) == Resolve(s, name);
    }
    assert Resolve(s, Key) in seen && Resolve(s, Certificate) in seen && Resolve(s, CA) in seen;
    assert Resolve(s', Key) == Resolve(s, Key) && Resolve(s', Certificate) == Resolve(s, Certificate)
        && Resolve(s', CA) == Resolve(s, CA);
  }

  lemma RenewingKeepsOneKey(matches: (string, string) -> bool, s: State, k: string, seen: set<Location>, e: Event,
      s': State)
    requires OneKey(matches, s, k, seen) && Renewing(e) && Next(matches, s, e) == Some(s')
    ensures OneKey(matches, s', k, SeenAfter(s', seen))
  {
    match e
    case StartRenew(_, _, _) =>
      assert RightFor(matches, s, k, Resolve(s, Key));
      SameSeen(s, s', seen);
      assert forall l :: Read(s', l) == Read(s, l);
    case Killed =>
      SameSeen(s, s', seen);
      assert forall l :: Read(s', l) == Read(s, l);
    case Write(outcome) => JobKeepsOneKey(matches, s, k, seen, s.job.value, outcome);
  }

  lemma JobKeepsOneKey(matches: (string, string) -> bool, s: State, k: string, seen: set<Location>, j: Job,
      outcome: D.Outcome)
    requires OneKey(matches, s, k, seen) && s.job == Some(j)
    ensures OneKey(matches, Advance(s, j, outcome), k, SeenAfter(Advance(s, j, outcome), seen))
  {
    if j.done < 3 {
      SameSeen(s, Advance(s, j, outcome), seen);
      GenerationFileKeepsOneKey(matches, s, k, seen, j, outcome);
    } else if j.done == 3 {
      CommitKeepsOneKey(matches, s, k, seen, j, outcome);
    } else {
      SameSeen(s, Advance(s, j, outcome), seen);
      WriteKeepsOneKey(matches, s, k, seen, Mirror(NameAt(j.done - 4)), DataOf(j, NameAt(j.done - 4)), outcome);
    }
  }

  lemma GenerationFileKeepsOneKey(matches: (string, string) -> bool, s: State, k: string, seen: set<Location>,
      j: Job, outcome: D.Outcome)
    requires OneKey(matches, s, k, seen) && s.job == Some(j) && j.done < 3
    ensures OneKey(matches, Advance(s, j, outcome), k, seen)
  {
    var s' := Advance(s, j, outcome);
    SameSeen(s, s', seen);
    WriteKeepsOneKey(matches, s, k, seen, InGeneration(j.generation, NameAt(j.done)), DataOf(j, NameAt(j.done)),
                     outcome);
  }

  lemma CommitKeepsOneKey(matches: (string, string) -> bool, s: State, k: string, seen: set<Location>, j: Job,
      outcome: D.Outcome)
    requires OneKey(matches, s, k, seen) && s.job == Some(j) && j.done == 3
    ensures OneKey(matches, Advance(s, j, outcome), k, SeenAfter(Advance(s, j, outcome), seen))
  {
    var s' := Advance(s, j, outcome);
    assert forall l :: Read(s', l) == Read(s, l);
    if outcome.NotCommitted? {
      SameSeen(s, s', seen);
    } else {
      forall name: Name ensures RightFor(matches, s', k, InGeneration(j.generation, name)) {
        assert Rank(name) < j.done;
      }
    }
  }

  function StateAt(matches: (string, string) -> bool, s: State, events: seq<Event>, i: nat): State
    requires i <= |events| && After(matches, s, events).Some?
  {
    PrefixesRun(matches, s, events, i);
    After(matches, s, events[..i]).value
  }

  lemma {:induction false} PrefixesRun(matches: (string, string) -> bool, s: State, events: seq<Event>, i: nat)
    requires i <= |events| && After(matches, s, events).Some?
    ensures After(matches, s, events[..i]).Some?
    decreases |events|
  {
    if i == |events| {
      assert events[..i] == events;
    } else {
      assert events[..|events| - 1][..i] == events[..i];
      PrefixesRun(matches, s, events[..|events| - 1], i);
    }
  }

  lemma StateFollows(matches: (string, string) -> bool, s: State, events: seq<Event>, i: nat)
    requires i < |events| && After(matches, s, events).Some?
    ensures Next(matches, StateAt(matches, s, events, i), events[i]) == Some(StateAt(matches, s, events, i + 1))
  {
    assert events[..i + 1][..i] == events[..i];
    PrefixesRun(matches, s, events, i + 1);
  }

  /** Everything a reader may have resolved by time `i`. */
  function SeenAt(matches: (string, string) -> bool, s: State, events: seq<Event>, i: nat): set<Location>
    requires i <= |events| && After(matches, s, events).Some?
  {
    SeenAfter(StateAt(matches, s, events, i), if i == 0 then {} else SeenAt(matches, s, events, i - 1))
  }

  lemma {:induction false} SeenGrows(matches: (string, string) -> bool, s: State, events: seq<Event>, i: nat, j: nat)
    requires i <= j <= |events| && After(matches, s, events).Some?
    ensures SeenAt(matches, s, events, i) <= SeenAt(matches, s, events, j)
    decreases j
  {
    if i < j {
      SeenGrows(matches, s, events, i, j - 1);
    }
  }

  ghost predicate EnrolledWith(matches: (string, string) -> bool, s: State, k: string) {
    && s.job == None && Current(s, Key) == Some(k)
    && Current(s, Certificate).Some? && matches(k, Current(s, Certificate).value)
    && (s.manifest.visible.Some? ==> s.manifest.visible.value in s.dirs)
  }

  lemma StartsOnOneKey(matches: (string, string) -> bool, s: State, k: string)
    requires EnrolledWith(matches, s, k)
    ensures OneKey(matches, s, k, SeenAfter(s, {}))
  {
    forall name: Name ensures Resolve(s, name) in SeenAfter(s, {}) {
      match name
      case Key =>
      case Certificate =>
      case CA =>
    }
  }

  lemma {:induction false} OneKeyAlong(matches: (string, string) -> bool, s: State, k: string, events: seq<Event>,
                                       i: nat)
    requires EnrolledWith(matches, s, k) && After(matches, s, events).Some? && i <= |events|
    requires forall e <- events :: Renewing(e)
    ensures OneKey(matches, StateAt(matches, s, events, i), k, SeenAt(matches, s, events, i))
  {
    if i == 0 {
      assert events[..0] == [];
      StartsOnOneKey(matches, s, k);
    } else {
      OneKeyAlong(matches, s, k, events, i - 1);
      StateFollows(matches, s, events, i - 1);
      assert events[i - 1] in events;
      RenewingKeepsOneKey(matches, StateAt(matches, s, events, i - 1), k, SeenAt(matches, s, events, i - 1),
                          events[i - 1], StateAt(matches, s, events, i));
    }
  }

  /** A reader that resolves the certificate at time `a` and the key at time `b`, and reads them at `c` and `d`,
      gets a matching pair, while any number of renewals go through or fail in between. */
  lemma ReadersGetAMatchingPair(matches: (string, string) -> bool, s: State, k: string, events: seq<Event>, a: nat,
      b: nat, c: nat, d: nat)
    requires EnrolledWith(matches, s, k) && After(matches, s, events).Some? && forall e <- events :: Renewing(e)
    requires a <= b <= c <= d <= |events|
    ensures var certificate := Read(StateAt(matches, s, events, c),
                                    Resolve(StateAt(matches, s, events, a), Certificate));
            var key := Read(StateAt(matches, s, events, d), Resolve(StateAt(matches, s, events, b), Key));
            key == Some(k) && certificate.Some? && matches(k, certificate.value)
  {
    OneKeyAlong(matches, s, k, events, c);
    OneKeyAlong(matches, s, k, events, d);
    SeenGrows(matches, s, events, a, c);
    SeenGrows(matches, s, events, b, d);
    hide Next, After;
    assert RightFor(matches, StateAt(matches, s, events, c), k, Resolve(StateAt(matches, s, events, a), Certificate));
    assert RightFor(matches, StateAt(matches, s, events, d), k, Resolve(StateAt(matches, s, events, b), Key));
  }

  // ---------- The writer ----------

  lemma AfterOne(matches: (string, string) -> bool, s: State, events: seq<Event>, e: Event)
    ensures events == [] ==> After(matches, s, events) == Some(s)
    ensures After(matches, s, events).Some? ==>
              After(matches, s, events + [e]) == Next(matches, After(matches, s, events).value, e)
  {
    assert (events + [e])[..|events|] == events;
  }

  /** The first `n` of the seven writes show. */
  predicate WrittenUpTo(s: State, generation: string, m: Material, n: nat) {
    && (n > 0 ==> Read(s, InGeneration(generation, Key)) == Some(m.key))
    && (n > 1 ==> Read(s, InGeneration(generation, Certificate)) == Some(m.certificate))
    && (n > 2 ==> Read(s, InGeneration(generation, CA)) == Some(m.ca))
    && (n > 3 ==> s.manifest.visible == Some(generation))
    && (n > 4 ==> Read(s, Mirror(Key)) == Some(m.key))
    && (n > 5 ==> Read(s, Mirror(Certificate)) == Some(m.certificate))
    && (n > 6 ==> Read(s, Mirror(CA)) == Some(m.ca))
  }

  lemma NothingWritten(s: State, generation: string, m: Material)
    ensures WrittenUpTo(s, generation, m, 0)
  {
  }

  lemma AllWritten(s: State, generation: string, m: Material)
    requires WrittenUpTo(s, generation, m, 7)
    ensures Current(s, Key) == Some(m.key) && Current(s, Certificate) == Some(m.certificate)
    ensures Current(s, CA) == Some(m.ca)
  {
  }

  lemma WriteShows(s: State, j: Job)
    requires j.done < 7 && WrittenUpTo(s, j.generation, Material(j.key, j.certificate, j.ca), j.done)
    ensures WrittenUpTo(Advance(s, j, D.Written), j.generation, Material(j.key, j.certificate, j.ca), j.done + 1)
  {
  }

  class Manager {
    const matches: (string, string) -> bool
    var state: State

    constructor (matches: (string, string) -> bool, state: State)
      ensures this.matches == matches && this.state == state
    {
      this.matches, this.state := matches, state;
    }

    /** One of the seven writes, and whether the job goes on. */
    method WriteNext(j: Job, outcome: D.Outcome)
      requires state.job == Some(j) && j.done < 7
      modifies this
      ensures state == Advance(old(state), j, outcome)
    {
      hide At, Rewritten;
      if j.done == 3 {
        state := state.(manifest := Rewritten(state.manifest, Some(j.generation), outcome));
      } else {
        var name := NameAt(if j.done < 3 then j.done else j.done - 4);
        var data := match name case Key => j.key case Certificate => j.certificate case CA => j.ca;
        var location := if j.done < 3 then InGeneration(j.generation, name) else Mirror(name);
        state := state.(files := state.files[location := Rewritten(At(state, location), Some(data), outcome)]);
      }
      state := state.(job := if outcome == D.Written && j.done < 6 then Some(j.(done := j.done + 1)) else None);
    }

    /** persistGeneration under the writer lock; its events are a start and its writes, the last of which may have
        failed. Without an error key, certificate and CA resolve to what was given, and the mirrors show it too. */
    method PersistGeneration(generation: string, key: string, certificate: string, ca: string,
                             outcomes: nat -> D.Outcome)
      returns (ok: bool, ghost events: seq<Event>)
      requires state.job == None && matches(key, certificate)
      modifies this
      ensures generation in old(state).dirs ==> !ok && state == old(state)
      ensures generation !in old(state).dirs ==>
                && After(matches, old(state), events) == Some(state) && state.job == None
                && 0 < |events| <= 8 && events[0] == StartEnroll(generation, key, certificate, ca)
                && (forall i | 1 <= i < |events| :: events[i] == Write(outcomes(i - 1)))
                && (ok <==> |events| == 8 && events[7] == Write(D.Written))
      ensures ok ==> && Current(state, Key) == Some(key) && Current(state, Certificate) == Some(certificate)
                     && Current(state, CA) == Some(ca)
      ensures ok ==> WrittenUpTo(state, generation, Material(key, certificate, ca), 7)
    {
      hide After, At, Rewritten, WrittenUpTo, Written;
      events := [];
      if generation in state.dirs {
        return false, events;
      }
      state := state.(dirs := state.dirs + {generation}, job := Some(Job(generation, key, certificate, ca, 0)));
      AfterOne(matches, old(state), [], StartEnroll(generation, key, certificate, ca));
      events := [] + [StartEnroll(generation, key, certificate, ca)];
      var i := 0;
      NothingWritten(state, generation, Material(key, certificate, ca));
      while i < 7
        invariant 0 <= i <= 7 && |events| == i + 1
        invariant After(matches, old(state), events) == Some(state)
        invariant events[0] == StartEnroll(generation, key, certificate, ca)
        invariant forall m | 1 <= m < |events| :: events[m] == Write(outcomes(m - 1))
        invariant state.job == if i < 7 then Some(Job(generation, key, certificate, ca, i)) else None
        invariant i == 7 ==> events[7] == Write(D.Written)
        invariant WrittenUpTo(state, generation, Material(key, certificate, ca), i)
      {
        ghost var before := state;
        var outcome := outcomes(i);
        WriteNext(Job(generation, key, certificate, ca, i), outcome);
        AfterOne(matches, old(state), events, Write(outcome));
        events := events + [Write(outcome)];
        if outcome != D.Written {
          return false, events;
        }
        WriteShows(before, Job(generation, key, certificate, ca, i));
        i := i + 1;
      }
      AllWritten(state, generation, Material(key, certificate, ca));
      return true, events;
    }
  }
}
