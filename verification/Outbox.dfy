/** Results waiting to be reported to Nubit Control (internal/controlplane/outbox.go). */
module Outbox {
  import opened Wrappers
  import D = Durable
  import opened StoreFile
  import Strings

  datatype Pending = Pending(commandID: string, leaseToken: string, status: string, output: string, error: string,
                             createdAt: int)

  type Backlog = map<string, Pending>

  datatype Limits = Limits(maxEntries: int, maxBytes: int)

  const DEFAULTS := Limits(10000, 67108864)

  datatype PutReply = Stored | Full | WriteFailed

  // ---------- Specification ----------

  /** A limit that is not positive keeps the default. */
  function Effective(requested: Limits): Limits {
    Limits(if requested.maxEntries > 0 then requested.maxEntries else DEFAULTS.maxEntries,
           if requested.maxBytes > 0 then requested.maxBytes else DEFAULTS.maxBytes)
  }

  predicate Fits(c: Codec<Backlog>, l: Limits, m: Backlog) {
    |m| <= l.maxEntries && |c.encode(m)| <= l.maxBytes
  }

  /** Removing an entry never makes the encoding longer. */
  ghost predicate Shrinks(c: Codec<Backlog>) {
    forall m: Backlog, id: string :: |c.encode(Without(m, id))| <= |c.encode(m)|
  }

  ghost predicate WellKeyed(m: Backlog) {
    forall id <- m :: m[id].commandID == id
  }

  function Stamped(r: Pending, now: int): Pending {
    if r.createdAt == 0 then r.(createdAt := now) else r
  }

  datatype Box = Box(memory: Backlog, file: Image<Backlog>)

  /** The source wraps the write error without its CommitError, so memory takes the new value only
      when nothing failed at all. */
  function Wrote(b: Box, m: Backlog, outcome: D.Outcome): Box {
    Box(if outcome.Written? then m else b.memory, Rewritten(b.file, m, outcome))
  }

  function AfterPut(c: Codec<Backlog>, l: Limits, b: Box, r: Pending, outcome: D.Outcome): Box {
    var m := b.memory[r.commandID := r];
    if Fits(c, l, m) then Wrote(b, m, outcome) else b
  }

  function PutReplyFor(c: Codec<Backlog>, l: Limits, b: Box, r: Pending, outcome: D.Outcome): PutReply {
    if !Fits(c, l, b.memory[r.commandID := r]) then Full
    else if outcome.Written? then Stored else WriteFailed
  }

  function AfterDelete(b: Box, id: string, outcome: D.Outcome): Box {
    if id in b.memory then Wrote(b, Without(b.memory, id), outcome) else b
  }

  function AfterReset(b: Box, outcome: D.Outcome): Box {
    Wrote(b, map[], outcome)
  }

  /** What NewFileOutboxWithLimits makes of the bytes it finds: it applies the default limits first. */
  function Reopened(c: Codec<Backlog>, requested: Limits, found: Option<D.Bytes>): Option<Backlog> {
    match Decoded(c, found)
    case None => None
    case Some(m) =>
      if (found.Some? ==> Fits(c, DEFAULTS, m)) && Fits(c, Effective(requested), m) then Some(m) else None
  }

  // ---------- A life of the outbox ----------

  /** `Settled` is the deletion after Control accepted a result or rejected its lease. */
  datatype Event =
    | Put(result: Pending, outcome: D.Outcome)
    | Settled(id: string, outcome: D.Outcome)
    | Reset(outcome: D.Outcome)
    | Killed
    | PowerLost(survivor: Backlog)

  datatype Setup = Setup(codec: Codec<Backlog>, requested: Limits)

  function LimitsOf(s: Setup): Limits { Effective(s.requested) }

  /** None: the event cannot happen, or the restart does not open. */
  function Step(s: Setup, b: Box, e: Event): Option<Box> {
    match e
    case Put(r, outcome) => Some(AfterPut(s.codec, LimitsOf(s), b, r, outcome))
    case Settled(id, outcome) => Some(AfterDelete(b, id, outcome))
    case Reset(outcome) => Some(AfterReset(b, outcome))
    case Killed =>
      if Reopened(s.codec, s.requested, Some(s.codec.encode(b.file.visible))).Some?
      then Some(Box(b.file.visible, b.file)) else None
    case PowerLost(survivor) =>
      if survivor in b.file.crash && Reopened(s.codec, s.requested, Some(s.codec.encode(survivor))).Some?
      then Some(Box(survivor, Image(survivor, {survivor}))) else None
  }

  const EMPTY := Box(map[], Image(map[], {map[]}))

  function After(s: Setup, trace: seq<Event>): Option<Box> {
    if trace == [] then Some(EMPTY)
    else
      match After(s, trace[..|trace| - 1])
      case None => None
      case Some(b) => Step(s, b, trace[|trace| - 1])
  }

  /** The results the outbox owes Control: those whose Put returned nil, until Control answered, a later Put
      for the same command reached the file, or a reset did. */
  function Owed(s: Setup, trace: seq<Event>): Backlog {
    if trace == [] then map[]
    else
      var front, e := trace[..|trace| - 1], trace[|trace| - 1];
      var owed := Owed(s, front);
      match e
      case Put(r, outcome) =>
        var before := After(s, front);
        if before == None || PutReplyFor(s.codec, LimitsOf(s), before.value, r, outcome).Full?
            || outcome.NotCommitted? then owed
        else if outcome.Written? then owed[r.commandID := r]
        else Without(owed, r.commandID)
      case Settled(id, _) => Without(owed, id)
      case Reset(outcome) => if outcome.NotCommitted? then owed else map[]
      case _ => owed
  }

  /** The result is in memory, in the file, and in every state a crash may leave. */
  ghost predicate Holds(b: Box, r: Pending) {
    && HeldIn(b.memory, r) && HeldIn(b.file.visible, r)
    && forall m <- b.file.crash :: HeldIn(m, r)
  }

  predicate HeldIn(m: Backlog, r: Pending) {
    r.commandID in m && m[r.commandID] == r
  }

  // ---------- No lost result ----------

  lemma WriteHolds(b: Box, m: Backlog, outcome: D.Outcome, r: Pending)
    requires HeldIn(m, r) && (outcome.Written? || Holds(b, r))
    ensures Holds(Wrote(b, m, outcome), r)
  {
  }

  /** A stored result is the caller's, a missing time filled in: in memory, in the file and after any crash. */
  lemma StoredIsTheCallers(c: Codec<Backlog>, l: Limits, b: Box, r: Pending, now: int, outcome: D.Outcome)
    requires PutReplyFor(c, l, b, Stamped(r, now), outcome).Stored?
    ensures var kept := r.(createdAt := if r.createdAt != 0 then r.createdAt else now);
            Holds(AfterPut(c, l, b, Stamped(r, now), outcome), kept)
  {
    WriteHolds(b, b.memory[r.commandID := Stamped(r, now)], outcome, Stamped(r, now));
  }

  /** Writes for other commands, failed or not, leave a held result held. */
  lemma OthersStayHeld(c: Codec<Backlog>, l: Limits, b: Box, r: Pending, other: Pending, id: string, outcome: D.Outcome)
    requires Holds(b, r)
    ensures other.commandID != r.commandID ==> Holds(AfterPut(c, l, b, other, outcome), r)
    ensures id != r.commandID ==> Holds(AfterDelete(b, id, outcome), r)
  {
  }

  /** The main theorem: whatever writes fail, and however often the process is killed or the power lost,
      every owed result is in memory, in the file and in every state a crash may leave. */
  lemma {:induction false} NoLostResult(s: Setup, trace: seq<Event>, b: Box)
    requires After(s, trace) == Some(b)
    ensures forall id <- Owed(s, trace) :: Owed(s, trace)[id].commandID == id && Holds(b, Owed(s, trace)[id])
    decreases |trace|
  {
    if trace != [] {
      var front, e := trace[..|trace| - 1], trace[|trace| - 1];
      var before, owed := After(s, front).value, Owed(s, front);
      NoLostResult(s, front, before);
      forall id | id in Owed(s, trace) ensures Owed(s, trace)[id].commandID == id && Holds(b, Owed(s, trace)[id]) {
        var r := Owed(s, trace)[id];
        if id in owed && owed[id] == r {
          assert Holds(before, r);
          match e
          case Put(other, outcome) =>
          case Settled(gone, outcome) => OthersStayHeld(s.codec, LimitsOf(s), before, r, r, gone, outcome);
          case Reset(_) =>
          case Killed =>
          case PowerLost(_) =>
        }
      }
    }
  }

  /** A box within its entry limit refuses a new result exactly when it is full or the bytes would not fit,
      and a refused Put changes neither copy. */
  lemma RefusedIff(c: Codec<Backlog>, l: Limits, b: Box, r: Pending, outcome: D.Outcome)
    requires |b.memory| <= l.maxEntries
    ensures PutReplyFor(c, l, b, r, outcome) == Full
            <==> || (r.commandID !in b.memory && |b.memory| == l.maxEntries)
                 || |c.encode(b.memory[r.commandID := r])| > l.maxBytes
    ensures PutReplyFor(c, l, b, r, outcome) == Full ==> AfterPut(c, l, b, r, outcome) == b
  {
    assert b.memory[r.commandID := r].Keys == b.memory.Keys + {r.commandID};
    if r.commandID in b.memory {
      assert b.memory[r.commandID := r].Keys == b.memory.Keys;
    } else {
      assert |b.memory.Keys + {r.commandID}| == |b.memory.Keys| + 1;
    }
  }

  ghost predicate Gone(b: Box, id: string) {
    id !in b.memory && id !in b.file.visible && forall m <- b.file.crash :: id !in m
  }

  lemma StepKeepsGone(s: Setup, b: Box, e: Event, b': Box, id: string)
    requires Gone(b, id) && Step(s, b, e) == Some(b') && (e.Put? ==> e.result.commandID != id)
    ensures Gone(b', id)
  {
  }

  /** A settled result whose deletion was written stays gone through kills and power losses, until it is put again. */
  lemma {:induction false} SettledStaysGone(s: Setup, trace: seq<Event>, n: nat, id: string, b: Box)
    requires n < |trace| && trace[n] == Settled(id, D.Written)
    requires After(s, trace[..n]).Some? && id in After(s, trace[..n]).value.memory
    requires forall i | n < i < |trace| && trace[i].Put? :: trace[i].result.commandID != id
    requires After(s, trace) == Some(b)
    ensures Gone(b, id)
    decreases |trace|
  {
    var front, e := trace[..|trace| - 1], trace[|trace| - 1];
    var before := After(s, front).value;
    if n < |front| {
      assert front[..n] == trace[..n];
      SettledStaysGone(s, front, n, id, before);
      StepKeepsGone(s, before, e, b, id);
    } else {
      assert b == Wrote(before, Without(before.memory, id), D.Written);
    }
  }

  // ---------- Nothing invented ----------

  function PutsIn(trace: seq<Event>): set<Pending> {
    if trace == [] then {}
    else PutsIn(trace[..|trace| - 1]) + if trace[|trace| - 1].Put? then {trace[|trace| - 1].result} else {}
  }

  ghost predicate ComesFrom(m: Backlog, puts: set<Pending>) {
    WellKeyed(m) && forall id <- m :: m[id] in puts
  }

  lemma StepInvents(s: Setup, b: Box, e: Event, b': Box, puts: set<Pending>)
    requires AllFrom(b, puts) && Step(s, b, e) == Some(b') && (e.Put? ==> e.result in puts)
    ensures AllFrom(b', puts)
  {
    match e
    case Put(r, outcome) => assert ComesFrom(b.memory[r.commandID := r], puts);
    case Settled(id, outcome) => assert ComesFrom(Without(b.memory, id), puts);
    case Reset(_) => assert ComesFrom(map[], puts);
    case Killed =>
    case PowerLost(_) =>
  }

  lemma AllFromMore(b: Box, puts: set<Pending>, more: set<Pending>)
    requires AllFrom(b, puts) && puts <= more
    ensures AllFrom(b, more)
  {
  }

  ghost predicate AllFrom(b: Box, puts: set<Pending>) {
    && ComesFrom(b.memory, puts) && ComesFrom(b.file.visible, puts)
    && forall m <- b.file.crash :: ComesFrom(m, puts)
  }

  /** Only results that were put are ever held, each under its own command. */
  lemma {:induction false} NothingInvented(s: Setup, trace: seq<Event>, b: Box)
    requires After(s, trace) == Some(b)
    ensures AllFrom(b, PutsIn(trace))
    decreases |trace|
  {
    if trace != [] {
      var front, e := trace[..|trace| - 1], trace[|trace| - 1];
      var before := After(s, front).value;
      NothingInvented(s, front, before);
      assert PutsIn(front) <= PutsIn(trace);
      AllFromMore(before, PutsIn(front), PutsIn(trace));
      StepInvents(s, before, e, b, PutsIn(trace));
    }
  }

  // ---------- Memory and disk ----------

  /** A box whose copies agree still agrees after a write, unless it failed after the rename. */
  lemma MemoryEqualsDiskIff(b: Box, m: Backlog, outcome: D.Outcome)
    requires b.memory == b.file.visible
    ensures Wrote(b, m, outcome).memory == Wrote(b, m, outcome).file.visible <==> !outcome.Committed? || m == b.memory
  {
  }

  // ---------- Limits across a restart ----------

  lemma RemovingFits(c: Codec<Backlog>, l: Limits, m: Backlog, id: string)
    requires Shrinks(c) && Fits(c, l, m)
    ensures Fits(c, l, Without(m, id))
  {
    assert Without(m, id).Keys == m.Keys - {id};
    assert |Without(m, id).Keys| <= |m.Keys|;
  }

  ghost predicate AllFit(c: Codec<Backlog>, l: Limits, b: Box) {
    && Fits(c, l, b.memory) && Fits(c, l, b.file.visible)
    && forall m <- b.file.crash :: Fits(c, l, m)
  }

  lemma WriteFits(c: Codec<Backlog>, l: Limits, b: Box, m: Backlog, outcome: D.Outcome)
    requires AllFit(c, l, b) && Fits(c, l, m)
    ensures AllFit(c, l, Wrote(b, m, outcome))
  {
  }

  lemma StepFits(s: Setup, b: Box, e: Event, b': Box)
    requires Shrinks(s.codec) && Fits(s.codec, LimitsOf(s), map[]) && AllFit(s.codec, LimitsOf(s), b)
    requires Step(s, b, e) == Some(b')
    ensures AllFit(s.codec, LimitsOf(s), b')
  {
    match e
    case Put(r, outcome) =>
      var m := b.memory[r.commandID := r];
      if Fits(s.codec, LimitsOf(s), m) {
        WriteFits(s.codec, LimitsOf(s), b, m, outcome);
      }
    case Settled(id, outcome) =>
      RemovingFits(s.codec, LimitsOf(s), b.memory, id);
      WriteFits(s.codec, LimitsOf(s), b, Without(b.memory, id), outcome);
    case Reset(outcome) => WriteFits(s.codec, LimitsOf(s), b, map[], outcome);
    case Killed =>
    case PowerLost(_) =>
  }

  /** Memory, the file and every state a crash may leave stay within the limits. */
  lemma {:induction false} EveryStateFits(s: Setup, trace: seq<Event>, b: Box)
    requires Shrinks(s.codec) && Fits(s.codec, LimitsOf(s), map[]) && After(s, trace) == Some(b)
    ensures AllFit(s.codec, LimitsOf(s), b)
    decreases |trace|
  {
    if trace != [] {
      var front, e := trace[..|trace| - 1], trace[|trace| - 1];
      var before := After(s, front).value;
      EveryStateFits(s, front, before);
      StepFits(s, before, e, b);
    }
  }

  /** A limit that is not positive means the default: ten thousand entries, 64 MiB. */
  lemma LimitsFallBack(requested: Limits)
    ensures Effective(Limits(0, 0)) == Limits(10000, 64 * 1024 * 1024)
    ensures requested.maxEntries <= 0 ==> Effective(requested).maxEntries == 10000
    ensures requested.maxBytes <= 0 ==> Effective(requested).maxBytes == 64 * 1024 * 1024
    ensures requested.maxEntries > 0 && requested.maxBytes > 0 ==> Effective(requested) == requested
    ensures Effective(requested).maxEntries > 0 && Effective(requested).maxBytes > 0
  {
  }

  /** A backlog within the requested limits reopens exactly if it is also within the defaults. */
  lemma ReopensIff(c: Codec<Backlog>, requested: Limits, m: Backlog)
    requires RoundTrips(c) && Fits(c, Effective(requested), m)
    ensures Reopened(c, requested, Some(c.encode(m))) == Some(m) <==> Fits(c, DEFAULTS, m)
    ensures Reopened(c, requested, Some(c.encode(m))) in {None, Some(m)}
  {
  }

  /** With limits no greater than the defaults, no run leaves a file that a restart refuses. */
  lemma EveryFileReopens(s: Setup, trace: seq<Event>, b: Box)
    requires RoundTrips(s.codec) && Shrinks(s.codec) && Fits(s.codec, LimitsOf(s), map[])
    requires LimitsOf(s).maxEntries <= DEFAULTS.maxEntries && LimitsOf(s).maxBytes <= DEFAULTS.maxBytes
    requires After(s, trace) == Some(b)
    ensures Step(s, b, Killed).Some?
    ensures forall m <- b.file.crash :: Step(s, b, PowerLost(m)).Some?
  {
    EveryStateFits(s, trace, b);
  }

  function Name(n: nat): string {
    seq(n, _ => 'a')
  }

  function Filled(n: nat): (m: Backlog)
    ensures |m| == n && forall id <- m :: |id| < n
  {
    if n == 0 then map[]
    else
      var rest := Filled(n - 1);
      var id := Name(n - 1);
      assert id !in rest;
      assert rest[id := Pending(id, "", "succeeded", "", "", 1)].Keys == rest.Keys + {id};
      rest[id := Pending(id, "", "succeeded", "", "", 1)]
  }

  /** With a greater entry limit a backlog of more than 10000 results is kept, and refused at the next start. */
  lemma GreaterLimitsMayNotReopen(c: Codec<Backlog>, n: nat)
    requires RoundTrips(c) && 10000 < n
    ensures var m := Filled(n);
            var requested := Limits(n, |c.encode(m)| + 1);
            Fits(c, Effective(requested), m) && Reopened(c, requested, Some(c.encode(m))) == None
  {
    ReopensIff(c, Limits(n, |c.encode(Filled(n))| + 1), Filled(n));
  }

  // ---------- Listing ----------

  function Ids(list: seq<Pending>): (ids: seq<string>)
    ensures |ids| == |list|
  {
    seq(|list|, i requires 0 <= i < |list| => list[i].commandID)
  }

  /** Every entry once, in command-id order. */
  ghost predicate Lists(list: seq<Pending>, m: Backlog) {
    Strings.Enumerates(Ids(list), m.Keys) && forall i | 0 <= i < |list| :: HeldIn(m, list[i])
  }

  lemma ListingIsUnique(list: seq<Pending>, list': seq<Pending>, m: Backlog)
    requires Lists(list, m) && Lists(list', m)
    ensures list == list'
  {
    Strings.EnumerationIsUnique(Ids(list), Ids(list'), m.Keys);
    assert |list| == |Ids(list)| == |Ids(list')| == |list'|;
    forall i | 0 <= i < |list| ensures list[i] == list'[i] {
      assert Ids(list)[i] == Ids(list')[i];
    }
  }

  // ---------- The outbox ----------

  class FileOutbox {
    const fs: D.FileSystem
    const path: D.Name
    const codec: Codec<Backlog>
    const limits: Limits
    var pending: Backlog
    ghost var image: Image<Backlog>

    ghost predicate Valid()
      reads this, fs
    {
      RoundTrips(codec) && Shows(fs.disk, path, codec, image) && WellKeyed(pending)
    }

    ghost function State(): Box
      reads this
    {
      Box(pending, image)
    }

    constructor (fs: D.FileSystem, path: D.Name, codec: Codec<Backlog>, limits: Limits, pending: Backlog,
        ghost image: Image<Backlog>)
      requires RoundTrips(codec) && Shows(fs.disk, path, codec, image) && WellKeyed(pending)
      ensures this.fs == fs && this.path == path && this.codec == codec && this.limits == limits
      ensures Valid() && State() == Box(pending, image)
    {
      this.fs, this.path, this.codec, this.limits := fs, path, codec, limits;
      this.pending, this.image := pending, image;
    }

    method Put(result: Pending, now: int, weather: D.Weather) returns (reply: PutReply)
      requires Valid()
      modifies this, fs
      ensures Valid()
      ensures var outcome := D.ExpectedOutcome(old(fs.disk), weather);
              && State() == AfterPut(codec, limits, old(State()), Stamped(result, now), outcome)
              && reply == PutReplyFor(codec, limits, old(State()), Stamped(result, now), outcome)
      ensures D.Untroubled(weather) && D.FIXED !in old(fs.disk).dir ==> D.FIXED !in fs.disk.dir
    {
      var previous := pending;
      var stamped := if result.createdAt == 0 then result.(createdAt := now) else result;
      pending := pending[result.commandID := stamped];
      if |pending| > limits.maxEntries || |codec.encode(pending)| > limits.maxBytes {
        pending := previous;
        return Full;
      }
      var outcome := Persist(fs, path, codec, pending, weather, image);
      image := Rewritten(image, pending, outcome);
      if !outcome.Written? {
        pending := previous;
        return WriteFailed;
      }
      return Stored;
    }

    method List() returns (list: seq<Pending>)
      requires Valid()
      ensures Lists(list, pending)
    {
      var ids := Strings.SortedKeys(pending.Keys);
      list := [];
      var i := 0;
      while i < |ids|
        invariant 0 <= i <= |ids| && Ids(list) == ids[..i]
        invariant forall j | 0 <= j < |list| :: HeldIn(pending, list[j])
      {
        assert ids[i] in ids;
        list := list + [pending[ids[i]]];
        i := i + 1;
      }
      assert ids[..|ids|] == ids;
    }

    method Delete(commandID: string, weather: D.Weather) returns (ok: bool)
      requires Valid()
      modifies this, fs
      ensures Valid()
      ensures State() == AfterDelete(old(State()), commandID, D.ExpectedOutcome(old(fs.disk), weather))
      ensures ok <==> commandID in old(pending) ==> D.ExpectedOutcome(old(fs.disk), weather).Written?
      ensures D.Untroubled(weather) && D.FIXED !in old(fs.disk).dir ==> D.FIXED !in fs.disk.dir
    {
      if commandID !in pending {
        return true;
      }
      var previous := pending[commandID];
      pending := Without(pending, commandID);
      var outcome := Persist(fs, path, codec, pending, weather, image);
      image := Rewritten(image, pending, outcome);
      if !outcome.Written? {
        assert pending[commandID := previous] == old(pending);
        pending := pending[commandID := previous];
        return false;
      }
      return true;
    }

    method Reset(weather: D.Weather) returns (ok: bool)
      requires Valid()
      modifies this, fs
      ensures Valid()
      ensures State() == AfterReset(old(State()), D.ExpectedOutcome(old(fs.disk), weather))
      ensures ok <==> D.ExpectedOutcome(old(fs.disk), weather).Written?
      ensures D.Untroubled(weather) && D.FIXED !in old(fs.disk).dir ==> D.FIXED !in fs.disk.dir
    {
      var previous := pending;
      pending := map[];
      var outcome := Persist(fs, path, codec, pending, weather, image);
      image := Rewritten(image, pending, outcome);
      ok := outcome.Written?;
      if !ok {
        pending := previous;
      }
    }
  }

  /** NewFileOutboxWithLimits. The file is not rewritten on the way. `readFails` is any error of the read but
      absence. */
  method Open(fs: D.FileSystem, path: D.Name, codec: Codec<Backlog>, requested: Limits, readFails: bool,
      ghost image: Image<Backlog>)
    returns (box: FileOutbox?)
    requires RoundTrips(codec) && ShowsIfSound(fs.disk, path, codec, image)
    requires codec.empty == map[] && WellKeyed(image.visible)
    ensures box == null <==> readFails || Reopened(codec, requested, D.Visible(fs.disk, path)) == None
    ensures box != null ==> box.Valid() && fresh(box) && box.State() == Box(image.visible, image)
                            && box.fs == fs && box.path == path && box.codec == codec
                            && box.limits == Effective(requested)
  {
    if readFails {
      return null;
    }
    var found := D.Visible(fs.disk, path);
    var pending: Backlog := map[];
    if found.Some? {
      var decoded := codec.decode(found.value);
      if decoded == None || |decoded.value| > DEFAULTS.maxEntries || |codec.encode(decoded.value)| > DEFAULTS.maxBytes {
        return null;
      }
      pending := decoded.value;
    }
    var limits := Effective(requested);
    if |pending| > limits.maxEntries || |codec.encode(pending)| > limits.maxBytes {
      return null;
    }
    box := new FileOutbox(fs, path, codec, limits, pending, image);
  }
}
