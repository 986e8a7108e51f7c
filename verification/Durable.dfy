/**
 The replace-by-rename that every local store relies on (internal/durable/durable.go).

 The disk keeps apart what a running process sees and what a power loss may
 leave: a file that was not synced may hold anything, and until the directory is
 synced any of its versions since the last sync may come back.
 */
module Durable {
  import opened Wrappers

  type Bytes = string

  /** `Temp("")` is the fixed temporary name, `Temp(s)` one that CreateTemp extends with `s`. */
  datatype Name = Temp(suffix: string) | File(name: string)

  datatype Inode = Inode(data: Bytes, synced: bool)

  /** `dir` is the directory as processes see it; `versions` are the ones a power loss may leave. */
  datatype Disk = Disk(inodes: map<nat, Inode>, dir: map<Name, nat>, versions: set<map<Name, nat>>)

  ghost predicate Valid(d: Disk) {
    d.dir in d.versions && forall v <- d.versions, name <- v :: v[name] in d.inodes
  }

  /** What a process that opens `name` reads. */
  function Visible(d: Disk, name: Name): Option<Bytes> {
    if name in d.dir && d.dir[name] in d.inodes then Some(d.inodes[d.dir[name]].data) else None
  }

  ghost predicate FoundIn(d: Disk, v: map<Name, nat>, name: Name, found: Option<Bytes>) {
    if name !in v then found == None
    else found.Some? && (v[name] in d.inodes && d.inodes[v[name]].synced ==> found.value == d.inodes[v[name]].data)
  }

  /** What a restart after a power loss may read at `name`. */
  ghost predicate MayFind(d: Disk, name: Name, found: Option<Bytes>) {
    exists v :: v in d.versions && FoundIn(d, v, name, found)
  }

  // ---------- System calls ----------

  function Listed(d: Disk, dir: map<Name, nat>): Disk {
    d.(dir := dir, versions := d.versions + {dir})
  }

  function CreateFile(d: Disk, name: Name, id: nat): Disk {
    Listed(d.(inodes := d.inodes[id := Inode("", false)]), d.dir[name := id])
  }

  function WriteFile(d: Disk, id: nat, data: Bytes): Disk {
    d.(inodes := d.inodes[id := Inode(data, false)])
  }

  function SyncFile(d: Disk, id: nat): Disk
    requires id in d.inodes
  {
    d.(inodes := d.inodes[id := d.inodes[id].(synced := true)])
  }

  function RenameFile(d: Disk, from: Name, to: Name): Disk
    requires from in d.dir
  {
    Listed(d, Without(d.dir, from)[to := d.dir[from]])
  }

  function RemoveFile(d: Disk, name: Name): Disk {
    Listed(d, Without(d.dir, name))
  }

  function SyncDirectory(d: Disk): Disk {
    d.(versions := {d.dir})
  }

  // ---------- Faults ----------

  datatype Fault =
    | NoFault | MkdirFails | OpenFails | ChmodFails | WriteFails(written: nat) | SyncFails | CloseFails
    | RenameFails | OpenDirFails | SyncDirFails | CloseDirFails

  /**
   Everything outside the program that one write meets: the call that fails, whether
   the fixed temporary name can be opened, the suffix CreateTemp picks, and whether the
   removal of a failed temporary file fails as well.
   */
  datatype Weather = Weather(fault: Fault, fixedNameFails: bool, suffix: string, removeFails: bool)

  /** `NotCommitted` is a plain error; `Committed` is the source's CommitError. */
  datatype Outcome = Written | NotCommitted | Committed

  const FIXED := Temp("")

  // ---------- Crash safety ----------

  ghost predicate SameOutsideTemps(v: map<Name, nat>, v0: map<Name, nat>, path: Name) {
    forall name: Name | name.File? && name != path && (name in v || name in v0) :: Lookup(v, name) == Lookup(v0, name)
  }

  /** A directory version that, temporary names aside, is an old one with at most `path` replaced by the complete
      data. */
  ghost predicate OldOrNew(d: Disk, v: map<Name, nat>, v0: map<Name, nat>, path: Name, data: Bytes) {
    && SameOutsideTemps(v, v0, path)
    && (Lookup(v, path) == Lookup(v0, path)
        || (path in v && v[path] in d.inodes && d.inodes[v[path]] == Inode(data, true)))
  }

  ghost predicate KeepsInodes(d0: Disk, d: Disk) {
    forall i <- d0.inodes :: i in d.inodes && d.inodes[i] == d0.inodes[i]
  }

  /** At this point of the write a power loss leaves the complete old or the complete new contents. */
  ghost predicate CrashSafe(d0: Disk, d: Disk, path: Name, data: Bytes) {
    && Valid(d) && KeepsInodes(d0, d)
    && forall v {:trigger HasOrigin(d0, d, v, path, data)} | v in d.versions :: HasOrigin(d0, d, v, path, data)
  }

  ghost predicate HasOrigin(d0: Disk, d: Disk, v: map<Name, nat>, path: Name, data: Bytes) {
    exists v0 :: v0 in d0.versions && OldOrNew(d, v, v0, path, data)
  }

  lemma CrashFindsOldOrNew(d0: Disk, d: Disk, path: Name, data: Bytes, name: Name, found: Option<Bytes>)
    requires Valid(d0) && CrashSafe(d0, d, path, data) && name.File? && path.File?
    requires MayFind(d, name, found)
    ensures MayFind(d0, name, found) || (name == path && found == Some(data))
  {
    var v :| v in d.versions && FoundIn(d, v, name, found);
    assert HasOrigin(d0, d, v, path, data);
    var v0 :| v0 in d0.versions && OldOrNew(d, v, v0, path, data);
    if Lookup(v, name) == Lookup(v0, name) {
      assert FoundIn(d0, v0, name, found);
    }
  }

  /** A new directory version is crash safe when it differs from the current one in temporary names only,
      or by `path` naming the synced data. */
  lemma ListedIsCrashSafe(d0: Disk, d: Disk, dir: map<Name, nat>, path: Name, data: Bytes)
    requires CrashSafe(d0, d, path, data) && OldOrNew(d, dir, d.dir, path, data)
    requires forall name <- dir :: dir[name] in d.inodes
    ensures CrashSafe(d0, Listed(d, dir), path, data)
  {
    var d' := Listed(d, dir);
    forall v | v in d'.versions ensures HasOrigin(d0, d', v, path, data) {
      if v in d.versions {
        assert HasOrigin(d0, d, v, path, data);
        var v0 :| v0 in d0.versions && OldOrNew(d, v, v0, path, data);
        assert OldOrNew(d', v, v0, path, data);
      } else {
        assert HasOrigin(d0, d, d.dir, path, data);
        var v0 :| v0 in d0.versions && OldOrNew(d, d.dir, v0, path, data);
        assert OldOrNew(d', dir, v0, path, data) by {
          SameOutsideTransitive(dir, d.dir, v0, path);
        }
      }
    }
  }

  lemma SameOutsideTransitive(v: map<Name, nat>, w: map<Name, nat>, v0: map<Name, nat>, path: Name)
    requires SameOutsideTemps(v, w, path) && SameOutsideTemps(w, v0, path)
    ensures SameOutsideTemps(v, v0, path)
  {
    forall name: Name | name.File? && name != path && (name in v || name in v0)
      ensures Lookup(v, name) == Lookup(v0, name)
    {
      assert name in v || name in w ==> Lookup(v, name) == Lookup(w, name);
      assert name in w || name in v0 ==> Lookup(w, name) == Lookup(v0, name);
    }
  }

  /** Changing an inode that no old version names, and that `path` does not name yet, is crash safe. */
  lemma InodeChangeIsCrashSafe(d0: Disk, d: Disk, id: nat, node: Inode, path: Name, data: Bytes)
    requires CrashSafe(d0, d, path, data) && id !in d0.inodes
    requires forall v <- d.versions :: path in v ==> v[path] != id
    ensures CrashSafe(d0, d.(inodes := d.inodes[id := node]), path, data)
  {
    var d' := d.(inodes := d.inodes[id := node]);
    forall v | v in d'.versions ensures HasOrigin(d0, d', v, path, data) {
      assert HasOrigin(d0, d, v, path, data);
      var v0 :| v0 in d0.versions && OldOrNew(d, v, v0, path, data);
      assert OldOrNew(d', v, v0, path, data);
    }
  }

  // ---------- AtomicWrite ----------

  /** `trail` records every state the disk goes through, so a crash point is an index into it. */
  class FileSystem {
    var disk: Disk
    ghost var trail: seq<Disk>

    constructor (disk: Disk)
      requires Valid(disk)
      ensures this.disk == disk && trail == []
    {
      this.disk, trail := disk, [];
    }

    method Put(d: Disk)
      modifies this
      ensures disk == d && trail == old(trail) + [d]
    {
      disk, trail := d, trail + [d];
    }
  }

  /** Every state since is one that a crash may safely stop at. */
  ghost predicate TrailGrows(before: seq<Disk>, trail: seq<Disk>, d0: Disk, path: Name, data: Bytes) {
    before <= trail && forall i | |before| <= i < |trail| :: CrashSafe(d0, trail[i], path, data)
  }

  /** The temporary file `temp`, with inode `id`, is being prepared; nothing else has changed. */
  ghost predicate Staging(d0: Disk, d: Disk, temp: Name, id: nat, path: Name, data: Bytes) {
    && CrashSafe(d0, d, path, data) && Valid(d0)
    && temp.Temp? && path.File? && id !in d0.inodes && id in d.inodes
    && temp !in d0.dir && d.dir == d0.dir[temp := id]
    && (forall v <- d.versions :: path in v ==> v[path] in d0.inodes)
    && (forall found :: MayFind(d, path, found) ==> MayFind(d0, path, found))
  }

  lemma NothingDoneIsCrashSafe(d: Disk, path: Name, data: Bytes)
    requires Valid(d)
    ensures CrashSafe(d, d, path, data)
  {
    forall v | v in d.versions ensures HasOrigin(d, d, v, path, data) {
      assert OldOrNew(d, v, v, path, data);
    }
  }

  lemma CreateIsCrashSafe(d0: Disk, temp: Name, id: nat, path: Name, data: Bytes)
    requires Valid(d0) && temp.Temp? && id !in d0.inodes && path.File?
    ensures CrashSafe(d0, CreateFile(d0, temp, id), path, data)
  {
    NothingDoneIsCrashSafe(d0, path, data);
    InodeChangeIsCrashSafe(d0, d0, id, Inode("", false), path, data);
    var d := d0.(inodes := d0.inodes[id := Inode("", false)]);
    assert OldOrNew(d, d0.dir[temp := id], d.dir, path, data);
    ListedIsCrashSafe(d0, d, d0.dir[temp := id], path, data);
  }

  lemma CreateFinds(d0: Disk, temp: Name, id: nat, path: Name, found: Option<Bytes>)
    requires Valid(d0) && temp != path && id !in d0.inodes
    requires MayFind(CreateFile(d0, temp, id), path, found)
    ensures MayFind(d0, path, found)
  {
    var d := CreateFile(d0, temp, id);
    var v :| v in d.versions && FoundIn(d, v, path, found);
    var v0 := if v in d0.versions then v else d0.dir;
    assert v0 in d0.versions && Lookup(v, path) == Lookup(v0, path);
    assert FoundIn(d0, v0, path, found);
  }

  lemma StagingBegins(d0: Disk, temp: Name, id: nat, path: Name, data: Bytes)
    requires Valid(d0) && temp.Temp? && temp !in d0.dir && id !in d0.inodes && path.File?
    ensures Staging(d0, CreateFile(d0, temp, id), temp, id, path, data)
  {
    CreateIsCrashSafe(d0, temp, id, path, data);
    forall found | MayFind(CreateFile(d0, temp, id), path, found) ensures MayFind(d0, path, found) {
      CreateFinds(d0, temp, id, path, found);
    }
  }

  lemma StagingContinues(d0: Disk, d: Disk, temp: Name, id: nat, node: Inode, path: Name, data: Bytes)
    requires Staging(d0, d, temp, id, path, data)
    ensures Staging(d0, d.(inodes := d.inodes[id := node]), temp, id, path, data)
  {
    InodeChangeIsCrashSafe(d0, d, id, node, path, data);
    var d' := d.(inodes := d.inodes[id := node]);
    forall found | MayFind(d', path, found) ensures MayFind(d0, path, found) {
      var v :| v in d'.versions && FoundIn(d', v, path, found);
      assert FoundIn(d, v, path, found);
    }
  }

  /** Giving up removes the temporary name again, or leaves it stale. */
  lemma StagingEnds(d0: Disk, d: Disk, temp: Name, id: nat, path: Name, data: Bytes)
    requires Staging(d0, d, temp, id, path, data)
    ensures var d' := RemoveFile(d, temp);
            && CrashSafe(d0, d', path, data) && d'.dir == d0.dir
            && forall found :: MayFind(d', path, found) ==> MayFind(d0, path, found)
  {
    var d' := RemoveFile(d, temp);
    ListedIsCrashSafe(d0, d, d'.dir, path, data);
    forall found | MayFind(d', path, found) ensures MayFind(d0, path, found) {
      var v :| v in d'.versions && FoundIn(d', v, path, found);
      assert v in d.versions || v == d0.dir;
      if v in d.versions {
        assert FoundIn(d, v, path, found);
      } else {
        assert FoundIn(d0, d0.dir, path, found);
      }
    }
  }

  /** The rename puts the synced file in place in one step. */
  lemma RenameCommits(d0: Disk, d: Disk, temp: Name, id: nat, path: Name, data: Bytes)
    requires Staging(d0, d, temp, id, path, data) && d.inodes[id] == Inode(data, true)
    ensures var d' := RenameFile(d, temp, path);
            && CrashSafe(d0, d', path, data) && d'.dir == d0.dir[path := id]
            && Visible(d', path) == Some(data)
            && forall found :: MayFind(d', path, found) ==> MayFind(d0, path, found) || found == Some(data)
  {
    var d' := RenameFile(d, temp, path);
    assert d'.dir == d0.dir[path := id];
    assert OldOrNew(d, d'.dir, d.dir, path, data);
    ListedIsCrashSafe(d0, d, d'.dir, path, data);
    forall found | MayFind(d', path, found) ensures MayFind(d0, path, found) || found == Some(data) {
      CrashFindsOldOrNew(d0, d', path, data, path, found);
    }
  }

  /** What AtomicWrite has done to the disk, by outcome. */
  ghost predicate Replaced(d0: Disk, d: Disk, path: Name, data: Bytes, outcome: Outcome) {
    && Valid(d) && CrashSafe(d0, d, path, data)
    && (forall name: Name | name.File? && name != path :: Lookup(d.dir, name) == Lookup(d0.dir, name))
    && match outcome
       case NotCommitted =>
         Lookup(d.dir, path) == Lookup(d0.dir, path)
         && forall found :: MayFind(d, path, found) ==> MayFind(d0, path, found)
       case Committed =>
         path in d.dir && d.dir[path] !in d0.inodes && Visible(d, path) == Some(data)
       case Written =>
         path in d.dir && d.dir[path] !in d0.inodes && Visible(d, path) == Some(data)
         && forall found :: MayFind(d, path, found) ==> found == Some(data)
  }

  /** Creates, fills and syncs the temporary file. */
  method Stage(fs: FileSystem, path: Name, data: Bytes, weather: Weather) returns (staged: Option<(Name, nat)>)
    requires Valid(fs.disk) && path.File?
    modifies fs
    ensures TrailGrows(old(fs.trail), fs.trail, old(fs.disk), path, data)
    ensures staged.Some? <==> Stages(old(fs.disk), weather)
    ensures match staged
            case None => Replaced(old(fs.disk), fs.disk, path, data, NotCommitted)
            case Some(t) =>
              Staging(old(fs.disk), fs.disk, t.0, t.1, path, data) && fs.disk.inodes[t.1] == Inode(data, true)
  {
    ghost var d0 := fs.disk;
    NothingDoneIsCrashSafe(d0, path, data);
    var name := TempNameFor(fs.disk, weather);
    if weather.fault.MkdirFails? || name == None || weather.fault.OpenFails? {
      return None;
    }
    var temp := name.value;
    var id := FreshInode(fs.disk);
    StagingBegins(d0, temp, id, path, data);
    fs.Put(CreateFile(fs.disk, temp, id));
    if weather.fault.ChmodFails? && temp != FIXED {
      CleanUp(fs, temp, weather.removeFails, d0, id, path, data);
      return None;
    }
    var short := weather.fault.WriteFails? && weather.fault.written < |data|;
    var written := if short then data[..weather.fault.written] else data;
    StagingContinues(d0, fs.disk, temp, id, Inode(written, false), path, data);
    fs.Put(WriteFile(fs.disk, id, written));
    if weather.fault.WriteFails? || weather.fault.SyncFails? {
      CleanUp(fs, temp, weather.removeFails, d0, id, path, data);
      return None;
    }
    StagingContinues(d0, fs.disk, temp, id, Inode(data, true), path, data);
    fs.Put(SyncFile(fs.disk, id));
    return Some((temp, id));
  }

  predicate Stages(d: Disk, weather: Weather) {
    var name := TempNameFor(d, weather);
    && name.Some?
    && match weather.fault
       case MkdirFails | OpenFails | WriteFails(_) | SyncFails => false
       case ChmodFails => name.value == FIXED
       case _ => true
  }

  method AtomicWrite(fs: FileSystem, path: Name, data: Bytes, weather: Weather) returns (outcome: Outcome)
    requires Valid(fs.disk) && path.File?
    modifies fs
    ensures Replaced(old(fs.disk), fs.disk, path, data, outcome)
    ensures TrailGrows(old(fs.trail), fs.trail, old(fs.disk), path, data)
    ensures outcome == ExpectedOutcome(old(fs.disk), weather)
    ensures !outcome.NotCommitted? ==> SameTemps(old(fs.disk), fs.disk)
  {
    ghost var d0 := fs.disk;
    var staged := Stage(fs, path, data, weather);
    if staged == None {
      return NotCommitted;
    }
    var (temp, id) := staged.value;
    if weather.fault.CloseFails? || weather.fault.RenameFails? {
      CleanUp(fs, temp, weather.removeFails, d0, id, path, data);
      return NotCommitted;
    }
    RenameCommits(d0, fs.disk, temp, id, path, data);
    fs.Put(RenameFile(fs.disk, temp, path));
    if weather.fault.OpenDirFails? || weather.fault.SyncDirFails? {
      return Committed;
    }
    SyncIsDurable(d0, fs.disk, path, data);
    fs.Put(SyncDirectory(fs.disk));
    return if weather.fault.CloseDirFails? then Committed else Written;
  }

  /** No temporary file has come or gone. */
  ghost predicate SameTemps(d0: Disk, d: Disk) {
    forall t: Name | t.Temp? :: t in d.dir <==> t in d0.dir
  }

  /** A plain error up to the rename, a CommitError after it. */
  function ExpectedOutcome(d: Disk, weather: Weather): Outcome {
    if !Stages(d, weather) || weather.fault.CloseFails? || weather.fault.RenameFails? then NotCommitted
    else if weather.fault.OpenDirFails? || weather.fault.SyncDirFails? || weather.fault.CloseDirFails? then Committed
    else Written
  }

  /** The fixed name, or after a stale file or an open error, the one CreateTemp finds. */
  function TempNameFor(d: Disk, weather: Weather): Option<Name> {
    if !weather.fixedNameFails && FIXED !in d.dir then Some(FIXED)
    else if weather.suffix != "" && Temp(weather.suffix) !in d.dir then Some(Temp(weather.suffix))
    else None
  }

  /** A write in which no call fails: it goes through exactly if there is a temporary name to be had. A stale file under
      the fixed name, or an error in opening it, is no obstacle as long as CreateTemp finds another. */
  lemma FaultlessIsWrittenIff(d: Disk, weather: Weather)
    requires weather.fault.NoFault?
    ensures ExpectedOutcome(d, weather) == Written
            <==> || (FIXED !in d.dir && !weather.fixedNameFails)
                 || (weather.suffix != "" && Temp(weather.suffix) !in d.dir)
    ensures ExpectedOutcome(d, weather) == Written || ExpectedOutcome(d, weather) == NotCommitted
  {
  }

  /** A write in which one call fails: a CommitError exactly if that call comes after the rename. A failing chmod only
      matters to a file that CreateTemp made. */
  lemma FailedCallDecides(d: Disk, weather: Weather)
    requires !weather.fault.NoFault? && ExpectedOutcome(d, weather.(fault := NoFault)) == Written
    ensures ExpectedOutcome(d, weather) == Committed
            <==> weather.fault.OpenDirFails? || weather.fault.SyncDirFails? || weather.fault.CloseDirFails?
    ensures ExpectedOutcome(d, weather) == Written
            <==> weather.fault.ChmodFails? && FIXED !in d.dir && !weather.fixedNameFails
  {
  }

  /** Nothing fails in this write. */
  predicate Untroubled(weather: Weather) {
    weather.fault.NoFault? && !weather.fixedNameFails
  }

  method FreshInode(d: Disk) returns (id: nat)
    ensures id !in d.inodes
  {
    id := 0;
    var rest := d.inodes.Keys;
    while rest != {}
      invariant rest <= d.inodes.Keys
      invariant forall i <- d.inodes :: i in rest || i < id
      decreases rest
    {
      var i :| i in rest;
      id := if id <= i then i + 1 else id;
      rest := rest - {i};
    }
  }

  method CleanUp(fs: FileSystem, temp: Name, removeFails: bool, ghost d0: Disk, ghost id: nat, ghost path: Name,
      ghost data: Bytes)
    requires Staging(d0, fs.disk, temp, id, path, data)
    modifies fs
    ensures Replaced(d0, fs.disk, path, data, NotCommitted)
    ensures TrailGrows(old(fs.trail), fs.trail, d0, path, data)
  {
    StagingEnds(d0, fs.disk, temp, id, path, data);
    if !removeFails {
      fs.Put(RemoveFile(fs.disk, temp));
    }
  }

  lemma SyncIsDurable(d0: Disk, d: Disk, path: Name, data: Bytes)
    requires CrashSafe(d0, d, path, data)
    requires path in d.dir && d.dir[path] in d.inodes && d.inodes[d.dir[path]] == Inode(data, true)
    ensures CrashSafe(d0, SyncDirectory(d), path, data)
    ensures forall found :: MayFind(SyncDirectory(d), path, found) ==> found == Some(data)
  {
    assert HasOrigin(d0, d, d.dir, path, data);
    var v0 :| v0 in d0.versions && OldOrNew(d, d.dir, v0, path, data);
    assert OldOrNew(SyncDirectory(d), d.dir, v0, path, data);
  }

  lemma OthersUnchanged(d0: Disk, d: Disk, path: Name, data: Bytes, outcome: Outcome)
    requires Valid(d0) && Replaced(d0, d, path, data, outcome)
    ensures forall other: Name | other.File? && other != path :: Visible(d, other) == Visible(d0, other)
  {
    forall other: Name | other.File? && other != path ensures Visible(d, other) == Visible(d0, other) {
      assert Lookup(d.dir, other) == Lookup(d0.dir, other);
    }
  }
}
