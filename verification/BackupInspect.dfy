/** Verifying an archive in a scratch directory (inspectArchive in internal/backup/manager.go). */
module BackupInspect {
  import opened Wrappers
  import opened Backup

  datatype Reason =
    | TooManyEntries | TooLarge | BadManifest | ContainsLink | UnsafePath | ExtractFailed | NoManifest
    | NothingRecoverable

  /** A rejection reports the counts so far, except for too many entries and a bad manifest. */
  datatype Verify = Verified(files: nat, databases: nat) | Rejected(reason: Reason, files: nat, databases: nat)

  /** What has been seen so far. */
  datatype Seen = Seen(scratch: Tree, files: nat, databases: nat, manifest: bool)

  const NOTHING := Seen(map[], 0, 0, false)

  datatype Progress = Going(seen: Seen) | Stopped(reason: Reason, files: nat, databases: nat)

  function InspectEntry(env: Env, seen: Seen, e: Entry): Progress {
    match e.name
    case ManifestName =>
      if ManifestFits(env, e.body) then Going(seen.(manifest := true)) else Stopped(BadManifest, 0, 0)
    case Under(rel) =>
      if e.kind.LinkKind? then Stopped(ContainsLink, seen.files, seen.databases)
      else if !e.kind.Reg? then Going(seen)
      else Extract(seen, rel, e.body)
    case Dump(_) => Going(if e.kind.Reg? then seen.(databases := seen.databases + 1) else seen)
    case OtherName => Going(seen)
  }

  function Extract(seen: Seen, rel: seq<Part>, body: string): Progress {
    match RestorePath(rel)
    case None => Stopped(UnsafePath, seen.files + 1, seen.databases)
    case Some(target) =>
      var (scratch, ok) := WriteFile(seen.scratch, target, body);
      if ok then Going(seen.(scratch := scratch, files := seen.files + 1))
      else Stopped(ExtractFailed, seen.files + 1, seen.databases)
  }

  function Inspect(env: Env, archive: seq<Entry>): Progress {
    if archive == [] then Going(NOTHING)
    else
      match Inspect(env, archive[..|archive| - 1])
      case Stopped(reason, files, databases) => Stopped(reason, files, databases)
      case Going(seen) =>
        if |archive| > MAX_ENTRIES then Stopped(TooManyEntries, 0, 0)
        else if Bytes(archive) > MAX_BYTES then Stopped(TooLarge, seen.files, seen.databases)
        else InspectEntry(env, seen, archive[|archive| - 1])
  }

  function Verdict(p: Progress): Verify {
    match p
    case Stopped(reason, files, databases) => Rejected(reason, files, databases)
    case Going(seen) =>
      if !seen.manifest then Rejected(NoManifest, seen.files, seen.databases)
      else if seen.files == 0 && seen.databases == 0 then Rejected(NothingRecoverable, 0, 0)
      else Verified(seen.files, seen.databases)
  }

  /** `Verify` on the listed archives, newest first: an error if there is none or its download is too long. */
  function Rehearsed(env: Env, archives: seq<Stored>): Option<Verify> {
    if archives == [] || archives[0].size > MAX_DOWNLOAD then None
    else Some(Verdict(Inspect(env, archives[0].archive)))
  }

  lemma {:induction false} StopStays(env: Env, archive: seq<Entry>, n: nat)
    requires n <= |archive| && Inspect(env, archive[..n]).Stopped?
    ensures Inspect(env, archive) == Inspect(env, archive[..n])
    decreases |archive|
  {
    if n == |archive| {
      assert archive[..n] == archive;
    } else {
      assert archive[..|archive| - 1][..n] == archive[..n];
      StopStays(env, archive[..|archive| - 1], n);
    }
  }

  method InspectArchive(env: Env, archive: seq<Entry>) returns (result: Verify)
    ensures result == Verdict(Inspect(env, archive))
  {
    var files, databases, entries, bytes := 0, 0, 0, 0;
    var manifestSeen := false;
    var scratch: Tree := map[];
    while entries < |archive|
      invariant 0 <= entries <= |archive| && 0 <= bytes <= MAX_BYTES && bytes == Bytes(archive[..entries])
      invariant 0 <= files && 0 <= databases
      invariant Inspect(env, archive[..entries]) == Going(Seen(scratch, files, databases, manifestSeen))
    {
      var header := archive[entries];
      entries := entries + 1;
      assert archive[..entries][..entries - 1] == archive[..entries - 1];
      if entries > MAX_ENTRIES {
        StopStays(env, archive, entries);
        return Rejected(TooManyEntries, 0, 0);
      }
      if |header.body| > MAX_BYTES || bytes > MAX_BYTES - |header.body| {
        StopStays(env, archive, entries);
        return Rejected(TooLarge, files, databases);
      }
      bytes := bytes + |header.body|;
      match header.name {
        case ManifestName =>
          manifestSeen := true;
          if !ManifestFits(env, header.body) {
            StopStays(env, archive, entries);
            return Rejected(BadManifest, 0, 0);
          }
        case Under(rel) =>
          if header.kind.LinkKind? {
            StopStays(env, archive, entries);
            return Rejected(ContainsLink, files, databases);
          }
          if header.kind.Reg? {
            files := files + 1;
            var target := RestorePath(rel);
            if target == None {
              StopStays(env, archive, entries);
              return Rejected(UnsafePath, files, databases);
            }
            var (next, ok) := WriteFile(scratch, target.value, header.body);
            if !ok {
              StopStays(env, archive, entries);
              return Rejected(ExtractFailed, files, databases);
            }
            scratch := next;
          }
        case Dump(_) =>
          if header.kind.Reg? {
            databases := databases + 1;
          }
        case OtherName =>
      }
    }
    assert archive[..|archive|] == archive;
    if !manifestSeen {
      return Rejected(NoManifest, files, databases);
    }
    if files == 0 && databases == 0 {
      return Rejected(NothingRecoverable, files, databases);
    }
    return Verified(files, databases);
  }

  method VerifyNewest(env: Env, archives: seq<Stored>) returns (result: Option<Verify>)
    ensures result == Rehearsed(env, archives)
  {
    if archives == [] {
      return None;
    }
    var _, copied := CopyArchive(archives[0].size);
    if !copied {
      return None;
    }
    var verdict := InspectArchive(env, archives[0].archive);
    return Some(verdict);
  }

  // ---------- Inspecting what was written ----------

  /** How many of the entries are files. */
  function FilesIn(tree: Tree, order: seq<Path>): nat
    requires forall p <- order :: p in tree
  {
    if order == [] then 0
    else FilesIn(tree, order[..|order| - 1]) + if tree[order[|order| - 1]].File? then 1 else 0
  }

  /** The scratch directory is a part of the tree. */
  ghost predicate PartOf(scratch: Tree, tree: Tree) {
    forall p <- scratch :: p in tree && (scratch[p].Dir? <==> tree[p].Dir?)
  }

  lemma {:induction false} MkdirStaysPart(scratch: Tree, tree: Tree, p: Path)
    requires PartOf(scratch, tree) && forall j | 0 < j <= |p| :: p[..j] in tree && tree[p[..j]].Dir?
    ensures MkdirAll(scratch, p).Some? && PartOf(MkdirAll(scratch, p).value, tree)
  {
    if p != [] {
      var parent := p[..|p| - 1];
      assert p[..|p|] == p;
      forall j | 0 < j <= |parent| ensures parent[..j] in tree && tree[parent[..j]].Dir? {
        assert parent[..j] == p[..j];
      }
      MkdirStaysPart(scratch, tree, parent);
    }
  }

  lemma ExtractOne(seen: Seen, tree: Tree, p: Path)
    requires Rooted(tree) && p in tree && tree[p].File? && PartOf(seen.scratch, tree)
    ensures var rel := RelParts(p, false);
            && Extract(seen, rel, tree[p].body).Going?
            && var after := Extract(seen, rel, tree[p].body).seen;
            after == seen.(scratch := after.scratch, files := seen.files + 1) && PartOf(after.scratch, tree)
  {
    RelPartsRestore(p, false);
    var parent := p[..|p| - 1];
    forall j | 0 < j <= |parent| ensures parent[..j] in tree && tree[parent[..j]].Dir? {
      PrefixesArchived(tree, p, j);
      assert parent[..j] == p[..j];
    }
    MkdirStaysPart(seen.scratch, tree, parent);
  }

  lemma InspectNext(env: Env, archive: seq<Entry>, n: nat, before: Seen)
    requires n < |archive| && WithinLimits(archive) && Inspect(env, archive[..n]) == Going(before)
    ensures Inspect(env, archive[..n + 1]) == InspectEntry(env, before, archive[n])
  {
    BytesOfPrefix(archive, n + 1);
    assert archive[..n + 1][..n] == archive[..n];
  }

  /** The counts after the manifest, the root and `k` files. */
  ghost predicate SeenFiles(p: Progress, tree: Tree, order: seq<Path>, k: nat)
    requires k <= |order| && forall q <- order[..k] :: q in tree
  {
    && p.Going? && p.seen.manifest && p.seen.databases == 0 && p.seen.files == FilesIn(tree, order[..k])
    && PartOf(p.seen.scratch, tree)
  }

  lemma {:induction false} FilesInspect(env: Env, archive: seq<Entry>, from: nat, tree: Tree, order: seq<Path>, k: nat)
    requires Rooted(tree) && k <= |order| && from + |order| <= |archive| && WithinLimits(archive)
    requires Inspect(env, archive[..from]).Going?
    requires var seen := Inspect(env, archive[..from]).seen;
             seen.manifest && seen.databases == 0 && seen.files == 0 && seen.scratch == map[]
    requires forall i | 0 <= i < |order| ::
               order[i] in tree && archive[from + i] == FileEntry(order[i], tree[order[i]]) && !tree[order[i]].Link?
    ensures forall q <- order[..k] :: q in tree
    ensures SeenFiles(Inspect(env, archive[..from + k]), tree, order, k)
  {
    hide WithinLimits, Rooted;
    if k > 0 {
      FilesInspect(env, archive, from, tree, order, k - 1);
      var before := Inspect(env, archive[..from + (k - 1)]).seen;
      var p := order[k - 1];
      assert archive[from + (k - 1)] == FileEntry(p, tree[p]);
      InspectNext(env, archive, from + (k - 1), before);
      if tree[p].File? {
        ExtractOne(before, tree, p);
      }
      assert order[..k][..k - 1] == order[..k - 1];
    }
  }

  lemma {:induction false} DumpsInspect(env: Env, archive: seq<Entry>, from: nat, seen: Seen, m: nat)
    requires from + m <= |archive| && WithinLimits(archive) && Inspect(env, archive[..from]) == Going(seen)
    requires forall i | from <= i < from + m :: archive[i].name.Dump? && archive[i].kind.Reg?
    ensures Inspect(env, archive[..from + m]) == Going(seen.(databases := seen.databases + m))
  {
    if m > 0 {
      DumpsInspect(env, archive, from, seen, m - 1);
      InspectNext(env, archive, from + m - 1, seen.(databases := seen.databases + (m - 1)));
    }
  }

  lemma HeadInspects(env: Env, archive: seq<Entry>, databases: seq<string>)
    requires RoundTrips(env) && WithinLimits(archive) && 2 <= |archive|
    requires archive[0] == ManifestEntry(env, databases) && archive[1] == FileEntry([], Dir)
    ensures Inspect(env, archive[..2]) == Going(NOTHING.(manifest := true))
  {
    assert archive[..0] == [];
    assert env.decode(env.encode(env.siteID, databases)) == Some(env.siteID);
    InspectNext(env, archive, 0, NOTHING);
    InspectNext(env, archive, 1, NOTHING.(manifest := true));
  }

  lemma StopsOverLimits(env: Env, archive: seq<Entry>)
    requires Inspect(env, archive).Going?
    ensures WithinLimits(archive)
  {
  }

  lemma InspectWithin(env: Env, archive: seq<Entry>, tree: Tree, order: seq<Path>, databases: seq<string>,
      dump: string -> string)
    requires RoundTrips(env) && Rooted(tree) && WithinLimits(archive)
    requires (forall p <- order :: p in tree) && LinkFree(tree, order)
             && archive == Written(env, tree, order, databases, dump)
    ensures Verdict(Inspect(env, archive))
            == if FilesIn(tree, order) == 0 && databases == [] then Rejected(NothingRecoverable, 0, 0)
               else Verified(FilesIn(tree, order), |databases|)
  {
    hide RoundTrips, Rooted, WithinLimits, FileEntry, Inspect, Written, LinkFree;
    EntriesOf(env, archive, tree, order, databases, dump);
    HeadInspects(env, archive, databases);
    FilesInspect(env, archive, 2, tree, order, |order|);
    assert order[..|order|] == order;
    DumpsInspect(env, archive, 2 + |order|, Inspect(env, archive[..2 + |order|]).seen, |databases|);
    assert archive[..2 + |order| + |databases|] == archive;
  }

  lemma EntriesOf(env: Env, archive: seq<Entry>, tree: Tree, order: seq<Path>, databases: seq<string>,
      dump: string -> string)
    requires (forall p <- order :: p in tree) && LinkFree(tree, order)
             && archive == Written(env, tree, order, databases, dump)
    ensures |archive| == 2 + |order| + |databases|
    ensures archive[0] == ManifestEntry(env, databases) && archive[1] == FileEntry([], Dir)
    ensures forall i | 0 <= i < |order| ::
              order[i] in tree && archive[2 + i] == FileEntry(order[i], tree[order[i]]) && !tree[order[i]].Link?
    ensures forall i | 2 + |order| <= i < |archive| :: archive[i].name.Dump? && archive[i].kind.Reg?
  {
    WrittenParts(env, tree, order, databases, dump);
    hide Written;
    forall i | 0 <= i < |order| ensures order[i] in tree && !tree[order[i]].Link? {
      assert order[i] in order;
    }
    forall i | 2 + |order| <= i < |archive| ensures archive[i].name.Dump? && archive[i].kind.Reg? {
      var m := i - 2 - |order|;
      assert archive[2 + |order| + m] == Entry(Dump(databases[m]), Reg, dump(databases[m]));
    }
  }

  /** A written archive is verified with its exact counts if it is within the limits and not empty, and refused
      otherwise; one whose download is too long is an error instead. */
  lemma InspectAcceptsWritten(env: Env, tree: Tree, order: seq<Path>, databases: seq<string>, dump: string -> string,
      size: nat)
    requires RoundTrips(env) && Restorable(tree, order, map[])
    ensures forall p <- order :: p in tree
    ensures var archive := Written(env, tree, order, databases, dump);
            var result := Rehearsed(env, [Stored(size, archive)]);
            if size > MAX_DOWNLOAD then result == None
            else if !WithinLimits(archive) then result.Some? && result.value.Rejected?
            else if FilesIn(tree, order) == 0 && databases == [] then result == Some(Rejected(NothingRecoverable, 0, 0))
            else result == Some(Verified(FilesIn(tree, order), |databases|))
  {
    RestorableWalks(tree, order, map[]);
    assert Rooted(tree);
    var archive := Written(env, tree, order, databases, dump);
    EntriesOf(env, archive, tree, order, databases, dump);
    hide Restorable, Written, RoundTrips, Rooted, WithinLimits, Inspect;
    if WithinLimits(archive) {
      InspectWithin(env, archive, tree, order, databases, dump);
    } else if Inspect(env, archive).Going? {
      StopsOverLimits(env, archive);
    }
  }

  // ---------- What a verified archive is ----------

  /** The entry may stand in a verified archive: a manifest of this site, no link and no unsafe name among the files. */
  predicate Acceptable(env: Env, e: Entry) {
    match e.name
    case ManifestName => ManifestFits(env, e.body)
    case Under(rel) => !e.kind.LinkKind? && (e.kind.Reg? ==> RestorePath(rel).Some?)
    case _ => true
  }

  function CountFiles(archive: seq<Entry>): nat {
    if archive == [] then 0
    else
      CountFiles(archive[..|archive| - 1])
      + if archive[|archive| - 1].name.Under? && archive[|archive| - 1].kind.Reg? then 1 else 0
  }

  function CountDumps(archive: seq<Entry>): nat {
    if archive == [] then 0
    else
      CountDumps(archive[..|archive| - 1])
      + if archive[|archive| - 1].name.Dump? && archive[|archive| - 1].kind.Reg? then 1 else 0
  }

  ghost predicate HasManifest(archive: seq<Entry>) {
    exists i :: 0 <= i < |archive| && archive[i].name.ManifestName?
  }

  lemma ManifestOneMore(archive: seq<Entry>)
    requires archive != []
    ensures HasManifest(archive)
            <==> HasManifest(archive[..|archive| - 1]) || archive[|archive| - 1].name.ManifestName?
  {
    var front := archive[..|archive| - 1];
    if HasManifest(front) {
      var i :| 0 <= i < |front| && front[i].name.ManifestName?;
      assert archive[i].name.ManifestName?;
    }
    if HasManifest(archive) && !archive[|archive| - 1].name.ManifestName? {
      var i :| 0 <= i < |archive| && archive[i].name.ManifestName?;
      assert front[i].name.ManifestName?;
    }
  }

  lemma {:induction false} GoingMeans(env: Env, archive: seq<Entry>)
    requires Inspect(env, archive).Going?
    ensures forall e <- archive :: Acceptable(env, e)
    ensures var seen := Inspect(env, archive).seen;
            && (seen.manifest <==> HasManifest(archive))
            && seen.files == CountFiles(archive) && seen.databases == CountDumps(archive)
    ensures archive != [] ==> |archive| <= MAX_ENTRIES && Bytes(archive) <= MAX_BYTES
  {
    if archive != [] {
      var front, e := archive[..|archive| - 1], archive[|archive| - 1];
      GoingMeans(env, front);
      ManifestOneMore(archive);
      hide HasManifest;
      assert archive == front + [e];
    }
  }

  /** The counts that come with a reason to refuse: none for too many entries or a foreign manifest; those up to the
      entry that is too large or a link; and with the entry whose file could not be laid out. */
  lemma CountsOfARefusal(env: Env, archive: seq<Entry>)
    requires archive != [] && Inspect(env, archive[..|archive| - 1]).Going? && Inspect(env, archive).Stopped?
    ensures var front, p := archive[..|archive| - 1], Inspect(env, archive);
            match p.reason
            case TooManyEntries => p.files == p.databases == 0
            case BadManifest => p.files == p.databases == 0
            case UnsafePath => p.files == CountFiles(archive) && p.databases == CountDumps(archive)
            case ExtractFailed => p.files == CountFiles(archive) && p.databases == CountDumps(archive)
            case _ => p.files == CountFiles(front) && p.databases == CountDumps(front)
  {
    GoingMeans(env, archive[..|archive| - 1]);
    hide HasManifest;
  }

  /** A verified archive holds a manifest, and only of this site; no links and no unsafe names; something to recover;
      and is within the limits. Its counts are those of the files and the dumps in it. */
  lemma VerifiedMeans(env: Env, archive: seq<Entry>)
    requires Verdict(Inspect(env, archive)).Verified?
    ensures var verdict := Verdict(Inspect(env, archive));
            && HasManifest(archive) && (forall e <- archive :: Acceptable(env, e))
            && verdict == Verified(CountFiles(archive), CountDumps(archive))
            && CountFiles(archive) + CountDumps(archive) > 0
            && |archive| <= MAX_ENTRIES && Bytes(archive) <= MAX_BYTES
  {
    GoingMeans(env, archive);
    hide Inspect, HasManifest;
  }

  /** One that can be read to its end is refused exactly for want of a manifest or of anything to recover. */
  lemma RefusedAtTheEndIff(env: Env, archive: seq<Entry>)
    requires Inspect(env, archive).Going?
    ensures var verdict := Verdict(Inspect(env, archive));
            if !HasManifest(archive) then verdict == Rejected(NoManifest, CountFiles(archive), CountDumps(archive))
            else verdict.Rejected? <==> CountFiles(archive) == CountDumps(archive) == 0
  {
    GoingMeans(env, archive);
    hide Inspect, HasManifest;
  }
}
