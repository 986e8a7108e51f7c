/**
 Writing, inspecting and restoring a site archive (internal/backup/manager.go).

 Tar and gzip are taken as a faithful list of entries. The part of an entry's name below
 `files/` is kept as the list of its components, as `/` separates them.
 */
module Backup {
  import opened Wrappers

  datatype Part = Empty | Dot | DotDot | Name(name: string)

  type Path = seq<string>

  /** The document root itself is the path [], always a directory and not part of the map. */
  datatype Node = Dir | File(body: string) | Link

  type Tree = map<Path, Node>

  datatype EntryName = ManifestName | Under(rel: seq<Part>) | Dump(database: string) | OtherName

  datatype Kind = Reg | Directory | LinkKind | OtherKind

  datatype Entry = Entry(name: EntryName, kind: Kind, body: string)

  const MAX_ENTRIES := 10000
  const MAX_BYTES := 524288000

  /** The same figure, for the compressed bytes of a download. */
  const MAX_DOWNLOAD := MAX_BYTES

  // ---------- Paths ----------

  /** filepath.Clean of a relative path. */
  function Clean(parts: seq<Part>): seq<Part> {
    if parts == [] then []
    else
      var front := Clean(parts[..|parts| - 1]);
      match parts[|parts| - 1]
      case Empty => front
      case Dot => front
      case Name(_) => front + [parts[|parts| - 1]]
      case DotDot =>
        if front != [] && front[|front| - 1].Name? then front[..|front| - 1] else front + [DotDot]
  }

  predicate Absolute(parts: seq<Part>) {
    |parts| >= 2 && parts[0].Empty?
  }

  function ToPath(parts: seq<Part>): (p: Path)
    requires forall part <- parts :: part.Name?
    ensures |p| == |parts|
  {
    seq(|parts|, i requires 0 <= i < |parts| => parts[i].name)
  }

  /** Below the document root, or None for an unsafe path. */
  function RestorePath(parts: seq<Part>): Option<Path> {
    var clean := Clean(parts);
    if Absolute(parts) || (clean != [] && clean[0].DotDot?) then None
    else
      CleanShape(parts);
      Some(ToPath(clean))
  }

  /** A cleaned path climbs first and then descends. */
  lemma {:induction false} CleanShape(parts: seq<Part>)
    ensures forall part <- Clean(parts) :: part.Name? || part.DotDot?
    ensures forall i, j | 0 <= i < j < |Clean(parts)| && Clean(parts)[j].DotDot? :: Clean(parts)[i].DotDot?
    ensures Clean(parts) == [] || !Clean(parts)[0].DotDot? ==> forall part <- Clean(parts) :: part.Name?
  {
    if parts != [] {
      CleanShape(parts[..|parts| - 1]);
    }
  }

  /** How far below the document root the components lead, were nothing clipped on the way. */
  function Depth(parts: seq<Part>): int {
    if parts == [] then 0
    else
      Depth(parts[..|parts| - 1]) +
      match parts[|parts| - 1] case Name(_) => 1 case DotDot => -1 case _ => 0
  }

  ghost predicate Climbs(parts: seq<Part>) {
    exists k: nat :: k <= |parts| && Depth(parts[..k]) < 0
  }

  lemma {:induction false} CleanClimbsIff(parts: seq<Part>)
    ensures Climbs(parts) <==> Clean(parts) != [] && Clean(parts)[0].DotDot?
    ensures !Climbs(parts) ==> Depth(parts) == |Clean(parts)|
  {
    if parts == [] {
      assert !Climbs(parts);
    } else {
      var front := parts[..|parts| - 1];
      CleanClimbsIff(front);
      CleanShape(front);
      ClimbsStep(parts);
    }
  }

  lemma ClimbsStep(parts: seq<Part>)
    requires parts != []
    ensures Climbs(parts) <==> Climbs(parts[..|parts| - 1]) || Depth(parts) < 0
  {
    var front := parts[..|parts| - 1];
    assert parts[..|parts|] == parts;
    forall k: nat | k <= |front| ensures front[..k] == parts[..k] {
    }
    if Climbs(front) {
      var k: nat :| k <= |front| && Depth(front[..k]) < 0;
      assert Depth(parts[..k]) < 0;
    }
    if Climbs(parts) {
      var k: nat :| k <= |parts| && Depth(parts[..k]) < 0;
      if k < |parts| {
        assert Depth(front[..k]) < 0;
      }
    }
  }

  /** A name is refused exactly when it is absolute or leads above the document root somewhere on the way;
      otherwise it names a path below it. */
  lemma RestorePathRefusesIff(parts: seq<Part>)
    ensures RestorePath(parts) == None <==> Absolute(parts) || Climbs(parts)
    ensures RestorePath(parts).Some? ==> |RestorePath(parts).value| == Depth(parts)
  {
    CleanClimbsIff(parts);
  }

  // ---------- Files ----------

  /** os.MkdirAll, where the path goes through no link. */
  function MkdirAll(tree: Tree, p: Path): Option<Tree> {
    if p == [] then Some(tree)
    else
      match MkdirAll(tree, p[..|p| - 1])
      case None => None
      case Some(t) =>
        if p !in t then Some(t[p := Dir])
        else if t[p].Dir? then Some(t)
        else None
  }

  /** `ensureNoSymlinkParents`: stops at the first missing component. */
  predicate NoLinkAlong(tree: Tree, p: Path, k: nat)
    requires k <= |p|
    decreases |p| - k
  {
    if k == |p| then true
    else
      p[..k + 1] !in tree || (!tree[p[..k + 1]].Link? && NoLinkAlong(tree, p, k + 1))
  }

  function WriteFile(tree: Tree, p: Path, body: string): (Tree, bool) {
    if p == [] then (tree, false)
    else
      match MkdirAll(tree, p[..|p| - 1])
      case None => (tree, false)
      case Some(t) => if p in t && t[p].Dir? then (t, false) else (t[p := File(body)], true)
  }

  function RestoreFile(tree: Tree, rel: seq<Part>, kind: Kind, body: string): (Tree, bool) {
    if rel == [Empty] then (tree, true)
    else
      match RestorePath(rel)
      case None => (tree, false)
      case Some(target) =>
        if !NoLinkAlong(tree, target, 0) then (tree, false)
        else
          match kind
          case Directory => (match MkdirAll(tree, target) case None => (tree, false) case Some(t) => (t, true))
          case Reg => WriteFile(tree, target, body)
          case _ => (tree, true)
  }

  // ---------- Restoring ----------

  /** The site an archive is restored into: its files, and the dumps replayed so far. */
  datatype Live = Live(tree: Tree, replayed: seq<string>)

  /** The manifest codec, the site at hand, and which dumps the database server refuses. */
  datatype Env = Env(encode: (string, seq<string>) -> string, decode: string -> Option<string>, siteID: string,
                     refuses: string -> bool)

  ghost predicate RoundTrips(env: Env) {
    forall id, databases :: env.decode(env.encode(id, databases)) == Some(id)
  }

  predicate ManifestFits(env: Env, body: string) {
    match env.decode(body)
    case None => false
    case Some(id) => id == "" || id == env.siteID
  }

  function ApplyEntry(env: Env, live: Live, e: Entry): (Live, bool) {
    match e.name
    case ManifestName => (live, ManifestFits(env, e.body))
    case Under(rel) =>
      var (tree, ok) := RestoreFile(live.tree, rel, e.kind, e.body);
      (live.(tree := tree), ok)
    case Dump(_) =>
      if !e.kind.Reg? then (live, true)
      else if env.refuses(e.body) then (live, false)
      else (live.(replayed := live.replayed + [e.body]), true)
    case OtherName => (live, true)
  }

  function Bytes(archive: seq<Entry>): nat {
    if archive == [] then 0 else Bytes(archive[..|archive| - 1]) + |archive[|archive| - 1].body|
  }

  /** The first `n` entries in order; the second result says whether all of them went through. */
  function Apply(env: Env, live: Live, archive: seq<Entry>): (Live, bool) {
    if archive == [] then (live, true)
    else
      var (before, ok) := Apply(env, live, archive[..|archive| - 1]);
      if !ok || |archive| > MAX_ENTRIES || Bytes(archive) > MAX_BYTES || archive[|archive| - 1].kind.LinkKind? then
        (before, false)
      else ApplyEntry(env, before, archive[|archive| - 1])
  }

  /** An archive in the store: how many compressed bytes it takes, and its entries. */
  datatype Stored = Stored(size: nat, archive: seq<Entry>)

  /** `Restore` once site and name are accepted and the object is found. */
  function AfterRestore(env: Env, live: Live, confirmed: bool, stored: Stored): (Live, bool) {
    if !confirmed || stored.size > MAX_DOWNLOAD then (live, false) else Apply(env, live, stored.archive)
  }

  /** Reads one byte past the limit at most, to tell a download that is too long. */
  method CopyArchive(size: nat) returns (n: nat, ok: bool)
    ensures ok <==> size <= MAX_DOWNLOAD
    ensures n == if ok then size else MAX_DOWNLOAD + 1
  {
    n := if size < MAX_DOWNLOAD + 1 then size else MAX_DOWNLOAD + 1;
    return n, n <= MAX_DOWNLOAD;
  }

  class Site {
    var tree: Tree
    var replayed: seq<string>

    ghost function State(): Live
      reads this
    {
      Live(tree, replayed)
    }

    constructor (tree: Tree)
      ensures State() == Live(tree, [])
    {
      this.tree, this.replayed := tree, [];
    }

    method ApplyArchive(env: Env, archive: seq<Entry>) returns (ok: bool)
      modifies this
      ensures (State(), ok) == Apply(env, old(State()), archive)
    {
      var entries, bytes := 0, 0;
      while entries < |archive|
        invariant 0 <= entries <= |archive| && 0 <= bytes <= MAX_BYTES
        invariant bytes == Bytes(archive[..entries])
        invariant (State(), true) == Apply(env, old(State()), archive[..entries])
      {
        var header := archive[entries];
        entries := entries + 1;
        assert archive[..entries][..entries - 1] == archive[..entries - 1];
        if entries > MAX_ENTRIES || |header.body| > MAX_BYTES || bytes > MAX_BYTES - |header.body|
            || header.kind.LinkKind? {
          FailureStops(env, old(State()), archive, entries);
          return false;
        }
        bytes := bytes + |header.body|;
        match header.name {
          case ManifestName =>
            if !ManifestFits(env, header.body) {
              FailureStops(env, old(State()), archive, entries);
              return false;
            }
          case Under(rel) =>
            var (next, restored) := RestoreFile(tree, rel, header.kind, header.body);
            tree := next;
            if !restored {
              FailureStops(env, old(State()), archive, entries);
              return false;
            }
          case Dump(_) =>
            if header.kind.Reg? {
              if env.refuses(header.body) {
                FailureStops(env, old(State()), archive, entries);
                return false;
              }
              replayed := replayed + [header.body];
            }
          case OtherName =>
        }
      }
      assert archive[..|archive|] == archive;
      return true;
    }

    method Restore(env: Env, confirmed: bool, stored: Stored) returns (ok: bool)
      modifies this
      ensures (State(), ok) == AfterRestore(env, old(State()), confirmed, stored)
    {
      if !confirmed {
        return false;
      }
      var _, copied := CopyArchive(stored.size);
      if !copied {
        return false;
      }
      ok := ApplyArchive(env, stored.archive);
    }
  }

  /** The entry that fails is the last one looked at. */
  lemma {:induction false} FailureStops(env: Env, live: Live, archive: seq<Entry>, n: nat)
    requires 0 < n <= |archive| && !Apply(env, live, archive[..n]).1
    ensures Apply(env, live, archive) == Apply(env, live, archive[..n])
    decreases |archive|
  {
    if n == |archive| {
      assert archive[..n] == archive;
    } else {
      var front := archive[..|archive| - 1];
      assert front[..n] == archive[..n];
      FailureStops(env, live, front, n);
    }
  }

  // ---------- Writing ----------

  /** Components of a path as the archive names it. */
  function RelParts(p: Path, dir: bool): seq<Part> {
    (if p == [] then [Dot] else seq(|p|, i requires 0 <= i < |p| => Name(p[i]))) + if dir then [Empty] else []
  }

  function FileEntry(p: Path, node: Node): Entry {
    match node
    case Dir => Entry(Under(RelParts(p, true)), Directory, "")
    case File(body) => Entry(Under(RelParts(p, false)), Reg, body)
    case Link => Entry(Under(RelParts(p, false)), LinkKind, "")
  }

  function FileEntries(tree: Tree, order: seq<Path>): seq<Entry>
    requires forall p <- order :: p in tree
  {
    seq(|order|, i requires 0 <= i < |order| => FileEntry(order[i], tree[order[i]]))
  }

  function DumpEntries(databases: seq<string>, dump: string -> string): seq<Entry> {
    seq(|databases|, i requires 0 <= i < |databases| => Entry(Dump(databases[i]), Reg, dump(databases[i])))
  }

  function ManifestEntry(env: Env, databases: seq<string>): Entry {
    Entry(ManifestName, Reg, env.encode(env.siteID, databases))
  }

  /** Manifest, document root, its files in walk order, dumps. */
  function Written(env: Env, tree: Tree, order: seq<Path>, databases: seq<string>, dump: string -> string): seq<Entry>
    requires forall p <- order :: p in tree
  {
    [ManifestEntry(env, databases)] + [FileEntry([], Dir)] + FileEntries(tree, order) + DumpEntries(databases, dump)
  }

  predicate LinkFree(tree: Tree, order: seq<Path>)
    requires forall p <- order :: p in tree
  {
    forall p <- order :: !tree[p].Link?
  }

  /** A walk that meets a link gives up; otherwise the archive is complete. */
  method WriteArchive(env: Env, tree: Tree, order: seq<Path>, databases: seq<string>, dump: string -> string)
    returns (archive: Option<seq<Entry>>)
    requires forall p <- order :: p in tree
    ensures archive == if LinkFree(tree, order) then Some(Written(env, tree, order, databases, dump)) else None
  {
    var out := [ManifestEntry(env, databases), FileEntry([], Dir)];
    var i := 0;
    while i < |order|
      invariant 0 <= i <= |order|
      invariant out == [ManifestEntry(env, databases)] + [FileEntry([], Dir)] + FileEntries(tree, order)[..i]
      invariant forall k | 0 <= k < i :: !tree[order[k]].Link?
    {
      if tree[order[i]].Link? {
        assert order[i] in order;
        return None;
      }
      out := out + [FileEntry(order[i], tree[order[i]])];
      i := i + 1;
    }
    i := 0;
    assert FileEntries(tree, order)[..|order|] == FileEntries(tree, order);
    ghost var before := out;
    while i < |databases|
      invariant 0 <= i <= |databases|
      invariant out == before + DumpEntries(databases, dump)[..i]
    {
      out := out + [Entry(Dump(databases[i]), Reg, dump(databases[i]))];
      i := i + 1;
    }
    assert DumpEntries(databases, dump)[..|databases|] == DumpEntries(databases, dump);
    return Some(out);
  }

  // ---------- Round trip ----------

  /** A file tree: every directory on the way to an entry is there. */
  ghost predicate Rooted(tree: Tree) {
    [] !in tree && forall p {:trigger ParentIsDir(tree, p)} | p in tree :: ParentIsDir(tree, p)
  }

  predicate ParentIsDir(tree: Tree, p: Path) {
    |p| > 1 ==> p[..|p| - 1] in tree && tree[p[..|p| - 1]].Dir?
  }

  /** A walk visits every entry once, a directory before what is in it. */
  ghost predicate Walks(order: seq<Path>, tree: Tree) {
    && (forall p :: p in order <==> p in tree)
    && (forall i, j | 0 <= i < j < |order| :: order[i] != order[j])
    && forall i | 0 <= i < |order| :: ParentEarlier(order, i)
  }

  ghost predicate ParentEarlier(order: seq<Path>, i: nat)
    requires i < |order|
  {
    |order[i]| > 1 ==> exists k :: 0 <= k < i && order[k] == order[i][..|order[i]| - 1]
  }

  /** Where both trees have an entry, it is a directory in both or a file in both. */
  ghost predicate Compatible(tree: Tree, now: Tree) {
    forall p | p in tree && p in now :: (tree[p].Dir? && now[p].Dir?) || (tree[p].File? && now[p].File?)
  }

  /** `now` with the first entries of the walk laid over it. */
  function Overlay(now: Tree, tree: Tree, order: seq<Path>): Tree
    requires forall p <- order :: p in tree
  {
    if order == [] then now
    else Overlay(now, tree, order[..|order| - 1])[order[|order| - 1] := tree[order[|order| - 1]]]
  }

  /** Archived paths get their archived contents, other paths are left alone. */
  lemma {:induction false} OverlayHolds(now: Tree, tree: Tree, order: seq<Path>, p: Path)
    requires forall q <- order :: q in tree
    ensures Lookup(Overlay(now, tree, order), p) == if p in order then Some(tree[p]) else Lookup(now, p)
  {
    if order != [] {
      var front := order[..|order| - 1];
      OverlayHolds(now, tree, front, p);
      assert order == front + [order[|order| - 1]];
    }
  }

  lemma {:induction false} CleanNames(parts: seq<Part>)
    requires forall part <- parts :: part.Name?
    ensures Clean(parts) == parts
  {
    if parts != [] {
      assert parts[|parts| - 1] in parts;
      CleanNames(parts[..|parts| - 1]);
      assert parts == parts[..|parts| - 1] + [parts[|parts| - 1]];
    }
  }

  /** The name under which a path is archived leads back to it. */
  lemma RelPartsRestore(p: Path, dir: bool)
    ensures RelParts(p, dir) != [Empty] && RestorePath(RelParts(p, dir)) == Some(p)
  {
    var names := if p == [] then [Dot] else seq(|p|, i requires 0 <= i < |p| => Name(p[i]));
    if p == [] {
      assert [Dot][..0] == [] && Clean([Dot]) == Clean([Dot][..0]);
    } else {
      CleanNames(names);
      assert ToPath(names) == p;
    }
    assert RelParts(p, dir)[0] == names[0];
    if dir {
      assert RelParts(p, dir) == names + [Empty];
      assert (names + [Empty])[..|names|] == names;
      assert Clean(names + [Empty]) == Clean(names);
    } else {
      assert RelParts(p, dir) == names;
    }
  }

  /** Every prefix of an archived path is archived, so with its parents in place it meets no link and needs no new
      directory. */
  lemma {:induction false} ParentsInPlace(tree: Tree, p: Path, k: nat)
    requires k <= |p| && forall j | 0 < j < |p| :: p[..j] in tree && tree[p[..j]].Dir?
    requires p in tree ==> !tree[p].Link?
    ensures NoLinkAlong(tree, p, k)
    decreases |p| - k
  {
    if k < |p| {
      assert p[..|p|] == p;
      ParentsInPlace(tree, p, k + 1);
    }
  }

  lemma {:induction false} MkdirInPlace(tree: Tree, p: Path)
    requires forall j | 0 < j <= |p| :: p[..j] in tree && tree[p[..j]].Dir?
    ensures MkdirAll(tree, p) == Some(tree)
  {
    if p != [] {
      var parent := p[..|p| - 1];
      assert p[..|p|] == p;
      forall j | 0 < j <= |parent| ensures parent[..j] in tree && tree[parent[..j]].Dir? {
        assert parent[..j] == p[..j];
      }
      MkdirInPlace(tree, parent);
    }
  }

  /** Restoring one entry whose parents are in place puts exactly that entry in place. */
  lemma RestoreOne(env: Env, live: Live, p: Path, node: Node)
    requires p != [] && !node.Link? && forall j | 0 < j < |p| :: p[..j] in live.tree && live.tree[p[..j]].Dir?
    requires p in live.tree ==> (node.Dir? && live.tree[p].Dir?) || (node.File? && live.tree[p].File?)
    ensures ApplyEntry(env, live, FileEntry(p, node)) == (live.(tree := live.tree[p := node]), true)
  {
    RelPartsRestore(p, node.Dir?);
    ParentsInPlace(live.tree, p, 0);
    var parent := p[..|p| - 1];
    forall j | 0 < j <= |parent| ensures parent[..j] in live.tree && live.tree[parent[..j]].Dir? {
      assert parent[..j] == p[..j];
    }
    MkdirInPlace(live.tree, parent);
    assert node.Dir? && p in live.tree ==> live.tree[p := Dir] == live.tree;
  }

  lemma RootEntryChangesNothing(env: Env, live: Live)
    ensures ApplyEntry(env, live, FileEntry([], Dir)) == (live, true)
  {
    RelPartsRestore([], true);
  }

  lemma {:induction false} PrefixesArchived(tree: Tree, p: Path, j: nat)
    requires Rooted(tree) && p in tree && 0 < j < |p|
    ensures p[..j] in tree && tree[p[..j]].Dir?
    decreases |p|
  {
    assert ParentIsDir(tree, p);
    var parent := p[..|p| - 1];
    if j < |parent| {
      PrefixesArchived(tree, parent, j);
      assert parent[..j] == p[..j];
    }
  }

  lemma {:induction false} PrefixesWalked(tree: Tree, order: seq<Path>, i: nat, j: nat) returns (at: nat)
    requires Walks(order, tree) && i < |order| && 0 < j < |order[i]|
    ensures at < i && order[at] == order[i][..j]
    decreases |order[i]|
  {
    assert ParentEarlier(order, i);
    var parent := order[i][..|order[i]| - 1];
    var k: nat :| k < i && order[k] == parent;
    at := k;
    if j < |parent| {
      at := PrefixesWalked(tree, order, k, j);
      assert parent[..j] == order[i][..j];
    }
  }

  lemma {:induction false} BytesOfPrefix(archive: seq<Entry>, n: nat)
    requires n <= |archive|
    ensures Bytes(archive[..n]) <= Bytes(archive)
  {
    if n < |archive| {
      assert archive[..|archive| - 1][..n] == archive[..n];
      BytesOfPrefix(archive[..|archive| - 1], n);
    } else {
      assert archive[..n] == archive;
    }
  }

  predicate WithinLimits(archive: seq<Entry>) {
    |archive| <= MAX_ENTRIES && Bytes(archive) <= MAX_BYTES
  }

  lemma ApplyNext(env: Env, live: Live, archive: seq<Entry>, n: nat, before: Live)
    requires n < |archive| && WithinLimits(archive) && !archive[n].kind.LinkKind?
    requires Apply(env, live, archive[..n]) == (before, true)
    ensures Apply(env, live, archive[..n + 1]) == ApplyEntry(env, before, archive[n])
  {
    BytesOfPrefix(archive, n + 1);
    assert archive[..n + 1][..n] == archive[..n];
  }

  /** The tree as archived, and a site that it can be laid over. */
  ghost predicate Restorable(tree: Tree, order: seq<Path>, now: Tree) {
    Rooted(tree) && Walks(order, tree) && LinkFree(tree, order) && Compatible(tree, now)
  }

  /** Laying the next entry over the tree meets directories on the way and the same kind at the end. */
  lemma NextFits(now: Tree, tree: Tree, order: seq<Path>, k: nat)
    requires Restorable(tree, order, now) && k < |order|
    ensures forall q <- order[..k] :: q in tree
    ensures var so := Overlay(now, tree, order[..k]);
            var p := order[k];
            && p in tree && p != [] && !tree[p].Link?
            && (forall j | 0 < j < |p| :: p[..j] in so && so[p[..j]].Dir?)
            && (p in so ==> (tree[p].Dir? && so[p].Dir?) || (tree[p].File? && so[p].File?))
  {
    var p := order[k];
    assert p in order;
    forall q | q in order[..k] ensures q in tree {
      assert q in order;
    }
    var so := Overlay(now, tree, order[..k]);
    forall j | 0 < j < |p| ensures p[..j] in so && so[p[..j]].Dir? {
      PrefixesArchived(tree, p, j);
      var at := PrefixesWalked(tree, order, k, j);
      assert order[..k][at] == p[..j];
      OverlayHolds(now, tree, order[..k], p[..j]);
    }
    OverlayHolds(now, tree, order[..k], p);
  }

  /** The archive entry by entry. */
  lemma WrittenParts(env: Env, tree: Tree, order: seq<Path>, databases: seq<string>, dump: string -> string)
    requires (forall p <- order :: p in tree) && LinkFree(tree, order)
    ensures var archive := Written(env, tree, order, databases, dump);
            && |archive| == 2 + |order| + |databases|
            && archive[0] == ManifestEntry(env, databases) && archive[1] == FileEntry([], Dir)
            && (forall i | 0 <= i < |order| :: archive[2 + i] == FileEntry(order[i], tree[order[i]]))
            && (forall m | 0 <= m < |databases| ::
                  archive[2 + |order| + m] == Entry(Dump(databases[m]), Reg, dump(databases[m])))
            && forall e <- archive :: !e.kind.LinkKind?
  {
    var archive := Written(env, tree, order, databases, dump);
    forall i | 0 <= i < |archive| ensures !archive[i].kind.LinkKind? {
      if 2 <= i < 2 + |order| {
        assert archive[i] == FileEntry(order[i - 2], tree[order[i - 2]]);
        assert order[i - 2] in order;
      }
    }
  }

  /** File after file from entry `from` on. */
  lemma {:induction false} FilesApply(env: Env, live: Live, archive: seq<Entry>, from: nat, tree: Tree,
      order: seq<Path>, k: nat)
    requires Restorable(tree, order, live.tree) && k <= |order| && from + |order| <= |archive| && WithinLimits(archive)
    requires Apply(env, live, archive[..from]) == (live, true)
    requires forall i | 0 <= i < |order| :: order[i] in tree && archive[from + i] == FileEntry(order[i], tree[order[i]])
    requires forall e <- archive :: !e.kind.LinkKind?
    ensures forall q <- order[..k] :: q in tree
    ensures Apply(env, live, archive[..from + k]) == (live.(tree := Overlay(live.tree, tree, order[..k])), true)
  {
    hide WithinLimits, Restorable, ApplyEntry, FileEntry;
    if k > 0 {
      hide Apply;
      FilesApply(env, live, archive, from, tree, order, k - 1);
      NextFits(live.tree, tree, order, k - 1);
      var before := live.(tree := Overlay(live.tree, tree, order[..k - 1]));
      var at := from + (k - 1);
      assert archive[at] == FileEntry(order[k - 1], tree[order[k - 1]]) && archive[at] in archive;
      RestoreOne(env, before, order[k - 1], tree[order[k - 1]]);
      ApplyNext(env, live, archive, at, before);
      assert order[..k][..k - 1] == order[..k - 1];
    }
  }

  /** The manifest and the document root change nothing. */
  lemma HeadApplies(env: Env, live: Live, archive: seq<Entry>, databases: seq<string>)
    requires RoundTrips(env) && WithinLimits(archive) && 2 <= |archive|
    requires archive[0] == ManifestEntry(env, databases) && archive[1] == FileEntry([], Dir)
    ensures Apply(env, live, archive[..2]) == (live, true)
  {
    assert archive[..0] == [];
    assert env.decode(env.encode(env.siteID, databases)) == Some(env.siteID);
    ApplyNext(env, live, archive, 0, live);
    ApplyNext(env, live, archive, 1, live);
    RootEntryChangesNothing(env, live);
  }

  function Dumps(databases: seq<string>, dump: string -> string): (r: seq<string>)
    ensures |r| == |databases|
  {
    seq(|databases|, i requires 0 <= i < |databases| => dump(databases[i]))
  }

  /** Dump after dump from entry `from` on. */
  lemma {:induction false} DumpsApply(env: Env, live: Live, archive: seq<Entry>, from: nat, before: Live,
      databases: seq<string>, dump: string -> string, m: nat)
    requires WithinLimits(archive) && m <= |databases| && from + |databases| <= |archive|
    requires Apply(env, live, archive[..from]) == (before, true)
    requires forall i | 0 <= i < |databases| :: archive[from + i] == Entry(Dump(databases[i]), Reg, dump(databases[i]))
    requires forall database <- databases :: !env.refuses(dump(database))
    ensures Apply(env, live, archive[..from + m])
            == (before.(replayed := before.replayed + Dumps(databases, dump)[..m]), true)
  {
    if m == 0 {
      assert before.replayed + Dumps(databases, dump)[..0] == before.replayed;
    } else {
      DumpsApply(env, live, archive, from, before, databases, dump, m - 1);
      hide WithinLimits, Apply;
      var so := before.(replayed := before.replayed + Dumps(databases, dump)[..m - 1]);
      var at := from + m - 1;
      assert archive[at] == Entry(Dump(databases[m - 1]), Reg, dump(databases[m - 1])) by {
        assert archive[from + (m - 1)] == Entry(Dump(databases[m - 1]), Reg, dump(databases[m - 1]));
      }
      assert databases[m - 1] in databases;
      ApplyNext(env, live, archive, at, so);
      assert so.replayed + [dump(databases[m - 1])] == before.replayed + Dumps(databases, dump)[..m];
    }
  }

  lemma RestorableWalks(tree: Tree, order: seq<Path>, now: Tree)
    requires Restorable(tree, order, now)
    ensures (forall p <- order :: p in tree) && LinkFree(tree, order)
  {
  }

  lemma RestoreWithin(env: Env, live: Live, tree: Tree, order: seq<Path>, databases: seq<string>,
                      dump: string -> string)
    requires RoundTrips(env) && Restorable(tree, order, live.tree)
    requires (forall database <- databases :: !env.refuses(dump(database)))
             && WithinLimits(Written(env, tree, order, databases, dump))
    ensures Apply(env, live, Written(env, tree, order, databases, dump))
            == (Live(Overlay(live.tree, tree, order), live.replayed + Dumps(databases, dump)), true)
  {
    hide WithinLimits, Restorable, Written, Apply, RoundTrips, FileEntry;
    RestorableWalks(tree, order, live.tree);
    var archive := Written(env, tree, order, databases, dump);
    WrittenParts(env, tree, order, databases, dump);
    HeadApplies(env, live, archive, databases);
    FilesApply(env, live, archive, 2, tree, order, |order|);
    assert order[..|order|] == order;
    var before := live.(tree := Overlay(live.tree, tree, order));
    DumpsApply(env, live, archive, 2 + |order|, before, databases, dump, |databases|);
    assert archive[..2 + |order| + |databases|] == archive;
    assert Dumps(databases, dump)[..|databases|] == Dumps(databases, dump);
  }

  lemma LimitsAreEnforced(env: Env, live: Live, archive: seq<Entry>)
    requires Apply(env, live, archive).1
    ensures WithinLimits(archive)
  {
  }

  /** The round trip. A confirmed restore of what was written goes through exactly if the archive is within the
      limits on entries and bytes and its compressed length within that on downloads, none of which writing it
      checks; it then gives every archived path its archived contents, leaves the other paths alone, and replays
      the dumps in order. A download that is too long changes nothing. */
  lemma RestoreUndoesWrite(env: Env, live: Live, tree: Tree, order: seq<Path>, databases: seq<string>,
      dump: string -> string, size: nat, p: Path)
    requires RoundTrips(env) && Restorable(tree, order, live.tree)
    requires forall database <- databases :: !env.refuses(dump(database))
    ensures var archive := Written(env, tree, order, databases, dump);
            var (after, ok) := AfterRestore(env, live, true, Stored(size, archive));
            && (ok <==> WithinLimits(archive) && size <= MAX_DOWNLOAD)
            && (ok ==> Lookup(after.tree, p) == (if p in tree then Some(tree[p]) else Lookup(live.tree, p))
                       && after.replayed == live.replayed + Dumps(databases, dump))
            && (size > MAX_DOWNLOAD ==> after == live)
  {
    var archive := Written(env, tree, order, databases, dump);
    hide Apply, Written, WithinLimits;
    if WithinLimits(archive) {
      RestoreWithin(env, live, tree, order, databases, dump);
      OverlayHolds(live.tree, tree, order, p);
    } else if Apply(env, live, archive).1 {
      LimitsAreEnforced(env, live, archive);
    }
  }

  /** An archive written for another site is refused at its first entry, before anything changes. */
  lemma ForeignArchiveChangesNothing(env: Env, other: Env, live: Live, tree: Tree, order: seq<Path>,
      databases: seq<string>, dump: string -> string)
    requires other.encode == env.encode && other.decode == env.decode && RoundTrips(env)
    requires other.siteID != "" && other.siteID != env.siteID && forall p <- order :: p in tree
    ensures Apply(env, live, Written(other, tree, order, databases, dump)) == (live, false)
  {
    var archive := Written(other, tree, order, databases, dump);
    assert archive[..1] == [ManifestEntry(other, databases)];
    assert archive[..1][..0] == [];
    assert Bytes(archive[..1]) == |ManifestEntry(other, databases).body|;
    assert env.decode(env.encode(other.siteID, databases)) == Some(other.siteID);
    FailureStops(env, live, archive, 1);
  }

  /** Whatever an archive holds, and wherever restoring it stops, no path is removed. */
  lemma {:induction false} NothingIsRemoved(env: Env, live: Live, archive: seq<Entry>, p: Path)
    requires p in live.tree
    ensures p in Apply(env, live, archive).0.tree
  {
    if archive != [] {
      NothingIsRemoved(env, live, archive[..|archive| - 1], p);
      var before := Apply(env, live, archive[..|archive| - 1]).0;
      var e := archive[|archive| - 1];
      if e.name.Under? {
        RestoreKeeps(before.tree, e.name.rel, e.kind, e.body, p);
      }
    }
  }

  lemma RestoreKeeps(tree: Tree, rel: seq<Part>, kind: Kind, body: string, p: Path)
    requires p in tree
    ensures p in RestoreFile(tree, rel, kind, body).0
  {
    var target := RestorePath(rel);
    if target.Some? {
      MkdirKeeps(tree, target.value, p);
      if target.value != [] {
        MkdirKeeps(tree, target.value[..|target.value| - 1], p);
      }
    }
  }

  lemma {:induction false} MkdirKeeps(tree: Tree, q: Path, p: Path)
    requires p in tree
    ensures MkdirAll(tree, q).Some? ==> p in MkdirAll(tree, q).value
  {
    if q != [] {
      MkdirKeeps(tree, q[..|q| - 1], p);
    }
  }

  // ---------- Links ----------

  /** The path is a link of the site, or leads through one. */
  predicate BehindLink(tree: Tree, p: Path) {
    exists j: nat | 0 < j <= |p| :: IsLink(tree, p[..j])
  }

  predicate IsLink(tree: Tree, p: Path) {
    p in tree && tree[p].Link?
  }

  lemma {:induction false} PathIsSafe(tree: Tree, p: Path, k: nat)
    requires Rooted(tree) && k <= |p| && NoLinkAlong(tree, p, k)
    requires forall j: nat | 0 < j <= k :: !IsLink(tree, p[..j])
    ensures !BehindLink(tree, p)
    decreases |p| - k
  {
    if k < |p| {
      if p[..k + 1] in tree {
        PathIsSafe(tree, p, k + 1);
      } else {
        LongerNeedsShorter(tree, p, k + 1);
      }
    }
  }

  lemma {:induction false} PrefixIsThere(tree: Tree, p: Path, i: nat, j: nat)
    requires Rooted(tree) && 0 < i <= j <= |p| && p[..j] in tree
    ensures p[..i] in tree
    decreases j - i
  {
    if i < j {
      assert ParentIsDir(tree, p[..j]);
      assert p[..j][..j - 1] == p[..j - 1];
      PrefixIsThere(tree, p, i, j - 1);
    }
  }

  lemma LongerNeedsShorter(tree: Tree, p: Path, i: nat)
    requires Rooted(tree) && 0 < i <= |p|
    ensures forall j: nat | i <= j <= |p| && p[..j] in tree :: p[..i] in tree
  {
    forall j: nat | i <= j <= |p| && p[..j] in tree ensures p[..i] in tree {
      PrefixIsThere(tree, p, i, j);
    }
  }

  /** A tree that has grown by directories and one file at most, on the way to `p`. */
  ghost predicate GrownTo(tree: Tree, tree': Tree, p: Path) {
    && (forall q <- tree :: q in tree' && (tree'[q] == tree[q] || q == p))
    && (forall q <- tree' | q !in tree :: |q| <= |p| && q == p[..|q|] && !tree'[q].Link?)
    && (p in tree' && p in tree ==> tree'[p] == tree[p] || !tree'[p].Link?)
  }

  /** Growing on a way without links leaves everything that is behind a link as it is. */
  lemma GrowthStaysClear(tree: Tree, tree': Tree, p: Path, q: Path)
    requires GrownTo(tree, tree', p) && !BehindLink(tree, p) && BehindLink(tree, q)
    ensures Lookup(tree', q) == Lookup(tree, q) && BehindLink(tree', q)
  {
    var j: nat :| 0 < j <= |q| && IsLink(tree, q[..j]);
    assert j <= |p| ==> !IsLink(tree, p[..j]);
    assert p[..|p|] == p;
    assert IsLink(tree', q[..j]);
    if |q| <= |p| {
      assert p[..|q|][..j] == p[..j];
    }
  }

  lemma {:induction false} MkdirGrows(tree: Tree, p: Path)
    requires Rooted(tree) && MkdirAll(tree, p).Some?
    ensures Rooted(MkdirAll(tree, p).value) && GrownTo(tree, MkdirAll(tree, p).value, p)
    ensures forall q <- tree :: MkdirAll(tree, p).value[q] == tree[q]
    ensures p != [] ==> p in MkdirAll(tree, p).value && MkdirAll(tree, p).value[p].Dir?
  {
    if p != [] {
      var parent := p[..|p| - 1];
      MkdirGrows(tree, parent);
      var t := MkdirAll(tree, parent).value;
      var after := MkdirAll(tree, p).value;
      forall q | q in after ensures ParentIsDir(after, q) {
        if q != p {
          assert ParentIsDir(t, q);
        }
      }
      forall q | q in after && q !in tree ensures |q| <= |p| && q == p[..|q|] {
        if q != p {
          assert q == parent[..|q|];
        }
      }
    }
  }

  lemma WriteGrows(tree: Tree, p: Path, body: string)
    requires Rooted(tree)
    ensures Rooted(WriteFile(tree, p, body).0) && GrownTo(tree, WriteFile(tree, p, body).0, p)
  {
    if p != [] && MkdirAll(tree, p[..|p| - 1]).Some? {
      var parent := p[..|p| - 1];
      MkdirGrows(tree, parent);
      var t := MkdirAll(tree, parent).value;
      var after := WriteFile(tree, p, body).0;
      forall q | q in after ensures ParentIsDir(after, q) {
        if q != p {
          assert ParentIsDir(t, q);
        }
      }
      forall q | q in after && q !in tree ensures |q| <= |p| && q == p[..|q|] {
        if q != p {
          assert q == parent[..|q|];
        }
      }
    }
  }

  /** Restoring one entry leaves what is behind a link of the site alone, whatever its name says. */
  lemma RestoreStaysClear(tree: Tree, rel: seq<Part>, kind: Kind, body: string, q: Path)
    requires Rooted(tree)
    ensures Rooted(RestoreFile(tree, rel, kind, body).0)
    ensures var after := RestoreFile(tree, rel, kind, body).0;
            BehindLink(tree, q) ==> Lookup(after, q) == Lookup(tree, q) && BehindLink(after, q)
  {
    var target := RestorePath(rel);
    if rel != [Empty] && target.Some? && NoLinkAlong(tree, target.value, 0) {
      PathIsSafe(tree, target.value, 0);
      var after := RestoreFile(tree, rel, kind, body).0;
      if kind.Directory? && MkdirAll(tree, target.value).Some? {
        MkdirGrows(tree, target.value);
      }
      if kind.Reg? {
        WriteGrows(tree, target.value, body);
      }
      hide RestoreFile, NoLinkAlong, MkdirAll, WriteFile;
      if after != tree && BehindLink(tree, q) {
        GrowthStaysClear(tree, after, target.value, q);
      }
    }
  }

  /** Whatever an archive holds, and wherever restoring it stops: no link of the site is replaced, and nothing is
      written through one. */
  lemma {:induction false} LinksAreNotFollowed(env: Env, live: Live, archive: seq<Entry>, q: Path)
    requires Rooted(live.tree)
    ensures var after := Apply(env, live, archive).0.tree;
            && Rooted(after)
            && (BehindLink(live.tree, q) ==> Lookup(after, q) == Lookup(live.tree, q) && BehindLink(after, q))
  {
    if archive != [] {
      LinksAreNotFollowed(env, live, archive[..|archive| - 1], q);
      var before := Apply(env, live, archive[..|archive| - 1]).0;
      var e := archive[|archive| - 1];
      hide RestoreFile, Rooted, BehindLink;
      if e.name.Under? {
        RestoreStaysClear(before.tree, e.name.rel, e.kind, e.body, q);
      }
    }
  }
}
