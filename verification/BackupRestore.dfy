/**
 What restoring an archive does, entry by entry and as a whole, whoever wrote it (internal/backup/manager.go): exactly
 when an entry goes through, and what the site holds afterwards.
 */
module BackupRestore {
  import opened Wrappers
  import opened Backup

  // ---------- One entry ----------

  /** What is there of the first `n` directories on the way is a directory. */
  predicate DirsUpTo(tree: Tree, p: Path, n: nat)
    requires n <= |p|
  {
    forall j: nat | 0 < j <= n && p[..j] in tree :: tree[p[..j]].Dir?
  }

  /** Room for a directory, for a file, or for nothing at all. */
  predicate Placeable(tree: Tree, p: Path, kind: Kind) {
    match kind
    case Directory => DirsUpTo(tree, p, |p|)
    case Reg => p != [] && DirsUpTo(tree, p, |p| - 1) && (p in tree ==> !tree[p].Dir?)
    case _ => true
  }

  lemma {:induction false} MkdirIff(tree: Tree, p: Path)
    ensures MkdirAll(tree, p).Some? <==> DirsUpTo(tree, p, |p|)
    ensures MkdirAll(tree, p).Some? ==> p != [] ==> Lookup(MkdirAll(tree, p).value, p) == Some(Dir)
    ensures MkdirAll(tree, p).Some? ==>
              forall q | |q| > |p| || q != p[..|q|] || q in tree ::
                Lookup(MkdirAll(tree, p).value, q) == Lookup(tree, q)
  {
    if p != [] {
      var parent := p[..|p| - 1];
      MkdirIff(tree, parent);
      assert forall j: nat | j < |p| :: parent[..j] == p[..j];
      assert p[..|p|] == p;
    }
  }

  lemma {:induction false} LinkOnTheWay(tree: Tree, p: Path, k: nat)
    requires k <= |p| && !NoLinkAlong(tree, p, k)
    ensures BehindLink(tree, p)
    decreases |p| - k
  {
    if p[..k + 1] in tree && tree[p[..k + 1]].Link? {
      assert IsLink(tree, p[..k + 1]);
    } else {
      LinkOnTheWay(tree, p, k + 1);
    }
  }

  /** A file or directory of an archive goes through exactly if its name is safe, no link of the site is on its way, and
      there is room for it. */
  lemma FileRestoredIff(tree: Tree, rel: seq<Part>, kind: Kind, body: string)
    requires Rooted(tree)
    ensures RestoreFile(tree, rel, kind, body).1
            <==> rel == [Empty]
                 || (RestorePath(rel).Some?
                     && !BehindLink(tree, RestorePath(rel).value) && Placeable(tree, RestorePath(rel).value, kind))
  {
    if rel != [Empty] && RestorePath(rel).Some? {
      var p := RestorePath(rel).value;
      if NoLinkAlong(tree, p, 0) {
        PathIsSafe(tree, p, 0);
      } else {
        LinkOnTheWay(tree, p, 0);
      }
      if kind.Directory? {
        MkdirIff(tree, p);
      }
      if kind.Reg? && p != [] {
        WrittenIff(tree, p, body);
      }
    }
  }

  lemma WrittenIff(tree: Tree, p: Path, body: string)
    requires p != []
    ensures WriteFile(tree, p, body).1 <==> Placeable(tree, p, Reg)
    ensures WriteFile(tree, p, body).1 ==> Lookup(WriteFile(tree, p, body).0, p) == Some(File(body))
    ensures forall q | q in tree && q != p :: Lookup(WriteFile(tree, p, body).0, q) == Some(tree[q])
  {
    var parent := p[..|p| - 1];
    MkdirIff(tree, parent);
    assert forall j: nat | j < |p| :: parent[..j] == p[..j];
  }

  /** The path that an entry of files writes. */
  function TargetOf(e: Entry): Option<Path> {
    if e.name.Under? && e.kind.Reg? && e.name.rel != [Empty] then RestorePath(e.name.rel) else None
  }

  predicate MakesDirectory(e: Entry, q: Path) {
    && e.name.Under? && e.kind.Directory? && e.name.rel != [Empty]
    && q != [] && RestorePath(e.name.rel) == Some(q)
  }

  /** What a restored entry leaves: a file with its body, everything else that was there as it was. */
  lemma FileRestored(env: Env, live: Live, e: Entry, q: Path)
    requires ApplyEntry(env, live, e).1 && !e.kind.LinkKind?
    ensures var after := ApplyEntry(env, live, e).0;
            && (TargetOf(e) == Some(q) ==> Lookup(after.tree, q) == Some(File(e.body)))
            && (TargetOf(e) != Some(q) && q in live.tree ==> Lookup(after.tree, q) == Lookup(live.tree, q))
            && (MakesDirectory(e, q) ==> Lookup(after.tree, q) == Some(Dir))
            && (!e.name.Under? || e.kind.OtherKind? ==> after.tree == live.tree)
  {
    if e.name.Under? && e.name.rel != [Empty] {
      var p := RestorePath(e.name.rel).value;
      if e.kind.Directory? {
        MkdirIff(live.tree, p);
      }
      if e.kind.Reg? {
        WrittenIff(live.tree, p, e.body);
      }
    }
  }

  // ---------- A whole archive ----------

  /** What an entry that went through was like: no link, a manifest of this site or of none, a safe name, a dump that
      the server took. */
  ghost predicate Accepted(env: Env, e: Entry) {
    && !e.kind.LinkKind?
    && (e.name.ManifestName? ==> env.decode(e.body) == Some("") || env.decode(e.body) == Some(env.siteID))
    && (e.name.Under? && e.name.rel != [Empty] ==>
          !(|e.name.rel| > 1 && e.name.rel[0] == Empty) && !Climbs(e.name.rel))
    && (e.name.Dump? && e.kind.Reg? ==> !env.refuses(e.body))
  }

  /** The dumps of an archive, in order. */
  function DumpsIn(archive: seq<Entry>): seq<string> {
    if archive == [] then []
    else
      var e := archive[|archive| - 1];
      DumpsIn(archive[..|archive| - 1]) + if e.name.Dump? && e.kind.Reg? then [e.body] else []
  }

  /** The body of the last entry that writes the path. */
  function Latest(archive: seq<Entry>, q: Path): Option<string> {
    if archive == [] then None
    else
      var e := archive[|archive| - 1];
      if TargetOf(e) == Some(q) then Some(e.body) else Latest(archive[..|archive| - 1], q)
  }

  lemma EntryAccepted(env: Env, live: Live, e: Entry)
    requires ApplyEntry(env, live, e).1 && !e.kind.LinkKind?
    ensures Accepted(env, e)
    ensures ApplyEntry(env, live, e).0.replayed
            == live.replayed + if e.name.Dump? && e.kind.Reg? then [e.body] else []
  {
    if e.name.Under? {
      RestorePathRefusesIff(e.name.rel);
    }
  }

  /** After a restore that went through, whoever wrote the archive: every entry was acceptable, the dumps were replayed
      once each and in order, each path holds what the last entry for it says, and every other path what it held. */
  lemma {:induction false} RestoredMeans(env: Env, live: Live, archive: seq<Entry>, q: Path)
    requires Apply(env, live, archive).1
    ensures forall e <- archive :: Accepted(env, e)
    ensures var after := Apply(env, live, archive).0;
            && after.replayed == live.replayed + DumpsIn(archive)
            && (Latest(archive, q).Some? ==> Lookup(after.tree, q) == Some(File(Latest(archive, q).value)))
            && (Latest(archive, q) == None && q in live.tree ==> Lookup(after.tree, q) == Lookup(live.tree, q))
  {
    if archive != [] {
      var front, e := archive[..|archive| - 1], archive[|archive| - 1];
      RestoredMeans(env, live, front, q);
      var before := Apply(env, live, front).0;
      EntryAccepted(env, before, e);
      FileRestored(env, before, e, q);
      hide ApplyEntry, TargetOf, Accepted;
      assert archive == front + [e];
      if Latest(front, q).Some? {
        assert q in before.tree;
      }
    }
  }

  /** An entry goes through exactly if it is acceptable, and one of files if its way is clear and there is room. */
  lemma EntryRestoredIff(env: Env, live: Live, e: Entry)
    requires Rooted(live.tree) && !e.kind.LinkKind?
    ensures ApplyEntry(env, live, e).1
            <==> && Accepted(env, e)
                 && (e.name.Under? && e.name.rel != [Empty] ==>
                       && RestorePath(e.name.rel).Some?
                       && !BehindLink(live.tree, RestorePath(e.name.rel).value)
                       && Placeable(live.tree, RestorePath(e.name.rel).value, e.kind))
  {
    if e.name.Under? {
      RestorePathRefusesIff(e.name.rel);
      FileRestoredIff(live.tree, e.name.rel, e.kind, e.body);
    }
  }
}
