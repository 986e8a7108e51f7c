/**
 What each lifecycle operation gives the one who asked for it (internal/site/provisioner.go): the record and the
 configuration hold the values of the request, and asking again finds nothing left to do.
 */
module SiteIntent {
  import opened Wrappers
  import R = SiteResources
  import Strings
  import opened SiteState
  import opened SiteHost
  import opened SiteDomains

  const LOWER := "abcdefghijklmnopqrstuvwxyz"
  const UPPER := "ABCDEFGHIJKLMNOPQRSTUVWXYZ"
  const DIGITS := "0123456789"

  lemma LowerIff(c: char)
    ensures c in LOWER <==> 'a' <= c <= 'z'
  {
    assert forall i | 0 <= i < 26 :: LOWER[i] as int == 97 + i;
    if 'a' <= c <= 'z' { assert LOWER[c as int - 97] == c; }
  }

  lemma UpperIff(c: char)
    ensures c in UPPER <==> 'A' <= c <= 'Z'
  {
    assert forall i | 0 <= i < 26 :: UPPER[i] as int == 65 + i;
    if 'A' <= c <= 'Z' { assert UPPER[c as int - 65] == c; }
  }

  lemma DigitIff(c: char)
    ensures c in DIGITS <==> '0' <= c <= '9'
  {
    assert forall i | 0 <= i < 10 :: DIGITS[i] as int == 48 + i;
    if '0' <= c <= '9' { assert DIGITS[c as int - 48] == c; }
  }

  /** The names that are let through: up to 63 letters, digits, dots, underscores and dashes, the first a letter or a
      digit. */
  lemma SafeNameIff(name: string)
    ensures SafeName(name)
            <==> && 1 <= |name| <= 63 && name[0] in LOWER + UPPER + DIGITS
                 && forall c <- name :: c in LOWER + UPPER + DIGITS || c in "._-"
  {
    hide LOWER, UPPER, DIGITS;
    forall c: char ensures Alphanumeric(c) <==> c in LOWER + UPPER + DIGITS {
      LowerIff(c);
      UpperIff(c);
      DigitIff(c);
    }
  }

  /** A new site: its record as asked for, active, under its one domain; its vhost and pool from the templates; its
      index page; its user. Names are safe and the tier is one that is sold. */
  lemma CreateGivesWhatWasAsked(s: Setup, w: World, n: NewSite)
    requires GuardCreate(s, w, n)
    ensures var w' := EffectCreate(s, w, n);
            && SafeName(n.domain) && SafeName(n.user) && n.accepted && R.Valid(R.WithDefaults(n.resources))
            && n.domain in w'.states
            && var st := w'.states[n.domain];
            && st.siteID == st.domain == n.domain && st.user == n.user && st.version == n.version
            && st.status == Active && DomainsFor(st) == [n.domain] && st.app == ""
            && st.databases == [] && !st.sftpEnabled && st.resources == R.WithDefaults(n.resources)
            && Lookup(w'.files, Enabled(n.domain)) == Some(Text(s.vhost("", [n.domain], n.domain, n.user)))
            && Lookup(w'.files, PoolPath(s, n.version, n.user))
               == Some(Text(s.pool(n.user, n.domain, R.WithDefaults(n.resources))))
            && (exists page :: Lookup(w'.files, Root(n.domain)) == Some(page) && page.Tree?
                               && Lookup(page.entries, "public/index.html") == Some(s.index(n.domain))
                               && PUBLIC in page.entries && "tmp" in page.entries)
            && n.user in w'.users
  {
    var w' := EffectCreate(s, w, n);
    assert Lookup(w'.files, Root(n.domain)) == Some(NewTree(s, n.domain));
  }

  /** The vhost of a site names its application, every domain of its list, its document root and its user. */
  lemma DomainsAreServed(s: Setup, w: World, id: string, domains: seq<string>)
    requires Keyed(w.states) && GuardDomains(w, id)
    ensures var w' := EffectDomains(s, w, id, domains);
            var st := w.states[id];
            && w'.states == w.states[id := st.(domains := domains)]
            && Lookup(w'.files, if st.status.Suspended? then Disabled(id) else Enabled(id))
               == Some(Text(s.vhost(st.app, if domains == [] then [id] else domains, id, st.user)))
  {
  }

  /** Adding lists the domain beside the former ones, removing lists the former ones without it. */
  lemma DomainsAreAsAsked(s: Setup, w: World, id: string, domain: string)
    requires Keyed(w.states) && id in w.states && w.states[id].domain in DomainsFor(w.states[id])
    ensures forall d :: d in DomainsFor(EffectAdd(s, w, id, domain).states[id])
                        <==> d in DomainsFor(w.states[id]) || d == domain
    ensures domain != id ==>
              forall d :: d in DomainsFor(EffectRemove(s, w, id, domain).states[id])
                          <==> d in DomainsFor(w.states[id]) && d != domain
  {
    var st := w.states[id];
    SortedHasSame(DomainsFor(st) + [domain]);
    DroppingRemoves(DomainsFor(st), domain);
    hide Strings.Sort, Dropping, VhostOf;
    assert domain in DomainsFor(st) + [domain];
    assert domain in Strings.Sort(DomainsFor(st) + [domain]);
    if domain != id {
      assert st.domain in Dropping(DomainsFor(st), domain);
    }
  }

  /** Suspending and resuming leave the vhost text alone and move it; the record says which. */
  lemma StatusIsAsAsked(s: Setup, w: World, id: string, suspend: bool)
    requires Healthy(s, w) && GuardStatus(w, id, suspend)
    ensures var w' := EffectStatus(w, id, suspend);
            && w'.states == w.states[id := w.states[id].(status := if suspend then Suspended else Active)]
            && Lookup(w'.files, if suspend then Disabled(id) else Enabled(id))
               == Lookup(w.files, if suspend then Enabled(id) else Disabled(id)) == Some(VhostOf(s, w.states[id]))
            && (if suspend then Enabled(id) else Disabled(id)) !in w'.files
  {
    assert InPlace(s, w, w.states[id]);
  }

  /** A version change takes the pool, as it was, to the directory of the version asked for. */
  lemma VersionIsAsAsked(s: Setup, w: World, id: string, version: string)
    requires Healthy(s, w) && GuardVersion(s, w, id, version)
    ensures var w' := EffectVersion(s, w, id, version);
            var st := w.states[id];
            && w'.states == w.states[id := st.(version := version)] && Binary(version) in w'.files
            && Lookup(w'.files, Pool(version, st.user)) == Some(Text(s.pool(st.user, id, st.resources)))
            && Pool(st.version, st.user) !in w'.files
  {
    assert InPlace(s, w, w.states[id]);
  }

  /** New limits are in the record and in the pool, as asked for, zeros meaning the defaults. */
  lemma ResourcesAreAsAsked(s: Setup, w: World, id: string, r: R.Resources)
    requires Keyed(w.states) && GuardResources(s, w, id, r)
    ensures var w' := EffectResources(s, w, id, r);
            var st := w.states[id];
            && R.Valid(R.WithDefaults(r))
            && w'.states == w.states[id := st.(resources := R.WithDefaults(r))]
            && Lookup(w'.files, PoolPath(s, st.version, st.user)) == Some(Text(s.pool(st.user, id, R.WithDefaults(r))))
  {
  }

  /** After a delete no file, record or user of the site is left. Only a suspended site goes, without databases and
      without SFTP. */
  lemma DeleteLeavesNothing(s: Setup, w: World, id: string)
    requires Healthy(s, w) && GuardDelete(s, w, id)
    ensures var w' := EffectDelete(s, w, id);
            var st := w.states[id];
            && st.status == Suspended && !st.sftpEnabled && st.databases == []
            && w'.states == Without(w.states, id) && w'.users == w.users - {st.user}
            && forall p <- w'.files :: !About(p, id, st.user)
  {
    var w' := EffectDelete(s, w, id);
    forall p | p in w'.files ensures !About(p, id, w.states[id].user) {
      assert Owned(s, w.states, p);
      if p.Pool? && p.user == w.states[id].user {
        OnePoolPerUser(s, w, id, p);
      }
    }
  }

  /** Asking for the same again finds nothing left to do. */
  lemma AskingAgainFindsNothing(s: Setup, w: World, id: string, r: R.Resources, version: string, suspend: bool)
    requires Healthy(s, w)
    ensures GuardResources(s, w, id, r) ==> !GuardResources(s, EffectResources(s, w, id, r), id, r)
    ensures GuardVersion(s, w, id, version) ==> !GuardVersion(s, EffectVersion(s, w, id, version), id, version)
    ensures GuardStatus(w, id, suspend) ==> !GuardStatus(EffectStatus(w, id, suspend), id, suspend)
    ensures GuardDelete(s, w, id) ==> id !in EffectDelete(s, w, id).states
    ensures forall n: NewSite | GuardCreate(s, w, n) :: !GuardCreate(s, EffectCreate(s, w, n), n)
  {
    R.DefaultsFillGapsOnly(r);
    hide VhostOf, PoolOf, SafeName, R.WithDefaults;
    forall n: NewSite | GuardCreate(s, w, n) ensures !GuardCreate(s, EffectCreate(s, w, n), n) {
      CreatedIsTaken(s, w, n);
    }
  }

  lemma CreatedIsTaken(s: Setup, w: World, n: NewSite)
    requires GuardCreate(s, w, n)
    ensures !GuardCreate(s, EffectCreate(s, w, n), n)
  {
    hide VhostOf, PoolOf, NewTree;
    assert n.user in EffectCreate(s, w, n).users;
  }
}
