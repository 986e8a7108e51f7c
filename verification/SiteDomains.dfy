/** Which site owns which domain, over runs of operations (internal/site/provisioner.go). */
module SiteDomains {
  import opened Wrappers
  import Strings
  import opened SiteState
  import opened SiteHost
  import opened SiteRuns

  /** No list repeats a domain. */
  ghost predicate NoRepeats(domains: seq<string>) {
    forall d :: multiset(domains)[d] <= 1
  }

  ghost predicate WellListed(st: State) {
    NoRepeats(DomainsFor(st)) && st.domain in DomainsFor(st)
  }

  ghost predicate Disjoint(a: State, b: State) {
    forall d <- DomainsFor(a) :: d !in DomainsFor(b)
  }

  /** Each primary is in its own list, no list repeats a domain, and no two sites share one. */
  ghost predicate Exclusive(states: States) {
    && (forall id <- states :: WellListed(states[id]))
    && (forall a, b | a in states && b in states && a != b :: Disjoint(states[a], states[b]))
  }

  lemma SortedHasSame(domains: seq<string>)
    ensures multiset(Strings.Sort(domains)) == multiset(domains)
    ensures forall d :: d in Strings.Sort(domains) <==> d in domains
  {
    Strings.SortSorts(domains);
    forall d ensures d in Strings.Sort(domains) <==> d in domains {
      assert d in Strings.Sort(domains) <==> d in multiset(Strings.Sort(domains));
      assert d in domains <==> d in multiset(domains);
    }
  }

  lemma {:induction false} DroppingCounts(domains: seq<string>, domain: string)
    ensures multiset(Dropping(domains, domain)) == multiset(domains)[domain := 0]
  {
    if domains != [] {
      var front, last := domains[..|domains| - 1], domains[|domains| - 1];
      DroppingCounts(front, domain);
      assert domains == front + [last];
    }
  }

  /** Every copy of the domain goes, and nothing else. */
  lemma DroppingRemoves(domains: seq<string>, domain: string)
    ensures multiset(Dropping(domains, domain)) == multiset(domains)[domain := 0]
    ensures forall d :: d in Dropping(domains, domain) <==> d in domains && d != domain
  {
    DroppingCounts(domains, domain);
    hide Dropping;
    forall d ensures d in Dropping(domains, domain) <==> d in domains && d != domain {
      assert d in Dropping(domains, domain) <==> d in multiset(Dropping(domains, domain));
      assert d in domains <==> d in multiset(domains);
    }
  }

  /** One record changes, and its new list is well formed and free of every other site's domains. */
  lemma OneListChanges(states: States, states': States, id: string)
    requires Exclusive(states) && id in states' && Without(states', id) == Without(states, id)
    requires WellListed(states'[id])
    requires forall other <- states | other != id ::
               Disjoint(states[other], states'[id]) && Disjoint(states'[id], states[other])
    ensures Exclusive(states')
  {
    forall other | other in states' ensures WellListed(states'[other])
      ensures other != id ==> other in states && states'[other] == states[other]
    {
      if other != id {
        assert other in Without(states', id) && Without(states', id)[other] == states'[other];
        assert other in Without(states, id) && Without(states, id)[other] == states[other];
      }
    }
  }

  lemma AddedIsWellListed(st: State, domain: string)
    requires WellListed(st) && domain !in DomainsFor(st)
    ensures var st' := st.(domains := Strings.Sort(DomainsFor(st) + [domain]));
            WellListed(st') && forall d :: d in DomainsFor(st') <==> d in DomainsFor(st) || d == domain
  {
    var longer := DomainsFor(st) + [domain];
    SortedHasSame(longer);
    hide Strings.Sort;
    assert domain in longer && domain in Strings.Sort(longer);
    assert multiset(longer) == multiset(DomainsFor(st)) + multiset{domain};
    assert multiset(DomainsFor(st))[domain] == 0;
  }

  lemma RemovedIsWellListed(st: State, domain: string)
    requires WellListed(st) && domain != st.domain
    ensures var st' := st.(domains := Dropping(DomainsFor(st), domain));
            WellListed(st') && forall d :: d in DomainsFor(st') <==> d in DomainsFor(st) && d != domain
  {
    DroppingRemoves(DomainsFor(st), domain);
    hide Dropping;
    assert st.domain in Dropping(DomainsFor(st), domain);
  }

  /** A list may gain one domain that no other site has. */
  lemma StaysDisjoint(states: States, id: string, st': State, domain: string)
    requires Exclusive(states) && id in states
    requires forall d <- DomainsFor(st') :: d in DomainsFor(states[id]) || (d == domain && Free(states, domain))
    ensures forall other <- states | other != id :: Disjoint(states[other], st') && Disjoint(st', states[other])
  {
    forall other | other in states && other != id ensures Disjoint(states[other], st') && Disjoint(st', states[other]) {
      assert Disjoint(states[other], states[id]) && Disjoint(states[id], states[other]);
    }
  }

  lemma AddKeepsExclusive(s: Setup, w: World, id: string, domain: string)
    requires Keyed(w.states) && Exclusive(w.states) && id in w.states && Free(w.states, domain)
    ensures Exclusive(EffectAdd(s, w, id, domain).states)
  {
    hide Strings.Sort, VhostOf;
    var st' := w.states[id].(domains := Strings.Sort(DomainsFor(w.states[id]) + [domain]));
    assert EffectAdd(s, w, id, domain).states == w.states[id := st'];
    assert WellListed(w.states[id]);
    AddedIsWellListed(w.states[id], domain);
    StaysDisjoint(w.states, id, st', domain);
    hide Exclusive, WellListed, Disjoint, DomainsFor;
    OneListChanges(w.states, w.states[id := st'], id);
  }

  lemma RemoveKeepsExclusive(s: Setup, w: World, id: string, domain: string)
    requires Keyed(w.states) && Exclusive(w.states) && id in w.states && domain != w.states[id].domain
    ensures Exclusive(EffectRemove(s, w, id, domain).states)
  {
    hide Dropping, VhostOf;
    var st' := w.states[id].(domains := Dropping(DomainsFor(w.states[id]), domain));
    assert EffectRemove(s, w, id, domain).states == w.states[id := st'];
    assert WellListed(w.states[id]);
    RemovedIsWellListed(w.states[id], domain);
    StaysDisjoint(w.states, id, st', domain);
    hide Exclusive, WellListed, Disjoint, DomainsFor;
    OneListChanges(w.states, w.states[id := st'], id);
  }

  /** Create never looks at the aliases: it keeps domains exclusive exactly when no site lists the new one. */
  lemma CreateKeepsExclusiveIff(s: Setup, w: World, n: NewSite)
    requires Healthy(s, w) && Exclusive(w.states) && GuardCreate(s, w, n)
    ensures Exclusive(EffectCreate(s, w, n).states) <==> Free(w.states, n.domain)
  {
    NothingLeftOver(s, w);
    hide Healthy, SiteFiles;
    assert EffectCreate(s, w, n).states == w.states[n.domain := NewState(n)];
    hide GuardCreate, EffectCreate;
    NewSiteIsExclusiveIff(w.states, n);
  }

  lemma NewSiteIsExclusiveIff(states: States, n: NewSite)
    requires Exclusive(states) && n.domain !in states
    ensures Exclusive(states[n.domain := NewState(n)]) <==> Free(states, n.domain)
  {
    var states' := states[n.domain := NewState(n)];
    assert DomainsFor(NewState(n)) == [n.domain];
    assert WellListed(NewState(n)) by {
      assert multiset([n.domain]) == multiset{n.domain};
    }
    if Free(states, n.domain) {
      assert Without(states', n.domain) == Without(states, n.domain);
      OneListChanges(states, states', n.domain);
    } else {
      var owner :| owner in states && n.domain in DomainsFor(states[owner]);
      assert states'[owner] == states[owner] && !Disjoint(states'[owner], states'[n.domain]);
    }
  }

  /** So an alias can be taken over: on any healthy node, a name free of files and users can first be
      added to a site and then be created as a site of its own. */
  lemma CreateTakesAnAlias(s: Setup, w: World, id: string, n: NewSite)
    requires Healthy(s, w) && Exclusive(w.states) && GuardDomains(w, id) && Free(w.states, n.domain)
             && GuardCreate(s, w, n)
    ensures var aliased := EffectAdd(s, w, id, n.domain);
            && Healthy(s, aliased) && Exclusive(aliased.states) && GuardCreate(s, aliased, n)
            && !Exclusive(EffectCreate(s, aliased, n).states)
  {
    var aliased := EffectAdd(s, w, id, n.domain);
    DomainsKeepHealthy(s, w, id, Strings.Sort(DomainsFor(w.states[id]) + [n.domain]));
    HealthyNodeHasNoDrift(s, w);
    AddKeepsExclusive(s, w, id, n.domain);
    AliasIsListed(s, w, id, n.domain);
    hide Healthy, Exclusive, EffectAdd, EffectCreate;
    StillCreates(s, w, aliased, n);
    CreateKeepsExclusiveIff(s, aliased, n);
  }

  lemma AliasIsListed(s: Setup, w: World, id: string, domain: string)
    requires Keyed(w.states) && GuardDomains(w, id)
    ensures var aliased := EffectAdd(s, w, id, domain);
            aliased.files.Keys == w.files.Keys && aliased.users == w.users && !Free(aliased.states, domain)
  {
    var longer := DomainsFor(w.states[id]) + [domain];
    SortedHasSame(longer);
    hide Strings.Sort, VhostOf;
    assert domain in longer && domain in Strings.Sort(longer);
    assert domain in DomainsFor(EffectAdd(s, w, id, domain).states[id]);
  }

  lemma StillCreates(s: Setup, w: World, w': World, n: NewSite)
    requires GuardCreate(s, w, n) && w'.files.Keys == w.files.Keys && w'.users == w.users
    ensures GuardCreate(s, w', n)
  {
    hide SafeName;
  }

  /** Removing a freshly added alias gives the list back, up to the order that adding sorted it into. */
  lemma RemoveUndoesAdd(s: Setup, w: World, id: string, domain: string)
    requires Keyed(w.states) && Exclusive(w.states) && id in w.states && Free(w.states, domain)
    ensures var added := EffectAdd(s, w, id, domain);
            && id in added.states && domain != added.states[id].domain
            && var back := EffectRemove(s, added, id, domain);
            multiset(DomainsFor(back.states[id])) == multiset(DomainsFor(w.states[id]))
            && Without(back.states, id) == Without(w.states, id)
  {
    var st := w.states[id];
    assert WellListed(st);
    DroppingUndoesAdding(DomainsFor(st), domain);
    hide Strings.Sort, Dropping, Exclusive, Keyed, WellListed, EffectAdd, EffectRemove;
    var longer := Strings.Sort(DomainsFor(st) + [domain]);
    var shorter := Dropping(longer, domain);
    Relisted(s, w, id, domain, longer);
    assert multiset(shorter)[st.domain] > 0;
    assert shorter != [];
  }

  /** Adding and removing change nothing of the records but one list, which ends as `Dropping(longer, domain)`. */
  lemma Relisted(s: Setup, w: World, id: string, domain: string, longer: seq<string>)
    requires Keyed(w.states) && id in w.states && longer != []
             && longer == Strings.Sort(DomainsFor(w.states[id]) + [domain])
    ensures var added := EffectAdd(s, w, id, domain);
            && id in added.states && added.states[id].domain == w.states[id].domain
            && EffectRemove(s, added, id, domain).states
               == w.states[id := w.states[id].(domains := Dropping(longer, domain))]
    ensures Without(EffectRemove(s, EffectAdd(s, w, id, domain), id, domain).states, id) == Without(w.states, id)
  {
    hide Strings.Sort, Dropping, VhostOf;
  }

  lemma DroppingUndoesAdding(domains: seq<string>, domain: string)
    requires domain !in domains
    ensures multiset(Dropping(Strings.Sort(domains + [domain]), domain)) == multiset(domains)
    ensures domain in Strings.Sort(domains + [domain])
  {
    SortedHasSame(domains + [domain]);
    DroppingRemoves(Strings.Sort(domains + [domain]), domain);
    hide Strings.Sort, Dropping;
    assert multiset(domains + [domain]) == multiset(domains) + multiset{domain};
    assert multiset(domains)[domain] == 0;
    assert domain in domains + [domain];
  }

  /** Every operation but Create keeps domains exclusive, and Create does when its domain is free. */
  lemma NextKeepsExclusive(s: Setup, w: World, op: Op, w': World)
    requires Healthy(s, w) && Exclusive(w.states) && Next(s, w, op, w')
    requires op.Create? ==> Free(w.states, op.n.domain)
    ensures Exclusive(w'.states)
  {
    HealthyNodeHasNoDrift(s, w);
    hide Healthy, Exclusive, Undrifted;
    if w' != w {
      match op
      case Create(n) => CreateKeepsExclusiveIff(s, w, n);
      case AddDomain(id, domain) => AddKeepsExclusive(s, w, id, domain);
      case RemoveDomain(id, domain) => RemoveKeepsExclusive(s, w, id, domain);
      case _ =>
        OthersKeepLists(s, w, op, w');
        SameListsStayExclusive(w.states, w'.states);
    }
  }

  ghost predicate SameLists(states: States, states': States) {
    forall id <- states' ::
      id in states && states'[id].domain == states[id].domain && states'[id].domains == states[id].domains
  }

  lemma OthersKeepLists(s: Setup, w: World, op: Op, w': World)
    requires Keyed(w.states) && Next(s, w, op, w')
    requires op.SetStatus? || op.SetVersion? || op.SetResources? || op.Delete?
    ensures SameLists(w.states, w'.states)
  {
    hide VhostOf, PoolOf;
  }

  lemma SameListsStayExclusive(states: States, states': States)
    requires Exclusive(states)
    requires SameLists(states, states')
    ensures Exclusive(states')
  {
    forall id | id in states' ensures WellListed(states'[id]) {
      assert WellListed(states[id]);
    }
    forall a, b | a in states' && b in states' && a != b ensures Disjoint(states'[a], states'[b]) {
      assert Disjoint(states[a], states[b]);
    }
  }

  /** Over every run whose new sites take free domains, no domain belongs to two sites. */
  lemma {:induction false} ExclusiveInAnyRun(s: Setup, worlds: seq<World>, ops: seq<Op>, i: nat)
    requires Run(s, worlds, ops) && Healthy(s, worlds[0]) && Exclusive(worlds[0].states) && i < |worlds|
    requires forall k | 0 <= k < |ops| && ops[k].Create? :: Free(worlds[k].states, ops[k].n.domain)
    ensures Exclusive(worlds[i].states)
  {
    if i > 0 {
      ExclusiveInAnyRun(s, worlds, ops, i - 1);
      NoDriftInAnyRun(s, worlds, ops, i - 1);
      NextKeepsExclusive(s, worlds[i - 1], ops[i - 1], worlds[i]);
    }
  }
}
