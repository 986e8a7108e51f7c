/**
 Process-local admission control for a shared host (internal/capacity/manager.go).

 `Ledger` is the value held under the manager's mutex. Each operation is given
 once as a function on ledgers, and once as the method that updates the fields
 in place; the method's postcondition ties the two together.
 */
module Capacity {
  import opened Wrappers
  import Int64

  // ---------- Resources ----------

  /** Every component is a Go int64. */
  datatype Resources = Resources(cpuMilli: int, memoryBytes: int, phpWorkers: int, pids: int)

  const ZERO: Resources := Resources(0, 0, 0, 0)

  function Add(a: Resources, b: Resources): Resources {
    Wrapped(Plus(a, b))
  }

  function Subtract(a: Resources, b: Resources): Resources {
    Wrapped(Minus(a, b))
  }

  predicate Fits(a: Resources, b: Resources) {
    && a.cpuMilli <= b.cpuMilli && a.memoryBytes <= b.memoryBytes
    && a.phpWorkers <= b.phpWorkers && a.pids <= b.pids
  }

  /** Sums without wrap-around: the quantity that the int64 arithmetic stands for. */
  function Plus(a: Resources, b: Resources): Resources {
    Resources(a.cpuMilli + b.cpuMilli, a.memoryBytes + b.memoryBytes,
              a.phpWorkers + b.phpWorkers, a.pids + b.pids)
  }

  function Minus(a: Resources, b: Resources): Resources {
    Resources(a.cpuMilli - b.cpuMilli, a.memoryBytes - b.memoryBytes,
              a.phpWorkers - b.phpWorkers, a.pids - b.pids)
  }

  function Wrapped(a: Resources): Resources {
    Resources(Int64.Wrap(a.cpuMilli), Int64.Wrap(a.memoryBytes),
              Int64.Wrap(a.phpWorkers), Int64.Wrap(a.pids))
  }

  predicate Representable(a: Resources) {
    && Int64.Fits(a.cpuMilli) && Int64.Fits(a.memoryBytes)
    && Int64.Fits(a.phpWorkers) && Int64.Fits(a.pids)
  }

  lemma WrappedLeft(a: Resources, b: Resources)
    ensures Add(Wrapped(a), b) == Wrapped(Plus(a, b))
  {
    Int64.WrapLeft(a.cpuMilli, b.cpuMilli);
    Int64.WrapLeft(a.memoryBytes, b.memoryBytes);
    Int64.WrapLeft(a.phpWorkers, b.phpWorkers);
    Int64.WrapLeft(a.pids, b.pids);
  }

  lemma WrappedDifference(a: Resources, b: Resources)
    ensures Subtract(Wrapped(a), b) == Wrapped(Minus(a, b))
  {
    Int64.WrapDifference(a.cpuMilli, b.cpuMilli);
    Int64.WrapDifference(a.memoryBytes, b.memoryBytes);
    Int64.WrapDifference(a.phpWorkers, b.phpWorkers);
    Int64.WrapDifference(a.pids, b.pids);
  }

  // ---------- Totals ----------

  /** The reserved total in unbounded arithmetic. */
  ghost function IdealTotal(m: map<string, Resources>): Resources {
    if m == map[] then ZERO
    else
      var k :| k in m;
      Plus(m[k], IdealTotal(Without(m, k)))
  }

  /** The reserved total the int64 arithmetic arrives at. */
  ghost function Total(m: map<string, Resources>): Resources {
    Wrapped(IdealTotal(m))
  }

  lemma {:induction false} IdealTotalSplit(m: map<string, Resources>, k: string)
    requires k in m
    ensures IdealTotal(m) == Plus(m[k], IdealTotal(Without(m, k)))
    decreases |m|
  {
    var c :| c in m && IdealTotal(m) == Plus(m[c], IdealTotal(Without(m, c)));
    if c != k {
      assert Without(Without(m, c), k) == Without(Without(m, k), c);
      IdealTotalSplit(Without(m, c), k);
      IdealTotalSplit(Without(m, k), c);
      assert IdealTotal(m) == Plus(m[c], Plus(m[k], IdealTotal(Without(Without(m, c), k))));
      assert IdealTotal(Without(m, k)) == Plus(m[c], IdealTotal(Without(Without(m, c), k)));
    }
  }

  /** Replacing one entry moves the total by the difference. */
  lemma IdealTotalPut(m: map<string, Resources>, k: string, r: Resources)
    ensures IdealTotal(m[k := r]) == Plus(Minus(IdealTotal(m), Held(m, k)), r)
  {
    IdealTotalSplit(m[k := r], k);
    WithoutThenPut(m, k, r);
    if k in m {
      IdealTotalSplit(m, k);
    } else {
      assert Without(m, k) == m;
    }
  }

  lemma IdealTotalDrop(m: map<string, Resources>, k: string)
    ensures IdealTotal(Without(m, k)) == Minus(IdealTotal(m), Held(m, k))
  {
    if k in m {
      IdealTotalSplit(m, k);
    } else {
      assert Without(m, k) == m;
    }
  }

  /** What `reserveLocked` computes from the old total is the new total. */
  lemma IncrementalTotal(m: map<string, Resources>, k: string, r: Resources)
    ensures Add(Subtract(Total(m), Held(m, k)), r) == Total(m[k := r])
  {
    IdealTotalPut(m, k, r);
    WrappedDifference(IdealTotal(m), Held(m, k));
    WrappedLeft(Minus(IdealTotal(m), Held(m, k)), r);
  }

  /** Go reads a missing key as the zero value. */
  function Held(m: map<string, Resources>, k: string): Resources {
    if k in m then m[k] else ZERO
  }

  /** The loop of `totalLocked` for one particular iteration order. */
  function FoldIn(order: seq<string>, m: map<string, Resources>): Resources
    requires forall k <- order :: k in m
  {
    if order == [] then ZERO
    else Add(FoldIn(order[..|order| - 1], m), m[order[|order| - 1]])
  }

  /** The keys in some order, each once. */
  ghost predicate ListsOnce(order: seq<string>, keys: set<string>) {
    && (forall i, j :: 0 <= i < j < |order| ==> order[i] != order[j])
    && (forall k :: k in order <==> k in keys)
  }

  /** Go's random map order does not matter, even when the sums wrap. */
  lemma {:induction false} TotalInAnyOrder(order: seq<string>, m: map<string, Resources>)
    requires ListsOnce(order, m.Keys)
    ensures FoldIn(order, m) == Total(m)
    decreases |order|
  {
    if order == [] {
      assert m.Keys == {};
    } else {
      var last := order[|order| - 1];
      var front := order[..|order| - 1];
      var m' := Without(m, last);
      ListsOnceFront(order, m.Keys);
      TotalInAnyOrder(front, m');
      FoldInAgrees(front, m, m');
      IdealTotalSplit(m, last);
      WrappedLeft(IdealTotal(m'), m[last]);
    }
  }

  lemma ListsOnceFront(order: seq<string>, keys: set<string>)
    requires order != [] && ListsOnce(order, keys)
    ensures ListsOnce(order[..|order| - 1], keys - {order[|order| - 1]})
  {
    var last, front := order[|order| - 1], order[..|order| - 1];
    assert order == front + [last];
    forall k | k in front ensures k in keys - {last} {
      var i :| 0 <= i < |front| && front[i] == k;
      assert order[i] == k;
    }
  }

  lemma FoldInAgrees(order: seq<string>, m: map<string, Resources>, m': map<string, Resources>)
    requires forall k <- order :: k in m && k in m' && m[k] == m'[k]
    ensures FoldIn(order, m) == FoldIn(order, m')
  {
  }

  // ---------- Absence of overflow ----------

  predicate Between(low: Resources, a: Resources, high: Resources) {
    Fits(low, a) && Fits(a, high)
  }

  predicate AllWithin(m: map<string, Resources>, most: Resources) {
    forall k <- m :: Between(ZERO, m[k], most)
  }

  lemma {:induction false} IdealTotalBounds(m: map<string, Resources>, most: Resources)
    requires AllWithin(m, most)
    ensures Fits(ZERO, IdealTotal(m))
    decreases |m|
  {
    if m != map[] {
      var k :| k in m;
      IdealTotalSplit(m, k);
      IdealTotalBounds(Without(m, k), most);
    }
  }

  /** No partial sum of `totalLocked` wraps: each one is the plain sum of a sub-map. */
  lemma {:induction false} PartialSumsDoNotWrap(
      order: seq<string>, m: map<string, Resources>, n: nat, most: Resources, ceiling: Resources)
    requires n <= |order| && ListsOnce(order, m.Keys) && AllWithin(m, most)
    requires Fits(IdealTotal(m), ceiling) && Representable(ceiling)
    ensures Between(ZERO, PrefixFold(order, m, n), ceiling)
    ensures n == |order| ==> PrefixFold(order, m, n) == IdealTotal(m)
    decreases |order|
  {
    if n == |order| {
      assert order[..n] == order;
      TotalInAnyOrder(order, m);
      IdealTotalBounds(m, most);
      SmallIsExact(IdealTotal(m), ceiling);
    } else {
      var last, front := order[|order| - 1], order[..|order| - 1];
      ListsOnceFront(order, m.Keys);
      IdealTotalSplit(m, last);
      PartialSumsDoNotWrap(front, Without(m, last), n, most, ceiling);
      assert order[..n] == front[..n];
      FoldInAgrees(front[..n], m, Without(m, last));
    }
  }

  /** The value of the loop variable after `n` rounds. */
  function PrefixFold(order: seq<string>, m: map<string, Resources>, n: nat): Resources
    requires n <= |order| && forall k <- order :: k in m
  {
    FoldIn(order[..n], m)
  }

  lemma SmallIsExact(a: Resources, ceiling: Resources)
    requires Between(ZERO, a, ceiling) && Representable(ceiling)
    ensures Wrapped(a) == a
  {
  }

  /** The incremental arithmetic of `reserveLocked` does not wrap either. */
  lemma ReservationArithmeticDoesNotWrap(m: map<string, Resources>, k: string, r: Resources, most: Resources,
      limit: Resources)
    requires AllWithin(m, most) && Between(ZERO, r, most)
    requires Fits(IdealTotal(m), limit) && Representable(Plus(limit, most))
    ensures Subtract(Total(m), Held(m, k)) == Minus(IdealTotal(m), Held(m, k))
    ensures Add(Subtract(Total(m), Held(m, k)), r) == IdealTotal(m[k := r])
  {
    IdealTotalBounds(m, most);
    IdealTotalBounds(Without(m, k), most);
    IdealTotalDrop(m, k);
    IdealTotalPut(m, k, r);
    var ceiling := Plus(limit, most);
    SmallIsExact(IdealTotal(m), ceiling);
    SmallIsExact(IdealTotal(Without(m, k)), ceiling);
    SmallIsExact(IdealTotal(m[k := r]), ceiling);
  }

  // ---------- Ledger operations ----------

  /** The fields of the manager that its mutex guards, apart from the slot counters. */
  datatype Ledger = Ledger(
    reservations: map<string, Resources>,
    generations: map<string, nat>,
    fences: map<string, nat>,
    degraded: bool)

  const EMPTY_LEDGER: Ledger := Ledger(map[], map[], map[], false)

  datatype Admission = Admission(name: string, generation: nat, previous: Resources, existed: bool)

  datatype Refusal = CapacityExceeded | SiteConflict

  datatype Begun = Begun(ledger: Ledger, admission: Admission) | Refused(reason: Refusal)

  function Counter(m: map<string, nat>, name: string): nat {
    if name in m then m[name] else 0
  }

  ghost function Reserve(l: Ledger, limit: Resources, name: string, r: Resources): Option<Ledger> {
    var reservations := l.reservations[name := r];
    if Fits(Total(reservations), limit) then Some(l.(reservations := reservations, degraded := false)) else None
  }

  function Fence(l: Ledger, name: string): Ledger {
    var g := Counter(l.generations, name) + 1;
    l.(generations := l.generations[name := g], fences := l.fences[name := g])
  }

  ghost function BeginSite(l: Ledger, limit: Resources, name: string, r: Resources): Begun {
    if Counter(l.fences, name) != 0 then Refused(SiteConflict)
    else
      match Reserve(l, limit, name, r)
      case None => Refused(CapacityExceeded)
      case Some(reserved) =>
        Begun(Fence(reserved, name),
              Admission(name, Counter(l.generations, name) + 1, Held(l.reservations, name), name in l.reservations))
  }

  function BeginCommand(l: Ledger, name: string): Begun {
    if Counter(l.fences, name) != 0 then Refused(SiteConflict)
    else Begun(Fence(l, name), Admission(name, Counter(l.generations, name) + 1, ZERO, false))
  }

  function FinishCommand(l: Ledger, a: Admission): Ledger {
    if Counter(l.fences, a.name) == a.generation then l.(fences := Without(l.fences, a.name)) else l
  }

  /** Clears the degraded flag when the reservations fit again. */
  ghost function Recheck(l: Ledger, limit: Resources): Ledger {
    if Fits(Total(l.reservations), limit) then l.(degraded := false) else l
  }

  function PutBack(l: Ledger, a: Admission): Ledger {
    l.(reservations := if a.existed then l.reservations[a.name := a.previous] else Without(l.reservations, a.name))
  }

  ghost function FinishSite(l: Ledger, limit: Resources, a: Admission, success: bool): Ledger {
    if Counter(l.generations, a.name) != a.generation then l
    else
      var unfenced := l.(fences := Without(l.fences, a.name));
      Recheck(if success then unfenced else PutBack(unfenced, a), limit)
  }

  ghost function RestoreSite(l: Ledger, limit: Resources, name: string, r: Resources): Ledger {
    match Reserve(l, limit, name, r)
    case Some(reserved) => reserved
    case None => l.(reservations := l.reservations[name := r], degraded := true)
  }

  ghost function ReleaseSite(l: Ledger, limit: Resources, name: string): Ledger {
    Recheck(l.(reservations := Without(l.reservations, name),
               generations := l.generations[name := Counter(l.generations, name) + 1]), limit)
  }

  // ---------- Properties of single operations ----------

  /** The admission's generation is the one its name is fenced with. */
  predicate Current(l: Ledger, a: Admission) {
    0 < a.generation == Counter(l.fences, a.name) == Counter(l.generations, a.name)
  }

  /** The degraded flag is never raised without cause. */
  ghost predicate DegradedIsReal(l: Ledger, limit: Resources) {
    l.degraded ==> !Fits(Total(l.reservations), limit)
  }

  lemma DegradedStaysReal(l: Ledger, limit: Resources, name: string, r: Resources, a: Admission, success: bool)
    requires DegradedIsReal(l, limit)
    ensures DegradedIsReal(RestoreSite(l, limit, name, r), limit)
    ensures DegradedIsReal(ReleaseSite(l, limit, name), limit)
    ensures DegradedIsReal(FinishSite(l, limit, a, success), limit)
    ensures DegradedIsReal(FinishCommand(l, a), limit)
    ensures BeginSite(l, limit, name, r).Begun? ==> DegradedIsReal(BeginSite(l, limit, name, r).ledger, limit)
    ensures BeginCommand(l, name).Begun? ==> DegradedIsReal(BeginCommand(l, name).ledger, limit)
  {
  }

  /** A finish that carries an old generation changes nothing. */
  lemma StaleFinishIsIgnored(l: Ledger, limit: Resources, a: Admission, success: bool)
    requires Counter(l.generations, a.name) > a.generation
    ensures FinishSite(l, limit, a, success) == l
    ensures Counter(l.fences, a.name) != a.generation ==> FinishCommand(l, a) == l
  {
  }

  /** Which requests are admitted: on a name without a fence exactly those that fit beside what every other name
      holds, so what the name held itself does not count. The reason for a refusal is the fence, if there is one. */
  lemma BeginSiteAdmitsIff(l: Ledger, limit: Resources, name: string, r: Resources)
    ensures var free := Counter(l.fences, name) == 0;
            var fits := Fits(Wrapped(Plus(IdealTotal(Without(l.reservations, name)), r)), limit);
            && (BeginSite(l, limit, name, r).Begun? <==> free && fits)
            && (BeginSite(l, limit, name, r) == Refused(SiteConflict) <==> !free)
            && (BeginSite(l, limit, name, r) == Refused(CapacityExceeded) <==> free && !fits)
  {
    hide Wrapped, IdealTotal;
    IdealTotalPut(l.reservations, name, r);
    IdealTotalDrop(l.reservations, name);
  }

  /** Inside the envelope no sum wraps, so the same holds of the plain numbers. */
  lemma BeginSiteAdmitsExactly(l: Ledger, limit: Resources, name: string, r: Resources, most: Resources)
    requires AllWithin(l.reservations, most) && Between(ZERO, r, most)
    requires Fits(IdealTotal(l.reservations), limit) && Representable(Plus(limit, most))
    ensures BeginSite(l, limit, name, r).Begun?
            <==> Counter(l.fences, name) == 0 && Fits(Plus(IdealTotal(Without(l.reservations, name)), r), limit)
  {
    hide Wrapped, IdealTotal;
    BeginSiteAdmitsIff(l, limit, name, r);
    IdealTotalPut(l.reservations, name, r);
    IdealTotalDrop(l.reservations, name);
    TotalIsExact(l.reservations, name, r, most, limit);
  }

  /** What the flag says after each operation: it is raised only by a restore that does not fit, and lowered exactly
      when the reservations fit. */
  lemma FlagAfter(l: Ledger, limit: Resources, name: string, r: Resources, a: Admission, success: bool)
    ensures BeginSite(l, limit, name, r).Begun? ==> !BeginSite(l, limit, name, r).ledger.degraded
    ensures BeginCommand(l, name).Begun? ==> BeginCommand(l, name).ledger.degraded == l.degraded
    ensures FinishCommand(l, a).degraded == l.degraded
    ensures var after := FinishSite(l, limit, a, success);
            after.degraded <==> l.degraded && (Counter(l.generations, a.name) != a.generation
                                               || !Fits(Total(after.reservations), limit))
    ensures var after := ReleaseSite(l, limit, name);
            after.degraded <==> l.degraded && !Fits(Total(after.reservations), limit)
    ensures var after := RestoreSite(l, limit, name, r);
            after.degraded <==> !Fits(Total(after.reservations), limit)
  {
    hide Wrapped, IdealTotal;
  }

  /** Each begin and each release outdates every earlier admission of its name. */
  lemma EarlierAdmissionsAreOutdated(l: Ledger, limit: Resources, name: string, r: Resources, a: Admission,
      success: bool)
    requires a.name == name && a.generation <= Counter(l.generations, name)
    ensures var b := BeginSite(l, limit, name, r);
            b.Begun? ==> FinishSite(b.ledger, limit, a, success) == b.ledger && FinishCommand(b.ledger, a) == b.ledger
    ensures var b := BeginCommand(l, name);
            b.Begun? ==> FinishSite(b.ledger, limit, a, success) == b.ledger && FinishCommand(b.ledger, a) == b.ledger
    ensures var released := ReleaseSite(l, limit, name); FinishSite(released, limit, a, success) == released
  {
  }

  /** A failed create or resize leaves every reservation as it was before it began. */
  lemma FailedSiteRestores(l: Ledger, limit: Resources, name: string, r: Resources)
    requires BeginSite(l, limit, name, r).Begun?
    ensures var b := BeginSite(l, limit, name, r);
            var after := FinishSite(b.ledger, limit, b.admission, false);
            && after.reservations == l.reservations
            && Counter(after.fences, name) == 0
            && Counter(after.generations, name) == Counter(l.generations, name) + 1
  {
    var b := BeginSite(l, limit, name, r);
    var unfenced := b.ledger.(fences := Without(b.ledger.fences, name));
    assert PutBack(unfenced, b.admission).reservations == l.reservations;
  }

  /** A successful delete leaves the fence behind, so no later admission of the name is possible. */
  lemma ReleasedNameStaysFenced(l: Ledger, limit: Resources, name: string, r: Resources)
    requires BeginCommand(l, name).Begun?
    ensures var released := ReleaseSite(BeginCommand(l, name).ledger, limit, name);
            && name !in released.reservations
            && BeginSite(released, limit, name, r) == Refused(SiteConflict)
            && BeginCommand(released, name) == Refused(SiteConflict)
  {
  }

  /** An admission from inside the limit stays inside it, with no sum wrapping. */
  lemma BeginSiteStaysWithin(l: Ledger, limit: Resources, name: string, r: Resources, most: Resources)
    requires AllWithin(l.reservations, most) && Between(ZERO, r, most)
    requires Fits(IdealTotal(l.reservations), limit) && Representable(Plus(limit, most))
    requires BeginSite(l, limit, name, r).Begun?
    ensures var m := BeginSite(l, limit, name, r).ledger.reservations;
            AllWithin(m, most) && Fits(IdealTotal(m), limit)
  {
    TotalIsExact(l.reservations, name, r, most, limit);
    AdmittedTotalFits(l, limit, name, r);
  }

  lemma AdmittedTotalFits(l: Ledger, limit: Resources, name: string, r: Resources)
    requires BeginSite(l, limit, name, r).Begun?
    ensures BeginSite(l, limit, name, r).ledger.reservations == l.reservations[name := r]
    ensures Fits(Total(l.reservations[name := r]), limit)
  {
  }

  lemma TotalIsExact(m: map<string, Resources>, k: string, r: Resources, most: Resources, limit: Resources)
    requires AllWithin(m, most) && Between(ZERO, r, most)
    requires Fits(IdealTotal(m), limit) && Representable(Plus(limit, most))
    ensures Total(m[k := r]) == IdealTotal(m[k := r])
  {
    ReservationArithmeticDoesNotWrap(m, k, r, most, limit);
    IncrementalTotal(m, k, r);
  }

  lemma FailedFinishPutsBack(l: Ledger, limit: Resources, a: Admission)
    requires Current(l, a)
    ensures FinishSite(l, limit, a, false).reservations
            == if a.existed then l.reservations[a.name := a.previous] else Without(l.reservations, a.name)
  {
    hide Wrapped, IdealTotal;
  }

  lemma FailedFinishTotal(l: Ledger, limit: Resources, a: Admission)
    requires Current(l, a)
    ensures IdealTotal(FinishSite(l, limit, a, false).reservations)
            == Plus(Minus(IdealTotal(l.reservations), Held(l.reservations, a.name)),
                    if a.existed then a.previous else ZERO)
  {
    hide Wrapped, IdealTotal, FinishSite, Held;
    FailedFinishPutsBack(l, limit, a);
    if a.existed {
      IdealTotalPut(l.reservations, a.name, a.previous);
    } else {
      IdealTotalDrop(l.reservations, a.name);
    }
  }

  /** A failed resize leaves the total within the limit exactly when swapping the request for
      the former value does; the degraded flag plays no part. */
  lemma FailedFinishFitsExactly(l: Ledger, limit: Resources, a: Admission)
    requires Current(l, a)
    ensures var former := if a.existed then a.previous else ZERO;
            Fits(Total(FinishSite(l, limit, a, false).reservations), limit)
            <==> Fits(Wrapped(Plus(Minus(IdealTotal(l.reservations), Held(l.reservations, a.name)), former)), limit)
  {
    hide Wrapped, FinishSite;
    FailedFinishTotal(l, limit, a);
  }

  function Uniform(n: int): Resources {
    Resources(n, n, n, n)
  }

  function Pair(a: int, b: int): map<string, Resources> {
    map["a" := Uniform(a), "b" := Uniform(b)]
  }

  lemma PairTotal(a: int, b: int)
    requires 0 <= a <= 1000 && 0 <= b <= 1000
    ensures IdealTotal(Pair(a, b)) == Total(Pair(a, b)) == Uniform(a + b)
    ensures IdealTotal(map["a" := Uniform(a)]) == Total(map["a" := Uniform(a)]) == Uniform(a)
  {
    PairIdealTotal(a, b);
  }

  lemma PairIdealTotal(a: int, b: int)
    ensures IdealTotal(Pair(a, b)) == Uniform(a + b)
    ensures IdealTotal(map["a" := Uniform(a)]) == Uniform(a)
  {
    var one := map["a" := Uniform(a)];
    IdealTotalPut(map[], "a", Uniform(a));
    assert one == map[]["a" := Uniform(a)];
    IdealTotalPut(one, "b", Uniform(b));
    assert Pair(a, b) == one["b" := Uniform(b)];
  }

  /** The flag can stay down over a total that does not fit: site "a" shrinks, "b" takes the
      room, and the shrink fails late. */
  lemma FailedShrinkOvercommitsUnflagged()
    ensures var limit := Uniform(100);
            var start := EMPTY_LEDGER.(reservations := map["a" := Uniform(80)]);
            var shrink := BeginSite(start, limit, "a", Uniform(20));
            && shrink.Begun?
            && var grown := BeginSite(shrink.ledger, limit, "b", Uniform(60));
            && grown.Begun?
            && var after := FinishSite(FinishSite(grown.ledger, limit, grown.admission, true), limit,
                                       shrink.admission, false);
            && !after.degraded && Total(after.reservations) == Uniform(140)
  {
    var limit := Uniform(100);
    var start := EMPTY_LEDGER.(reservations := map["a" := Uniform(80)]);
    PairTotal(20, 60);
    var shrink := BeginSite(start, limit, "a", Uniform(20));
    assert start.reservations["a" := Uniform(20)] == map["a" := Uniform(20)];
    assert shrink == Begun(Ledger(map["a" := Uniform(20)], map["a" := 1], map["a" := 1], false),
                           Admission("a", 1, Uniform(80), true));
    var grown := BeginSite(shrink.ledger, limit, "b", Uniform(60));
    assert shrink.ledger.reservations["b" := Uniform(60)] == Pair(20, 60);
    assert grown == Begun(Ledger(Pair(20, 60), map["a" := 1, "b" := 1], map["a" := 1, "b" := 1], false),
                          Admission("b", 1, ZERO, false));
    OvercommitEnds();
  }

  /** An ordinary plan change: a site that holds 80 of 100 may ask for anything up to 100, since its 80 do not count,
      and for nothing beyond. */
  lemma PlanChangeUpToTheLimit(n: int)
    requires 0 <= n <= 1000
    ensures BeginSite(EMPTY_LEDGER.(reservations := map["a" := Uniform(80)]), Uniform(100), "a", Uniform(n)).Begun?
            <==> n <= 100
  {
    var start := EMPTY_LEDGER.(reservations := map["a" := Uniform(80)]);
    assert Without(start.reservations, "a") == map[];
    NothingTotals();
    SmallIsExact(Uniform(n), Uniform(1000));
    hide BeginSite, Wrapped, IdealTotal;
    BeginSiteAdmitsIff(start, Uniform(100), "a", Uniform(n));
  }

  lemma NothingTotals()
    ensures IdealTotal(map[]) == ZERO
  {
  }

  lemma OvercommitEnds()
    ensures var limit := Uniform(100);
            var l := Ledger(Pair(20, 60), map["a" := 1, "b" := 1], map["a" := 1, "b" := 1], false);
            var after := FinishSite(FinishSite(l, limit, Admission("b", 1, ZERO, false), true),
                                    limit, Admission("a", 1, Uniform(80), true), false);
            !after.degraded && Total(after.reservations) == Uniform(140)
  {
    PairTotal(80, 60);
    assert Pair(20, 60)["a" := Uniform(80)] == Pair(80, 60);
  }

  /** Two ledgers that agree on every name but one. */
  ghost predicate TouchesOnly(l: Ledger, l': Ledger, name: string) {
    forall other | other != name ::
      && Counter(l'.fences, other) == Counter(l.fences, other)
      && Counter(l'.generations, other) == Counter(l.generations, other)
      && Lookup(l'.reservations, other) == Lookup(l.reservations, other)
  }

  /** An admission hands out the fence it has just raised on a free name. */
  ghost predicate RaisesFence(l: Ledger, b: Begun, name: string)
    requires b.Begun?
  {
    && b.admission.name == name && Counter(l.fences, name) == 0
    && 0 < b.admission.generation == Counter(b.ledger.fences, name) == Counter(b.ledger.generations, name)
    && TouchesOnly(l, b.ledger, name)
  }

  lemma BeginSiteRaisesFence(l: Ledger, limit: Resources, name: string, r: Resources)
    requires BeginSite(l, limit, name, r).Begun?
    ensures RaisesFence(l, BeginSite(l, limit, name, r), name)
    ensures var b := BeginSite(l, limit, name, r);
            && Lookup(b.ledger.reservations, name) == Some(r)
            && b.admission.existed == (name in l.reservations)
            && (name in l.reservations ==> b.admission.previous == l.reservations[name])
  {
  }

  lemma BeginCommandRaisesFence(l: Ledger, name: string)
    requires BeginCommand(l, name).Begun?
    ensures RaisesFence(l, BeginCommand(l, name), name)
    ensures BeginCommand(l, name).ledger.reservations == l.reservations
    ensures !BeginCommand(l, name).admission.existed
  {
  }

  lemma FinishLowersFence(l: Ledger, limit: Resources, a: Admission, success: bool)
    requires Current(l, a)
    ensures TouchesOnly(l, FinishSite(l, limit, a, success), a.name)
    ensures TouchesOnly(l, FinishCommand(l, a), a.name)
    ensures Counter(FinishSite(l, limit, a, success).fences, a.name) == 0
    ensures Counter(FinishCommand(l, a).fences, a.name) == 0
    ensures FinishCommand(l, a).reservations == l.reservations
    ensures Lookup(FinishSite(l, limit, a, success).reservations, a.name)
            == if success then Lookup(l.reservations, a.name) else if a.existed then Some(a.previous) else None
  {
  }

  lemma ReleaseKeepsFence(l: Ledger, limit: Resources, name: string)
    ensures TouchesOnly(l, ReleaseSite(l, limit, name), name)
    ensures ReleaseSite(l, limit, name).fences == l.fences
    ensures name !in ReleaseSite(l, limit, name).reservations
  {
  }

  // ---------- The manager ----------

  class Manager {
    const limit: Resources
    var reservations: map<string, Resources>
    var generations: map<string, nat>
    var siteFences: map<string, nat>
    var degraded: bool

    function State(): Ledger
      reads this
    {
      Ledger(reservations, generations, siteFences, degraded)
    }

    constructor (limit: Resources, existing: seq<(string, Resources)>)
      ensures this.limit == limit
      ensures State() == Restored(limit, existing)
    {
      this.limit := limit;
      reservations, generations, siteFences, degraded := map[], map[], map[], false;
      new;
      for i := 0 to |existing|
        invariant State() == Restored(limit, existing[..i])
      {
        assert existing[..i + 1][..i] == existing[..i];
        RestoreLocked(existing[i].0, existing[i].1);
      }
      assert existing[..|existing|] == existing;
    }

    method TotalLocked() returns (out: Resources)
      ensures out == Total(reservations)
    {
      out := ZERO;
      var rest := reservations.Keys;
      assert reservations - rest == map[];
      while rest != {}
        invariant rest <= reservations.Keys
        invariant out == Total(reservations - rest)
        decreases rest
      {
        var k :| k in rest;
        ghost var done := reservations - rest;
        IdealTotalPut(done, k, reservations[k]);
        WrappedLeft(IdealTotal(done), reservations[k]);
        rest := rest - {k};
        assert reservations - rest == done[k := reservations[k]];
        out := Add(out, reservations[k]);
      }
      assert reservations - rest == reservations;
    }

    method ReserveLocked(name: string, r: Resources) returns (refused: bool)
      modifies this
      ensures refused == Reserve(old(State()), limit, name, r).None?
      ensures State() == if refused then old(State()) else Reserve(old(State()), limit, name, r).value
    {
      var previous := if name in reservations then reservations[name] else ZERO;
      var total := TotalLocked();
      total := Subtract(total, previous);
      total := Add(total, r);
      IncrementalTotal(reservations, name, r);
      if !Fits(total, limit) {
        return true;
      }
      reservations := reservations[name := r];
      if Fits(total, limit) {
        degraded := false;
      }
      return false;
    }

    method RestoreLocked(name: string, r: Resources)
      modifies this
      ensures State() == RestoreSite(old(State()), limit, name, r)
    {
      var refused := ReserveLocked(name, r);
      if refused {
        reservations := reservations[name := r];
        degraded := true;
      }
    }

    method Begin(name: string, r: Resources) returns (outcome: Begun)
      modifies this
      ensures outcome == BeginSite(old(State()), limit, name, r)
      ensures State() == if outcome.Begun? then outcome.ledger else old(State())
    {
      if name in siteFences && siteFences[name] != 0 {
        return Refused(SiteConflict);
      }
      var existed := name in reservations;
      var previous := if existed then reservations[name] else ZERO;
      var refused := ReserveLocked(name, r);
      if refused {
        return Refused(CapacityExceeded);
      }
      var g := BumpGeneration(name);
      siteFences := siteFences[name := g];
      return Begun(State(), Admission(name, g, previous, existed));
    }

    method BeginFence(name: string) returns (outcome: Begun)
      modifies this
      ensures outcome == BeginCommand(old(State()), name)
      ensures State() == if outcome.Begun? then outcome.ledger else old(State())
    {
      if name in siteFences && siteFences[name] != 0 {
        return Refused(SiteConflict);
      }
      var g := BumpGeneration(name);
      siteFences := siteFences[name := g];
      return Begun(State(), Admission(name, g, ZERO, false));
    }

    method FinishFence(a: Admission)
      modifies this
      ensures State() == FinishCommand(old(State()), a)
    {
      if (if a.name in siteFences then siteFences[a.name] else 0) == a.generation {
        siteFences := Without(siteFences, a.name);
      }
    }

    method Finish(a: Admission, success: bool)
      modifies this
      ensures State() == FinishSite(old(State()), limit, a, success)
    {
      if (if a.name in generations then generations[a.name] else 0) != a.generation {
        return;
      }
      siteFences := Without(siteFences, a.name);
      if !success {
        if a.existed {
          reservations := reservations[a.name := a.previous];
        } else {
          reservations := Without(reservations, a.name);
        }
      }
      ClearIfFits();
    }

    method Release(name: string)
      modifies this
      ensures State() == ReleaseSite(old(State()), limit, name)
    {
      reservations := Without(reservations, name);
      var _ := BumpGeneration(name);
      ClearIfFits();
    }

    method BumpGeneration(name: string) returns (g: nat)
      modifies this`generations
      ensures g == Counter(old(generations), name) + 1 && generations == old(generations)[name := g]
    {
      g := (if name in generations then generations[name] else 0) + 1;
      generations := generations[name := g];
    }

    method ClearIfFits()
      modifies this`degraded
      ensures State() == Recheck(old(State()), limit)
    {
      var total := TotalLocked();
      if Fits(total, limit) {
        degraded := false;
      }
    }
  }

  ghost function Restored(limit: Resources, existing: seq<(string, Resources)>): Ledger {
    if existing == [] then EMPTY_LEDGER
    else
      var last := existing[|existing| - 1];
      RestoreSite(Restored(limit, existing[..|existing| - 1]), limit, last.0, last.1)
  }

  /** `New`: refuses a configuration with a figure that is not positive, and else restores what exists. */
  method New(limit: Resources, scratchBytes: int, concurrency: map<string, int>, existing: seq<(string, Resources)>)
    returns (m: Manager?)
    ensures m == null <==> || limit.cpuMilli <= 0 || limit.memoryBytes <= 0 || limit.phpWorkers <= 0 || limit.pids <= 0
                           || scratchBytes <= 0 || exists name <- concurrency :: concurrency[name] <= 0
    ensures m != null ==> fresh(m) && m.limit == limit && m.State() == Restored(limit, existing)
  {
    if limit.cpuMilli <= 0 || limit.memoryBytes <= 0 || limit.phpWorkers <= 0 || limit.pids <= 0 || scratchBytes <= 0 {
      return null;
    }
    var rest := concurrency.Keys;
    while rest != {}
      invariant rest <= concurrency.Keys
      invariant forall name <- concurrency :: name in rest || concurrency[name] > 0
      decreases rest
    {
      var name :| name in rest;
      if concurrency[name] <= 0 {
        return null;
      }
      rest := rest - {name};
    }
    m := new Manager(limit, existing);
  }

  /** After a restart the degraded flag says exactly that what was restored does not fit,
      and no fence or generation survives. */
  lemma {:induction false} RestartIsClean(limit: Resources, existing: seq<(string, Resources)>)
    ensures Restored(limit, existing).fences == map[] && Restored(limit, existing).generations == map[]
    ensures existing != [] ==>
              (Restored(limit, existing).degraded <==> !Fits(Total(Restored(limit, existing).reservations), limit))
    ensures DegradedIsReal(Restored(limit, existing), limit)
    decreases |existing|
  {
    if existing != [] {
      RestartIsClean(limit, existing[..|existing| - 1]);
    }
  }
}
