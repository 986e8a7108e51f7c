/** Listing and pruning a site's archives (List and prune in internal/backup/manager.go). */
module Retention {
  import opened Wrappers
  import Int64
  import Strings
  import T = Timestamps

  const KEEP_ARCHIVES := 7

  const SECOND := 1_000_000_000
  const DAY := 86_400_000_000_000

  /** Clocks count nanoseconds from the start of year 0; Go's zero time is the start of year 1. */
  const ZERO_TIME := 31_622_400_000_000_000

  /** `archiveTime`, given the parser: a name that does not parse has the zero time. */
  function TimeOf(parse: string -> Option<T.Stamp>, name: string): int {
    match parse(name) case None => ZERO_TIME case Some(stamp) => T.Seconds(stamp) * SECOND
  }

  /** The parser reads back every name the agent writes. */
  ghost predicate Parses(parse: string -> Option<T.Stamp>) {
    forall stamp: T.Stamp :: T.Valid(stamp) ==> parse(T.NameOf(stamp)) == Some(stamp)
  }

  /** The zero time is the first instant of year 1. */
  lemma ZeroTimeIsYearOne()
    ensures T.Seconds(T.Stamp(1, 1, 1, 0, 0, 0)) * SECOND == ZERO_TIME
  {
    assert T.DaysBeforeYear(1) == 366;
  }

  /** `now` less the retention, where the product of Go durations wraps at 64 bits. */
  function Cutoff(now: int, retentionDays: int): int {
    now + Int64.Wrap(-retentionDays * DAY)
  }

  predicate InWindow(parse: string -> Option<T.Stamp>, name: string, retentionDays: int, now: int) {
    retentionDays > 0 && TimeOf(parse, name) > Cutoff(now, retentionDays)
  }

  // ---------- How long the window really is ----------

  /** The length asked for, reduced to the signed 64-bit range; negative if the cutoff lies ahead. */
  function Window(retentionDays: int): int {
    var product := retentionDays * DAY % Int64.MODULUS;
    if product <= Int64.MODULUS / 2 then product else product - Int64.MODULUS
  }

  lemma CutoffIsWindow(now: int, retentionDays: int)
    ensures Cutoff(now, retentionDays) == now - Window(retentionDays)
  {
    var x, m := retentionDays * DAY, Int64.MODULUS;
    assert -retentionDays * DAY == -x;
    NegatedRemainder(x);
  }

  lemma NegatedRemainder(x: int)
    ensures Int64.Wrap(-x) == -(if x % Int64.MODULUS <= Int64.MODULUS / 2
                                then x % Int64.MODULUS else x % Int64.MODULUS - Int64.MODULUS)
  {
    var q, r := x / Int64.MODULUS, x % Int64.MODULUS;
    assert x == Int64.MODULUS * q + r;
    if r <= Int64.MODULUS / 2 {
      assert -x - Int64.MIN == Int64.MODULUS * -q + (Int64.MODULUS / 2 - r);
      Int64.Unique(-q, Int64.MODULUS / 2 - r);
    } else {
      assert -x - Int64.MIN == Int64.MODULUS * -(q + 1) + (Int64.MODULUS / 2 + Int64.MODULUS - r);
      Int64.Unique(-(q + 1), Int64.MODULUS / 2 + Int64.MODULUS - r);
    }
  }

  /** The window is as long as asked for exactly up to 106751 days, some 292 years; beyond that it is shorter. */
  lemma WindowIsExactIff(retentionDays: int)
    requires retentionDays > 0
    ensures Window(retentionDays) == retentionDays * DAY <==> retentionDays <= 106_751
    ensures Window(retentionDays) <= retentionDays * DAY && Window(retentionDays) <= Int64.MODULUS / 2
  {
    var x := retentionDays * DAY;
    if retentionDays <= 106_751 {
      Int64.Unique(0, x);
    } else {
      assert x > Int64.MODULUS / 2;
    }
  }

  /** There is no window exactly if the product of durations leaves a remainder in the upper half of 64 bits:
      then nothing written up to now is inside it. */
  lemma NoWindowIff(parse: string -> Option<T.Stamp>, retentionDays: int, now: int)
    requires retentionDays > 0
    ensures Cutoff(now, retentionDays) > now <==> retentionDays * DAY % Int64.MODULUS > Int64.MODULUS / 2
    ensures Cutoff(now, retentionDays) > now ==>
              forall name: string | TimeOf(parse, name) <= now :: !InWindow(parse, name, retentionDays, now)
  {
    CutoffIsWindow(now, retentionDays);
  }

  /** That is so for all of 106752 to 213503 days. */
  lemma FirstGap(retentionDays: int, now: int)
    requires 106_752 <= retentionDays <= 213_503
    ensures Cutoff(now, retentionDays) > now
  {
    var x := retentionDays * DAY;
    assert Int64.MODULUS / 2 < x < Int64.MODULUS;
    Int64.Unique(0, x);
    CutoffIsWindow(now, retentionDays);
  }

  /** At 213504 days the cutoff is behind the clock again, by less than half an hour. */
  lemma AfterTheGap(now: int)
    ensures Cutoff(now, 213_504) == now - 1_526_290_448_384
  {
    CutoffIsWindow(now, 213_504);
    Int64.Unique(1, 1_526_290_448_384);
    assert 213_504 * DAY == Int64.MODULUS * 1 + 1_526_290_448_384;
  }

  // ---------- The newest ----------

  ghost function Above(names: set<string>, name: string): set<string> {
    set other | other in names && Strings.Below(name, other)
  }

  /** The `k` greatest names. */
  ghost function Newest(names: set<string>, k: nat): set<string> {
    set name | name in names && |Above(names, name)| < k
  }

  /** In a descending list, entry `i` has exactly the `i` entries before it above it. */
  lemma {:induction false} AboveInList(sorted: seq<string>, names: set<string>, i: nat)
    requires Strings.Enumerates(sorted, names) && i < |sorted|
    ensures |Above(names, sorted[|sorted| - 1 - i])| == i
  {
    var at := |sorted| - 1 - i;
    var above := Tail(sorted, at + 1);
    TailSize(sorted, at + 1);
    forall other ensures other in Above(names, sorted[at]) <==> other in above {
      if other in Above(names, sorted[at]) {
        assert other in sorted;
        var j :| 0 <= j < |sorted| && sorted[j] == other;
        NotBelow(sorted, j, at);
      }
      if other in above {
        assert other in sorted;
      }
    }
    assert Above(names, sorted[at]) == above;
  }

  lemma NotBelow(sorted: seq<string>, j: nat, at: nat)
    requires Strings.Ascending(sorted) && j < |sorted| && at < |sorted|
    ensures Strings.Below(sorted[at], sorted[j]) <==> at < j
  {
    Strings.BelowIsTotal(sorted[j], sorted[at]);
    if j < at {
      assert Strings.Below(sorted[j], sorted[at]);
    }
  }

  ghost function Tail(sorted: seq<string>, from: nat): set<string> {
    set j | from <= j < |sorted| :: sorted[j]
  }

  lemma {:induction false} TailSize(sorted: seq<string>, from: nat)
    requires Strings.Ascending(sorted) && from <= |sorted|
    ensures |Tail(sorted, from)| == |sorted| - from
    decreases |sorted| - from
  {
    if from < |sorted| {
      TailSize(sorted, from + 1);
      TailGrows(sorted, from);
      NotInTail(sorted, from);
      hide Tail, Strings.Ascending;
    } else {
      assert Tail(sorted, from) == {};
    }
  }

  lemma TailGrows(sorted: seq<string>, from: nat)
    requires from < |sorted|
    ensures Tail(sorted, from) == Tail(sorted, from + 1) + {sorted[from]}
  {
  }

  lemma NotInTail(sorted: seq<string>, from: nat)
    requires Strings.Ascending(sorted) && from < |sorted|
    ensures sorted[from] !in Tail(sorted, from + 1)
  {
    Strings.BelowIsTotal(sorted[from], sorted[from]);
  }

  // ---------- Pruning ----------

  /** What pruning leaves when every delete succeeds. */
  ghost function Kept(parse: string -> Option<T.Stamp>, names: set<string>, retentionDays: int, now: int): set<string> {
    set name | name in names && (name in Newest(names, KEEP_ARCHIVES) || InWindow(parse, name, retentionDays, now))
  }

  datatype Object = Object(size: int, modified: int)

  datatype Archive = Archive(name: string, bytes: int, createdAt: int)

  const SUFFIX := ".tar.gz"

  predicate IsArchive(name: string) {
    |name| >= |SUFFIX| && name[|name| - |SUFFIX|..] == SUFFIX
  }

  lemma ArchiveIff(name: string, base: string)
    ensures IsArchive(base + ".tar.gz")
    ensures IsArchive(name) <==> exists front :: name == front + ".tar.gz"
  {
    assert (base + ".tar.gz")[|base + ".tar.gz"| - |SUFFIX|..] == ".tar.gz";
    if IsArchive(name) {
      assert name == name[..|name| - |SUFFIX|] + ".tar.gz";
    }
    forall front | name == front + ".tar.gz" ensures IsArchive(name) {
      assert name[|name| - |SUFFIX|..] == ".tar.gz";
    }
  }

  /** The archives among the objects under a site's prefix. */
  function ArchivesIn(objects: map<string, Object>): set<string> {
    set name | name in objects.Keys && IsArchive(name)
  }

  function NamesOf(archives: seq<Archive>): (names: seq<string>)
    ensures |names| == |archives|
  {
    seq(|archives|, i requires 0 <= i < |archives| => archives[i].name)
  }

  class Bucket {
    var objects: map<string, Object>

    constructor (objects: map<string, Object>)
      ensures this.objects == objects
    {
      this.objects := objects;
    }

    /** `List`: every archive once, with its size and time, newest name first; other objects are passed over. */
    method List() returns (archives: seq<Archive>)
      ensures Strings.Enumerates(Reversed(NamesOf(archives)), ArchivesIn(objects))
      ensures forall a <- archives :: a.name in objects && objects[a.name] == Object(a.bytes, a.createdAt)
    {
      var sorted := Strings.SortedKeys(ArchivesIn(objects));
      archives := [];
      var i := |sorted|;
      while i > 0
        invariant 0 <= i <= |sorted|
        invariant Reversed(NamesOf(archives)) == sorted[i..]
        invariant forall a <- archives :: a.name in objects && objects[a.name] == Object(a.bytes, a.createdAt)
      {
        i := i - 1;
        assert sorted[i] in sorted;
        var found := objects[sorted[i]];
        var longer := archives + [Archive(sorted[i], found.size, found.modified)];
        assert Reversed(NamesOf(longer)) == [sorted[i]] + Reversed(NamesOf(archives));
        archives := longer;
      }
    }

    /** Deletes the archives that are neither among the newest nor inside the window; a delete that fails is ignored,
        and nothing is deleted if they cannot be listed. */
    method Prune(parse: string -> Option<T.Stamp>, retentionDays: int, now: int, listFails: bool, fails: set<string>)
      modifies this
      ensures var listed := ArchivesIn(old(objects));
              objects == if listFails then old(objects)
                         else old(objects) - (listed - Kept(parse, listed, retentionDays, now) - fails)
    {
      hide InWindow, Strings.Enumerates, Strings.Ascending, ArchivesIn;
      if listFails {
        return;
      }
      var archives := List();
      var names := NamesOf(archives);
      ghost var listed := ArchivesIn(objects);
      ListedNames(names, listed);
      if |archives| <= KEEP_ARCHIVES {
        AllAreNewest(Reversed(names), listed);
        assert listed - Kept(parse, listed, retentionDays, now) - fails == {};
        return;
      }
      var i := KEEP_ARCHIVES;
      ghost var gone: set<string> := {};
      while i < |archives|
        invariant KEEP_ARCHIVES <= i <= |archives|
        invariant objects == old(objects) - gone && gone <= listed
        invariant forall j | 0 <= j < |names| :: names[j] in listed - gone <==>
                    j < KEEP_ARCHIVES || j >= i || InWindow(parse, names[j], retentionDays, now) || names[j] in fails
      {
        var name := names[i];
        if !InWindow(parse, name, retentionDays, now) && name !in fails {
          assert objects - {name} == old(objects) - (gone + {name});
          objects := objects - {name};
          gone := gone + {name};
        }
        i := i + 1;
      }
      PrunedNames(parse, names, listed, listed - gone, retentionDays, now, fails);
      assert gone == listed - Kept(parse, listed, retentionDays, now) - fails;
    }
  }

  lemma ListedNames(archives: seq<string>, names: set<string>)
    requires Strings.Enumerates(Reversed(archives), names)
    ensures forall j | 0 <= j < |archives| :: archives[j] in names
    ensures forall i, j | 0 <= i < j < |archives| :: archives[i] != archives[j]
  {
    var sorted := Reversed(archives);
    forall j | 0 <= j < |archives| ensures archives[j] in names {
      assert archives[j] == sorted[|archives| - 1 - j] && sorted[|archives| - 1 - j] in sorted;
    }
    forall i, j | 0 <= i < j < |archives| ensures archives[i] != archives[j] {
      assert archives[i] == sorted[|archives| - 1 - i] && archives[j] == sorted[|archives| - 1 - j];
      Strings.BelowIsTotal(archives[i], archives[j]);
    }
  }

  lemma PrunedNames(parse: string -> Option<T.Stamp>, archives: seq<string>, before: set<string>, after: set<string>,
                    retentionDays: int, now: int, fails: set<string>)
    requires Strings.Enumerates(Reversed(archives), before) && after <= before
    requires forall j | 0 <= j < |archives| :: archives[j] in after <==>
               j < KEEP_ARCHIVES || InWindow(parse, archives[j], retentionDays, now) || archives[j] in fails
    ensures after == Kept(parse, before, retentionDays, now) + before * fails
  {
    hide InWindow;
    var sorted := Reversed(archives);
    forall name | name in before
      ensures name in after <==> name in Kept(parse, before, retentionDays, now) + before * fails
    {
      assert name in sorted;
      var j :| 0 <= j < |sorted| && sorted[j] == name;
      var i := |sorted| - 1 - j;
      AboveInList(sorted, before, i);
      assert archives[i] == name;
    }
  }

  function Reversed(s: seq<string>): (r: seq<string>)
    ensures |r| == |s| && forall i | 0 <= i < |s| :: r[i] == s[|s| - 1 - i]
  {
    seq(|s|, i requires 0 <= i < |s| => s[|s| - 1 - i])
  }

  lemma AllAreNewest(sorted: seq<string>, names: set<string>)
    requires Strings.Enumerates(sorted, names) && |sorted| <= KEEP_ARCHIVES
    ensures Newest(names, KEEP_ARCHIVES) == names
  {
    forall name | name in names ensures |Above(names, name)| < KEEP_ARCHIVES {
      assert name in sorted;
      var j :| 0 <= j < |sorted| && sorted[j] == name;
      AboveInList(sorted, names, |sorted| - 1 - j);
    }
  }

  // ---------- What pruning guarantees ----------

  lemma NewestSize(sorted: seq<string>, names: set<string>, k: nat)
    requires Strings.Enumerates(sorted, names)
    ensures Newest(names, k) == Tail(sorted, if |sorted| < k then 0 else |sorted| - k)
    ensures |Newest(names, k)| == if |sorted| < k then |sorted| else k
  {
    var from := if |sorted| < k then 0 else |sorted| - k;
    forall name ensures name in Newest(names, k) <==> name in Tail(sorted, from) {
      if name in names {
        assert name in sorted;
        var j :| 0 <= j < |sorted| && sorted[j] == name;
        AboveInList(sorted, names, |sorted| - 1 - j);
        if name in Tail(sorted, from) {
          var m :| from <= m < |sorted| && sorted[m] == name;
          SameEntry(sorted, j, m);
        }
      }
      if name in Tail(sorted, from) {
        assert name in sorted;
      }
    }
    TailSize(sorted, from);
  }

  lemma SameEntry(sorted: seq<string>, i: nat, j: nat)
    requires Strings.Ascending(sorted) && i < |sorted| && j < |sorted| && sorted[i] == sorted[j]
    ensures i == j
  {
    NotBelow(sorted, i, j);
    NotBelow(sorted, j, i);
    Strings.BelowIsTotal(sorted[i], sorted[j]);
  }

  /** Dropping entries that are not among the `k` newest leaves the `k` newest as they were. */
  lemma NewestStay(names: set<string>, kept: set<string>, sorted: seq<string>, k: nat)
    requires Strings.Enumerates(sorted, names) && Newest(names, k) <= kept <= names
    ensures Newest(kept, k) == Newest(names, k)
  {
    NewestSize(sorted, names, k);
    forall name ensures name in Newest(kept, k) <==> name in Newest(names, k) {
      if name in kept {
        assert Above(kept, name) <= Above(names, name);
        Contained(Above(kept, name), Above(names, name));
        if name !in Newest(names, k) {
          NewestAreAbove(names, sorted, name, k);
          assert Newest(names, k) <= Above(kept, name);
          Contained(Newest(names, k), Above(kept, name));
        }
      }
    }
  }

  lemma Contained(a: set<string>, b: set<string>)
    requires a <= b
    ensures |a| <= |b|
  {
    assert b == a + (b - a);
  }

  /** A name that is not among the newest lies below all of them, and there are `k` of those. */
  lemma NewestAreAbove(names: set<string>, sorted: seq<string>, name: string, k: nat)
    requires Strings.Enumerates(sorted, names) && name in names && name !in Newest(names, k)
    ensures Newest(names, k) <= Above(names, name) && |Newest(names, k)| == k
  {
    NewestSize(sorted, names, k);
    assert name in sorted;
    var j :| 0 <= j < |sorted| && sorted[j] == name;
    AboveInList(sorted, names, |sorted| - 1 - j);
    forall other | other in Newest(names, k) ensures other in Above(names, name) {
      var m :| |sorted| - k <= m < |sorted| && sorted[m] == other;
      NotBelow(sorted, m, j);
      assert other in sorted;
    }
  }

  /** A second run with the same clock deletes nothing. */
  lemma PruningTwiceIsPruningOnce(parse: string -> Option<T.Stamp>, names: set<string>, sorted: seq<string>,
      retentionDays: int, now: int)
    requires Strings.Enumerates(sorted, names)
    ensures var kept := Kept(parse, names, retentionDays, now);
            Kept(parse, kept, retentionDays, now) == kept
  {
    NewestStay(names, Kept(parse, names, retentionDays, now), sorted, KEEP_ARCHIVES);
  }

  /** Never fewer than seven are left, or all there were. */
  lemma SevenAreLeft(parse: string -> Option<T.Stamp>, names: set<string>, sorted: seq<string>, retentionDays: int,
      now: int)
    requires Strings.Enumerates(sorted, names)
    ensures |Kept(parse, names, retentionDays, now)| >= if |names| < KEEP_ARCHIVES then |names| else KEEP_ARCHIVES
  {
    NewestSize(sorted, names, KEEP_ARCHIVES);
    Contained(Newest(names, KEEP_ARCHIVES), Kept(parse, names, retentionDays, now));
    TailSize(sorted, 0);
    forall name ensures name in Tail(sorted, 0) <==> name in names {
      if name in names {
        assert name in sorted;
      }
    }
    assert Tail(sorted, 0) == names;
  }

  ghost predicate WellNamed(names: set<string>, stamps: map<string, T.Stamp>) {
    forall name <- names :: name in stamps && T.Valid(stamps[name]) && name == T.NameOf(stamps[name])
  }

  /** How many archives are younger. */
  ghost function Younger(stamps: map<string, T.Stamp>, names: set<string>, name: string): set<string>
    requires name in names && forall other <- names :: other in stamps
  {
    set other | other in names && T.Seconds(stamps[name]) < T.Seconds(stamps[other])
  }

  /** On names the agent wrote, for every retention: an archive is left exactly if fewer than seven are
      younger, or it is younger than the window is really long. */
  lemma PruneKeepsByTime(parse: string -> Option<T.Stamp>, names: set<string>, stamps: map<string, T.Stamp>,
                         retentionDays: int, now: int, name: string)
    requires Parses(parse) && WellNamed(names, stamps) && name in names
    ensures name in Kept(parse, names, retentionDays, now)
            <==> || |Younger(stamps, names, name)| < KEEP_ARCHIVES
                 || (retentionDays > 0 && now - T.Seconds(stamps[name]) * SECOND < Window(retentionDays))
  {
    hide T.Seconds, T.NameOf, T.Valid, Window, Cutoff;
    SameAbove(names, stamps, name);
    ParsesBack(parse, names, stamps, name);
    CutoffIsWindow(now, retentionDays);
  }

  lemma SameAbove(names: set<string>, stamps: map<string, T.Stamp>, name: string)
    requires WellNamed(names, stamps) && name in names
    ensures Above(names, name) == Younger(stamps, names, name)
  {
    forall other | other in names ensures other in Above(names, name) <==> other in Younger(stamps, names, name) {
      T.NamesSortByTime(stamps[name], stamps[other]);
    }
  }

  lemma ParsesBack(parse: string -> Option<T.Stamp>, names: set<string>, stamps: map<string, T.Stamp>, name: string)
    requires Parses(parse) && WellNamed(names, stamps) && name in names
    ensures TimeOf(parse, name) == T.Seconds(stamps[name]) * SECOND
  {
    assert parse(T.NameOf(stamps[name])) == Some(stamps[name]);
  }

  /** With up to 106751 days that is the window the plan asked for. */
  lemma PruneKeepsThePlan(parse: string -> Option<T.Stamp>, names: set<string>, stamps: map<string, T.Stamp>,
                          retentionDays: int, now: int, name: string)
    requires Parses(parse) && WellNamed(names, stamps) && name in names && 0 < retentionDays <= 106_751
    ensures name in Kept(parse, names, retentionDays, now)
            <==> || |Younger(stamps, names, name)| < KEEP_ARCHIVES
                 || now - T.Seconds(stamps[name]) * SECOND < retentionDays * DAY
  {
    PruneKeepsByTime(parse, names, stamps, retentionDays, now, name);
    WindowIsExactIff(retentionDays);
  }

  /** Where there is no window, only the seven newest of the archives written so far are left. */
  lemma NoWindowKeepsSevenOnly(parse: string -> Option<T.Stamp>, names: set<string>, stamps: map<string, T.Stamp>,
                               retentionDays: int, now: int)
    requires Parses(parse) && WellNamed(names, stamps) && retentionDays > 0
    requires forall name <- names :: T.Seconds(stamps[name]) * SECOND <= now
    requires retentionDays * DAY % Int64.MODULUS > Int64.MODULUS / 2
    ensures Kept(parse, names, retentionDays, now) == Newest(names, KEEP_ARCHIVES)
  {
    hide T.Seconds, T.NameOf, T.Valid, Int64.Wrap;
    NoWindowIff(parse, retentionDays, now);
    forall name | name in names ensures !InWindow(parse, name, retentionDays, now) {
      ParsesBack(parse, names, stamps, name);
    }
  }
}
