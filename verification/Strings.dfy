/** The order of `sort.Strings`, and sorted enumerations of a set. */
module Strings {

  /** Strictly before, comparing character by character. */
  predicate Below(a: string, b: string) {
    if b == "" then false
    else if a == "" then true
    else a[0] < b[0] || (a[0] == b[0] && Below(a[1..], b[1..]))
  }

  lemma {:induction false} BelowIsTotal(a: string, b: string)
    ensures Below(a, b) || a == b || Below(b, a)
    ensures !(Below(a, b) && Below(b, a)) && !Below(a, a)
    decreases |a|
  {
    if a != "" {
      if b != "" {
        BelowIsTotal(a[1..], b[1..]);
        assert a[0] == b[0] && a[1..] == b[1..] ==> a == b by {
          assert a == [a[0]] + a[1..] && b == [b[0]] + b[1..];
        }
      }
      BelowIsTotal(a[1..], a[1..]);
    }
  }

  lemma {:induction false} BelowIsTransitive(a: string, b: string, c: string)
    requires Below(a, b) && Below(b, c)
    ensures Below(a, c)
    decreases |a|
  {
    if a != "" && a[0] == b[0] == c[0] {
      BelowIsTransitive(a[1..], b[1..], c[1..]);
    }
  }

  ghost predicate Ascending(s: seq<string>) {
    forall i, j | 0 <= i < j < |s| :: Below(s[i], s[j])
  }

  ghost predicate Enumerates(s: seq<string>, keys: set<string>) {
    Ascending(s) && forall k :: k in s <==> k in keys
  }

  /** A set has only one ascending enumeration. */
  lemma {:induction false} EnumerationIsUnique(s: seq<string>, t: seq<string>, keys: set<string>)
    requires Enumerates(s, keys) && Enumerates(t, keys)
    ensures s == t
    decreases |s|
  {
    if s == [] {
      assert forall i | 0 <= i < |t| :: t[i] in t;
    } else {
      assert s[0] in s && t != [];
      FirstIsLeast(s, keys);
      FirstIsLeast(t, keys);
      assert t[0] in t;
      BelowIsTotal(s[0], t[0]);
      DropFirst(s, keys);
      DropFirst(t, keys);
      EnumerationIsUnique(s[1..], t[1..], keys - {s[0]});
      assert s == [s[0]] + s[1..] && t == [t[0]] + t[1..];
    }
  }

  lemma FirstIsLeast(s: seq<string>, keys: set<string>)
    requires Enumerates(s, keys) && s != []
    ensures s[0] in keys && forall k <- keys :: k == s[0] || Below(s[0], k)
  {
    assert s[0] in s;
    forall k | k in keys ensures k == s[0] || Below(s[0], k) {
      assert k in s;
      var i :| 0 <= i < |s| && s[i] == k;
    }
  }

  lemma DropFirst(s: seq<string>, keys: set<string>)
    requires Enumerates(s, keys) && s != []
    ensures Enumerates(s[1..], keys - {s[0]})
  {
    BelowIsTotal(s[0], s[0]);
    forall k | k in s[1..] ensures k in keys - {s[0]} {
      var i :| 0 <= i < |s[1..]| && s[1..][i] == k;
      assert s[i + 1] == k && Below(s[0], s[i + 1]);
      assert k in s;
    }
    forall k | k in keys - {s[0]} ensures k in s[1..] {
      assert k in s;
      var i :| 0 <= i < |s| && s[i] == k;
      assert s[1..][i - 1] == k;
    }
  }

  method Least(keys: set<string>) returns (least: string)
    requires keys != {}
    ensures least in keys && forall k <- keys :: k == least || Below(least, k)
  {
    least :| least in keys;
    var rest := keys - {least};
    while rest != {}
      invariant rest <= keys && least in keys
      invariant forall k <- keys :: k in rest || k == least || Below(least, k)
      decreases rest
    {
      var k :| k in rest;
      rest := rest - {k};
      BelowIsTotal(k, least);
      if Below(k, least) {
        forall other | other in keys && Below(least, other) ensures Below(k, other) {
          BelowIsTransitive(k, least, other);
        }
        least := k;
      }
    }
  }

  /** `sort.Strings` on the keys of a map. */
  method SortedKeys(keys: set<string>) returns (sorted: seq<string>)
    ensures Enumerates(sorted, keys)
  {
    sorted := [];
    var rest := keys;
    while rest != {}
      invariant rest <= keys && Enumerates(sorted, keys - rest)
      invariant forall i, k | 0 <= i < |sorted| && k in rest :: Below(sorted[i], k)
      decreases rest
    {
      var least := Least(rest);
      rest := rest - {least};
      sorted := sorted + [least];
    }
    assert keys - rest == keys;
  }

  // ---------- Sorting a list ----------

  function Insert(x: string, sorted: seq<string>): seq<string> {
    if sorted == [] || !Below(sorted[0], x) then [x] + sorted else [sorted[0]] + Insert(x, sorted[1..])
  }

  /** `sort.Strings`. */
  function Sort(s: seq<string>): seq<string> {
    if s == [] then [] else Insert(s[0], Sort(s[1..]))
  }

  ghost predicate Ordered(s: seq<string>) {
    forall i, j | 0 <= i < j < |s| :: !Below(s[j], s[i])
  }

  lemma {:induction false} InsertCounts(x: string, sorted: seq<string>)
    ensures multiset(Insert(x, sorted)) == multiset(sorted) + multiset{x}
  {
    if sorted != [] && Below(sorted[0], x) {
      InsertCounts(x, sorted[1..]);
      assert sorted == [sorted[0]] + sorted[1..];
    }
  }

  lemma InsertHolds(x: string, sorted: seq<string>, y: string)
    ensures y in Insert(x, sorted) <==> y == x || y in sorted
  {
    InsertCounts(x, sorted);
    assert y in Insert(x, sorted) <==> y in multiset(Insert(x, sorted));
    assert y in sorted <==> y in multiset(sorted);
  }

  ghost predicate NoneBelow(s: seq<string>, least: string) {
    forall y <- s :: !Below(y, least)
  }

  lemma PrependOrders(least: string, s: seq<string>)
    requires Ordered(s) && NoneBelow(s, least)
    ensures Ordered([least] + s)
  {
    forall i, j | 0 <= i < j < |[least] + s| ensures !Below(([least] + s)[j], ([least] + s)[i]) {
      assert s[j - 1] in s;
    }
  }

  lemma HeadIsLeast(s: seq<string>)
    requires Ordered(s) && s != []
    ensures Ordered(s[1..]) && NoneBelow(s[1..], s[0])
  {
    forall y | y in s[1..] ensures !Below(y, s[0]) {
      var k :| 0 <= k < |s[1..]| && s[1..][k] == y;
      assert s[k + 1] == y;
    }
  }

  lemma {:induction false} InsertKeepsOrder(x: string, sorted: seq<string>)
    requires Ordered(sorted)
    ensures Ordered(Insert(x, sorted))
  {
    if sorted == [] {
    } else if !Below(sorted[0], x) {
      HeadIsLeast(sorted);
      forall y | y in sorted ensures !Below(y, x) {
        if y != sorted[0] {
          assert y in sorted[1..];
          AtOrAbove(x, sorted[0], y);
        }
      }
      PrependOrders(x, sorted);
    } else {
      HeadIsLeast(sorted);
      InsertKeepsOrder(x, sorted[1..]);
      BelowIsTotal(sorted[0], x);
      hide Ordered, Below;
      forall y | y in Insert(x, sorted[1..]) ensures !Below(y, sorted[0]) {
        InsertHolds(x, sorted[1..], y);
      }
      PrependOrders(sorted[0], Insert(x, sorted[1..]));
    }
  }

  lemma AtOrAbove(a: string, b: string, c: string)
    requires !Below(b, a) && !Below(c, b)
    ensures !Below(c, a)
  {
    BelowIsTotal(a, b);
    BelowIsTotal(b, c);
    if a != b && b != c {
      BelowIsTransitive(a, b, c);
    }
    BelowIsTotal(a, c);
  }

  /** Sorting reorders and nothing else, and leaves no entry before a smaller one. */
  lemma {:induction false} SortSorts(s: seq<string>)
    ensures Ordered(Sort(s)) && multiset(Sort(s)) == multiset(s)
  {
    if s != [] {
      SortSorts(s[1..]);
      InsertKeepsOrder(s[0], Sort(s[1..]));
      InsertCounts(s[0], Sort(s[1..]));
      assert s == [s[0]] + s[1..];
    }
  }
}
