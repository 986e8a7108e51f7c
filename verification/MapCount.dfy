/** Counting the entries of a finite map that satisfy a property. */
module MapCount {

  ghost function Where<R(!new)>(entries: map<nat, R>, p: R -> bool): set<nat> {
    set id | id in entries && p(entries[id])
  }

  ghost function Tally<R(!new)>(entries: map<nat, R>, p: R -> bool): nat {
    |Where(entries, p)|
  }

  function One(b: bool): int {
    if b then 1 else 0
  }

  lemma WhereAfterHit<R(!new)>(entries: map<nat, R>, id: nat, r: R, p: R -> bool)
    requires p(r)
    ensures Where(entries[id := r], p) == Where(entries, p) + {id}
  {
  }

  lemma WhereAfterMiss<R(!new)>(entries: map<nat, R>, id: nat, r: R, p: R -> bool)
    requires !p(r)
    ensures Where(entries[id := r], p) == Where(entries, p) - {id}
  {
  }

  lemma CountAfterPut<R(!new)>(entries: map<nat, R>, id: nat, r: R, p: R -> bool)
    ensures Tally(entries[id := r], p) == Tally(entries, p) + One(p(r)) - One(id in entries && p(entries[id]))
  {
    if p(r) {
      WhereAfterHit(entries, id, r, p);
    } else {
      WhereAfterMiss(entries, id, r, p);
    }
  }

  /** Two disjoint properties that together mean the same as two other disjoint ones. */
  lemma CountBalance<R(!new)>(entries: map<nat, R>, p: R -> bool, q: R -> bool, p': R -> bool, q': R -> bool)
    requires forall id <- entries :: var r := entries[id]; (p(r) || q(r)) == (p'(r) || q'(r))
    requires forall id <- entries :: var r := entries[id]; !(p(r) && q(r)) && !(p'(r) && q'(r))
    ensures Tally(entries, p) + Tally(entries, q) == Tally(entries, p') + Tally(entries, q')
  {
    assert Where(entries, p) + Where(entries, q) == Where(entries, p') + Where(entries, q');
    CountDisjoint(entries, p, q);
    CountDisjoint(entries, p', q');
  }

  lemma CountDisjoint<R(!new)>(entries: map<nat, R>, p: R -> bool, q: R -> bool)
    requires forall id <- entries :: !(p(entries[id]) && q(entries[id]))
    ensures |Where(entries, p) + Where(entries, q)| == Tally(entries, p) + Tally(entries, q)
  {
    assert Where(entries, p) !! Where(entries, q);
  }

  lemma NoneCounted<R(!new)>(entries: map<nat, R>, p: R -> bool)
    requires forall id <- entries :: !p(entries[id])
    ensures Tally(entries, p) == 0
  {
    assert Where(entries, p) == {};
  }
}
