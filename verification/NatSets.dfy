/** Finite sets of row indices and the positional operations on them.  This is the reference
    meaning of an IndexSet: nothing here mentions ranges, chunks or iterators. */
module NatSets {

  /** The number of members below x, counted one position at a time. */
  ghost function Rank(s: set<nat>, x: nat): (r: nat)
    ensures r <= x
  {
    if x == 0 then 0 else Rank(s, x - 1) + (if x - 1 in s then 1 else 0)
  }

  ghost function Below(s: set<nat>, x: nat): set<nat> {
    set y | y in s && y < x
  }

  ghost function Interval(a: nat, b: nat): (r: set<nat>)
    ensures forall y: nat :: y in r <==> a <= y < b
  {
    if a >= b then {} else Interval(a, b - 1) + {b - 1}
  }

  ghost predicate AllBelow(s: set<nat>, q: nat) {
    forall x | x in s :: x < q
  }

  ghost predicate AllFrom(s: set<nat>, q: nat) {
    forall x | x in s :: q <= x
  }

  /** Rank is the cardinality of the initial segment. */
  lemma {:induction false} RankIsCardinality(s: set<nat>, x: nat)
    ensures Rank(s, x) == |Below(s, x)|
  {
    if x == 0 {
      assert Below(s, 0) == {};
    } else {
      RankIsCardinality(s, x - 1);
      if x - 1 in s {
        assert Below(s, x) == Below(s, x - 1) + {x - 1};
      } else {
        assert Below(s, x) == Below(s, x - 1);
      }
    }
  }

  lemma {:induction false} RankStretch(s: set<nat>, a: nat, b: nat)
    requires a <= b && forall x | a <= x < b :: x in s
    ensures Rank(s, b) == Rank(s, a) + (b - a)
    decreases b
  {
    if a < b { RankStretch(s, a, b - 1); }
  }

  lemma {:induction false} RankGap(s: set<nat>, a: nat, b: nat)
    requires a <= b && forall x | a <= x < b :: x !in s
    ensures Rank(s, b) == Rank(s, a)
    decreases b
  {
    if a < b { RankGap(s, a, b - 1); }
  }

  lemma {:induction false} RankMonotone(s: set<nat>, a: nat, b: nat)
    requires a <= b
    ensures Rank(s, a) <= Rank(s, b) <= Rank(s, a) + (b - a)
    decreases b
  {
    if a < b { RankMonotone(s, a, b - 1); }
  }

  /** Two sets that agree below x have the same rank at x. */
  lemma {:induction false} RankAgree(s: set<nat>, t: set<nat>, x: nat)
    requires forall y: nat | y < x :: y in s <==> y in t
    ensures Rank(s, x) == Rank(t, x)
  {
    if x > 0 { RankAgree(s, t, x - 1); }
  }

  /** The number of members in [a, b). */
  ghost function CountIn(s: set<nat>, a: nat, b: nat): (n: nat)
    requires a <= b
  {
    RankMonotone(s, a, b);
    Rank(s, b) - Rank(s, a)
  }

  lemma {:induction false} CountInIsCardinality(s: set<nat>, a: nat, b: nat)
    requires a <= b
    ensures CountIn(s, a, b) == |set x | x in s && a <= x < b|
  {
    RankIsCardinality(s, a);
    RankIsCardinality(s, b);
    var mid := set x | x in s && a <= x < b;
    assert Below(s, b) == Below(s, a) + mid;
  }

  // ---------------------------------------------------------------- shift and unshift

  /** Renumber j after deleting every member below it. */
  ghost function Unshift(s: set<nat>, j: nat): nat {
    j - Rank(s, j)
  }

  /** The first non-member at or after x. */
  ghost function NextFree(s: set<nat>, x: nat): nat
    decreases set y | y in s && y >= x
  {
    if x in s then
      var above, here := set y | y in s && y >= x + 1, set y | y in s && y >= x;
      assert x in here && x !in above;
      NextFree(s, x + 1)
    else x
  }

  lemma {:induction false} NextFreeIsFirst(s: set<nat>, x: nat)
    ensures var r := NextFree(s, x);
            r >= x && r !in s && forall y | x <= y < r :: y in s
    decreases set y | y in s && y >= x
  {
    if x in s {
      var above, here := set y | y in s && y >= x + 1, set y | y in s && y >= x;
      assert x in here && x !in above;
      NextFreeIsFirst(s, x + 1);
    }
  }

  /** The i-th non-member: where position i lands once the members have been inserted. */
  ghost function Shift(s: set<nat>, i: nat): nat {
    if i == 0 then NextFree(s, 0) else NextFree(s, Shift(s, i - 1) + 1)
  }

  lemma {:induction false} ShiftIsFree(s: set<nat>, i: nat)
    ensures Shift(s, i) !in s
  {
    NextFreeIsFirst(s, if i == 0 then 0 else Shift(s, i - 1) + 1);
  }

  lemma {:induction false} UnshiftOfShift(s: set<nat>, i: nat)
    ensures Shift(s, i) !in s && Unshift(s, Shift(s, i)) == i
  {
    ShiftIsFree(s, i);
    if i == 0 {
      NextFreeIsFirst(s, 0);
      RankStretch(s, 0, Shift(s, 0));
    } else {
      var p := Shift(s, i - 1);
      NextFreeIsFirst(s, p + 1);
      UnshiftOfShift(s, i - 1);
      RankStretch(s, p + 1, Shift(s, i));
    }
  }

  /** Unshift is monotone, and strictly so when it starts from a non-member. */
  lemma {:induction false} UnshiftMonotone(s: set<nat>, a: nat, b: nat)
    requires a <= b
    ensures Unshift(s, a) <= Unshift(s, b)
    ensures a < b && a !in s ==> Unshift(s, a) < Unshift(s, b)
  {
    RankMonotone(s, a, b);
    if a < b && a !in s { RankMonotone(s, a + 1, b); }
  }

  /** A non-member is determined by its unshifted position. */
  lemma {:induction false} ShiftUnique(s: set<nat>, i: nat, j: nat)
    requires j !in s && Unshift(s, j) == i
    ensures j == Shift(s, i)
  {
    UnshiftOfShift(s, i);
    var k := Shift(s, i);
    if j < k {
      UnshiftMonotone(s, j, k);
    } else if k < j {
      UnshiftMonotone(s, k, j);
    }
  }

  lemma {:induction false} ShiftOfUnshift(s: set<nat>, j: nat)
    requires j !in s
    ensures Shift(s, Unshift(s, j)) == j
  {
    ShiftUnique(s, Unshift(s, j), j);
  }

  lemma {:induction false} ShiftStrictlyIncreasing(s: set<nat>, i: nat, k: nat)
    requires i < k
    ensures Shift(s, i) < Shift(s, k)
  {
    UnshiftOfShift(s, i);
    UnshiftOfShift(s, k);
    if Shift(s, k) <= Shift(s, i) { UnshiftMonotone(s, Shift(s, k), Shift(s, i)); }
  }

  // ---------------------------------------------------------------- single positions

  /** Insert count new members at i; everything at or after i moves up. */
  ghost function InsertAt(s: set<nat>, i: nat, count: nat): set<nat> {
    ShiftForInsertAt(s, i, count) + Interval(i, i + count)
  }

  /** Make room for count positions at i without filling them. */
  ghost function ShiftForInsertAt(s: set<nat>, i: nat, count: nat): set<nat> {
    Below(s, i) + set x | x in s && x >= i :: x + count
  }

  /** Delete position i; everything above moves down by one. */
  ghost function EraseAt(s: set<nat>, i: nat): set<nat> {
    Below(s, i) + set x | x in s && x > i :: x - 1
  }

  lemma {:induction false} ShiftForInsertAtMember(s: set<nat>, i: nat, count: nat, y: nat)
    ensures y in ShiftForInsertAt(s, i, count) <==>
              (y < i && y in s) || (y >= i + count && y - count in s)
  {
    if y >= i + count && y - count in s {
      var x: nat := y - count;
      assert x in s && x >= i && x + count == y;
    }
  }

  lemma {:induction false} InsertAtMember(s: set<nat>, i: nat, count: nat, y: nat)
    ensures y in InsertAt(s, i, count) <==>
              (y < i && y in s) || i <= y < i + count || (y >= i + count && y - count in s)
  {
    ShiftForInsertAtMember(s, i, count, y);
  }

  lemma {:induction false} EraseAtMember(s: set<nat>, i: nat, y: nat)
    ensures y in EraseAt(s, i) <==> (if y < i then y else y + 1) in s
  {
    if y >= i && y + 1 in s {
      var x := y + 1;
      assert x in s && x > i && x - 1 == y;
    }
  }

  // ---------------------------------------------------------------- batches of positions

  /** Insert every position of p, in final coordinates. */
  ghost function InsertAll(s: set<nat>, p: set<nat>): set<nat> {
    p + ShiftAll(s, p)
  }

  ghost function ShiftAll(s: set<nat>, p: set<nat>): set<nat> {
    set x | x in s :: Shift(p, x)
  }

  ghost function EraseAll(s: set<nat>, p: set<nat>): set<nat> {
    set x | x in s && x !in p :: Unshift(p, x)
  }

  /** Add the indices v, which already include the members of t but not those of s. */
  ghost function AddShiftedBy(s: set<nat>, t: set<nat>, v: set<nat>): set<nat> {
    s + Translated(s, t, v)
  }

  ghost function Translated(s: set<nat>, t: set<nat>, v: set<nat>): set<nat> {
    set x | x in v && x !in t :: Shift(s, Unshift(t, x))
  }

  // ---------------------------------------------------------------- going through a set in order

  /** c is where an iteration over s stands: on a member, or past all of them. */
  ghost predicate CursorAt(s: set<nat>, c: nat, more: bool) {
    if more then c in s else AllBelow(s, c)
  }

  /** Stepping from c to d passes exactly the member c. */
  ghost predicate CursorStep(s: set<nat>, c: nat, d: nat) {
    c in s && c < d && forall x | x in s :: x < d <==> x <= c
  }

  lemma {:induction false} StepBelow(s: set<nat>, c: nat, d: nat)
    requires CursorStep(s, c, d)
    ensures Below(s, d) == Below(s, c) + {c} && Rank(s, d) == Rank(s, c) + 1
  {
    RankGap(s, c + 1, d);
  }
}
