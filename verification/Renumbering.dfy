/** Laws of the positional operations over all finite sets of naturals: batch operations are
    sequences of single ones, and inserting then erasing the same positions changes nothing. */
module Renumbering {
  import opened NatSets

  // ---------------------------------------------------------------- membership, pointwise

  /** A member of the shifted set is a non-member of p that unshifts into s. */
  lemma {:induction false} ShiftAllMember(s: set<nat>, p: set<nat>, y: nat)
    ensures y in ShiftAll(s, p) <==> y !in p && Unshift(p, y) in s
  {
    if y in ShiftAll(s, p) {
      var x :| x in s && Shift(p, x) == y;
      UnshiftOfShift(p, x);
    }
    if y !in p && Unshift(p, y) in s {
      ShiftOfUnshift(p, y);
    }
  }

  lemma {:induction false} InsertAllMember(s: set<nat>, p: set<nat>, y: nat)
    ensures y in InsertAll(s, p) <==> y in p || Unshift(p, y) in s
  {
    ShiftAllMember(s, p, y);
  }

  lemma {:induction false} EraseAllMember(s: set<nat>, p: set<nat>, z: nat)
    ensures z in EraseAll(s, p) <==> Shift(p, z) in s
  {
    UnshiftOfShift(p, z);
    if z in EraseAll(s, p) {
      var x :| x in s && x !in p && Unshift(p, x) == z;
      ShiftOfUnshift(p, x);
    }
  }

  // ---------------------------------------------------------------- round trips

  /** Erasing the inserted positions undoes a batch insertion. */
  lemma {:induction false} EraseUndoesInsert(s: set<nat>, p: set<nat>)
    ensures EraseAll(InsertAll(s, p), p) == s
  {
    forall z: nat ensures z in EraseAll(InsertAll(s, p), p) <==> z in s {
      EraseAllMember(InsertAll(s, p), p, z);
      InsertAllMember(s, p, Shift(p, z));
      UnshiftOfShift(p, z);
    }
  }

  /** Erasing the vacated positions undoes a batch shift. */
  lemma {:induction false} EraseUndoesShift(s: set<nat>, p: set<nat>)
    ensures EraseAll(ShiftAll(s, p), p) == s
  {
    forall z: nat ensures z in EraseAll(ShiftAll(s, p), p) <==> z in s {
      EraseAllMember(ShiftAll(s, p), p, z);
      ShiftAllMember(s, p, Shift(p, z));
      UnshiftOfShift(p, z);
    }
  }

  /** The other way round, a batch insertion undoes a batch erasure exactly when every erased
      position was a member. */
  lemma {:induction false} InsertUndoesErase(s: set<nat>, p: set<nat>)
    ensures InsertAll(EraseAll(s, p), p) == s <==> p <= s
  {
    forall y: nat ensures y in InsertAll(EraseAll(s, p), p) <==> y in p || y in s {
      InsertAllMember(EraseAll(s, p), p, y);
      EraseAllMember(s, p, Unshift(p, y));
      if y !in p { ShiftOfUnshift(p, y); }
    }
    if p <= s {
      assert forall y: nat :: y in InsertAll(EraseAll(s, p), p) <==> y in s;
    } else {
      var y :| y in p && y !in s;
      assert y in InsertAll(EraseAll(s, p), p);
    }
  }

  // ---------------------------------------------------------------- one position at a time

  ghost predicate Ascending(ps: seq<nat>) {
    forall i, j | 0 <= i < j < |ps| :: ps[i] < ps[j]
  }

  ghost function ToSet(ps: seq<nat>): set<nat> {
    set x | x in ps
  }

  /** Single insertions at ps[0], ps[1], ... in turn. */
  ghost function InsertEach(s: set<nat>, ps: seq<nat>): set<nat> {
    if ps == [] then s else InsertAt(InsertEach(s, ps[..|ps| - 1]), ps[|ps| - 1], 1)
  }

  ghost function ShiftEach(s: set<nat>, ps: seq<nat>): set<nat> {
    if ps == [] then s else ShiftForInsertAt(ShiftEach(s, ps[..|ps| - 1]), ps[|ps| - 1], 1)
  }

  /** Single erasures starting from the last entry of ps and ending with the first. */
  ghost function EraseEachDescending(s: set<nat>, ps: seq<nat>): set<nat>
    decreases |ps|
  {
    if ps == [] then s else EraseEachDescending(EraseAt(s, ps[|ps| - 1]), ps[..|ps| - 1])
  }

  ghost function PastPosition(q: nat, y: nat): nat {
    if y < q then y else y + 1
  }

  /** Shifting past one more, largest, position steps over that position. */
  lemma {:induction false} ShiftPastLargest(p: set<nat>, q: nat, i: nat)
    requires AllBelow(p, q)
    ensures Shift(p + {q}, i) == PastPosition(q, Shift(p, i))
  {
    var j, t := Shift(p, i), p + {q};
    UnshiftOfShift(p, i);
    if j < q {
      RankAgree(p, t, j);
      ShiftUnique(t, i, j);
    } else {
      RankAgree(p, t, q);
      RankGap(p, q, j);
      RankGap(t, q + 1, j + 1);
      assert Rank(t, q + 1) == Rank(t, q) + 1;
      ShiftUnique(t, i, j + 1);
    }
  }

  lemma {:induction false} SplitLast(ps: seq<nat>)
    requires Ascending(ps) && ps != []
    ensures Ascending(ps[..|ps| - 1])
    ensures ToSet(ps) == ToSet(ps[..|ps| - 1]) + {ps[|ps| - 1]}
    ensures AllBelow(ToSet(ps[..|ps| - 1]), ps[|ps| - 1])
  {
    assert ps == ps[..|ps| - 1] + [ps[|ps| - 1]];
  }

  lemma {:induction false} ShiftedMember(s: set<nat>, p: set<nat>, x: nat)
    requires x in s
    ensures Shift(p, x) in ShiftAll(s, p)
  {
  }

  lemma {:induction false} ShiftAllPastLargestAt(s: set<nat>, p: set<nat>, q: nat, y: nat)
    requires AllBelow(p, q) && y in ShiftAll(s, p + {q})
    ensures y in ShiftForInsertAt(ShiftAll(s, p), q, 1)
  {
    ShiftForInsertAtMember(ShiftAll(s, p), q, 1, y);
    var x :| x in s && Shift(p + {q}, x) == y;
    ShiftPastLargest(p, q, x);
    ShiftedMember(s, p, x);
  }

  lemma {:induction false} ShiftAllPastLargestFrom(s: set<nat>, p: set<nat>, q: nat, z: nat)
    requires AllBelow(p, q) && z in ShiftAll(s, p)
    ensures PastPosition(q, z) in ShiftAll(s, p + {q})
  {
    var x :| x in s && Shift(p, x) == z;
    ShiftPastLargest(p, q, x);
    ShiftedMember(s, p + {q}, x);
  }

  lemma {:induction false} ShiftAllPastLargest(s: set<nat>, p: set<nat>, q: nat)
    requires AllBelow(p, q)
    ensures ShiftAll(s, p + {q}) == ShiftForInsertAt(ShiftAll(s, p), q, 1)
  {
    var a, b := ShiftAll(s, p + {q}), ShiftForInsertAt(ShiftAll(s, p), q, 1);
    forall y: nat ensures y in a <==> y in b {
      if y in a { ShiftAllPastLargestAt(s, p, q, y); }
      if y in b {
        ShiftForInsertAtMember(ShiftAll(s, p), q, 1, y);
        ShiftAllPastLargestFrom(s, p, q, if y < q then y else y - 1);
      }
    }
  }

  lemma {:induction false} InsertAllPastLargest(s: set<nat>, p: set<nat>, q: nat)
    requires AllBelow(p, q)
    ensures InsertAll(s, p + {q}) == InsertAt(InsertAll(s, p), q, 1)
  {
    ShiftAllPastLargest(s, p, q);
    var before, after := InsertAll(s, p), InsertAll(s, p + {q});
    forall y: nat ensures y in after <==> y in InsertAt(before, q, 1) {
      InsertAtMember(before, q, 1, y);
      ShiftForInsertAtMember(ShiftAll(s, p), q, 1, y);
      assert y in after <==> y in p || y == q || y in ShiftForInsertAt(ShiftAll(s, p), q, 1);
    }
  }

  lemma {:induction false} ShiftIntoErased(s: set<nat>, p: set<nat>, q: nat, z: nat)
    requires AllBelow(p, q)
    ensures Shift(p + {q}, z) in s <==> Shift(p, z) in EraseAt(s, q)
  {
    EraseAtMember(s, q, Shift(p, z));
    ShiftPastLargest(p, q, z);
  }

  lemma {:induction false} EraseAllPastLargest(s: set<nat>, p: set<nat>, q: nat)
    requires AllBelow(p, q)
    ensures EraseAll(s, p + {q}) == EraseAll(EraseAt(s, q), p)
  {
    var a, b := EraseAll(s, p + {q}), EraseAll(EraseAt(s, q), p);
    forall z: nat ensures z in a <==> z in b {
      EraseAllMember(s, p + {q}, z);
      EraseAllMember(EraseAt(s, q), p, z);
      ShiftIntoErased(s, p, q, z);
    }
  }

  /** A batch shift is the ascending sequence of single shifts. */
  lemma {:induction false} ShiftAllIsShiftEach(s: set<nat>, ps: seq<nat>)
    requires Ascending(ps)
    ensures ShiftAll(s, ToSet(ps)) == ShiftEach(s, ps)
  {
    if ps == [] {
      assert ToSet(ps) == {};
      ShiftByNothing(s);
    } else {
      var front, q := ps[..|ps| - 1], ps[|ps| - 1];
      SplitLast(ps);
      ShiftAllIsShiftEach(s, front);
      ShiftAllPastLargest(s, ToSet(front), q);
      assert ShiftEach(s, ps) == ShiftForInsertAt(ShiftEach(s, front), q, 1);
    }
  }

  /** A batch insertion is the ascending sequence of single insertions. */
  lemma {:induction false} InsertAllIsInsertEach(s: set<nat>, ps: seq<nat>)
    requires Ascending(ps)
    ensures InsertAll(s, ToSet(ps)) == InsertEach(s, ps)
  {
    if ps == [] {
      assert ToSet(ps) == {};
      ShiftByNothing(s);
    } else {
      var front, q := ps[..|ps| - 1], ps[|ps| - 1];
      SplitLast(ps);
      InsertAllIsInsertEach(s, front);
      InsertAllPastLargest(s, ToSet(front), q);
      assert InsertEach(s, ps) == InsertAt(InsertEach(s, front), q, 1);
    }
  }

  /** A batch erasure is the descending sequence of single erasures. */
  lemma {:induction false} EraseAllIsEraseEach(s: set<nat>, ps: seq<nat>)
    requires Ascending(ps)
    ensures EraseAll(s, ToSet(ps)) == EraseEachDescending(s, ps)
    decreases |ps|
  {
    if ps == [] {
      assert ToSet(ps) == {};
      EraseNothing(s);
    } else {
      var front, q := ps[..|ps| - 1], ps[|ps| - 1];
      SplitLast(ps);
      EraseAllIsEraseEach(EraseAt(s, q), front);
      EraseAllPastLargest(s, ToSet(front), q);
      assert EraseEachDescending(s, ps) == EraseEachDescending(EraseAt(s, q), front);
    }
  }

  lemma {:induction false} EraseNothing(s: set<nat>)
    ensures EraseAll(s, {}) == s
  {
    forall z: nat ensures z in EraseAll(s, {}) <==> z in s {
      EraseAllMember(s, {}, z);
      ShiftByNone(z);
    }
  }

  lemma {:induction false} ShiftByNone(i: nat)
    ensures Shift({}, i) == i
  {
    RankGap({}, 0, i);
    ShiftUnique({}, i, i);
  }

  lemma {:induction false} ShiftByNothing(s: set<nat>)
    ensures ShiftAll(s, {}) == s
  {
    forall y: nat ensures y in ShiftAll(s, {}) <==> y in s {
      ShiftAllMember(s, {}, y);
      ShiftByNone(y);
      UnshiftOfShift({}, y);
    }
  }

  /** Positions beyond every member move nothing. */
  lemma {:induction false} ShiftBeyondEnd(s: set<nat>, p: set<nat>)
    requires forall x, q | x in s && q in p :: x < q
    ensures ShiftAll(s, p) == s
  {
    forall x | x in s ensures Shift(p, x) == x {
      RankGap(p, 0, x);
      ShiftUnique(p, x, x);
    }
  }

  // ---------------------------------------------------------------- add_shifted_by

  lemma {:induction false} TranslatedMember(s: set<nat>, t: set<nat>, v: set<nat>, x: nat)
    requires x in v && x !in t
    ensures Shift(s, Unshift(t, x)) in Translated(s, t, v)
  {
  }

  /** Removing this set again from the result leaves what removing t from v leaves. */
  lemma {:induction false} AddShiftedByErased(s: set<nat>, t: set<nat>, v: set<nat>)
    ensures EraseAll(AddShiftedBy(s, t, v), s) == EraseAll(v, t)
  {
    forall z: nat ensures z in EraseAll(AddShiftedBy(s, t, v), s) <==> z in EraseAll(v, t) {
      EraseAllMember(AddShiftedBy(s, t, v), s, z);
      UnshiftOfShift(s, z);
      if Shift(s, z) in Translated(s, t, v) {
        var x :| x in v && x !in t && Shift(s, Unshift(t, x)) == Shift(s, z);
        UnshiftOfShift(s, Unshift(t, x));
      }
      if z in EraseAll(v, t) {
        var x :| x in v && x !in t && Unshift(t, x) == z;
        TranslatedMember(s, t, v, x);
      }
    }
  }

  /** The translation keeps the order of the indices it is given. */
  lemma {:induction false} TranslationIncreases(s: set<nat>, t: set<nat>, a: nat, b: nat)
    requires a < b && a !in t && b !in t
    ensures Shift(s, Unshift(t, a)) < Shift(s, Unshift(t, b))
  {
    UnshiftMonotone(t, a, b);
    ShiftStrictlyIncreasing(s, Unshift(t, a), Unshift(t, b));
  }

  /** One more index outside t contributes one more, new, translated index. */
  lemma {:induction false} TranslatedOneMore(s: set<nat>, t: set<nat>, w: set<nat>, x: nat, y: nat)
    requires x !in w && x !in t && y == Shift(s, Unshift(t, x))
    ensures y !in Translated(s, t, w)
    ensures Translated(s, t, w + {x}) == Translated(s, t, w) + {y}
  {
    if y in Translated(s, t, w) {
      var x' :| x' in w && x' !in t && Shift(s, Unshift(t, x')) == y;
      if x < x' { TranslationIncreases(s, t, x, x'); } else { TranslationIncreases(s, t, x', x); }
    }
  }

  lemma {:induction false} TranslatedSize(s: set<nat>, t: set<nat>, v: set<nat>)
    requires v !! t
    ensures |Translated(s, t, v)| == |v|
    decreases v
  {
    if v == {} {
      assert Translated(s, t, v) == {};
    } else {
      var x :| x in v;
      TranslatedSize(s, t, v - {x});
      TranslatedOneMore(s, t, v - {x}, x, Shift(s, Unshift(t, x)));
      assert v - {x} + {x} == v;
    }
  }

  /** The set grows by exactly the indices of v outside t. */
  lemma {:induction false} AddShiftedBySize(s: set<nat>, t: set<nat>, v: set<nat>)
    ensures |AddShiftedBy(s, t, v)| == |s| + |v - t|
  {
    TranslatedSize(s, t, v - t);
    assert Translated(s, t, v - t) == Translated(s, t, v);
    forall y | y in Translated(s, t, v) ensures y !in s {
      var x :| x in v && x !in t && Shift(s, Unshift(t, x)) == y;
      ShiftIsFree(s, Unshift(t, x));
    }
  }
}
