/** Lists of half-open ranges: what the chunks of a ChunkedRangeVector hold when they are laid
    end to end, and the set of indices such a list denotes. */
module Ranges {
  import opened NatSets

  datatype Range = Range(first: nat, second: nat)

  ghost predicate Nonempty(r: Range) {
    r.first < r.second
  }

  ghost predicate AllNonempty(rs: seq<Range>) {
    forall i | 0 <= i < |rs| :: Nonempty(rs[i])
  }

  /** Ranges in order, possibly touching. */
  ghost predicate Ordered(rs: seq<Range>) {
    && AllNonempty(rs)
    && forall i, j | 0 <= i < j < |rs| :: rs[i].second <= rs[j].first
  }

  /** Ranges in order and maximal: a gap of at least one index between any two. */
  ghost predicate Separated(rs: seq<Range>) {
    && AllNonempty(rs)
    && forall i, j | 0 <= i < j < |rs| :: rs[i].second < rs[j].first
  }

  ghost function Seg(r: Range): set<nat> {
    Interval(r.first, r.second)
  }

  /** The indices the ranges stand for. */
  ghost function Members(rs: seq<Range>): set<nat> {
    if rs == [] then {} else Seg(rs[0]) + Members(rs[1..])
  }

  /** The number of indices, as the cached counts add it up. */
  ghost function Total(rs: seq<Range>): nat
    requires AllNonempty(rs)
  {
    if rs == [] then 0 else (rs[0].second - rs[0].first) + Total(rs[1..])
  }

  ghost predicate Has(rs: seq<Range>, x: nat) {
    exists i :: 0 <= i < |rs| && rs[i].first <= x < rs[i].second
  }

  lemma {:induction false} MemberIff(rs: seq<Range>, x: nat)
    ensures x in Members(rs) <==> Has(rs, x)
  {
    if rs != [] {
      MemberIff(rs[1..], x);
      if Has(rs[1..], x) {
        var i :| 0 <= i < |rs[1..]| && rs[1..][i].first <= x < rs[1..][i].second;
        assert rs[i + 1] == rs[1..][i];
      }
      if Has(rs, x) {
        var i :| 0 <= i < |rs| && rs[i].first <= x < rs[i].second;
        if i > 0 { assert rs[i] == rs[1..][i - 1]; }
      }
    }
  }

  lemma {:induction false} MemberWitness(rs: seq<Range>, i: nat, x: nat)
    requires i < |rs| && rs[i].first <= x < rs[i].second
    ensures x in Members(rs)
  {
    MemberIff(rs, x);
  }

  lemma {:induction false} Regrouped<T>(x: seq<T>, y: seq<T>, z: seq<T>)
    ensures x + y + z == x + (y + z)
  {
  }

  lemma {:induction false} MembersConcat(a: seq<Range>, b: seq<Range>)
    ensures Members(a + b) == Members(a) + Members(b)
  {
    if a == [] {
      assert a + b == b;
    } else {
      MembersConcat(a[1..], b);
      assert (a + b)[0] == a[0] && (a + b)[1..] == a[1..] + b;
    }
  }

  lemma {:induction false} TotalConcat(a: seq<Range>, b: seq<Range>)
    requires AllNonempty(a) && AllNonempty(b)
    ensures AllNonempty(a + b) && Total(a + b) == Total(a) + Total(b)
  {
    if a == [] {
      assert a + b == b;
    } else {
      TotalConcat(a[1..], b);
      assert (a + b)[0] == a[0] && (a + b)[1..] == a[1..] + b;
    }
  }

  lemma {:induction false} MembersOne(r: Range)
    ensures Members([r]) == Seg(r)
  {
  }

  lemma {:induction false} TotalOne(r: Range)
    requires Nonempty(r)
    ensures AllNonempty([r]) && Total([r]) == r.second - r.first
  {
  }

  /** The members around position k, as three disjoint parts. */
  lemma {:induction false} MembersAround(rs: seq<Range>, k: nat)
    requires k < |rs|
    ensures Members(rs) == Members(rs[..k]) + Seg(rs[k]) + Members(rs[k + 1..])
  {
    assert rs == rs[..k] + ([rs[k]] + rs[k + 1..]);
    MembersConcat(rs[..k], [rs[k]] + rs[k + 1..]);
    MembersConcat([rs[k]], rs[k + 1..]);
  }

  lemma {:induction false} MembersSplit(rs: seq<Range>, k: nat)
    requires k <= |rs|
    ensures Members(rs) == Members(rs[..k]) + Members(rs[k..])
  {
    assert rs == rs[..k] + rs[k..];
    MembersConcat(rs[..k], rs[k..]);
  }

  lemma {:induction false} TotalSplit(rs: seq<Range>, k: nat)
    requires k <= |rs| && AllNonempty(rs)
    ensures Total(rs) == Total(rs[..k]) + Total(rs[k..])
  {
    assert rs == rs[..k] + rs[k..];
    TotalConcat(rs[..k], rs[k..]);
  }

  lemma {:induction false} TotalAround(rs: seq<Range>, k: nat)
    requires k < |rs| && AllNonempty(rs)
    ensures Total(rs) == Total(rs[..k]) + (rs[k].second - rs[k].first) + Total(rs[k + 1..])
  {
    TotalSplit(rs, k);
    assert rs[k..][0] == rs[k] && rs[k..][1..] == rs[k + 1..];
  }

  lemma {:induction false} TotalTake(rs: seq<Range>, k: nat)
    requires k < |rs| && AllNonempty(rs)
    ensures Total(rs[..k + 1]) == Total(rs[..k]) + (rs[k].second - rs[k].first)
  {
    var t := rs[..k + 1];
    TotalAround(t, k);
    assert t[..k] == rs[..k] && t[k + 1..] == [];
  }

  // ---------------------------------------------------------------- bounds of ordered lists

  /** Every member of the list is below b. */
  ghost predicate EndsBy(rs: seq<Range>, b: nat) {
    forall i | 0 <= i < |rs| :: rs[i].second <= b
  }

  ghost predicate StartsFrom(rs: seq<Range>, b: nat) {
    forall i | 0 <= i < |rs| :: b <= rs[i].first
  }

  lemma {:induction false} MembersEndBy(rs: seq<Range>, b: nat)
    requires EndsBy(rs, b)
    ensures AllBelow(Members(rs), b)
  {
    forall x | x in Members(rs) ensures x < b { MemberIff(rs, x); }
  }

  lemma {:induction false} MembersStartFrom(rs: seq<Range>, b: nat)
    requires StartsFrom(rs, b)
    ensures AllFrom(Members(rs), b)
  {
    forall x | x in Members(rs) ensures b <= x { MemberIff(rs, x); }
  }

  /** Position k of an ordered list divides its members at b. */
  ghost predicate DividesAt(rs: seq<Range>, k: nat, b: nat) {
    && k <= |rs|
    && (k > 0 ==> rs[k - 1].second <= b)
    && (k < |rs| ==> b <= rs[k].first)
  }

  lemma {:induction false} DividedMembers(rs: seq<Range>, k: nat, b: nat)
    requires Ordered(rs) && DividesAt(rs, k, b)
    ensures EndsBy(rs[..k], b) && StartsFrom(rs[k..], b)
    ensures AllBelow(Members(rs[..k]), b)
    ensures AllFrom(Members(rs[k..]), b)
    ensures Members(rs) == Members(rs[..k]) + Members(rs[k..])
  {
    MembersEndBy(rs[..k], b);
    MembersStartFrom(rs[k..], b);
    MembersSplit(rs, k);
  }

  lemma {:induction false} SeparatedIsOrdered(rs: seq<Range>)
    requires Separated(rs)
    ensures Ordered(rs)
  {
  }

  lemma {:induction false} SeparatedParts(rs: seq<Range>, k: nat)
    requires k <= |rs| && Separated(rs)
    ensures Separated(rs[..k]) && Separated(rs[k..])
  {
  }

  /** Separated lists may be joined when a gap remains between them. */
  lemma {:induction false} SeparatedConcat(a: seq<Range>, b: seq<Range>)
    requires Separated(a) && Separated(b)
    requires a != [] && b != [] ==> a[|a| - 1].second < b[0].first
    ensures Separated(a + b)
  {
    forall i, j | 0 <= i < j < |a + b| ensures (a + b)[i].second < (a + b)[j].first {
      if i < |a| <= j {
        assert a[i].second <= a[|a| - 1].second;
        assert b[0].first <= b[j - |a|].first;
      }
    }
  }

  /** A range placed between two separated lists. */
  lemma {:induction false} SeparatedThree(a: seq<Range>, r: Range, b: seq<Range>)
    requires Separated(a) && Nonempty(r) && Separated(b)
    requires a != [] ==> a[|a| - 1].second < r.first
    requires b != [] ==> r.second < b[0].first
    ensures Separated(a + [r] + b)
  {
    SeparatedConcat(a, [r]);
    SeparatedConcat(a + [r], b);
  }

  lemma {:induction false} OrderedConcat(a: seq<Range>, b: seq<Range>)
    requires Ordered(a) && Ordered(b)
    requires a != [] && b != [] ==> a[|a| - 1].second <= b[0].first
    ensures Ordered(a + b)
  {
    forall i, j | 0 <= i < j < |a + b| ensures (a + b)[i].second <= (a + b)[j].first {
      if i < |a| <= j {
        assert a[i].second <= a[|a| - 1].second;
        assert b[0].first <= b[j - |a|].first;
      }
    }
  }

  /** Separated means ordered with no two neighbours touching. */
  lemma {:induction false} SeparatedByNeighbours(rs: seq<Range>)
    requires AllNonempty(rs)
    requires forall i | 0 < i < |rs| :: rs[i - 1].second < rs[i].first
    ensures Separated(rs)
  {
    if rs != [] {
      var n := |rs| - 1;
      var front := rs[..n];
      SeparatedByNeighbours(front);
      SeparatedConcat(front, [rs[n]]);
      assert rs == front + [rs[n]];
    }
  }

  // ---------------------------------------------------------------- maximal ranges are canonical

  /** The first range of a separated list is determined by the members. */
  lemma {:induction false} FirstRange(rs: seq<Range>)
    requires Separated(rs) && rs != []
    ensures rs[0].first in Members(rs)
    ensures forall x | x in Members(rs) :: rs[0].first <= x
    ensures rs[0].second !in Members(rs)
    ensures forall x: nat | rs[0].first <= x < rs[0].second :: x in Members(rs)
    ensures Members(rs[1..]) == set x | x in Members(rs) && x > rs[0].second
  {
    MembersAround(rs, 0);
    MembersStartFrom(rs[1..], rs[0].second + 1);
  }

  /** A set of indices has exactly one list of maximal ranges. */
  lemma {:induction false} Canonical(a: seq<Range>, b: seq<Range>)
    requires Separated(a) && Separated(b) && Members(a) == Members(b)
    ensures a == b
  {
    if a != [] { FirstRange(a); }
    if b != [] { FirstRange(b); }
    if a != [] && b != [] {
      assert a[0].first == b[0].first;
      assert a[0].second == b[0].second;
      SeparatedParts(a, 1);
      SeparatedParts(b, 1);
      Canonical(a[1..], b[1..]);
    }
  }

  // ---------------------------------------------------------------- counting

  /** The rank of b is the total length of the ranges on its left. */
  lemma {:induction false} RankAtDivision(rs: seq<Range>, k: nat, b: nat)
    requires Ordered(rs) && DividesAt(rs, k, b)
    ensures Rank(Members(rs), b) == Total(rs[..k])
    decreases k
  {
    DividedMembers(rs, k, b);
    if k == 0 {
      assert rs[..0] == [];
      RankGap(Members(rs), 0, b);
    } else {
      var r := rs[k - 1];
      assert DividesAt(rs, k - 1, r.first);
      RankAtDivision(rs, k - 1, r.first);
      MembersAround(rs, k - 1);
      RankStretch(Members(rs), r.first, r.second);
      DividedMembers(rs, k, r.second);
      RankGap(Members(rs), r.second, b);
      TotalTake(rs, k - 1);
    }
  }

  /** The cached counts add up to the number of members. */
  lemma {:induction false} TotalIsCardinality(rs: seq<Range>)
    requires Ordered(rs)
    ensures Total(rs) == |Members(rs)|
  {
    if rs == [] {
    } else {
      var b := rs[|rs| - 1].second;
      RankAtDivision(rs, |rs|, b);
      assert rs[..|rs|] == rs;
      RankIsCardinality(Members(rs), b);
      DividedMembers(rs, |rs|, b);
      assert Below(Members(rs), b) == Members(rs);
    }
  }

  // ---------------------------------------------------------------- appending

  ghost predicate Touches(rs: seq<Range>, r: Range) {
    rs != [] && rs[|rs| - 1].second == r.first
  }

  ghost predicate Follows(rs: seq<Range>, r: Range) {
    rs != [] ==> rs[|rs| - 1].second <= r.first
  }

  /** Append r, merging it into the last range when the two touch. */
  ghost function Appended(rs: seq<Range>, r: Range): seq<Range> {
    if Touches(rs, r) then rs[..|rs| - 1] + [Range(rs[|rs| - 1].first, r.second)] else rs + [r]
  }

  lemma {:induction false} AppendedSeparated(rs: seq<Range>, r: Range)
    requires Separated(rs) && Nonempty(r) && Follows(rs, r)
    ensures Separated(Appended(rs, r))
    ensures Members(Appended(rs, r)) == Members(rs) + Seg(r)
    ensures Appended(rs, r)[|Appended(rs, r)| - 1].second == r.second
  {
    if Touches(rs, r) {
      var n := |rs| - 1;
      var merged := Range(rs[n].first, r.second);
      assert Nonempty(rs[n]);
      SeparatedParts(rs, n);
      assert Nonempty(merged);
      SeparatedConcat(rs[..n], [merged]);
      MembersConcat(rs[..n], [merged]);
      MembersOne(merged);
      MembersAround(rs, n);
      assert rs[n + 1..] == [];
      assert Seg(merged) == Seg(rs[n]) + Seg(r);
    } else {
      SeparatedConcat(rs, [r]);
      MembersConcat(rs, [r]);
      MembersOne(r);
    }
  }

  // ---------------------------------------------------------------- moving ranges

  ghost function Moved(r: Range, d: int): Range
    requires r.first + d >= 0 && r.second + d >= 0
  {
    Range(r.first + d, r.second + d)
  }

  ghost predicate Movable(rs: seq<Range>, d: int) {
    forall i | 0 <= i < |rs| :: rs[i].first + d >= 0 && rs[i].second + d >= 0
  }

  /** Every range moved by d. */
  ghost function MovedAll(rs: seq<Range>, d: int): (r: seq<Range>)
    requires Movable(rs, d)
    ensures |r| == |rs| && forall i | 0 <= i < |rs| :: r[i] == Moved(rs[i], d)
  {
    seq(|rs|, i requires 0 <= i < |rs| => Moved(rs[i], d))
  }

  lemma {:induction false} MovedMembers(rs: seq<Range>, d: int, x: nat)
    requires Movable(rs, d) && x + d >= 0
    ensures x + d in Members(MovedAll(rs, d)) <==> x in Members(rs)
  {
    var m := MovedAll(rs, d);
    if rs != [] {
      MovedMembers(rs[1..], d, x);
      assert m[0] == Moved(rs[0], d);
      assert m[1..] == MovedAll(rs[1..], d);
    }
  }

  lemma {:induction false} MovedSeparated(rs: seq<Range>, d: int)
    requires Movable(rs, d)
    requires Separated(rs)
    ensures Separated(MovedAll(rs, d))
  {
    var m := MovedAll(rs, d);
    forall i, j | 0 <= i < j < |m| ensures m[i].second < m[j].first {
      assert rs[i].second < rs[j].first;
    }
    forall i | 0 <= i < |m| ensures Nonempty(m[i]) {
      assert Nonempty(rs[i]);
    }
  }
}
