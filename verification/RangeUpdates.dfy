/** What each in-place edit of a list of maximal ranges does to the set it denotes.  An edit here
    is a value: the list before, the position it is made at, and the list after. */
module RangeUpdates {
  import opened NatSets
  import opened Ranges

  // ---------------------------------------------------------------- searching

  /** The first range that ends after index, found by looking at every range in turn. */
  ghost function Scan(rs: seq<Range>, index: nat): (k: nat)
    ensures k <= |rs|
  {
    if rs == [] then 0 else if rs[0].second > index then 0 else 1 + Scan(rs[1..], index)
  }

  /** The two neighbours alone tell whether position k is the one a scan would find. */
  ghost predicate Located(rs: seq<Range>, k: nat, index: nat) {
    && k <= |rs|
    && (k > 0 ==> rs[k - 1].second <= index)
    && (k < |rs| ==> index < rs[k].second)
  }

  lemma {:induction false} ScanLocated(rs: seq<Range>, index: nat, k: nat)
    requires Ordered(rs)
    ensures Located(rs, k, index) <==> k == Scan(rs, index)
  {
    if rs != [] && k > 0 {
      var rest := rs[1..];
      assert forall i | 0 <= i < |rest| :: rest[i] == rs[i + 1];
      ScanLocated(rest, index, k - 1);
      assert Nonempty(rs[0]);
      if 1 < k <= |rs| { assert rs[0].second <= rs[k - 1].first && Nonempty(rs[k - 1]); }
    }
  }

  lemma {:induction false} LocatedMember(rs: seq<Range>, k: nat, index: nat)
    requires Separated(rs) && Located(rs, k, index)
    ensures index in Members(rs) <==> k < |rs| && rs[k].first <= index
  {
    SeparatedIsOrdered(rs);
    if k < |rs| && rs[k].first <= index {
      MemberWitness(rs, k, index);
    } else {
      assert DividesAt(rs, k, index);
      DividedMembers(rs, k, index);
      if k < |rs| { DividedMembers(rs, k, rs[k].first); }
    }
  }

  // ---------------------------------------------------------------- replacing a few ranges by one

  ghost function Spliced(rs: seq<Range>, lo: nat, hi: nat, r: Range): seq<Range>
    requires lo <= hi <= |rs|
  {
    rs[..lo] + [r] + rs[hi..]
  }

  ghost predicate FitsBetween(rs: seq<Range>, lo: nat, hi: nat, r: Range)
    requires lo <= hi <= |rs|
  {
    && Nonempty(r)
    && (lo > 0 ==> rs[lo - 1].second < r.first)
    && (hi < |rs| ==> r.second < rs[hi].first)
  }

  lemma {:induction false} MembersThree(rs: seq<Range>, lo: nat, hi: nat)
    requires lo <= hi <= |rs|
    ensures Members(rs) == Members(rs[..lo]) + Members(rs[lo..hi]) + Members(rs[hi..])
  {
    MembersSplit(rs, hi);
    MembersSplit(rs[..hi], lo);
    assert rs[..hi][..lo] == rs[..lo] && rs[..hi][lo..] == rs[lo..hi];
  }

  lemma {:induction false} SplicedList(rs: seq<Range>, lo: nat, hi: nat, r: Range)
    requires lo <= hi <= |rs| && Separated(rs) && FitsBetween(rs, lo, hi, r)
    ensures Separated(Spliced(rs, lo, hi, r))
    ensures Members(Spliced(rs, lo, hi, r)) == Members(rs[..lo]) + Seg(r) + Members(rs[hi..])
  {
    SeparatedParts(rs, lo);
    SeparatedParts(rs, hi);
    SeparatedConcat(rs[..lo], [r]);
    SeparatedConcat(rs[..lo] + [r], rs[hi..]);
    MembersConcat(rs[..lo] + [r], rs[hi..]);
    MembersConcat(rs[..lo], [r]);
    MembersOne(r);
  }

  /** Replacing some ranges by one that covers them and one more index adds that index. */
  lemma {:induction false} SpliceAdds(rs: seq<Range>, lo: nat, hi: nat, r: Range, index: nat)
    requires lo <= hi <= |rs| && Separated(rs) && FitsBetween(rs, lo, hi, r)
    requires Seg(r) == Members(rs[lo..hi]) + {index}
    ensures Separated(Spliced(rs, lo, hi, r))
    ensures Members(Spliced(rs, lo, hi, r)) == Members(rs) + {index}
    ensures Spliced(rs, lo, hi, r)[lo] == r
  {
    SplicedList(rs, lo, hi, r);
    MembersThree(rs, lo, hi);
    UnionOfParts(Members(rs[..lo]), Members(rs[lo..hi]), Members(rs[hi..]), Seg(r), index);
  }

  lemma {:induction false} UnionOfParts(a: set<nat>, b: set<nat>, c: set<nat>, m: set<nat>, index: nat)
    requires m == b + {index}
    ensures a + m + c == a + b + c + {index}
  {
  }

  // ---------------------------------------------------------------- adding one index

  lemma {:induction false} AddByExtending(rs: seq<Range>, k: nat, index: nat)
    requires Separated(rs) && 0 < k <= |rs| && rs[k - 1].second == index
    requires k < |rs| ==> rs[k].first > index + 1
    ensures var t := rs[k - 1 := Range(rs[k - 1].first, index + 1)];
            Separated(t) && Members(t) == Members(rs) + {index}
  {
    hide Total, Members;
    var r := Range(rs[k - 1].first, index + 1);
    assert Nonempty(rs[k - 1]);
    if k > 1 { assert rs[k - 2].second < rs[k - 1].first; }
    assert rs[k - 1..k] == [rs[k - 1]];
    MembersOne(rs[k - 1]);
    SpliceAdds(rs, k - 1, k, r, index);
    assert Spliced(rs, k - 1, k, r) == rs[k - 1 := r];
  }

  lemma {:induction false} AddByJoining(rs: seq<Range>, k: nat, index: nat)
    requires Separated(rs) && 0 < k < |rs|
    requires rs[k - 1].second == index && rs[k].first == index + 1
    ensures var t := Spliced(rs, k - 1, k + 1, Range(rs[k - 1].first, rs[k].second));
            Separated(t) && Members(t) == Members(rs) + {index}
  {
    var r := Range(rs[k - 1].first, rs[k].second);
    assert Nonempty(rs[k - 1]) && Nonempty(rs[k]);
    if k > 1 { assert rs[k - 2].second < rs[k - 1].first; }
    assert rs[k - 1..k + 1] == [rs[k - 1]] + [rs[k]];
    MembersConcat([rs[k - 1]], [rs[k]]);
    MembersOne(rs[k - 1]);
    MembersOne(rs[k]);
    SpliceAdds(rs, k - 1, k + 1, r, index);
  }

  lemma {:induction false} AddByPrepending(rs: seq<Range>, k: nat, index: nat)
    requires Separated(rs) && k < |rs| && rs[k].first == index + 1
    requires k > 0 ==> rs[k - 1].second < index
    ensures var t := rs[k := Range(index, rs[k].second)];
            Separated(t) && Members(t) == Members(rs) + {index}
  {
    var r := Range(index, rs[k].second);
    assert Nonempty(rs[k]);
    assert rs[k..k + 1] == [rs[k]];
    MembersOne(rs[k]);
    SpliceAdds(rs, k, k + 1, r, index);
    assert Spliced(rs, k, k + 1, r) == rs[k := r];
  }

  lemma {:induction false} AddByInserting(rs: seq<Range>, k: nat, index: nat)
    requires Separated(rs) && k <= |rs|
    requires k > 0 ==> rs[k - 1].second < index
    requires k < |rs| ==> rs[k].first > index + 1
    ensures var t := Spliced(rs, k, k, Range(index, index + 1));
            Separated(t) && Members(t) == Members(rs) + {index}
  {
    assert rs[k..k] == [];
    SpliceAdds(rs, k, k, Range(index, index + 1), index);
  }

  // ---------------------------------------------------------------- membership in parts

  lemma {:induction false} InTwo(a: seq<Range>, b: seq<Range>, y: nat)
    ensures y in Members(a + b) <==> y in Members(a) || y in Members(b)
  {
    MembersConcat(a, b);
  }

  lemma {:induction false} InThree(a: seq<Range>, r: Range, b: seq<Range>, y: nat)
    ensures y in Members(a + [r] + b) <==> y in Members(a) || r.first <= y < r.second || y in Members(b)
  {
    MembersConcat(a + [r], b);
    MembersConcat(a, [r]);
    MembersOne(r);
  }

  lemma {:induction false} InFour(a: seq<Range>, p: Range, q: Range, b: seq<Range>, y: nat)
    ensures y in Members(a + [p] + [q] + b) <==>
              y in Members(a) || p.first <= y < p.second || q.first <= y < q.second || y in Members(b)
  {
    InThree(a + [p], q, b, y);
    InThree(a, p, [], y);
    assert a + [p] + [] == a + [p];
  }

  lemma {:induction false} InMoved(rs: seq<Range>, d: int, y: nat)
    requires Movable(rs, d)
    ensures y in Members(MovedAll(rs, d)) <==> y - d >= 0 && y - d in Members(rs)
  {
    if y - d >= 0 {
      MovedMembers(rs, d, y - d);
    } else {
      MembersStartFrom(MovedAll(rs, d), d);
    }
  }

  /** The two sides of a list that is cut where nothing straddles position b. */
  ghost predicate CutAt(a: seq<Range>, b: seq<Range>, lo: nat, hi: nat) {
    AllBelow(Members(a), lo) && AllFrom(Members(b), hi)
  }

  lemma {:induction false} MovedTail(rs: seq<Range>, d: int)
    requires Movable(rs, d) && Separated(rs)
    ensures Separated(MovedAll(rs, d))
    ensures rs != [] ==> MovedAll(rs, d)[0].first == rs[0].first + d
  {
    MovedSeparated(rs, d);
    if rs != [] { assert MovedAll(rs, d)[0] == Moved(rs[0], d); }
  }

  /** The parts of a separated list around position k. */
  lemma {:induction false} Around(rs: seq<Range>, k: nat)
    requires Separated(rs) && k < |rs|
    ensures Nonempty(rs[k])
    ensures Separated(rs[..k]) && Separated(rs[k + 1..])
    ensures k > 0 ==> rs[k - 1].second < rs[k].first
    ensures k + 1 < |rs| ==> rs[k].second < rs[k + 1].first
    ensures CutAt(rs[..k], rs[k + 1..], rs[k].first, rs[k].second + 1)
    ensures StartsFrom(rs[k + 1..], rs[k].second + 1)
    ensures rs == rs[..k] + [rs[k]] + rs[k + 1..]
  {
    SeparatedParts(rs, k);
    SeparatedParts(rs, k + 1);
    AroundBounds(rs, k);
    ThreeParts(rs, k);
  }

  lemma {:induction false} AroundBounds(rs: seq<Range>, k: nat)
    requires Separated(rs) && k < |rs|
    ensures CutAt(rs[..k], rs[k + 1..], rs[k].first, rs[k].second + 1)
    ensures StartsFrom(rs[k + 1..], rs[k].second + 1)
  {
    MembersEndBy(rs[..k], rs[k].first);
    MembersStartFrom(rs[k + 1..], rs[k].second + 1);
  }

  lemma {:induction false} ThreeParts(rs: seq<Range>, k: nat)
    requires k < |rs|
    ensures rs == rs[..k] + [rs[k]] + rs[k + 1..]
  {
  }

  /** A separated list cut between positions k - 1 and k. */
  lemma {:induction false} Between(rs: seq<Range>, k: nat, i: nat)
    requires Separated(rs) && DividesAt(rs, k, i)
    ensures Separated(rs[..k]) && Separated(rs[k..])
    ensures 0 < k < |rs| ==> rs[k - 1].second < rs[k].first
    ensures CutAt(rs[..k], rs[k..], i, i)
    ensures StartsFrom(rs[k..], i)
    ensures rs == rs[..k] + rs[k..]
  {
    SeparatedIsOrdered(rs);
    DividedMembers(rs, k, i);
    SeparatedParts(rs, k);
  }

  // ---------------------------------------------------------------- making room

  lemma {:induction false} ShiftedMembers(a: seq<Range>, b: seq<Range>, i: nat, c: nat)
    requires CutAt(a, b, i, i)
    ensures Members(a + MovedAll(b, c)) == ShiftForInsertAt(Members(a + b), i, c)
  {
    hide Total, Members;
    forall y: nat ensures y in Members(a + MovedAll(b, c)) <==> y in ShiftForInsertAt(Members(a + b), i, c) {
      ShiftForInsertAtMember(Members(a + b), i, c, y);
      InTwo(a, MovedAll(b, c), y);
      InMoved(b, c, y);
      InTwo(a, b, y);
      if y >= c { InTwo(a, b, y - c); }
    }
  }

  /** Moving everything from k on makes room at i, where no range straddles i. */
  lemma {:induction false} ShiftTail(rs: seq<Range>, k: nat, i: nat, c: nat)
    requires Separated(rs) && DividesAt(rs, k, i)
    ensures var t := rs[..k] + MovedAll(rs[k..], c);
            Separated(t) && Members(t) == ShiftForInsertAt(Members(rs), i, c)
  {
    ShiftTailSeparated(rs, k, c);
    Between(rs, k, i);
    ShiftedMembers(rs[..k], rs[k..], i, c);
  }

  lemma {:induction false} ShiftTailSeparated(rs: seq<Range>, k: nat, c: nat)
    requires Separated(rs) && k <= |rs|
    ensures Separated(rs[..k] + MovedAll(rs[k..], c))
  {
    var a, b := rs[..k], rs[k..];
    SeparatedParts(rs, k);
    MovedTail(b, c);
    if a != [] && b != [] { assert a[|a| - 1] == rs[k - 1] && b[0] == rs[k]; }
    SeparatedConcat(a, MovedAll(b, c));
  }

  lemma {:induction false} GrownMembers(a: seq<Range>, r: Range, b: seq<Range>, i: nat, c: nat)
    requires CutAt(a, b, r.first, r.second) && r.first <= i < r.second
    ensures Members(a + [Range(r.first, r.second + c)] + MovedAll(b, c)) == InsertAt(Members(a + [r] + b), i, c)
  {
    hide Total, Members;
    var s, g := Members(a + [r] + b), Range(r.first, r.second + c);
    forall y: nat ensures y in Members(a + [g] + MovedAll(b, c)) <==> y in InsertAt(s, i, c) {
      InsertAtMember(s, i, c, y);
      InThree(a, g, MovedAll(b, c), y);
      InMoved(b, c, y);
      InThree(a, r, b, y);
      if y >= c { InThree(a, r, b, y - c); }
    }
  }

  /** Growing the range that holds i and moving the rest inserts c indices at i. */
  lemma {:induction false} GrowTail(rs: seq<Range>, k: nat, i: nat, c: nat)
    requires Separated(rs) && k < |rs| && rs[k].first <= i < rs[k].second
    ensures var t := rs[..k] + [Range(rs[k].first, rs[k].second + c)] + MovedAll(rs[k + 1..], c);
            Separated(t) && Members(t) == InsertAt(Members(rs), i, c)
  {
    hide Total, Members;
    GrowTailSeparated(rs, k, c);
    AroundBounds(rs, k);
    ThreeParts(rs, k);
    GrownMembers(rs[..k], rs[k], rs[k + 1..], i, c);
  }

  lemma {:induction false} GrowTailSeparated(rs: seq<Range>, k: nat, c: nat)
    requires Separated(rs) && k < |rs|
    ensures Separated(rs[..k] + [Range(rs[k].first, rs[k].second + c)] + MovedAll(rs[k + 1..], c))
  {
    Around(rs, k);
    MovedTail(rs[k + 1..], c);
    SeparatedThree(rs[..k], Range(rs[k].first, rs[k].second + c), MovedAll(rs[k + 1..], c));
  }

  lemma {:induction false} SplitMembers(a: seq<Range>, r: Range, b: seq<Range>, i: nat, c: nat)
    requires CutAt(a, b, r.first, r.second) && r.first < i < r.second
    ensures Members(a + [Range(r.first, i)] + [Range(i + c, r.second + c)] + MovedAll(b, c))
         == ShiftForInsertAt(Members(a + [r] + b), i, c)
  {
    hide Total, Members;
    var s, p, q := Members(a + [r] + b), Range(r.first, i), Range(i + c, r.second + c);
    forall y: nat ensures y in Members(a + [p] + [q] + MovedAll(b, c)) <==> y in ShiftForInsertAt(s, i, c) {
      ShiftForInsertAtMember(s, i, c, y);
      InFour(a, p, q, MovedAll(b, c), y);
      InMoved(b, c, y);
      InThree(a, r, b, y);
      if y >= c { InThree(a, r, b, y - c); }
    }
  }

  /** Splitting the range that straddles i and moving its upper part and the rest makes room. */
  lemma {:induction false} SplitTail(rs: seq<Range>, k: nat, i: nat, c: nat)
    requires Separated(rs) && k < |rs| && rs[k].first < i < rs[k].second && c > 0
    ensures var t := rs[..k] + [Range(rs[k].first, i)] + [Range(i + c, rs[k].second + c)] + MovedAll(rs[k + 1..], c);
            Separated(t) && Members(t) == ShiftForInsertAt(Members(rs), i, c)
  {
    hide Total, Members;
    SplitTailSeparated(rs, k, i, c);
    AroundBounds(rs, k);
    ThreeParts(rs, k);
    SplitMembers(rs[..k], rs[k], rs[k + 1..], i, c);
  }

  lemma {:induction false} SplitTailSeparated(rs: seq<Range>, k: nat, i: nat, c: nat)
    requires Separated(rs) && k < |rs| && rs[k].first < i < rs[k].second && c > 0
    ensures Separated(rs[..k] + [Range(rs[k].first, i)] + [Range(i + c, rs[k].second + c)] + MovedAll(rs[k + 1..], c))
  {
    var p, q := Range(rs[k].first, i), Range(i + c, rs[k].second + c);
    Around(rs, k);
    MovedTail(rs[k + 1..], c);
    SeparatedConcat(rs[..k], [p]);
    SeparatedThree(rs[..k] + [p], q, MovedAll(rs[k + 1..], c));
  }

  // ---------------------------------------------------------------- erasing a position

  lemma {:induction false} DownIsMovable(rs: seq<Range>, b: nat)
    requires StartsFrom(rs, b) && AllNonempty(rs) && b > 0
    ensures Movable(rs, -1)
  {
    forall j | 0 <= j < |rs| ensures rs[j].first - 1 >= 0 && rs[j].second - 1 >= 0 {
      assert Nonempty(rs[j]);
    }
  }

  lemma {:induction false} ErasedFromRange(a: seq<Range>, r: Range, b: seq<Range>, i: nat)
    requires CutAt(a, b, r.first, r.second + 1) && r.first <= i < r.second && Movable(b, -1)
    ensures Members(a + [Range(r.first, r.second - 1)] + MovedAll(b, -1)) == EraseAt(Members(a + [r] + b), i)
  {
    var s, g := Members(a + [r] + b), Range(r.first, r.second - 1);
    forall y: nat ensures y in Members(a + [g] + MovedAll(b, -1)) <==> y in EraseAt(s, i) {
      EraseAtMember(s, i, y);
      InThree(a, g, MovedAll(b, -1), y);
      InMoved(b, -1, y);
      InThree(a, r, b, y);
      InThree(a, r, b, y + 1);
    }
  }

  /** Dropping the range that is just i. */
  lemma {:induction false} EraseSingleSeparated(rs: seq<Range>, k: nat, i: nat)
    requires Separated(rs) && k < |rs| && rs[k] == Range(i, i + 1)
    ensures Movable(rs[k + 1..], -1)
    ensures Separated(rs[..k] + MovedAll(rs[k + 1..], -1))
  {
    var a, b := rs[..k], rs[k + 1..];
    Around(rs, k);
    DownIsMovable(b, i + 2);
    MovedTail(b, -1);
    SeparatedConcat(a, MovedAll(b, -1));
  }

  lemma {:induction false} EraseSingleMembers(rs: seq<Range>, k: nat, i: nat)
    requires Separated(rs) && k < |rs| && rs[k] == Range(i, i + 1) && Movable(rs[k + 1..], -1)
    ensures Members(rs[..k] + MovedAll(rs[k + 1..], -1)) == EraseAt(Members(rs), i)
  {
    var a, b := rs[..k], rs[k + 1..];
    AroundBounds(rs, k);
    ThreeParts(rs, k);
    ErasedFromRange(a, rs[k], b, i);
    EmptyRangeAside(a, Range(i, i), MovedAll(b, -1));
  }

  lemma {:induction false} EraseSingle(rs: seq<Range>, k: nat, i: nat)
    requires Separated(rs) && k < |rs| && rs[k] == Range(i, i + 1)
    ensures Movable(rs[k + 1..], -1)
    ensures var t := rs[..k] + MovedAll(rs[k + 1..], -1);
            Separated(t) && Members(t) == EraseAt(Members(rs), i)
  {
    EraseSingleSeparated(rs, k, i);
    EraseSingleMembers(rs, k, i);
  }

  lemma {:induction false} EmptyRangeAside(a: seq<Range>, r: Range, b: seq<Range>)
    requires r.first == r.second
    ensures Members(a + [r] + b) == Members(a + b)
  {
    forall y: nat ensures y in Members(a + [r] + b) <==> y in Members(a + b) {
      InThree(a, r, b, y);
      InTwo(a, b, y);
    }
  }

  /** Shortening the range that holds i. */
  lemma {:induction false} EraseFromRange(rs: seq<Range>, k: nat, i: nat)
    requires Separated(rs) && k < |rs| && rs[k].first <= i < rs[k].second && rs[k].first + 1 < rs[k].second
    ensures Movable(rs[k + 1..], -1)
    ensures var t := rs[..k] + [Range(rs[k].first, rs[k].second - 1)] + MovedAll(rs[k + 1..], -1);
            Separated(t) && Members(t) == EraseAt(Members(rs), i)
  {
    EraseFromRangeSeparated(rs, k);
    EraseFromRangeMembers(rs, k, i);
  }

  lemma {:induction false} EraseFromRangeMembers(rs: seq<Range>, k: nat, i: nat)
    requires Separated(rs) && k < |rs| && rs[k].first <= i < rs[k].second && rs[k].first + 1 < rs[k].second
    requires Movable(rs[k + 1..], -1)
    ensures Members(rs[..k] + [Range(rs[k].first, rs[k].second - 1)] + MovedAll(rs[k + 1..], -1)) ==
            EraseAt(Members(rs), i)
  {
    hide Total, Members;
    AroundBounds(rs, k);
    ThreeParts(rs, k);
    ErasedFromRange(rs[..k], rs[k], rs[k + 1..], i);
  }

  lemma {:induction false} EraseFromRangeSeparated(rs: seq<Range>, k: nat)
    requires Separated(rs) && k < |rs| && rs[k].first + 1 < rs[k].second
    ensures Movable(rs[k + 1..], -1)
    ensures Separated(rs[..k] + [Range(rs[k].first, rs[k].second - 1)] + MovedAll(rs[k + 1..], -1))
  {
    Around(rs, k);
    DownIsMovable(rs[k + 1..], rs[k].second + 1);
    MovedTail(rs[k + 1..], -1);
    SeparatedThree(rs[..k], Range(rs[k].first, rs[k].second - 1), MovedAll(rs[k + 1..], -1));
  }

  lemma {:induction false} ErasedGap(a: seq<Range>, b: seq<Range>, i: nat)
    requires CutAt(a, b, i, i + 1) && Movable(b, -1)
    ensures Members(a + MovedAll(b, -1)) == EraseAt(Members(a + b), i)
  {
    forall y: nat ensures y in Members(a + MovedAll(b, -1)) <==> y in EraseAt(Members(a + b), i) {
      EraseAtMember(Members(a + b), i, y);
      InTwo(a, MovedAll(b, -1), y);
      InMoved(b, -1, y);
      InTwo(a, b, y);
      InTwo(a, b, y + 1);
    }
  }

  /** Moving everything above i down by one, where i is not a member and closes no gap. */
  lemma {:induction false} EraseGapSeparated(rs: seq<Range>, k: nat, i: nat)
    requires Separated(rs) && Located(rs, k, i) && k < |rs| && i < rs[k].first
    requires k > 0 ==> rs[k - 1].second + 1 != rs[k].first
    ensures Movable(rs[k..], -1)
    ensures Separated(rs[..k] + MovedAll(rs[k..], -1))
  {
    GapIsMovable(rs, k, i);
    SeparatedParts(rs, k);
    MovedTail(rs[k..], -1);
    assert k > 0 ==> rs[k - 1].second + 1 < rs[k].first;
    SeparatedConcat(rs[..k], MovedAll(rs[k..], -1));
  }

  lemma {:induction false} GapIsMovable(rs: seq<Range>, k: nat, i: nat)
    requires Separated(rs) && Located(rs, k, i) && k < |rs| && i < rs[k].first
    ensures Movable(rs[k..], -1)
  {
    Between(rs, k, i + 1);
    DownIsMovable(rs[k..], i + 1);
  }

  lemma {:induction false} EraseGap(rs: seq<Range>, k: nat, i: nat)
    requires Separated(rs) && Located(rs, k, i) && k < |rs| && i < rs[k].first
    requires k > 0 ==> rs[k - 1].second + 1 != rs[k].first
    ensures Movable(rs[k..], -1)
    ensures var t := rs[..k] + MovedAll(rs[k..], -1);
            Separated(t) && Members(t) == EraseAt(Members(rs), i)
  {
    hide Members, Interval, Nonempty;
    EraseGapSeparated(rs, k, i);
    Between(rs, k, i);
    Between(rs, k, i + 1);
    ErasedGap(rs[..k], rs[k..], i);
  }

  lemma {:induction false} ErasedJoin(a: seq<Range>, p: Range, q: Range, b: seq<Range>, i: nat)
    requires CutAt(a, b, p.first, q.second + 1) && Movable(b, -1)
    requires p.first < p.second == i && i + 1 == q.first < q.second
    ensures Members(a + [Range(p.first, q.second - 1)] + MovedAll(b, -1)) == EraseAt(Members(a + [p] + [q] + b), i)
  {
    var s, g := Members(a + [p] + [q] + b), Range(p.first, q.second - 1);
    forall y: nat ensures y in Members(a + [g] + MovedAll(b, -1)) <==> y in EraseAt(s, i) {
      EraseAtMember(s, i, y);
      InThree(a, g, MovedAll(b, -1), y);
      InMoved(b, -1, y);
      InFour(a, p, q, b, y);
      InFour(a, p, q, b, y + 1);
    }
  }

  /** Closing a gap of one joins the ranges on both sides of it. */
  lemma {:induction false} EraseJoinMembers(rs: seq<Range>, k: nat, i: nat)
    requires Separated(rs) && 0 < k < |rs| && rs[k - 1].second == i && rs[k].first == i + 1
    requires rs[k - 1].first < i && i + 1 < rs[k].second && Movable(rs[k + 1..], -1)
    ensures Members(rs[..k - 1] + [Range(rs[k - 1].first, rs[k].second - 1)] + MovedAll(rs[k + 1..], -1)) ==
            EraseAt(Members(rs), i)
  {
    hide Total, Members;
    AroundBounds(rs, k);
    AroundBounds(rs, k - 1);
    ErasedJoin(rs[..k - 1], rs[k - 1], rs[k], rs[k + 1..], i);
    TwoInTheMiddle(rs, k);
  }

  lemma {:induction false} EraseJoin(rs: seq<Range>, k: nat, i: nat)
    requires Separated(rs) && 0 < k < |rs| && rs[k - 1].second == i && rs[k].first == i + 1
    ensures Movable(rs[k + 1..], -1)
    ensures var t := rs[..k - 1] + [Range(rs[k - 1].first, rs[k].second - 1)] + MovedAll(rs[k + 1..], -1);
            Separated(t) && Members(t) == EraseAt(Members(rs), i)
  {
    EraseJoinSeparated(rs, k, i);
    EraseJoinMembers(rs, k, i);
  }

  lemma {:induction false} EraseJoinSeparated(rs: seq<Range>, k: nat, i: nat)
    requires Separated(rs) && 0 < k < |rs| && rs[k - 1].second == i && rs[k].first == i + 1
    ensures Movable(rs[k + 1..], -1)
    ensures Separated(rs[..k - 1] + [Range(rs[k - 1].first, rs[k].second - 1)] + MovedAll(rs[k + 1..], -1))
    ensures rs[k - 1].first < i && i + 1 < rs[k].second
  {
    Around(rs, k);
    Around(rs, k - 1);
    DownIsMovable(rs[k + 1..], rs[k].second + 1);
    MovedTail(rs[k + 1..], -1);
    SeparatedThree(rs[..k - 1], Range(rs[k - 1].first, rs[k].second - 1), MovedAll(rs[k + 1..], -1));
  }

  lemma {:induction false} TwoInTheMiddle(rs: seq<Range>, k: nat)
    requires 0 < k < |rs|
    ensures rs == rs[..k - 1] + [rs[k - 1]] + [rs[k]] + rs[k + 1..]
  {
  }

  /** Positions beyond every member change nothing. */
  lemma {:induction false} NothingAbove(rs: seq<Range>, i: nat)
    requires Separated(rs) && Located(rs, |rs|, i)
    ensures ShiftForInsertAt(Members(rs), i, 1) == Members(rs) == EraseAt(Members(rs), i)
    ensures forall c: nat :: ShiftForInsertAt(Members(rs), i, c) == Members(rs)
    ensures i !in Members(rs)
  {
    var s := Members(rs);
    SeparatedIsOrdered(rs);
    assert rs[..|rs|] == rs;
    DividedMembers(rs, |rs|, i);
    assert AllBelow(s, i);
    forall c: nat ensures ShiftForInsertAt(s, i, c) == s {
      forall y: nat ensures y in ShiftForInsertAt(s, i, c) <==> y in s { ShiftForInsertAtMember(s, i, c, y); }
    }
    forall y: nat ensures y in EraseAt(s, i) <==> y in s { EraseAtMember(s, i, y); }
  }

  // ---------------------------------------------------------------- removing an interval

  lemma {:induction false} RemovedMembers(a: seq<Range>, r: Range, b: seq<Range>, lo: nat, hi: nat)
    requires CutAt(a, b, r.first, r.second) && r.first <= lo <= hi <= r.second
    ensures Members(a + [Range(r.first, lo)] + [Range(hi, r.second)] + b) == Members(a + [r] + b) - Interval(lo, hi)
  {
    var p, q := Range(r.first, lo), Range(hi, r.second);
    forall y: nat ensures y in Members(a + [p] + [q] + b) <==> y in Members(a + [r] + b) - Interval(lo, hi) {
      InFour(a, p, q, b, y);
      InThree(a, r, b, y);
    }
  }

  /** The range reaches beyond both ends of [lo, hi): split it.  An empty interval leaves two
      ranges that touch. */
  lemma {:induction false} RemoveMiddle(rs: seq<Range>, k: nat, lo: nat, hi: nat)
    requires Separated(rs) && k < |rs| && rs[k].first < lo <= hi < rs[k].second
    ensures var t := rs[..k] + [Range(rs[k].first, lo)] + [Range(hi, rs[k].second)] + rs[k + 1..];
            && Ordered(t) && Members(t) == Members(rs) - Interval(lo, hi)
            && (Separated(t) <==> lo < hi)
  {
    var a, p, q, b := rs[..k], Range(rs[k].first, lo), Range(hi, rs[k].second), rs[k + 1..];
    Around(rs, k);
    SeparatedConcat(a, [p]);
    SeparatedConcat([q], b);
    Halves(a + [p], [q] + b);
    Regrouped(a + [p], [q], b);
    RemovedMembers(a, rs[k], b, lo, hi);
  }

  lemma {:induction false} Halves(a: seq<Range>, b: seq<Range>)
    requires Separated(a) && Separated(b) && a != [] && b != []
    requires a[|a| - 1].second <= b[0].first
    ensures Ordered(a + b)
    ensures Separated(a + b) <==> a[|a| - 1].second < b[0].first
  {
    SeparatedIsOrdered(a);
    SeparatedIsOrdered(b);
    OrderedConcat(a, b);
    if a[|a| - 1].second < b[0].first {
      SeparatedConcat(a, b);
    } else {
      assert (a + b)[|a| - 1] == a[|a| - 1] && (a + b)[|a|] == b[0];
    }
  }

  /** [lo, hi) covers the upper end of the range. */
  lemma {:induction false} RemoveUpper(rs: seq<Range>, k: nat, lo: nat)
    requires Separated(rs) && k < |rs| && rs[k].first < lo < rs[k].second
    ensures var t := rs[k := Range(rs[k].first, lo)];
            Separated(t) && Members(t) == Members(rs) - Interval(lo, rs[k].second)
  {
    var a, r, b := rs[..k], rs[k], rs[k + 1..];
    Around(rs, k);
    SeparatedThree(a, Range(r.first, lo), b);
    assert rs[k := Range(r.first, lo)] == a + [Range(r.first, lo)] + b;
    RemovedMembers(a, r, b, lo, r.second);
    EmptyRangeAside(a + [Range(r.first, lo)], Range(r.second, r.second), b);
  }

  /** [lo, hi) covers the lower end of the range. */
  lemma {:induction false} RemoveLower(rs: seq<Range>, k: nat, hi: nat)
    requires Separated(rs) && k < |rs| && rs[k].first < hi < rs[k].second
    ensures var t := rs[k := Range(hi, rs[k].second)];
            Separated(t) && Members(t) == Members(rs) - Interval(rs[k].first, hi)
  {
    var a, r, b := rs[..k], rs[k], rs[k + 1..];
    Around(rs, k);
    SeparatedThree(a, Range(hi, r.second), b);
    assert rs[k := Range(hi, r.second)] == a + [Range(hi, r.second)] + b;
    RemovedMembers(a, r, b, r.first, hi);
    EmptyRangeAside(a, Range(r.first, r.first), [Range(hi, r.second)] + b);
    Regrouped(a + [Range(r.first, r.first)], [Range(hi, r.second)], b);
    Regrouped(a, [Range(hi, r.second)], b);
  }

  /** [lo, hi) covers the whole range. */
  lemma {:induction false} RemoveWhole(rs: seq<Range>, k: nat)
    requires Separated(rs) && k < |rs|
    ensures var t := rs[..k] + rs[k + 1..];
            Separated(t) && Members(t) == Members(rs) - Seg(rs[k])
  {
    var a, r, b := rs[..k], rs[k], rs[k + 1..];
    Around(rs, k);
    SeparatedConcat(a, b);
    forall y: nat ensures y in Members(a + b) <==> y in Members(a + [r] + b) - Seg(r) {
      InThree(a, r, b, y);
      InTwo(a, b, y);
    }
  }

  /** A range reaches beyond b on both sides. */
  ghost predicate Straddled(rs: seq<Range>, b: nat) {
    exists i :: 0 <= i < |rs| && rs[i].first < b < rs[i].second
  }

  lemma {:induction false} StraddledFound(rs: seq<Range>, k: nat, b: nat)
    requires Ordered(rs) && Located(rs, k, b)
    ensures Straddled(rs, b) <==> k < |rs| && rs[k].first < b
  {
    if Straddled(rs, b) {
      var i :| 0 <= i < |rs| && rs[i].first < b < rs[i].second;
      assert k < i ==> rs[k].second <= rs[i].first;
    }
  }

  /** Splitting a range at b leaves nothing that straddles b. */
  lemma {:induction false} SplitNotStraddled(rs: seq<Range>, k: nat, b: nat)
    requires Ordered(rs) && k + 1 < |rs| && rs[k].second == b == rs[k + 1].first
    ensures !Straddled(rs, b)
  {
    assert Nonempty(rs[k + 1]);
    StraddledFound(rs, k + 1, b);
  }

  /** What is left of the removal once everything in [first, begin) is gone. */
  ghost predicate Removing(rs: seq<Range>, first: nat, begin: nat, last: nat, ts: seq<Range>) {
    && first <= begin <= last && (begin == last ==> first == last) && Ordered(ts)
    && Members(ts) - Interval(begin, last) == Members(rs) - Interval(first, last)
    && (!Separated(ts) ==> first == begin == last && Straddled(rs, first) && !Straddled(ts, first))
    && (Separated(ts) && first == last ==> ts == rs)
  }

  /** The effect of one step on the range found at k, whose part in [begin, last) goes. */
  ghost predicate StepRemoves(rs: seq<Range>, k: nat, begin: nat, last: nat, ts: seq<Range>)
    requires k < |rs|
  {
    && Ordered(ts)
    && Members(ts) == Members(rs) - Interval(begin, if last < rs[k].second then last else rs[k].second)
    && (Separated(ts) <==> begin < last)
    && (!Separated(ts) ==> !Straddled(ts, begin))
  }

  /** A step keeps what the loop knows, and makes progress. */
  lemma {:induction false} RemovalGoesOn(rs: seq<Range>, first: nat, begin: nat, last: nat, ts: seq<Range>, k: nat, us: seq<Range>)
    requires Removing(rs, first, begin, last, ts) && Separated(rs)
    requires Located(ts, k, begin) && k < |ts| && ts[k].first < last
    requires var b := if ts[k].first > begin then ts[k].first else begin;
             Separated(ts) ==> StepRemoves(ts, k, b, last, us)
    ensures Separated(ts)
    ensures var b := if ts[k].first > begin then ts[k].first else begin;
            && Removing(rs, first, b, last, us)
            && (Members(us) * Interval(b, last) < Members(ts) * Interval(begin, last) ||
                (Members(us) * Interval(b, last) == Members(ts) * Interval(begin, last) && !Separated(us)))
  {
    hide Total, Members;
    StraddledFound(ts, k, begin);
    assert Separated(ts);
    var b := if ts[k].first > begin then ts[k].first else begin;
    var m := if last < ts[k].second then last else ts[k].second;
    assert DividesAt(ts, k, ts[k].first);
    NoneBefore(ts, k, begin);
    if b < last {
      MemberWitness(ts, k, b);
      assert b in Members(ts) * Interval(begin, last) && b !in Members(us);
    } else {
      assert Interval(b, last) == {} && Interval(begin, last) == {} && Interval(b, m) == {};
    }
    assert Members(us) - Interval(b, last) == Members(ts) - Interval(begin, last);
  }

  lemma {:induction false} NoneBefore(ts: seq<Range>, k: nat, begin: nat)
    requires Ordered(ts) && Located(ts, k, begin)
    ensures forall x | x in Members(ts) && x >= begin :: k < |ts| && ts[k].first <= x
  {
    if k < |ts| && ts[k].first <= begin {
    } else {
      DividedMembers(ts, k, begin);
      if k < |ts| { DividedMembers(ts, k, ts[k].first); }
    }
  }

  /** When the range found starts at or after last, the removal is complete. */
  lemma {:induction false} RemovalEnds(rs: seq<Range>, first: nat, begin: nat, last: nat, ts: seq<Range>, k: nat)
    requires Removing(rs, first, begin, last, ts) && Separated(rs)
    requires Located(ts, k, begin) && (k < |ts| ==> last <= ts[k].first)
    ensures Members(ts) == Members(rs) - Interval(first, last)
    ensures Separated(ts) <==> !(first == last && Straddled(rs, first))
    ensures k == |ts| ==> AllBelow(Members(ts), last)
  {
    NoneBefore(ts, k, begin);
    assert Members(ts) * Interval(begin, last) == {};
    assert Members(ts) == Members(ts) - Interval(begin, last);
    if Separated(ts) && first == last { StraddledFound(ts, k, begin); }
  }
}
