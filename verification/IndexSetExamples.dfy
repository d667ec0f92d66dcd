/** Small runs of index set operations that do less than their descriptions say. */
module IndexSetExamples {
  import opened NatSets
  import opened Ranges
  import opened RangeUpdates
  import opened Chunks
  import opened Lookup
  import opened IndexSets
  import opened IndexSetLaws
  import opened Translations

  /** On {0, 1, 10, ..., 19} in two chunks the count over [1, 15) is 1 where there are 6 members. */
  method CountStopsShort() returns (s: IndexSet, n: nat)
    ensures s.Valid() && s.Elements() == Members([Range(0, 2), Range(10, 20)])
    ensures CountIn(s.Elements(), 1, 15) == 6 && n == 1
  {
    s := new IndexSet(4);
    s.vec.data := [Chunk([Range(0, 2)], 0, 2, 2), Chunk([Range(10, 20)], 10, 20, 10)];
    TwoChunks(s.vec.data);
    CountStopsShortExample(1);
    n := s.Count(1, 15);
    CountStopsShortExample(n);
  }

  lemma {:induction false} TwoChunks(cs: seq<Chunk>)
    requires |cs| == 2 && cs[0].data == [Range(0, 2)] && cs[1].data == [Range(10, 20)]
    ensures Flat(cs) == [Range(0, 2), Range(10, 20)]
  {
    assert cs == [cs[0]] + [cs[1]];
    FlatConcat([cs[0]], [cs[1]]);
    FlatOne(cs[0]);
    FlatOne(cs[1]);
  }

  /** Removing no index in the middle of {0, 1} leaves a set that does not verify. */
  method RemoveNothing() returns (s: IndexSet)
    ensures s.Elements() == {0, 1} && !s.Valid()
  {
    s := new IndexSet(4);
    s.SetLength(2);
    SeparatedByNeighbours([Range(0, 2)]);
    MembersOne(Range(0, 2));
    Canonical(s.vec.Contents(), [Range(0, 2)]);
    RemoveNothingExample();
    s.Remove(1, 0);
    assert Interval(1, 1) == {};
  }

  lemma {:induction false} BeforeMembers()
    ensures Members(MISCOUNT_BEFORE) == {100, 101, 110, 111, 120, 121, 130, 131}
  {
    var rs := MISCOUNT_BEFORE;
    forall x: nat ensures x in Members(rs) <==> x in {100, 101, 110, 111, 120, 121, 130, 131} {
      MemberIff(rs, x);
      assert rs[0].first <= x < rs[0].second <==> x in {100, 101};
      assert rs[1].first <= x < rs[1].second <==> x in {110, 111};
      assert rs[2].first <= x < rs[2].second <==> x in {120, 121};
      assert rs[3].first <= x < rs[3].second <==> x in {130, 131};
    }
  }

  method AddEach(s: IndexSet, xs: seq<nat>)
    requires s.Valid()
    modifies s.vec
    ensures s.Valid() && s.Elements() == old(s.Elements()) + Listed(xs)
  {
    var i := 0;
    while i < |xs|
      invariant 0 <= i <= |xs| && s.Valid()
      invariant s.Elements() == old(s.Elements()) + Listed(xs[..i])
    {
      s.Add(xs[i]);
      assert xs[..i + 1] == xs[..i] + [xs[i]];
      i := i + 1;
    }
    assert xs[..i] == xs;
  }

  ghost function Listed(xs: seq<nat>): set<nat> {
    set x | x in xs
  }

  /** Four ranges of two indices each. */
  method FourRanges() returns (s: IndexSet)
    ensures fresh(s) && fresh(s.vec) && s.Valid() && s.vec.maxSize == 4
    ensures |s.vec.Contents()| == 4 && s.Elements() == Members(MISCOUNT_BEFORE)
  {
    hide Members, Flat, Separated;
    s := new IndexSet(4);
    var xs := [100, 101, 110, 111, 120, 121, 130, 131];
    AddEach(s, xs);
    BeforeMembers();
    assert Listed(xs) == {100, 101, 110, 111, 120, 121, 130, 131};
    MiscountRanges();
    assert Separated(s.vec.Contents());
    Canonical(s.vec.Contents(), MISCOUNT_BEFORE);
  }

  method FiveIndices() returns (s: IndexSet)
    ensures fresh(s) && fresh(s.vec) && s.Valid() && s.Elements() == {0, 2, 4, 6, 8}
  {
    s := new IndexSet(4);
    AddEach(s, [0, 2, 4, 6, 8]);
  }

  lemma {:induction false} MiscountOutcome()
    ensures RangesOf(MISCOUNT_FRONT + MISCOUNT_BEFORE, AddShiftedBy(Members(MISCOUNT_BEFORE), {}, {0, 2, 4, 6, 8}))
    ensures TailMiscounts(Reserved(4, 4), Translated(Members(MISCOUNT_BEFORE), {}, {0, 2, 4, 6, 8}),
                          MISCOUNT_FRONT + MISCOUNT_BEFORE, 4)
  {
    MiscountSets({0, 2, 4, 6, 8});
    MiscountExample({0, 2, 4, 6, 8});
  }

  /** Adding 0, 2, 4, 6 and 8 in front of four longer ranges leaves a set that does not verify,
      though it has the right members. */
  method AddShiftedByMiscounts() returns (s: IndexSet)
    ensures s.Elements() == Members(MISCOUNT_FRONT + MISCOUNT_BEFORE) && !s.Valid()
  {
    hide *;
    s := FourRanges();
    var shiftedBy := new IndexSet(4);
    var values := FiveIndices();
    MiscountOutcome();
    MiscountSets({0, 2, 4, 6, 8});
    s.AddShiftedBy(shiftedBy, values);
  }
}
