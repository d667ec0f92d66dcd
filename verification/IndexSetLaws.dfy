/** Laws of whole index sets, down to their ranges, and the inputs on which an operation does less
    than its description says. */
module IndexSetLaws {
  import opened NatSets
  import opened Ranges
  import opened RangeUpdates
  import opened Chunks
  import opened Lookup
  import opened Renumbering
  import opened Translations

  // ---------------------------------------------------------------- round trips on the ranges

  /** Inserting positions and erasing them again brings back the very same ranges. */
  lemma {:induction false} InsertThenEraseRestores(before: seq<Range>, inserted: seq<Range>, after: seq<Range>, p: set<nat>)
    requires Separated(before) && Separated(inserted) && Separated(after)
    requires Members(inserted) == InsertAll(Members(before), p)
    requires Members(after) == EraseAll(Members(inserted), p)
    ensures after == before
  {
    EraseUndoesInsert(Members(before), p);
    Canonical(after, before);
  }

  /** Making room for positions and closing it again brings back the very same ranges. */
  lemma {:induction false} ShiftThenEraseRestores(before: seq<Range>, shifted: seq<Range>, after: seq<Range>, p: set<nat>)
    requires Separated(before) && Separated(shifted) && Separated(after)
    requires Members(shifted) == ShiftAll(Members(before), p)
    requires Members(after) == EraseAll(Members(shifted), p)
    ensures after == before
  {
    EraseUndoesShift(Members(before), p);
    Canonical(after, before);
  }

  // ---------------------------------------------------------------- count

  /** What count returns is the number of members exactly when the walk does not stop short. */
  lemma {:induction false} CountExactIff(cs: seq<Chunk>, start: nat, end: nat, n: int)
    requires start <= end && Counted(cs, start, end, n)
    ensures n == CountIn(Members(Flat(cs)), start, end) <==> !StopsShort(cs, start, end)
  {
    if StopsShort(cs, start, end) {
      var o: nat :| StopsShortAt(cs, o, start, end);
    }
  }

  /** Counting from zero, as unshift does, is always exact. */
  lemma {:induction false} CountFromZeroExact(cs: seq<Chunk>, end: nat, n: int)
    requires Counted(cs, 0, end, n)
    ensures n == Rank(Members(Flat(cs)), end)
  {
    assert forall o: nat :: !StopsShortAt(cs, o, 0, end);
  }

  /** A set on which count does stop short: {0, 1} and {10, ..., 19} in two chunks, counted from 1
      to 15. */
  lemma {:induction false} CountStopsShortExample(n: int)
    ensures var cs := [Chunk([Range(0, 2)], 0, 2, 2), Chunk([Range(10, 20)], 10, 20, 10)];
            && WellFormed(cs, 4)
            && CountIn(Members(Flat(cs)), 1, 15) == 6
            && (Counted(cs, 1, 15, n) ==> n == 1)
  {
    var a, b := Chunk([Range(0, 2)], 0, 2, 2), Chunk([Range(10, 20)], 10, 20, 10);
    var cs, rs := [a, b], [Range(0, 2), Range(10, 20)];
    assert cs == [a] + [b];
    FlatConcat([a], [b]);
    FlatOne(a);
    FlatOne(b);
    assert Flat(cs) == rs;
    TotalOne(Range(0, 2));
    TotalOne(Range(10, 20));
    assert ChunkSound(a, 4) && ChunkSound(b, 4);
    SeparatedByNeighbours(rs);
    RankInside(rs, 0, 1);
    assert rs[..0] == [];
    RankInside(rs, 1, 15);
    assert rs[..1] == [Range(0, 2)];
    assert StopsShortAt(cs, 0, 1, 15);
  }

  // ---------------------------------------------------------------- remove

  /** Removing no index at 1 from {0, 1} is the kind of call that leaves ranges that touch. */
  lemma {:induction false} RemoveNothingExample()
    ensures Separated([Range(0, 2)]) && Straddled([Range(0, 2)], 1)
    ensures !Separated([Range(0, 1), Range(1, 2)])
  {
    var rs, ts := [Range(0, 2)], [Range(0, 1), Range(1, 2)];
    SeparatedByNeighbours(rs);
    assert rs[0].first < 1 < rs[0].second;
    assert ts[0].second == ts[1].first;
  }

  // ---------------------------------------------------------------- add_shifted_by

  lemma {:induction false} ShiftBelowAll(s: set<nat>, b: nat, u: nat)
    requires AllFrom(s, b) && u < b
    ensures Shift(s, u) == u
  {
    RankGap(s, 0, u);
    ShiftUnique(s, u, u);
  }

  lemma {:induction false} TranslatedBelowAll(s: set<nat>, b: nat, v: set<nat>)
    requires AllFrom(s, b) && AllBelow(v, b)
    ensures Translated(s, {}, v) == v
  {
    forall x | x in v ensures Shift(s, Unshift({}, x)) == x {
      RankGap({}, 0, x);
      ShiftBelowAll(s, b, x);
    }
    forall x | x in v ensures x in Translated(s, {}, v) {
      TranslatedMember(s, {}, v, x);
    }
  }

  const MISCOUNT_BEFORE := [Range(100, 102), Range(110, 112), Range(120, 122), Range(130, 132)]

  const MISCOUNT_FRONT := [Range(0, 1), Range(2, 3), Range(4, 5), Range(6, 7), Range(8, 9)]

  lemma {:induction false} MiscountRanges()
    ensures Separated(MISCOUNT_BEFORE) && Separated(MISCOUNT_FRONT + MISCOUNT_BEFORE)
    ensures AllFrom(Members(MISCOUNT_BEFORE), 100)
  {
    SeparatedByNeighbours(MISCOUNT_BEFORE);
    SeparatedByNeighbours(MISCOUNT_FRONT);
    SeparatedConcat(MISCOUNT_FRONT, MISCOUNT_BEFORE);
    MembersStartFrom(MISCOUNT_BEFORE, 100);
  }

  /** Adding 0, 2, 4, 6 and 8 to those ranges puts five more in front of them. */
  lemma {:induction false} MiscountSets(added: set<nat>)
    requires added == {0, 2, 4, 6, 8}
    ensures Translated(Members(MISCOUNT_BEFORE), {}, added) == added
    ensures Members(MISCOUNT_FRONT + MISCOUNT_BEFORE) == AddShiftedBy(Members(MISCOUNT_BEFORE), {}, added)
  {
    hide Members, Separated, Shift, Unshift;
    MiscountRanges();
    MembersConcat(MISCOUNT_FRONT, MISCOUNT_BEFORE);
    SingleMembers(MISCOUNT_FRONT, added);
    assert AllBelow(added, 100);
    TranslatedBelowAll(Members(MISCOUNT_BEFORE), 100, added);
    AddedInFront(Members(MISCOUNT_BEFORE), added);
  }

  /** With chunks of four ranges the ninth range then opens a third chunk where two were reserved,
      and its count is left wrong. */
  lemma {:induction false} MiscountExample(added: set<nat>)
    requires added == {0, 2, 4, 6, 8}
    ensures Separated(MISCOUNT_BEFORE) && Separated(MISCOUNT_FRONT + MISCOUNT_BEFORE)
    ensures TailMiscounts(Reserved(|MISCOUNT_BEFORE|, 4), added, MISCOUNT_FRONT + MISCOUNT_BEFORE, 4)
  {
    MiscountRanges();
    NinthRange(MISCOUNT_FRONT + MISCOUNT_BEFORE, added);
  }

  lemma {:induction false} AddedInFront(s: set<nat>, v: set<nat>)
    requires Translated(s, {}, v) == v
    ensures AddShiftedBy(s, {}, v) == v + s
  {
    var t := Translated(s, {}, v);
    assert t + s == s + t;
  }

  lemma {:induction false} NinthRange(after: seq<Range>, added: set<nat>)
    requires |after| == 9 && after[8] == Range(130, 132) && AllBelow(added, 130)
    ensures TailMiscounts(2, added, after, 4)
  {
    assert OpensMiscounted(after, 8, 2, 4);
  }

  lemma {:induction false} SingleMembers(single: seq<Range>, added: set<nat>)
    requires single == [Range(0, 1), Range(2, 3), Range(4, 5), Range(6, 7), Range(8, 9)]
    requires added == {0, 2, 4, 6, 8}
    ensures Members(single) == added
  {
    forall x: nat ensures x in Members(single) <==> x in added {
      MemberIff(single, x);
      if x in added {
        assert single[x / 2] == Range(x, x + 1);
      }
    }
  }
}
