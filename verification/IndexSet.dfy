/** IndexSet: a set of row indices kept as maximal ranges in chunks. */
module IndexSets {
  import opened NatSets
  import opened Ranges
  import opened RangeUpdates
  import opened Chunks
  import opened Lookup
  import opened IndexIterators
  import opened ChunkedRangeVectors
  import opened Builders
  import opened Renumbering
  import opened Merges
  import opened Translations

  /** The largest size_t, returned where the index no longer exists. */
  const NPOS: nat := 0xFFFF_FFFF_FFFF_FFFF

  class IndexSet {
    const vec: ChunkedRangeVector

    ghost predicate Valid()
      reads vec
    {
      vec.Valid()
    }

    /** The indices in the set. */
    ghost function Elements(): set<nat>
      reads vec
    {
      Members(vec.Contents())
    }

    constructor (maxSize: Capacity)
      ensures fresh(vec) && Valid() && Elements() == {} && vec.maxSize == maxSize
    {
      vec := new ChunkedRangeVector(maxSize);
    }

    // -------------------------------------------------------------- searching

    /** Find the range which contains the index, or the first one after it if none do. */
    method Find(index: nat) returns (it: Iter)
      requires Valid()
      ensures ValidIter(vec.data, it) && Pos(vec.data, it) == Scan(vec.Contents(), index)
    {
      WellFormedIsArranged(vec.data, vec.maxSize);
      SoundChunks(vec.data, vec.maxSize);
      BeginPos(vec.data);
      it := FindFrom(index, Begin(vec.data));
    }

    /** The same search, started from a hint that is not beyond the answer. */
    method FindFrom(index: nat, begin: Iter) returns (it: Iter)
      requires Arranged(vec.data, vec.maxSize) && GoodHint(vec.data, begin, index)
      ensures ValidIter(vec.data, it) && Pos(vec.data, it) == Scan(vec.Contents(), index)
    {
      hide Flat, Total;
      var outer := begin.outer;
      while outer < |vec.data| && vec.data[outer].end <= index
        invariant begin.outer <= outer <= |vec.data|
        invariant outer > begin.outer ==> vec.data[outer - 1].end <= index
      {
        outer := outer + 1;
      }
      if outer == |vec.data| {
        FoundNothing(vec.data, begin, index, vec.maxSize);
        return End(vec.data);
      }
      var chunk := vec.data[outer];
      if index < chunk.begin {
        FoundChunk(vec.data, begin, outer, index, vec.maxSize);
        return Iter(outer, 0);
      }
      assert ChunkSound(chunk, vec.maxSize);
      var inner := LowerBound(chunk.data, if outer == begin.outer then begin.inner else 0, index);
      FoundRange(vec.data, Iter(outer, inner), begin, index, vec.maxSize);
      return Iter(outer, inner);
    }

    /** Binary search of a chunk for the first range from start on that ends after index. */
    static method LowerBound(data: seq<Range>, start: nat, index: nat) returns (inner: nat)
      requires start < |data| && index < data[|data| - 1].second
      ensures start <= inner < |data| && index < data[inner].second
      ensures inner > start ==> data[inner - 1].second <= index
    {
      var lo, hi := start, |data|;
      while lo < hi
        invariant start <= lo <= hi <= |data|
        invariant lo > start ==> data[lo - 1].second <= index
        invariant hi < |data| ==> data[hi].second > index
      {
        var mid := lo + (hi - lo) / 2;
        if data[mid].second <= index {
          lo := mid + 1;
        } else {
          hi := mid;
        }
      }
      inner := lo;
    }

    method Contains(index: nat) returns (b: bool)
      requires Valid()
      ensures b <==> index in Elements()
    {
      var it := Find(index);
      AtPos(vec.data, it);
      SeparatedIsOrdered(vec.Contents());
      ScanLocated(vec.Contents(), index, Pos(vec.data, it));
      LocatedMember(vec.Contents(), Pos(vec.data, it), index);
      b := it != End(vec.data) && At(vec.data, it).first <= index;
    }

    /** Count the indices in [start, end).  The result is exact unless the walk runs from the
        chunk that holds start straight into a first range that reaches to end: that range is
        then left out. */
    method Count(start: nat, end: nat) returns (n: nat)
      requires Valid() && start <= end
      ensures Counted(vec.data, start, end, n)
    {
      hide Flat, Members, Separated, Sound;
      var it := Find(start);
      StepOver(vec.data, it, vec.maxSize);
      if it == End(vec.data) || At(vec.data, it).first >= end {
        CountNothing(vec.data, it, start, end, vec.maxSize);
        return 0;
      }
      if At(vec.data, it).second >= end {
        CountOneRange(vec.data, it, start, end, vec.maxSize);
        var r := At(vec.data, it);
        WellFormedIsArranged(vec.data, vec.maxSize);
        ScanLocated(vec.Contents(), start, Pos(vec.data, it));
        return (if r.second < end then r.second else end) - (if r.first > start then r.first else start);
      }
      ghost var found := it;
      n := 0;
      if start > At(vec.data, it).first || it.inner != 0 {
        // Start index is in the middle of a chunk, so start by counting the rest of that chunk.
        it, n := CountRestOfChunk(it, start, end);
        if it == End(vec.data) || At(vec.data, it).second >= end {
          CountStopsAfterChunk(vec.data, found, it, start, end, n, vec.maxSize);
          return n;
        }
      } else {
        CountFromChunkStart(vec.data, it, start, end, vec.maxSize);
      }
      ghost var from := it;
      n := CountFrom(it, end, n, Rank(Elements(), start));
      CountRunsOn(vec.data, found, from, start, end, n, vec.maxSize);
    }

    /** Count from found to the end of its chunk, or to end if that comes first. */
    method CountRestOfChunk(found: Iter, start: nat, end: nat) returns (it: Iter, n: nat)
      requires Valid() && Dereferenceable(vec.data, found) && start <= end
      requires Pos(vec.data, found) == Scan(vec.Contents(), start)
      requires At(vec.data, found).second < end
      ensures CountedRest(vec.data, found, it, end, n, Rank(Elements(), start))
    {
      it, n := CountWholeRanges(found, start, end);
      if it != End(vec.data) && At(vec.data, it).first < end && it.inner != 0 {
        n := n + (end - At(vec.data, it).first);
      }
    }

    /** The rest of the range that holds start, and the ranges after it that lie in the same chunk below end. */
    method CountWholeRanges(found: Iter, start: nat, end: nat) returns (it: Iter, n: nat)
      requires Valid() && Dereferenceable(vec.data, found) && start <= end
      requires Pos(vec.data, found) == Scan(vec.Contents(), start)
      requires At(vec.data, found).second < end
      ensures ValidIter(vec.data, it) && Walked(vec.data, it, end, n, Rank(Elements(), start))
      ensures if it.inner == 0 then it.outer == found.outer + 1 else it.outer == found.outer
      ensures it == End(vec.data) || At(vec.data, it).second >= end || it.inner == 0
    {
      hide Flat, Members, Separated;
      var cs := vec.data;
      ghost var base := Rank(Elements(), start);
      WalkStarts(cs, found, start, end, vec.maxSize);
      var r := At(cs, found);
      n := r.second - (if r.first > start then r.first else start);
      it := Next(cs, found);
      WalkOn(cs, it, end, n, base, vec.maxSize);
      while it != End(cs) && At(cs, it).second < end && it.inner != 0
        invariant Walked(cs, it, end, n, base)
        invariant it == End(cs) <==> !Dereferenceable(cs, it)
        invariant if it.inner == 0 then it.outer == found.outer + 1 else it.outer == found.outer
        decreases |Flat(cs)| - Pos(cs, it)
      {
        WalkOn(cs, it, end, n, base, vec.maxSize);
        n := n + (At(cs, it).second - At(cs, it).first);
        it := Next(cs, it);
        WalkOn(cs, it, end, n, base, vec.maxSize);
      }
    }

    /** Count the chunks that end by end, then the ranges, then what is left of one range. */
    method CountFrom(from: Iter, end: nat, before: nat, ghost base: int) returns (n: nat)
      requires Valid() && from.inner == 0 && Walked(vec.data, from, end, before, base)
      ensures n == Rank(Elements(), end) - base
    {
      var cs := vec.data;
      var it;
      it, n := CountChunks(from, end, before, base);
      WalkOn(cs, it, end, n, base, vec.maxSize);
      while it != End(cs) && At(cs, it).second <= end
        invariant Walked(cs, it, end, n, base)
        invariant it == End(cs) <==> !Dereferenceable(cs, it)
        decreases |Flat(cs)| - Pos(cs, it)
      {
        WalkOn(cs, it, end, n, base, vec.maxSize);
        n := n + (At(cs, it).second - At(cs, it).first);
        it := Next(cs, it);
        WalkOn(cs, it, end, n, base, vec.maxSize);
      }
      WalkEnds(cs, it, end, n, base, vec.maxSize);
      if it != End(cs) && At(cs, it).first < end {
        n := n + (end - At(cs, it).first);
      }
    }

    /** Skip the chunks that end by end, using their cached counts. */
    method CountChunks(from: Iter, end: nat, before: nat, ghost base: int) returns (it: Iter, n: nat)
      requires Valid() && from.inner == 0 && Walked(vec.data, from, end, before, base)
      ensures Walked(vec.data, it, end, n, base)
    {
      var cs := vec.data;
      it, n := from, before;
      WalkChunk(cs, it, end, n, base, vec.maxSize);
      while it != End(cs) && cs[it.outer].end <= end
        invariant Walked(cs, it, end, n, base) && it.inner == 0
        invariant it == End(cs) <==> it.outer >= |cs|
        decreases |cs| - it.outer
      {
        WalkChunk(cs, it, end, n, base, vec.maxSize);
        n := n + cs[it.outer].count;
        it := NextChunk(it);
        WalkChunk(cs, it, end, n, base, vec.maxSize);
      }
    }

    // -------------------------------------------------------------- shift and unshift

    /** Shift an index by inserting each of the indices in this set. */
    method Shift(index: nat) returns (r: nat)
      requires Valid()
      ensures r == NatSets.Shift(Elements(), index)
    {
      var cs := vec.data;
      r := index;
      var it := Begin(cs);
      ShiftWalkStarts(cs, index, vec.maxSize);
      while it != End(cs) && At(cs, it).first <= r
        invariant ShiftWalk(cs, it, index, r)
        invariant it == End(cs) <==> !Dereferenceable(cs, it)
        decreases |Flat(cs)| - Pos(cs, it)
      {
        ShiftWalkOn(cs, it, index, r, vec.maxSize);
        r := r + (At(cs, it).second - At(cs, it).first);
        it := Next(cs, it);
        Deref(cs, it);
      }
      ShiftWalkEnds(cs, it, index, r, vec.maxSize);
    }

    /** Shift an index by deleting each of the indices in this set. */
    method Unshift(index: nat) returns (r: nat)
      requires Valid()
      ensures r == NatSets.Unshift(Elements(), index)
    {
      var n := Count(0, index);
      assert !StopsShort(vec.data, 0, index);
      r := index - n;
    }

    // -------------------------------------------------------------- adding

    /** Insert the index before the given position, combining existing ranges as applicable;
        the result is the position of the range that now holds it. */
    method DoAdd(it: Iter, index: nat) returns (r: Iter)
      requires Valid() && ValidIter(vec.data, it)
      requires Located(vec.Contents(), Pos(vec.data, it), index)
      modifies vec
      ensures Valid() && Elements() == old(Elements()) + {index}
      ensures index in old(Elements()) ==> vec.data == old(vec.data)
      ensures Dereferenceable(vec.data, r) && At(vec.data, r).first <= index < At(vec.data, r).second
    {
      hide Flat, Members, ChunkSound;
      ghost var rs, k := vec.Contents(), Pos(vec.data, it);
      StepBack(vec.data, it, vec.maxSize);
      Deref(vec.data, it);
      LocatedMember(rs, k, index);
      var moreBefore, valid := it != Begin(vec.data), it != End(vec.data);
      assert !moreBefore || index >= At(vec.data, Prev(vec.data, it)).second;
      if valid && At(vec.data, it).first <= index && At(vec.data, it).second > index {
        return it;
      }
      if moreBefore && At(vec.data, Prev(vec.data, it)).second == index {
        r := AddAfterPrevious(it, index);
        return;
      }
      r := AddBefore(it, index);
    }

    /** The index is not next to the range before: put it in front of the one after, or between. */
    method AddBefore(it: Iter, index: nat) returns (r: Iter)
      requires Valid() && ValidIter(vec.data, it) && Pos(vec.data, it) <= |vec.Contents()|
      requires Pos(vec.data, it) > 0 ==> vec.Contents()[Pos(vec.data, it) - 1].second < index
      requires it != End(vec.data) ==> index < At(vec.data, it).first
      modifies vec
      ensures Valid() && Elements() == old(Elements()) + {index}
      ensures Dereferenceable(vec.data, r) && At(vec.data, r).first <= index < At(vec.data, r).second
    {
      Deref(vec.data, it);
      if it != End(vec.data) && At(vec.data, it).first == index + 1 {
        AddToFront(it, index);
        r := it;
      } else {
        r := AddApart(it, index);
      }
    }

    /** The index just before a range extends it downwards. */
    method AddToFront(it: Iter, index: nat)
      requires Valid() && Dereferenceable(vec.data, it) && At(vec.data, it).first == index + 1
      requires Pos(vec.data, it) > 0 ==> Pos(vec.data, it) <= |vec.Contents()| &&
                                         vec.Contents()[Pos(vec.data, it) - 1].second < index
      modifies vec
      ensures Valid() && Elements() == old(Elements()) + {index}
      ensures Dereferenceable(vec.data, it) && At(vec.data, it).first == index < At(vec.data, it).second
    {
      hide Flat, Members, ChunkSound;
      ghost var rs, k, before := vec.Contents(), Pos(vec.data, it), vec.data;
      Deref(vec.data, it);
      assert Nonempty(rs[k]);
      AddByPrepending(rs, k, index);
      vec.Adjust(it, -1, 0);
      DerefAfter(before, vec.data, it);
      assert vec.Contents() == rs[k := Range(index, rs[k].second)];
    }

    /** An index that touches no range becomes a range of its own. */
    method AddApart(it: Iter, index: nat) returns (r: Iter)
      requires Valid() && ValidIter(vec.data, it) && Pos(vec.data, it) <= |vec.Contents()|
      requires Pos(vec.data, it) > 0 ==> vec.Contents()[Pos(vec.data, it) - 1].second < index
      requires it != End(vec.data) ==> index + 1 < At(vec.data, it).first
      modifies vec
      ensures Valid() && Elements() == old(Elements()) + {index}
      ensures Dereferenceable(vec.data, r) && At(vec.data, r) == Range(index, index + 1)
    {
      hide Flat, Members, ChunkSound;
      ghost var rs, k := vec.Contents(), Pos(vec.data, it);
      Deref(vec.data, it);
      if k < |rs| { assert Nonempty(rs[k]); }
      AddByInserting(rs, k, index);
      ghost var t := Spliced(rs, k, k, Range(index, index + 1));
      SeparatedIsOrdered(t);
      assert Inserted(rs, k, Range(index, index + 1)) == t;
      r := vec.Insert(it, Range(index, index + 1));
      Deref(vec.data, r);
      assert vec.Contents() == t;
    }

    /** The index is immediately after an existing range, and may join it to the next one. */
    method AddAfterPrevious(it: Iter, index: nat) returns (r: Iter)
      requires Valid() && ValidIter(vec.data, it)
      requires 0 < Pos(vec.data, it) <= |vec.Contents()|
      requires vec.Contents()[Pos(vec.data, it) - 1].second == index
      requires it != End(vec.data) ==> index < At(vec.data, it).first
      modifies vec
      ensures Valid() && Elements() == old(Elements()) + {index}
      ensures Dereferenceable(vec.data, r) && At(vec.data, r).first <= index < At(vec.data, r).second
    {
      hide Flat, Members, ChunkSound;
      ghost var rs, k, before := vec.Contents(), Pos(vec.data, it), vec.data;
      StepBack(vec.data, it, vec.maxSize);
      Deref(vec.data, it);
      if k < |rs| { assert Nonempty(rs[k]); }
      var prev := Prev(vec.data, it);
      assert Nonempty(rs[k - 1]);
      ghost var t := rs[k - 1 := Range(rs[k - 1].first, index + 1)];
      vec.Adjust(prev, 0, 1);
      assert vec.Contents() == t;
      DerefAfter(before, vec.data, it);
      DerefAfter(before, vec.data, prev);
      if it != End(vec.data) && At(vec.data, prev).second == At(vec.data, it).first {
        assert At(vec.data, it) == rs[k];
        r := JoinNext(prev, it, index, rs);
      } else {
        AddByExtending(rs, k, index);
        r := prev;
      }
    }

    /** The index just added after a range leads straight into the next one: let the first take
        over the second. */
    method JoinNext(prev: Iter, it: Iter, index: nat, ghost rs: seq<Range>) returns (r: Iter)
      requires vec.Intact() && Dereferenceable(vec.data, prev) && Dereferenceable(vec.data, it)
      requires Separated(rs) && 0 < Pos(vec.data, it) < |rs| && Pos(vec.data, prev) == Pos(vec.data, it) - 1
      requires var k := Pos(vec.data, it);
               && rs[k - 1].second == index && rs[k].first == index + 1
               && vec.Contents() == rs[k - 1 := Range(rs[k - 1].first, index + 1)]
      modifies vec
      ensures Valid() && Elements() == Members(rs) + {index}
      ensures Dereferenceable(vec.data, r) && At(vec.data, r).first <= index < At(vec.data, r).second
    {
      hide Flat, Members, ChunkSound;
      ghost var k, between := Pos(vec.data, it), vec.data;
      Deref(vec.data, it);
      Deref(vec.data, prev);
      AddByJoining(rs, k, index);
      assert Nonempty(rs[k]) && Nonempty(rs[k - 1]);
      ghost var joined := Range(rs[k - 1].first, rs[k].second);
      ghost var t := Spliced(rs, k - 1, k + 1, joined);
      JoinedLists(rs, k, Range(rs[k - 1].first, index + 1), joined);
      vec.Adjust(prev, 0, At(vec.data, it).second - At(vec.data, it).first);
      assert vec.Contents() == rs[k - 1 := Range(rs[k - 1].first, index + 1)][k - 1 := joined];
      DerefAfter(between, vec.data, it);
      r := vec.Erase(it);
      assert vec.Contents() == t;
      StepBack(vec.data, r, vec.maxSize);
      r := Prev(vec.data, r);
    }

    /** Add an index to the set, doing nothing if it is already present. */
    method Add(index: nat)
      requires Valid()
      modifies vec
      ensures Valid() && Elements() == old(Elements()) + {index}
    {
      var it := Find(index);
      SeparatedIsOrdered(vec.Contents());
      ScanLocated(vec.Contents(), index, Pos(vec.data, it));
      var _ := DoAdd(it, index);
    }

    /** Add every index of another set, each search starting from where the last one ended.  Adding a
        set to itself changes nothing. */
    method AddAll(other: IndexSet)
      requires Valid() && other.Valid()
      modifies vec
      ensures Valid() && Elements() == old(Elements()) + old(other.Elements())
      ensures other.vec.data == old(other.vec.data)
    {
      hide Flat, Pos, Members, Separated, Sound, Dereferenceable;
      var os := other.vec.data;
      ghost var s, t := Elements(), Members(Flat(os));
      SoundChunks(vec.data, vec.maxSize);
      BeginPos(vec.data);
      var it := Begin(vec.data);
      var i := FirstIndex(os);
      StartIterating(os, other.vec.maxSize);
      while !PastLast(os, i)
        invariant Valid() && Iterating(os, i, t) && other.vec.data == os
        invariant Elements() == s + Below(t, Cursor(os, i))
        invariant !PastLast(os, i) ==> GoodHint(vec.data, it, Cursor(os, i))
        decreases Sup(Flat(os)) - Cursor(os, i)
      {
        KeepIterating(os, i, other.vec.maxSize);
        ghost var c, d := Cursor(os, i), Cursor(os, NextIndex(os, i));
        StepBelow(t, c, d);
        WellFormedIsArranged(vec.data, vec.maxSize);
        var found := FindFrom(IndexOf(os, i), it);
        WellFormedIsArranged(vec.data, vec.maxSize);
        ScanLocated(vec.Contents(), IndexOf(os, i), Pos(vec.data, found));
        it := DoAdd(found, IndexOf(os, i));
        HintFrom(vec.data, it, c, d, vec.maxSize);
        i := NextIndex(os, i);
      }
      assert Below(t, Cursor(os, i)) == t;
    }

    /** Add an index which has had all of the ranges in the set before it removed; the result is
        the index in the set's own numbering. */
    method AddShifted(index: nat) returns (r: nat)
      requires Valid()
      modifies vec
      ensures Valid() && r == NatSets.Shift(old(Elements()), index)
      ensures Elements() == old(Elements()) + {r}
    {
      var it;
      it, r := ShiftPastChunks(index);
      // And any ranges within the last partial chunk.
      Deref(vec.data, it);
      while it != End(vec.data) && At(vec.data, it).first <= r
        invariant vec.data == old(vec.data) && ShiftWalk(vec.data, it, index, r)
        invariant it == End(vec.data) <==> !Dereferenceable(vec.data, it)
        decreases |vec.Contents()| - Pos(vec.data, it)
      {
        ShiftWalkOn(vec.data, it, index, r, vec.maxSize);
        r := r + (At(vec.data, it).second - At(vec.data, it).first);
        it := Next(vec.data, it);
        Deref(vec.data, it);
      }
      ShiftWalkEnds(vec.data, it, index, r, vec.maxSize);
      var _ := DoAdd(it, r);
    }

    /** Shift for any complete chunks before the target. */
    method ShiftPastChunks(index: nat) returns (it: Iter, r: nat)
      requires Valid()
      ensures ShiftWalk(vec.data, it, index, r)
    {
      var cs := vec.data;
      it, r := Begin(cs), index;
      ShiftWalkStarts(cs, index, vec.maxSize);
      while it != End(cs) && cs[it.outer].end <= r
        invariant ShiftWalk(cs, it, index, r) && it.inner == 0
        decreases |cs| - it.outer
      {
        ShiftWalkChunk(cs, it, index, r, vec.maxSize);
        r := r + cs[it.outer].count;
        it := NextChunk(it);
      }
    }

    // -------------------------------------------------------------- renumbering

    /** Moves the range at pos and steps on. */
    method ShiftHere(pos: Iter, distance: int) returns (next: Iter)
      requires vec.Intact() && Dereferenceable(vec.data, pos) && Pos(vec.data, pos) < |vec.Contents()|
      requires vec.Contents()[Pos(vec.data, pos)].first + distance >= 0
      requires vec.Contents()[Pos(vec.data, pos)].second + distance >= 0
      modifies vec
      ensures vec.Intact() && SameLayout(old(vec.data), vec.data)
      ensures vec.Contents() == old(vec.Contents())[Pos(old(vec.data), pos) :=
                Moved(old(vec.Contents())[Pos(old(vec.data), pos)], distance)]
      ensures ValidIter(vec.data, next) && Pos(vec.data, next) == Pos(old(vec.data), pos) + 1
      ensures next == End(vec.data) <==> !Dereferenceable(vec.data, next)
      ensures next == End(vec.data) ==> Pos(vec.data, next) == |vec.Contents()|
    {
      ghost var before := vec.data;
      Deref(before, pos);
      vec.ShiftRange(pos, distance);
      NextAfter(before, vec.data, pos, vec.maxSize);
      next := Next(vec.data, pos);
    }

    /** Shift every range from it on. */
    method ShiftUntilEnd(it: Iter, distance: int)
      requires vec.Intact() && ValidIter(vec.data, it) && Pos(vec.data, it) <= |vec.Contents()|
      requires Movable(vec.Contents()[Pos(vec.data, it)..], distance)
      modifies vec
      ensures vec.Intact() && SameLayout(old(vec.data), vec.data)
      ensures vec.Contents() == old(vec.Contents())[..Pos(old(vec.data), it)]
                              + MovedAll(old(vec.Contents())[Pos(old(vec.data), it)..], distance)
    {
      hide Flat, Members, ChunkSound;
      ghost var rs, k, start := vec.Contents(), Pos(vec.data, it), vec.data;
      ghost var p, ts := k, rs;
      var pos := it;
      Deref(vec.data, pos);
      while pos != End(vec.data)
        invariant vec.Intact() && SameLayout(start, vec.data)
        invariant ValidIter(vec.data, pos) && p == Pos(vec.data, pos)
        invariant pos == End(vec.data) <==> !Dereferenceable(vec.data, pos)
        invariant pos == End(vec.data) ==> p == |rs|
        invariant k <= p <= |rs| && ts == MovedUpTo(rs, k, p, distance)
        invariant vec.Contents() == ts
        decreases |rs| - p
      {
        ghost var before := vec.data;
        Deref(before, pos);
        MovedUpToAt(rs, k, p, distance);
        pos := ShiftHere(pos, distance);
        LayoutTransitive(start, before, vec.data);
        ts := ts[p := Moved(rs[p], distance)];
        p := p + 1;
      }
      MovedThrough(rs, k, distance);
    }

    /** Insert count indices at the given position, shifting existing indices at or after it. */
    method InsertAt(index: nat, count: nat)
      requires Valid() && count > 0
      modifies vec
      ensures Valid() && Elements() == NatSets.InsertAt(old(Elements()), index, count)
    {
      var pos := Find(index);
      SeparatedIsOrdered(vec.Contents());
      ScanLocated(vec.Contents(), index, Pos(vec.data, pos));
      Deref(vec.data, pos);
      if pos != End(vec.data) && At(vec.data, pos).first <= index {
        InsertInsideRange(pos, index, count);
      } else {
        InsertBetweenRanges(pos, index, count);
      }
    }

    /** The position is inside an existing range: grow it. */
    method InsertInsideRange(pos: Iter, index: nat, count: nat)
      requires Valid() && Dereferenceable(vec.data, pos)
      requires At(vec.data, pos).first <= index < At(vec.data, pos).second
      modifies vec
      ensures Valid() && Elements() == NatSets.InsertAt(old(Elements()), index, count)
    {
      hide Flat, Members, ChunkSound;
      ghost var rs, k, before := vec.Contents(), Pos(vec.data, pos), vec.data;
      Deref(vec.data, pos);
      GrowTail(rs, k, index, count);
      ghost var r := Range(rs[k].first, rs[k].second + count);
      vec.Adjust(pos, 0, count);
      assert vec.Contents() == rs[k := r];
      NextAfter(before, vec.data, pos, vec.maxSize);
      ShiftUntilEnd(Next(vec.data, pos), count);
      assert vec.Contents() == rs[k := r][..k + 1] + MovedAll(rs[k := r][k + 1..], count);
      TailAfterSet(rs, k, r, count);
    }

    /** The position is in a gap: shift what follows and add the new indices one by one. */
    method InsertBetweenRanges(it: Iter, index: nat, count: nat)
      requires Valid() && count > 0 && ValidIter(vec.data, it)
      requires Located(vec.Contents(), Pos(vec.data, it), index)
      requires it != End(vec.data) ==> index < At(vec.data, it).first
      modifies vec
      ensures Valid() && Elements() == NatSets.InsertAt(old(Elements()), index, count)
    {
      hide Flat, Members, Separated;
      ghost var rs, k, before := vec.Contents(), Pos(vec.data, it), vec.data;
      Deref(vec.data, it);
      LocatedMember(rs, k, index);
      ShiftTail(rs, k, index, count);
      ShiftUntilEnd(it, count);
      DerefAfter(before, vec.data, it);
      ghost var s := Elements();
      if k < |rs| {
        assert MovedAll(rs[k..], count)[0] == Moved(rs[k], count);
        assert vec.Contents()[k] == Moved(rs[k], count);
      }
      RoomMade(Members(rs), index, count);
      assert Located(vec.Contents(), k, index);
      AddRun(it, index, count);
    }

    /** Add count indices in a row, into a gap with room for them. */
    method AddRun(it: Iter, index: nat, count: nat)
      requires Valid() && ValidIter(vec.data, it) && Located(vec.Contents(), Pos(vec.data, it), index)
      requires RoomFor(Elements(), index, count)
      modifies vec
      ensures Valid() && Elements() == old(Elements()) + Interval(index, index + count)
    {
      hide *;
      ghost var s := Elements();
      ghost var e := s;
      var pos := it;
      assert Interval(index, index) == {};
      for i := 0 to count
        invariant Valid() && Elements() == e && e == s + Interval(index, index + i)
        invariant ValidIter(vec.data, pos) && Located(vec.Contents(), Pos(vec.data, pos), index + i)
      {
        var at := index + i;
        RunStep(s, e, index, i, count, at);
        pos := AddOneOfRun(pos, at);
        e := e + {at};
      }
    }

    /** Add index and step to the range after it, index + 1 not being a member. */
    method AddOneOfRun(it: Iter, index: nat) returns (next: Iter)
      requires Valid() && ValidIter(vec.data, it) && Located(vec.Contents(), Pos(vec.data, it), index)
      requires index + 1 !in Elements()
      modifies vec
      ensures Valid() && Elements() == old(Elements()) + {index}
      ensures ValidIter(vec.data, next) && Located(vec.Contents(), Pos(vec.data, next), index + 1)
    {
      next := DoAdd(it, index);
      LocatedAfter(vec.data, next, index, vec.maxSize);
      next := Next(vec.data, next);
    }

    /** Shift indices at or after the given position without adding any. */
    method ShiftForInsertAt(index: nat, count: nat)
      requires Valid() && count > 0
      modifies vec
      ensures Valid() && Elements() == NatSets.ShiftForInsertAt(old(Elements()), index, count)
    {
      ghost var rs := vec.Contents();
      var it := Find(index);
      ghost var k, before := Pos(vec.data, it), vec.data;
      SeparatedIsOrdered(vec.Contents());
      ScanLocated(rs, index, k);
      Deref(vec.data, it);
      if it == End(vec.data) {
        NothingAbove(rs, index);
        return;
      }
      ShiftUntilEnd(it, count);
      DerefAfter(before, vec.data, it);
      assert MovedAll(rs[k..], count)[0] == Moved(rs[k], count);
      assert At(vec.data, it) == Moved(rs[k], count);
      // If the range contained the insertion point, split the range and move the part of it
      // before the insertion point back.
      if At(vec.data, it).first < index + count {
        SplitShifted(it, index, count, rs);
      } else {
        ShiftTail(rs, k, index, count);
      }
    }

    /** Undo the shift for the part of the range at it that lies before index. */
    method SplitShifted(it: Iter, index: nat, count: nat, ghost rs: seq<Range>)
      requires vec.Intact() && Dereferenceable(vec.data, it) && count > 0
      requires Separated(rs) && Pos(vec.data, it) < |rs| && rs[Pos(vec.data, it)].first < index < rs[Pos(vec.data, it)].second
      requires At(vec.data, it) == Moved(rs[Pos(vec.data, it)], count)
      requires vec.Contents() == rs[..Pos(vec.data, it)] + MovedAll(rs[Pos(vec.data, it)..], count)
      modifies vec
      ensures Valid() && Elements() == NatSets.ShiftForInsertAt(Members(rs), index, count)
    {
      hide Flat, Members, Separated;
      ghost var k, before := Pos(vec.data, it), vec.data;
      SplitTail(rs, k, index, count);
      ghost var t := rs[..k] + [Range(rs[k].first, index)] + [Range(index + count, rs[k].second + count)]
                     + MovedAll(rs[k + 1..], count);
      ghost var shifted := vec.Contents();
      var upper := Range(index + count, At(vec.data, it).second);
      SplitShiftedRanges(rs, k, index, count, shifted, upper);
      vec.SetRange(it, At(vec.data, it).first - count, index);
      assert vec.Contents() == shifted[k := Range(rs[k].first, index)];
      NextAfter(before, vec.data, it, vec.maxSize);
      SeparatedIsOrdered(t);
      var _ := vec.Insert(Next(vec.data, it), upper);
      assert vec.Contents() == t;
    }

    // -------------------------------------------------------------- erasing positions

    /** Delete the index at the given position, shifting indices after that point forward. */
    method EraseAt(index: nat)
      requires Valid()
      modifies vec
      ensures Valid() && Elements() == NatSets.EraseAt(old(Elements()), index)
    {
      var it := Find(index);
      SeparatedIsOrdered(vec.Contents());
      ScanLocated(vec.Contents(), index, Pos(vec.data, it));
      Deref(vec.data, it);
      if it != End(vec.data) {
        DoErase(it, index);
      } else {
        NothingAbove(vec.Contents(), index);
      }
    }

    method DoErase(pos: Iter, index: nat)
      requires Valid() && Dereferenceable(vec.data, pos)
      requires Located(vec.Contents(), Pos(vec.data, pos), index)
      modifies vec
      ensures Valid() && Elements() == NatSets.EraseAt(old(Elements()), index)
    {
      ghost var s := Elements();
      var it := pos;
      Deref(vec.data, it);
      StepBack(vec.data, it, vec.maxSize);
      ghost var t;
      if At(vec.data, it).first <= index {
        it, t := TakeIndexOut(it, index);
      } else if it != Begin(vec.data) && At(vec.data, Prev(vec.data, it)).second + 1 == At(vec.data, it).first {
        it, t := CloseGap(it, index);
      } else {
        EraseGap(vec.Contents(), Pos(vec.data, it), index);
        t := vec.Contents()[..Pos(vec.data, it)] + MovedAll(vec.Contents()[Pos(vec.data, it)..], -1);
      }
      LowerRest(it, t, s, index);
    }

    /** The ranges from it on are moved down by one. */
    method LowerRest(it: Iter, ghost t: seq<Range>, ghost s: set<nat>, index: nat)
      requires TookOut(t, it, s, index)
      modifies vec
      ensures Valid() && Elements() == NatSets.EraseAt(s, index)
    {
      Deref(vec.data, it);
      ShiftUntilEnd(it, -1);
      assert vec.Contents() == t;
    }

    /** The case of an index that is all there is between two ranges, which join. */
    method CloseGap(pos: Iter, index: nat) returns (it: Iter, ghost t: seq<Range>)
      requires Valid() && Dereferenceable(vec.data, pos) && 0 < Pos(vec.data, pos) < |vec.Contents()|
      requires At(vec.data, pos) == vec.Contents()[Pos(vec.data, pos)]
      requires vec.Contents()[Pos(vec.data, pos) - 1].second == index
      requires At(vec.data, pos).first == index + 1
      modifies vec
      ensures TookOut(t, it, old(Elements()), index)
    {
      hide Flat, Members, ChunkSound;
      ghost var rs, k := vec.Contents(), Pos(vec.data, pos);
      EraseJoin(rs, k, index);
      ghost var r := Range(rs[k - 1].first, rs[k].second - 1);
      t := rs[..k - 1] + [r] + MovedAll(rs[k + 1..], -1);
      it := JoinAcrossGap(pos);
      AroundJoined(rs, k, r);
    }

    /** Take index out of the range that holds it.  The result is where the shift has to start,
        and the ranges it will lead to. */
    method TakeIndexOut(pos: Iter, index: nat) returns (it: Iter, ghost t: seq<Range>)
      requires Valid() && Dereferenceable(vec.data, pos)
      requires At(vec.data, pos).first <= index < At(vec.data, pos).second
      modifies vec
      ensures TookOut(t, it, old(Elements()), index)
    {
      Deref(vec.data, pos);
      if At(vec.data, pos).first + 1 == At(vec.data, pos).second {
        it, t := TakeRangeOut(pos, index);
      } else {
        it, t := ShortenRange(pos, index);
      }
    }

    /** The ranges from it on are still to be moved down by one; t is what that will make of them. */
    ghost predicate TookOut(t: seq<Range>, it: Iter, s: set<nat>, index: nat)
      reads vec
    {
      && vec.Intact() && ValidIter(vec.data, it) && Pos(vec.data, it) <= |vec.Contents()|
      && Movable(vec.Contents()[Pos(vec.data, it)..], -1)
      && t == vec.Contents()[..Pos(vec.data, it)] + MovedAll(vec.Contents()[Pos(vec.data, it)..], -1)
      && Separated(t) && Members(t) == NatSets.EraseAt(s, index)
    }

    /** The case of a range that holds nothing but the index. */
    method TakeRangeOut(pos: Iter, index: nat) returns (it: Iter, ghost t: seq<Range>)
      requires Valid() && Dereferenceable(vec.data, pos)
      requires At(vec.data, pos) == Range(index, index + 1)
      modifies vec
      ensures TookOut(t, it, old(Elements()), index)
    {
      ghost var rs, k := vec.Contents(), Pos(vec.data, pos);
      Deref(vec.data, pos);
      EraseSingle(rs, k, index);
      t := rs[..k] + MovedAll(rs[k + 1..], -1);
      TailAfterRemoval(rs, k);
      it := vec.Erase(pos);
    }

    /** The case of a longer range, which loses its last index and keeps its place. */
    method ShortenRange(pos: Iter, index: nat) returns (it: Iter, ghost t: seq<Range>)
      requires Valid() && Dereferenceable(vec.data, pos)
      requires At(vec.data, pos).first <= index < At(vec.data, pos).second
      requires At(vec.data, pos).first + 1 < At(vec.data, pos).second
      modifies vec
      ensures TookOut(t, it, old(Elements()), index)
    {
      hide Flat, Members, Separated;
      ghost var rs, k, before := vec.Contents(), Pos(vec.data, pos), vec.data;
      Deref(vec.data, pos);
      EraseFromRange(rs, k, index);
      ghost var r := Range(rs[k].first, rs[k].second - 1);
      t := rs[..k] + [r] + MovedAll(rs[k + 1..], -1);
      TailAfterSet(rs, k, r, -1);
      vec.Adjust(pos, 0, -1);
      assert vec.Contents() == rs[k := r];
      NextAfter(before, vec.data, pos, vec.maxSize);
      it := Next(vec.data, pos);
    }

    /** Let the range before it take over the length of the range at it, which goes away. */
    method JoinAcrossGap(it: Iter) returns (r: Iter)
      requires vec.Intact() && Dereferenceable(vec.data, it) && 0 < Pos(vec.data, it) < |vec.Contents()|
      requires At(vec.data, it) == vec.Contents()[Pos(vec.data, it)]
      requires AllNonempty(vec.Contents())
      requires vec.Contents()[Pos(vec.data, it) - 1].second + 1 == At(vec.data, it).first
      modifies vec
      ensures vec.Intact() && ValidIter(vec.data, r) && Pos(vec.data, r) == Pos(old(vec.data), it)
      ensures var rs, k := old(vec.Contents()), Pos(old(vec.data), it);
              vec.Contents() == rs[..k - 1] + [Range(rs[k - 1].first, rs[k].second - 1)] + rs[k + 1..]
    {
      hide Flat, Members, ChunkSound;
      ghost var rs, k, before := vec.Contents(), Pos(vec.data, it), vec.data;
      StepBack(vec.data, it, vec.maxSize);
      assert Nonempty(rs[k - 1]) && Nonempty(rs[k]);
      vec.Adjust(Prev(vec.data, it), 0, At(vec.data, it).second - At(vec.data, it).first);
      DerefAfter(before, vec.data, it);
      r := vec.Erase(it);
    }

    /** If the given index is in the set remove it and return NPOS, which no index unshifts to; otherwise
        unshift it. */
    method EraseOrUnshift(index: nat) returns (shifted: nat)
      requires Valid()
      modifies vec
      ensures Valid() && Elements() == NatSets.EraseAt(old(Elements()), index)
      ensures shifted == if index in old(Elements()) then NPOS else NatSets.Unshift(old(Elements()), index)
      ensures index < 0xFFFF_FFFF_FFFF_FFFF ==> (index in old(Elements()) <==> index < shifted)
      ensures index in old(Elements()) ==> shifted == 0xFFFF_FFFF_FFFF_FFFF
    {
      var it;
      it, shifted := UnshiftPast(index);
      LocatedMember(vec.Contents(), Pos(vec.data, it), index);
      Deref(vec.data, it);
      if it == End(vec.data) {
        NothingAbove(vec.Contents(), index);
        return;
      }
      if At(vec.data, it).first <= index {
        shifted := NPOS;
      }
      DoErase(it, index);
    }

    /** Skip the chunks, then the ranges, that end by index, taking their lengths off it. */
    method UnshiftPast(index: nat) returns (it: Iter, shifted: nat)
      requires Valid()
      ensures ValidIter(vec.data, it) && Located(vec.Contents(), Pos(vec.data, it), index)
      ensures index !in Elements() ==> shifted == NatSets.Unshift(Elements(), index)
    {
      hide Flat, Members, Separated;
      var cs := vec.data;
      it, shifted := UnshiftPastChunks(index);
      // And any ranges within the last partial chunk.
      WalkOn(cs, it, index, index - shifted, 0, vec.maxSize);
      while it != End(cs) && At(cs, it).second <= index
        invariant Walked(cs, it, index, index - shifted, 0)
        invariant it == End(cs) <==> !Dereferenceable(cs, it)
        decreases |Flat(cs)| - Pos(cs, it)
      {
        WalkOn(cs, it, index, index - shifted, 0, vec.maxSize);
        WalkBound(cs, Next(cs, it), index, index - shifted + (At(cs, it).second - At(cs, it).first), vec.maxSize);
        shifted := shifted - (At(cs, it).second - At(cs, it).first);
        it := Next(cs, it);
        Deref(cs, it);
      }
      UnshiftWalkEnds(cs, it, index, shifted, vec.maxSize);
    }

    /** Shift for any complete chunks before the target. */
    method UnshiftPastChunks(index: nat) returns (it: Iter, shifted: nat)
      requires Valid()
      ensures Walked(vec.data, it, index, index - shifted, 0)
    {
      var cs := vec.data;
      it, shifted := Begin(cs), index;
      SoundChunks(cs, vec.maxSize);
      BeginPos(cs);
      while it != End(cs) && cs[it.outer].end <= index
        invariant Walked(cs, it, index, index - shifted, 0) && it.inner == 0
        decreases |cs| - it.outer
      {
        WalkChunk(cs, it, index, index - shifted, 0, vec.maxSize);
        WalkBound(cs, NextChunk(it), index, index - shifted + cs[it.outer].count, vec.maxSize);
        shifted := shifted - cs[it.outer].count;
        it := NextChunk(it);
      }
    }

    // -------------------------------------------------------------- removing without renumbering

    /** Remove [first, last), starting the search from hint; the result is where the next search
        may start.  Only an empty interval strictly inside a range leaves ranges that touch. */
    method DoRemove(hint: Iter, first: nat, last: nat) returns (it: Iter)
      requires Valid() && GoodHint(vec.data, hint, first) && first <= last
      modifies vec
      ensures vec.Intact() && Ordered(vec.Contents())
      ensures Elements() == old(Elements()) - Interval(first, last)
      ensures Separated(vec.Contents()) <==> !(first == last && Straddled(old(vec.Contents()), first))
      ensures GoodHint(vec.data, it, last)
      ensures it == End(vec.data) ==> AllBelow(Elements(), last)
    {
      hide Flat, Members, Separated;
      ghost var rs := vec.Contents();
      var begin: nat := first;
      WellFormedIsArranged(vec.data, vec.maxSize);
      it := FindFrom(begin, hint);
      Deref(vec.data, it);
      while it != End(vec.data) && At(vec.data, it).first < last
        invariant vec.Intact() && Removing(rs, first, begin, last, vec.Contents())
        invariant ValidIter(vec.data, it) && Pos(vec.data, it) == Scan(vec.Contents(), begin)
        invariant it == End(vec.data) <==> !Dereferenceable(vec.data, it)
        decreases Members(vec.Contents()) * Interval(begin, last), Separated(vec.Contents())
      {
        Deref(vec.data, it);
        it, begin := RemoveFound(it, begin, last, rs, first);
        it := FindFrom(begin, it);
        Deref(vec.data, it);
      }
      Deref(vec.data, it);
      ScanLocated(vec.Contents(), begin, Pos(vec.data, it));
      RemovalEnds(rs, first, begin, last, vec.Contents(), Pos(vec.data, it));
    }

    /** One round: what the found range has of [begin, last) goes, after skipping to where it starts. */
    method RemoveFound(found: Iter, begin: nat, last: nat, ghost rs: seq<Range>, ghost first: nat)
        returns (it: Iter, b: nat)
      requires vec.Intact() && Removing(rs, first, begin, last, vec.Contents()) && Separated(rs)
      requires Dereferenceable(vec.data, found) && Pos(vec.data, found) == Scan(vec.Contents(), begin)
      requires At(vec.data, found).first < last
      modifies vec
      ensures vec.Intact() && Removing(rs, first, b, last, vec.Contents()) && GoodHint(vec.data, it, b)
      ensures var was, now := old(Members(vec.Contents())) * Interval(begin, last), Members(vec.Contents()) * Interval(b, last);
              now < was || (now == was && old(Separated(vec.Contents())) && !Separated(vec.Contents()))
    {
      ghost var ts, k := vec.Contents(), Pos(vec.data, found);
      Deref(vec.data, found);
      ScanLocated(ts, begin, k);
      StraddledFound(ts, k, begin);
      // Trim off any part of the range to remove that's before the matching range.
      b := if At(vec.data, found).first > begin then At(vec.data, found).first else begin;
      it := RemoveStep(found, b, last);
      RemovalGoesOn(rs, first, begin, last, ts, k, vec.Contents());
    }

    /** Take [begin, last) out of the range at it. */
    method RemoveStep(it: Iter, begin: nat, last: nat) returns (r: Iter)
      requires Valid() && Dereferenceable(vec.data, it) && begin <= last
      requires At(vec.data, it).first <= begin < At(vec.data, it).second && At(vec.data, it).first < last
      modifies vec
      ensures vec.Intact() && Pos(old(vec.data), it) < |old(vec.Contents())|
      ensures StepRemoves(old(vec.Contents()), Pos(old(vec.data), it), begin, last, vec.Contents())
      ensures GoodHint(vec.data, r, begin)
    {
      ghost var rs, k, before, t := vec.Contents(), Pos(vec.data, it), vec.data, [];
      Deref(vec.data, it);
      var range := At(vec.data, it);
      if k > 0 { assert rs[k - 1].second < rs[k].first; }
      if range.first < begin && range.second > last {
        // The matching range extends to both sides of the range to remove: split it.
        r := SplitOn(it, begin, last);
        return;
      } else if begin == range.first && last >= range.second {
        RemoveWhole(rs, k);
        t := rs[..k] + rs[k + 1..];
        r := vec.Erase(it);
      } else if begin == range.first {
        RemoveLower(rs, k, last);
        t := rs[k := Range(last, range.second)];
        vec.SetRange(it, last, range.second);
        DerefAfter(before, vec.data, it);
        r := it;
      } else {
        RemoveUpper(rs, k, begin);
        t := rs[k := Range(range.first, begin)];
        vec.SetRange(it, range.first, begin);
        DerefAfter(before, vec.data, it);
        r := it;
      }
      assert vec.Contents() == t;
      SeparatedIsOrdered(t);
    }

    /** Split the range at it, leaving out [begin, last). */
    method SplitOn(it: Iter, begin: nat, last: nat) returns (r: Iter)
      requires Valid() && Dereferenceable(vec.data, it) && begin <= last
      requires At(vec.data, it).first < begin && last < At(vec.data, it).second
      modifies vec
      ensures vec.Intact() && Pos(old(vec.data), it) < |old(vec.Contents())|
      ensures StepRemoves(old(vec.Contents()), Pos(old(vec.data), it), begin, last, vec.Contents())
      ensures GoodHint(vec.data, r, begin)
    {
      hide Flat, Members, Dereferenceable;
      ghost var rs, k, before := vec.Contents(), Pos(vec.data, it), vec.data;
      Deref(vec.data, it);
      RemoveMiddle(rs, k, begin, last);
      ghost var t := rs[..k] + [Range(rs[k].first, begin)] + [Range(last, rs[k].second)] + rs[k + 1..];
      var oldSecond := At(vec.data, it).second;
      vec.SetRange(it, At(vec.data, it).first, begin);
      NextAfter(before, vec.data, it, vec.maxSize);
      assert Inserted(rs[k := Range(rs[k].first, begin)], k + 1, Range(last, oldSecond)) == t;
      r := vec.Insert(Next(vec.data, it), Range(last, oldSecond));
      assert vec.Contents() == t;
      if begin == last { SplitNotStraddled(t, k, begin); }
      StepBack(vec.data, r, vec.maxSize);
      r := Prev(vec.data, r);
      if k > 0 { assert rs[k - 1].second < rs[k].first; }
    }

    /** Remove count indices from the given one on, without shifting.  Removing none strictly inside
        a range splits it into two ranges that touch, which the invariant does not allow. */
    method Remove(index: nat, count: nat)
      requires Valid()
      modifies vec
      ensures Elements() == old(Elements()) - Interval(index, index + count)
      ensures vec.Intact() && Ordered(vec.Contents())
      ensures Valid() <==> !(count == 0 && Straddled(old(vec.Contents()), index))
    {
      var it := Find(index);
      SeparatedIsOrdered(vec.Contents());
      ScanLocated(vec.Contents(), index, Pos(vec.data, it));
      var _ := DoRemove(it, index, index + count);
    }

    /** Remove a range of another set. */
    method RemoveRange(hint: Iter, range: Range) returns (it: Iter)
      requires Valid() && GoodHint(vec.data, hint, range.first) && range.first < range.second
      modifies vec
      ensures Valid() && Elements() == old(Elements()) - Interval(range.first, range.second)
      ensures forall later: nat | range.second <= later :: GoodHint(vec.data, it, later)
      ensures it == End(vec.data) ==> AllBelow(Elements(), range.second)
    {
      it := DoRemove(hint, range.first, range.second);
    }

    /** Remove every index of another set, each search starting from where the last one ended. */
    method RemoveAll(other: IndexSet)
      requires Valid() && other.Valid() && other.vec != vec
      modifies vec
      ensures Valid() && Elements() == old(Elements()) - other.Elements()
    {
      hide Flat, ChunkSound, Separated;
      var os := other.vec.data;
      ghost var s, t := Elements(), Flat(os);
      SoundChunks(vec.data, vec.maxSize);
      BeginPos(vec.data);
      var it := Begin(vec.data);
      StartRanges(os, other.vec.maxSize);
      var i := Begin(os);
      ghost var k, gone := 0, {};
      while i != End(os)
        invariant Valid() && Elements() == s - gone
        invariant ValidIter(os, i) && k == Pos(os, i) <= |t| && gone == Members(t[..k])
        invariant i == End(os) <==> !Dereferenceable(os, i)
        invariant i == End(os) ==> k == |t|
        invariant i != End(os) ==> GoodHint(vec.data, it, At(os, i).first)
        decreases |t| - k
      {
        NextRange(os, i, k, other.vec.maxSize);
        var range := At(os, i);
        it := RemoveRange(it, range);
        MinusBoth(s, gone, Interval(range.first, range.second));
        gone := gone + Interval(range.first, range.second);
        k := k + 1;
        if it == End(vec.data) {
          NothingLeft(s, gone, t, k, range.second);
          return;
        }
        i := Next(os, i);
      }
      assert t[..|t|] == t;
    }

    // -------------------------------------------------------------- whole sets

    /** Remove all indices and then add those below len. */
    method SetLength(len: nat)
      modifies vec
      ensures Valid() && Elements() == Interval(0, len)
    {
      Clear();
      if len != 0 {
        vec.PushBack(Range(0, len));
        assert vec.Contents() == [Range(0, len)];
        MembersOne(Range(0, len));
      }
    }

    method Clear()
      modifies vec
      ensures Valid() && vec.data == [] && Elements() == {}
    {
      vec.data := [];
    }

    // -------------------------------------------------------------- batches of positions

    /** Write one more index with the builder. */
    static method Emit(builder: ChunkedRangeVectorBuilder, index: nat, ghost out: set<nat>, ghost sup: nat)
      requires HasWritten(builder, out, sup) && sup <= index
      modifies builder
      ensures HasWritten(builder, out + {index}, index + 1)
    {
      AppendedSeparated(builder.Contents(), Range(index, index + 1));
      assert Seg(Range(index, index + 1)) == {index};
      builder.PushIndex(index);
    }

    /** Take over what the builder has written. */
    method Replace(builder: ChunkedRangeVectorBuilder, ghost out: set<nat>, ghost sup: nat)
      requires HasWritten(builder, out, sup) && builder.maxSize == vec.maxSize
      modifies vec, builder
      ensures Valid() && Elements() == out
    {
      hide Flat, Members, Separated;
      var chunks := builder.Finalize();
      ShapedAndCounted(chunks, vec.maxSize);
      vec.data := chunks;
    }

    /** Insert the given positions, shifting existing indices past them. */
    method InsertAtAll(positions: IndexSet)
      requires Valid() && positions.Valid()
      requires positions.vec.maxSize == vec.maxSize
      modifies vec
      ensures Valid()
      ensures Elements() == InsertAll(old(Elements()), old(positions.Elements()))
    {
      if |positions.vec.data| == 0 {
        ShiftByNothing(Elements());
        return;
      }
      if |vec.data| == 0 {
        assert Elements() == {};
        assert ShiftAll({}, positions.Elements()) == {};
        vec.data := positions.vec.data;
        return;
      }
      InsertionMerge(positions);
    }

    method InsertionMerge(positions: IndexSet)
      requires Valid() && positions.Valid()
      modifies vec
      ensures Valid()
      ensures Elements() == InsertAll(old(Elements()), old(positions.Elements()))
    {
      var builder := new ChunkedRangeVectorBuilder(vec);
      var start := Merge(vec.data, vec.maxSize, positions.vec.data, positions.vec.maxSize,
                         FirstIndex(vec.data), FirstIndex(positions.vec.data));
      start.Starts();
      var m, shift;
      ghost var out, sup;
      m, shift, out, sup := InsertWhileBoth(builder, start);
      out, sup := InsertRest(builder, m, shift, out, sup);
      Replace(builder, out, sup);
    }

    /** Writes the next index of the set, moved up by the positions written so far. */
    static method InsertShifted(builder: ChunkedRangeVectorBuilder, m: Merge, shift: nat, ghost out: set<nat>, ghost sup: nat)
        returns (n: Merge, ghost outNow: set<nat>, ghost supNow: nat)
      requires HasWritten(builder, out, sup) && m.Inserts(shift, out, sup)
      requires !PastLast(m.cs, m.b1) && (PastLast(m.ps, m.b2) || IndexOf(m.cs, m.b1) + shift < IndexOf(m.ps, m.b2))
      modifies builder
      ensures HasWritten(builder, outNow, supNow) && n.Inserts(shift, outNow, supNow)
      ensures n.cs == m.cs && n.ps == m.ps && n.b2 == m.b2 && 0 <= n.Left() < m.Left()
    {
      hide HasWritten;
      var index := IndexOf(m.cs, m.b1) + shift;
      m.InsertsTake(shift, out, sup, index);
      n, outNow, supNow := m.Step1(), out + {index}, index + 1;
      Emit(builder, index, out, sup);
    }

    /** Writes the next position. */
    static method InsertPosition(builder: ChunkedRangeVectorBuilder, m: Merge, ghost shift: nat, ghost out: set<nat>, ghost sup: nat)
        returns (n: Merge, ghost outNow: set<nat>, ghost supNow: nat)
      requires HasWritten(builder, out, sup) && m.Inserts(shift, out, sup)
      requires !PastLast(m.ps, m.b2) && (PastLast(m.cs, m.b1) || IndexOf(m.ps, m.b2) <= IndexOf(m.cs, m.b1) + shift)
      modifies builder
      ensures HasWritten(builder, outNow, supNow) && n.Inserts(shift + 1, outNow, supNow)
      ensures n.cs == m.cs && n.ps == m.ps && n.b1 == m.b1 && 0 <= n.Left() < m.Left()
    {
      hide HasWritten;
      var index := IndexOf(m.ps, m.b2);
      m.InsertsPass(shift, out, sup, index);
      n, outNow, supNow := m.Step2(), out + {index}, index + 1;
      Emit(builder, index, out, sup);
    }

    /** Write whichever comes first, a position or a shifted index, while there are both. */
    static method InsertWhileBoth(builder: ChunkedRangeVectorBuilder, start: Merge)
        returns (m: Merge, shift: nat, ghost out: set<nat>, ghost sup: nat)
      requires HasWritten(builder, {}, 0) && start.Inserts(0, {}, 0)
      modifies builder
      ensures HasWritten(builder, out, sup) && m.Inserts(shift, out, sup) && m.cs == start.cs && m.ps == start.ps
      ensures PastLast(m.cs, m.b1) || PastLast(m.ps, m.b2)
    {
      hide HasWritten;
      m, shift, out, sup := start, 0, {}, 0;
      while !PastLast(m.cs, m.b1) && !PastLast(m.ps, m.b2)
        invariant HasWritten(builder, out, sup) && m.Inserts(shift, out, sup)
        invariant m.cs == start.cs && m.ps == start.ps
        decreases m.Left()
      {
        if IndexOf(m.cs, m.b1) + shift < IndexOf(m.ps, m.b2) {
          m, out, sup := InsertShifted(builder, m, shift, out, sup);
        } else {
          m, out, sup := InsertPosition(builder, m, shift, out, sup);
          shift := shift + 1;
        }
      }
    }

    /** Write the shifted indices that are left, then the positions that are left. */
    static method InsertRest(builder: ChunkedRangeVectorBuilder, start: Merge, shift: nat, ghost before: set<nat>, ghost was: nat)
        returns (ghost out: set<nat>, ghost sup: nat)
      requires HasWritten(builder, before, was) && start.Inserts(shift, before, was)
      requires PastLast(start.cs, start.b1) || PastLast(start.ps, start.b2)
      modifies builder
      ensures HasWritten(builder, out, sup) && out == InsertAll(start.S(), start.P())
    {
      hide HasWritten, Flat, Members, Separated;
      var m := start;
      out, sup := before, was;
      while !PastLast(m.cs, m.b1)
        invariant HasWritten(builder, out, sup) && m.Inserts(shift, out, sup)
        invariant m.cs == start.cs && m.ps == start.ps && (PastLast(m.cs, m.b1) || PastLast(m.ps, m.b2))
        decreases m.Left()
      {
        m, out, sup := InsertShifted(builder, m, shift, out, sup);
      }
      ghost var passed := shift;
      while !PastLast(m.ps, m.b2)
        invariant HasWritten(builder, out, sup) && m.Inserts(passed, out, sup)
        invariant m.cs == start.cs && m.ps == start.ps && PastLast(m.cs, m.b1)
        decreases m.Left()
      {
        m, out, sup := InsertPosition(builder, m, passed, out, sup);
        passed := passed + 1;
      }
      m.InsertsEnd(passed, out, sup);
    }

    /** Shift indices past the given positions without adding any. */
    method ShiftForInsertAtAll(values: IndexSet)
      requires Valid() && values.Valid()
      modifies vec
      ensures Valid()
      ensures Elements() == ShiftAll(old(Elements()), old(values.Elements()))
    {
      if |vec.data| == 0 {
        assert ShiftAll({}, values.Elements()) == {};
        return;
      }
      if |values.vec.data| == 0 {
        ShiftByNothing(Elements());
        return;
      }
      AllBeyond(vec.data, vec.maxSize, values.vec.data, values.vec.maxSize);
      if values.vec.data[0].begin >= vec.data[|vec.data| - 1].end {
        return;
      }
      ShiftMerge(values);
    }

    method ShiftMerge(values: IndexSet)
      requires Valid() && values.Valid()
      modifies vec
      ensures Valid()
      ensures Elements() == ShiftAll(old(Elements()), old(values.Elements()))
    {
      var builder := new ChunkedRangeVectorBuilder(vec);
      var start := Merge(vec.data, vec.maxSize, values.vec.data, values.vec.maxSize,
                         FirstIndex(vec.data), FirstIndex(values.vec.data));
      start.Starts();
      var m, shift;
      ghost var out, sup;
      m, shift, out, sup := ShiftWhileBoth(builder, start);
      out, sup := ShiftRest(builder, m, shift, out, sup);
      Replace(builder, out, sup);
    }

    /** Writes the next index of the set, moved up by the positions passed so far. */
    static method ShiftOne(builder: ChunkedRangeVectorBuilder, m: Merge, shift: nat, ghost out: set<nat>, ghost sup: nat)
        returns (n: Merge, ghost outNow: set<nat>, ghost supNow: nat)
      requires HasWritten(builder, out, sup) && m.Shifts(shift, out, sup)
      requires !PastLast(m.cs, m.b1) && (PastLast(m.ps, m.b2) || IndexOf(m.cs, m.b1) + shift < IndexOf(m.ps, m.b2))
      modifies builder
      ensures HasWritten(builder, outNow, supNow) && n.Shifts(shift, outNow, supNow)
      ensures n.cs == m.cs && n.ps == m.ps && n.b2 == m.b2 && 0 <= n.Left() < m.Left()
    {
      hide HasWritten;
      var index := IndexOf(m.cs, m.b1) + shift;
      m.ShiftsTake(shift, out, sup, index);
      n, outNow, supNow := m.Step1(), out + {index}, index + 1;
      assert n.Shifts(shift, outNow, supNow);
      Emit(builder, index, out, sup);
    }

    /** Write the indices, each shifted by the positions passed, while there are positions left. */
    static method ShiftWhileBoth(builder: ChunkedRangeVectorBuilder, start: Merge)
        returns (m: Merge, shift: nat, ghost out: set<nat>, ghost sup: nat)
      requires HasWritten(builder, {}, 0) && start.Shifts(0, {}, 0)
      modifies builder
      ensures HasWritten(builder, out, sup) && m.Shifts(shift, out, sup) && m.cs == start.cs && m.ps == start.ps
      ensures PastLast(m.cs, m.b1) || PastLast(m.ps, m.b2)
    {
      hide HasWritten;
      m, shift, out, sup := start, 0, {}, 0;
      while !PastLast(m.cs, m.b1) && !PastLast(m.ps, m.b2)
        invariant HasWritten(builder, out, sup) && m.Shifts(shift, out, sup)
        invariant m.cs == start.cs && m.ps == start.ps
        decreases m.Left()
      {
        if IndexOf(m.cs, m.b1) + shift < IndexOf(m.ps, m.b2) {
          m, out, sup := ShiftOne(builder, m, shift, out, sup);
        } else {
          m.ShiftsPass(shift, out, sup, IndexOf(m.ps, m.b2));
          shift := shift + 1;
          m := m.Step2();
        }
      }
    }

    /** Write the shifted indices that are left. */
    static method ShiftRest(builder: ChunkedRangeVectorBuilder, start: Merge, shift: nat, ghost before: set<nat>, ghost was: nat)
        returns (ghost out: set<nat>, ghost sup: nat)
      requires HasWritten(builder, before, was) && start.Shifts(shift, before, was)
      requires PastLast(start.cs, start.b1) || PastLast(start.ps, start.b2)
      modifies builder
      ensures HasWritten(builder, out, sup) && out == ShiftAll(start.S(), start.P())
    {
      hide HasWritten;
      var m := start;
      out, sup := before, was;
      while !PastLast(m.cs, m.b1)
        invariant HasWritten(builder, out, sup) && m.Shifts(shift, out, sup)
        invariant m.cs == start.cs && m.ps == start.ps && (PastLast(m.cs, m.b1) || PastLast(m.ps, m.b2))
        decreases m.Left()
      {
        m, out, sup := ShiftOne(builder, m, shift, out, sup);
      }
      m.ShiftsEnd(shift, out, sup);
    }

    /** Delete the given positions, shifting the indices after each of them forward. */
    method EraseAtAll(positions: IndexSet)
      requires Valid() && positions.Valid()
      modifies vec
      ensures Valid()
      ensures Elements() == EraseAll(old(Elements()), old(positions.Elements()))
    {
      if |vec.data| == 0 {
        assert EraseAll({}, positions.Elements()) == {};
        return;
      }
      if |positions.vec.data| == 0 {
        EraseNothing(Elements());
        return;
      }
      var builder := new ChunkedRangeVectorBuilder(vec);
      var m := Merge(vec.data, vec.maxSize, positions.vec.data, positions.vec.maxSize,
                     FirstIndex(vec.data), FirstIndex(positions.vec.data));
      m.Starts();
      EraseMerge(builder, m);
    }

    method EraseMerge(builder: ChunkedRangeVectorBuilder, start: Merge)
      requires HasWritten(builder, {}, 0) && builder.maxSize == vec.maxSize && start.Erases(0, {}, 0)
      modifies vec, builder
      ensures Valid() && Elements() == EraseAll(start.S(), start.P())
    {
      var m, shift;
      ghost var out, sup;
      m, shift, out, sup := EraseWhileBoth(builder, start);
      out, sup := EraseRest(builder, m, shift, out, sup);
      Replace(builder, out, sup);
    }

    /** Writes the next index of the set, moved down by the positions passed so far. */
    static method EraseOne(builder: ChunkedRangeVectorBuilder, m: Merge, shift: nat, ghost out: set<nat>, ghost sup: nat)
        returns (n: Merge, ghost outNow: set<nat>, ghost supNow: nat)
      requires HasWritten(builder, out, sup) && m.Erases(shift, out, sup)
      requires !PastLast(m.cs, m.b1) && (PastLast(m.ps, m.b2) || IndexOf(m.cs, m.b1) < IndexOf(m.ps, m.b2))
      modifies builder
      ensures HasWritten(builder, outNow, supNow) && n.Erases(shift, outNow, supNow)
      ensures n.cs == m.cs && n.ps == m.ps && n.b2 == m.b2 && 0 <= n.Left() < m.Left()
    {
      hide HasWritten;
      m.ErasesRoom(shift, out, sup);
      var index: nat := IndexOf(m.cs, m.b1) - shift;
      m.ErasesTake(shift, out, sup, index);
      n, outNow, supNow := m.Step1(), out + {index}, index + 1;
      Emit(builder, index, out, sup);
    }

    /** Write the indices that are not erased, each moved down by the positions passed, while there
        are positions left. */
    static method EraseWhileBoth(builder: ChunkedRangeVectorBuilder, start: Merge)
        returns (m: Merge, shift: nat, ghost out: set<nat>, ghost sup: nat)
      requires HasWritten(builder, {}, 0) && start.Erases(0, {}, 0)
      modifies builder
      ensures HasWritten(builder, out, sup) && m.Erases(shift, out, sup) && m.cs == start.cs && m.ps == start.ps
      ensures PastLast(m.cs, m.b1) || PastLast(m.ps, m.b2)
    {
      hide HasWritten;
      m, shift, out, sup := start, 0, {}, 0;
      while !PastLast(m.cs, m.b1) && !PastLast(m.ps, m.b2)
        invariant HasWritten(builder, out, sup) && m.Erases(shift, out, sup)
        invariant m.cs == start.cs && m.ps == start.ps
        decreases m.Left()
      {
        if IndexOf(m.cs, m.b1) < IndexOf(m.ps, m.b2) {
          m, out, sup := EraseOne(builder, m, shift, out, sup);
        } else if IndexOf(m.cs, m.b1) == IndexOf(m.ps, m.b2) {
          m.ErasesDrop(shift, out, sup);
          shift := shift + 1;
          m := m.Step1().Step2();
        } else {
          m.ErasesPass(shift, out, sup);
          shift := shift + 1;
          m := m.Step2();
        }
      }
    }

    /** Write the moved indices that are left. */
    static method EraseRest(builder: ChunkedRangeVectorBuilder, start: Merge, shift: nat, ghost before: set<nat>, ghost was: nat)
        returns (ghost out: set<nat>, ghost sup: nat)
      requires HasWritten(builder, before, was) && start.Erases(shift, before, was)
      requires PastLast(start.cs, start.b1) || PastLast(start.ps, start.b2)
      modifies builder
      ensures HasWritten(builder, out, sup) && out == EraseAll(start.S(), start.P())
    {
      hide HasWritten;
      var m := start;
      out, sup := before, was;
      while !PastLast(m.cs, m.b1)
        invariant HasWritten(builder, out, sup) && m.Erases(shift, out, sup)
        invariant m.cs == start.cs && m.ps == start.ps && (PastLast(m.cs, m.b1) || PastLast(m.ps, m.b2))
        decreases m.Left()
      {
        m, out, sup := EraseOne(builder, m, shift, out, sup);
      }
      m.ErasesEnd(shift, out, sup);
    }

    // -------------------------------------------------------------- add_shifted_by

    /** Add indices which have had the ranges in shiftedBy added and the ranges in this set removed.
        The ranges are always right; the cached counts are, too, unless the copy of the last ranges
        opens a chunk beyond the reserved ones with more than one index. */
    method AddShiftedBy(shiftedBy: IndexSet, values: IndexSet)
      requires Valid() && shiftedBy.Valid() && values.Valid()
      modifies vec
      ensures Shaped(vec.data, vec.maxSize) && Separated(vec.Contents())
      ensures Elements() == NatSets.AddShiftedBy(old(Elements()), old(shiftedBy.Elements()), old(values.Elements()))
      ensures forall rs | RangesOf(rs, NatSets.AddShiftedBy(old(Elements()), old(shiftedBy.Elements()), old(values.Elements()))) ::
                Valid() <==> !TailMiscounts(Reserved(|old(vec.Contents())|, vec.maxSize),
                                            Translated(old(Elements()), old(shiftedBy.Elements()), old(values.Elements())),
                                            rs, vec.maxSize)
    {
      ghost var before, s, t, v := vec.Contents(), Elements(), shiftedBy.Elements(), values.Elements();
      if |values.vec.data| == 0 {
        NothingMiscounts(before, Translated(s, t, v), vec.maxSize);
      } else {
        AddShiftedMerge(shiftedBy.vec.data, shiftedBy.vec.maxSize, values.vec.data, values.vec.maxSize);
      }
      forall rs | RangesOf(rs, NatSets.AddShiftedBy(s, t, v)) ensures rs == vec.Contents() {
        Canonical(rs, vec.Contents());
      }
    }

    method AddShiftedMerge(ts: seq<Chunk>, ghost tcap: nat, vs: seq<Chunk>, ghost vcap: nat)
      requires Valid() && WellFormed(ts, tcap) && WellFormed(vs, vcap)
      modifies vec
      ensures Shaped(vec.data, vec.maxSize) && Separated(vec.Contents())
      ensures Elements() == NatSets.AddShiftedBy(old(Elements()), Members(Flat(ts)), Members(Flat(vs)))
      ensures Valid() <==> !TailMiscounts(Reserved(|old(vec.Contents())|, vec.maxSize),
                                          Translated(old(Elements()), Members(Flat(ts)), Members(Flat(vs))),
                                          vec.Contents(), vec.maxSize)
    {
      hide Flat, Total;
      var builder := new ChunkedRangeVectorBuilder(vec);
      var oldIt;
      ghost var added, out, sup;
      oldIt, added, out, sup := Translate(builder, vec.data, ts, tcap, vs, vcap);
      CopyTail(builder, oldIt, added, out, sup);
    }

    /** Copy the ranges from oldIt on and take over what the builder has written. */
    method CopyTail(builder: ChunkedRangeVectorBuilder, oldIt: Iter, ghost added: set<nat>, ghost out: set<nat>, ghost sup: nat)
      requires Valid() && HasWritten(builder, out, sup)
      requires builder.maxSize == vec.maxSize
      requires ValidIter(vec.data, oldIt) && CopiedUpTo(vec.Contents(), Pos(vec.data, oldIt), added, out, sup)
      modifies vec, builder
      ensures Shaped(vec.data, vec.maxSize) && Separated(vec.Contents())
      ensures Elements() == old(Elements()) + added
      ensures Valid() <==> !TailMiscounts(builder.reserved, added, vec.Contents(), vec.maxSize)
    {
      ghost var o, j, rs := vec.Contents(), Pos(vec.data, oldIt), builder.Contents();
      ghost var ts, right := AppendedAll(rs, o[j..]), CopiesRight(rs, o[j..], builder.reserved, builder.maxSize);
      CopiedTail(o, j, rs, added, out, sup);
      CopiedTailCounts(o, j, rs, added, out, sup, builder.reserved, builder.maxSize);
      CopyRanges(builder, vec.data, oldIt);
      assert builder.Contents() == ts && builder.CountsRight() == right;
      var chunks := builder.Finalize();
      SoundIff(chunks, vec.maxSize);
      vec.data := chunks;
    }

    /** Push the ranges from oldIt on. */
    method CopyRanges(builder: ChunkedRangeVectorBuilder, os: seq<Chunk>, oldIt: Iter)
      requires WellFormed(os, builder.maxSize) && ValidIter(os, oldIt) && Pos(os, oldIt) <= |Flat(os)|
      requires builder.Valid() && builder.CountsRight()
      modifies builder
      ensures builder.Valid()
      ensures builder.Contents() == AppendedAll(old(builder.Contents()), Flat(os)[Pos(os, oldIt)..])
      ensures builder.CountsRight() <==>
              CopiesRight(old(builder.Contents()), Flat(os)[Pos(os, oldIt)..], builder.reserved, builder.maxSize)
    {
      ghost var o, j, rs, k := Flat(os), Pos(os, oldIt), builder.Contents(), Pos(os, oldIt);
      ghost var ts, right := rs, true;
      var it := oldIt;
      Deref(os, it);
      CopyStarts(rs, o, j, builder.reserved, builder.maxSize);
      while it != End(os)
        invariant ValidIter(os, it) && k == Pos(os, it) && (it == End(os) <==> !Dereferenceable(os, it))
        invariant it == End(os) ==> k == |o|
        invariant Copied(rs, o, j, k, ts, right, builder.reserved, builder.maxSize)
        invariant builder.Valid() && builder.Contents() == ts && builder.CountsRight() == right
        decreases |o| - k
      {
        StepRange(os, it, k, builder.maxSize);
        CopyStep(rs, o, j, k, ts, right, builder.reserved, builder.maxSize);
        right := right && !Miscounts(ts, o[k], builder.reserved, builder.maxSize);
        ts := Appended(ts, o[k]);
        builder.PushRange(At(os, it));
        it := Next(os, it);
        k := k + 1;
      }
      CopyEnds(rs, o, j, ts, right, builder.reserved, builder.maxSize);
    }

    /** Go through the values in order, copying the ranges of this set that lie before each. */
    method Translate(builder: ChunkedRangeVectorBuilder, os: seq<Chunk>, ts: seq<Chunk>, ghost tcap: nat,
                     vs: seq<Chunk>, ghost vcap: nat)
        returns (oldIt: Iter, ghost added: set<nat>, ghost out: set<nat>, ghost sup: nat)
      requires WellFormed(os, vec.maxSize) && WellFormed(ts, tcap) && WellFormed(vs, vcap)
      requires HasWritten(builder, {}, 0)
      modifies builder
      ensures HasWritten(builder, out, sup) && ValidIter(os, oldIt)
      ensures added == Translated(Members(Flat(os)), Members(Flat(ts)), Members(Flat(vs)))
      ensures CopiedUpTo(Flat(os), Pos(os, oldIt), added, out, sup)
    {
      ghost var v, w: nat := Members(Flat(vs)), 0;
      var i, at := FirstIndex(vs), Translation(os, ts, Begin(os), 0, Begin(ts), 0, 0);
      out, sup := {}, 0;
      StartIterating(vs, vcap);
      at.Starts(vec.maxSize, tcap, v, Cursor(vs, i));
      hide *;
      while !PastLast(vs, i)
        invariant HasWritten(builder, out, sup) && Stands(vs, vcap, i)
        invariant at.os == os && at.ts == ts && at.Stands(vec.maxSize, tcap, v, Cursor(vs, i), w, out, sup)
        decreases Sup(Flat(vs)) - Cursor(vs, i)
      {
        Advance(vs, vcap, i);
        at, w, out, sup := TranslateIndex(builder, at, tcap, IndexOf(vs, i), v, Cursor(vs, NextIndex(vs, i)), w, out, sup);
        i := NextIndex(vs, i);
      }
      oldIt := at.oldIt;
      added := at.Ends(vec.maxSize, tcap, v, Cursor(vs, i), w, out, sup);
    }

    /** Pass over an index inside shiftedBy, place any other. */
    method TranslateIndex(builder: ChunkedRangeVectorBuilder, at: Translation, ghost tcap: nat, index: nat,
                          ghost v: set<nat>, ghost d: nat, ghost w: nat, ghost before: set<nat>, ghost was: nat)
        returns (next: Translation, ghost w': nat, ghost out: set<nat>, ghost sup: nat)
      requires HasWritten(builder, before, was)
      requires at.Stands(vec.maxSize, tcap, v, index, w, before, was) && CursorStep(v, index, d)
      modifies builder
      ensures HasWritten(builder, out, sup) && next.os == at.os && next.ts == at.ts
      ensures next.Stands(vec.maxSize, tcap, v, d, w', out, sup)
    {
      hide HasWritten;
      var shiftIt, newShift, skipUntil := PassRanges(at.ts, tcap, at.shiftIt, at.newShift, at.skipUntil, index);
      next := at.(shiftIt := shiftIt, newShift := newShift, skipUntil := skipUntil);
      if index < skipUntil {
        next.Skips(vec.maxSize, tcap, v, index, d, w, before, was);
        return next, w, before, was;
      }
      w' := index - newShift + 1;
      next, out, sup := PlaceNext(builder, next, tcap, index - newShift, v, index, d, w, before, was);
    }

    /** Pass the ranges that start by index. */
    static method PassRanges(ts: seq<Chunk>, ghost cap: nat, from: Iter, shift: nat, until: nat, index: nat)
        returns (it: Iter, newShift: nat, skipUntil: nat)
      requires WellFormed(ts, cap) && ValidIter(ts, from) && PassedBy(Flat(ts), Pos(ts, from), shift, until, index)
      ensures ValidIter(ts, it) && PassedBy(Flat(ts), Pos(ts, it), newShift, skipUntil, index)
      ensures index < skipUntil <==> index in Members(Flat(ts))
      ensures index !in Members(Flat(ts)) ==>
                newShift <= index && index - newShift == NatSets.Unshift(Members(Flat(ts)), index)
    {
      it, newShift, skipUntil := from, shift, until;
      Deref(ts, it);
      while it != End(ts) && At(ts, it).first <= index
        invariant ValidIter(ts, it) && PassedBy(Flat(ts), Pos(ts, it), newShift, skipUntil, index)
        invariant it == End(ts) <==> !Dereferenceable(ts, it)
        decreases |Flat(ts)| - Pos(ts, it)
      {
        PassOne(ts, cap, it, newShift, skipUntil, index);
        newShift := newShift + (At(ts, it).second - At(ts, it).first);
        skipUntil := At(ts, it).second;
        it := Next(ts, it);
      }
      Deref(ts, it);
      PassedTo(Flat(ts), Pos(ts, it), newShift, skipUntil, index);
    }

    /** Place index c of the values, which unshifts to u, and go on to d. */
    method PlaceNext(builder: ChunkedRangeVectorBuilder, at: Translation, ghost tcap: nat, u: nat,
                     ghost v: set<nat>, ghost c: nat, ghost d: nat, ghost w: nat, ghost before: set<nat>, ghost was: nat)
        returns (next: Translation, ghost out: set<nat>, ghost sup: nat)
      requires HasWritten(builder, before, was)
      requires at.Stands(vec.maxSize, tcap, v, c, w, before, was)
      requires CursorStep(v, c, d) && c !in Members(Flat(at.ts)) && u == NatSets.Unshift(Members(Flat(at.ts)), c)
      modifies builder
      ensures HasWritten(builder, out, sup) && next.os == at.os && next.ts == at.ts
      ensures next.Stands(vec.maxSize, tcap, v, d, u + 1, out, sup)
    {
      ghost var added := at.Ready(vec.maxSize, tcap, v, c, w, before, was, u);
      hide HasWritten, Placing, EndsWithAdded, TranslatedBelow;
      var oldIt, oldShift, y;
      oldIt, oldShift, y, out := PlaceShifted(builder, at.os, at.oldIt, at.oldShift, u, added, before, was);
      next := at.(oldIt := oldIt, oldShift := oldShift);
      sup := y + 1;
      next.Placed(vec.maxSize, tcap, v, c, d, added, u, y, out);
    }

    /** Copy the ranges that start at or before the place that u shifts to, and write that place. */
    method PlaceShifted(builder: ChunkedRangeVectorBuilder, os: seq<Chunk>, from: Iter, shift: nat, u: nat,
                        ghost added: set<nat>, ghost before: set<nat>, ghost was: nat)
        returns (it: Iter, oldShift: nat, y: nat, ghost out: set<nat>)
      requires WellFormed(os, vec.maxSize) && ValidIter(os, from) && HasWritten(builder, before, was)
      requires Placing(Flat(os), Pos(os, from), shift, u, added, before, was) && EndsWithAdded(added, before, was)
      modifies builder
      ensures HasWritten(builder, out, y + 1) && ValidIter(os, it)
      ensures y == NatSets.Shift(Members(Flat(os)), u)
      ensures Placing(Flat(os), Pos(os, it), oldShift, u + 1, added + {y}, out, y + 1)
      ensures EndsWithAdded(added + {y}, out, y + 1)
    {
      hide HasWritten;
      ghost var sup;
      it, oldShift, out, sup := CopyBefore(builder, os, from, shift, u, added, before, was);
      ghost var o, j := Flat(os), Pos(os, it);
      y := u + oldShift;
      PlaceOneMore(o, j, oldShift, u, added, before, was, out, sup, y);
      Emit(builder, y, out, sup);
      out := out + {y};
    }

    /** Copy the ranges that start at or before the place that u shifts to. */
    method CopyBefore(builder: ChunkedRangeVectorBuilder, os: seq<Chunk>, from: Iter, shift: nat, u: nat,
                      ghost added: set<nat>, ghost before: set<nat>, ghost was: nat)
        returns (it: Iter, oldShift: nat, ghost out: set<nat>, ghost sup: nat)
      requires WellFormed(os, vec.maxSize) && ValidIter(os, from)
      requires HasWritten(builder, before, was) && Placing(Flat(os), Pos(os, from), shift, u, added, before, was)
      modifies builder
      ensures HasWritten(builder, out, sup) && was <= sup && ValidIter(os, it)
      ensures Placing(Flat(os), Pos(os, it), oldShift, u, added, out, sup)
      ensures Pos(os, it) < |Flat(os)| ==> u + oldShift < Flat(os)[Pos(os, it)].first
    {
      hide *;
      it, oldShift, out, sup := from, shift, before, was;
      CopyFrom(os, it, oldShift, u, added, out, sup);
      while it != End(os) && At(os, it).first <= u + oldShift
        invariant HasWritten(builder, out, sup) && was <= sup
        invariant PlacingAt(os, it, oldShift, u, added, out, sup) && (it == End(os) <==> !Dereferenceable(os, it))
        invariant ValidIter(os, it)
        decreases |Flat(os)| - Pos(os, it)
      {
        var range := At(os, it);
        CopyNext(os, vec.maxSize, it, oldShift, u, added, out, sup);
        EmitRange(builder, range, out, sup);
        out, sup := out + Interval(range.first, range.second), range.second;
        oldShift := oldShift + (range.second - range.first);
        it := Next(os, it);
      }
      CopiedBefore(os, it, oldShift, u, added, out, sup);
    }

    /** Write the indices of a range one by one. */
    static method EmitRange(builder: ChunkedRangeVectorBuilder, range: Range, ghost before: set<nat>, ghost was: nat)
      requires HasWritten(builder, before, was) && was <= range.first < range.second
      modifies builder
      ensures HasWritten(builder, before + Interval(range.first, range.second), range.second)
    {
      ghost var out: set<nat>, sup: nat := before, was;
      var i: nat := range.first;
      IntervalGrows(before, i, i);
      while i < range.second
        invariant range.first <= i <= range.second
        invariant HasWritten(builder, out, sup) && sup <= i && (i > range.first ==> sup == i)
        invariant out == before + Interval(range.first, i)
      {
        Emit(builder, i, out, sup);
        IntervalGrows(before, range.first, i);
        out, sup := out + {i}, i + 1;
        i := i + 1;
      }
    }
  }

  // ---------------------------------------------------------------- steps of the shift walk

  /** The walk has passed the ranges that lie before r, which is index moved past all of them. */
  ghost predicate ShiftWalk(cs: seq<Chunk>, it: Iter, index: nat, r: nat) {
    && ValidIter(cs, it) && Pos(cs, it) <= |Flat(cs)|
    && Separated(Flat(cs))
    && (Pos(cs, it) > 0 ==> Flat(cs)[Pos(cs, it) - 1].second <= r)
    && r == index + TotalBefore(Flat(cs), Pos(cs, it))
  }

  lemma {:induction false} ShiftWalkStarts(cs: seq<Chunk>, index: nat, cap: nat)
    requires WellFormed(cs, cap)
    ensures ShiftWalk(cs, Begin(cs), index, index)
    ensures Begin(cs) == End(cs) <==> !Dereferenceable(cs, Begin(cs))
  {
    SoundChunks(cs, cap);
    BeginPos(cs);
    Deref(cs, Begin(cs));
  }

  lemma {:induction false} ShiftWalkOn(cs: seq<Chunk>, it: Iter, index: nat, r: nat, cap: nat)
    requires WellFormed(cs, cap) && ShiftWalk(cs, it, index, r) && Dereferenceable(cs, it) && At(cs, it).first <= r
    ensures At(cs, it).first < At(cs, it).second
    ensures ShiftWalk(cs, Next(cs, it), index, r + (At(cs, it).second - At(cs, it).first))
    ensures Pos(cs, Next(cs, it)) == Pos(cs, it) + 1
  {
    StepOver(cs, it, cap);
  }

  lemma {:induction false} ShiftWalkChunk(cs: seq<Chunk>, it: Iter, index: nat, r: nat, cap: nat)
    requires WellFormed(cs, cap) && ShiftWalk(cs, it, index, r) && it.inner == 0
    requires it.outer < |cs| && cs[it.outer].end <= r
    ensures ShiftWalk(cs, NextChunk(it), index, r + cs[it.outer].count)
  {
    SkipChunk(cs, it, cap);
  }

  /** When the next range lies beyond r, r is the position that index shifts to. */
  lemma {:induction false} ShiftWalkEnds(cs: seq<Chunk>, it: Iter, index: nat, r: nat, cap: nat)
    requires WellFormed(cs, cap) && ShiftWalk(cs, it, index, r)
    requires it == End(cs) || r < At(cs, it).first
    ensures r == NatSets.Shift(Members(Flat(cs)), index)
    ensures Located(Flat(cs), Pos(cs, it), r)
  {
    StepOver(cs, it, cap);
    var rs, k := Flat(cs), Pos(cs, it);
    RankBetween(rs, k, r);
    LocatedMember(rs, k, r);
    ShiftUnique(Members(rs), index, r);
  }

  // ---------------------------------------------------------------- steps of the shifting loop

  lemma {:induction false} LayoutTransitive(cs: seq<Chunk>, ds: seq<Chunk>, es: seq<Chunk>)
    requires SameLayout(cs, ds) && SameLayout(ds, es)
    ensures SameLayout(cs, es)
  {
  }

  /** rs with the ranges from k up to p moved by d, one after the other. */
  ghost function MovedUpTo(rs: seq<Range>, k: nat, p: nat, d: int): (ts: seq<Range>)
    requires k <= p <= |rs| && Movable(rs[k..], d)
    ensures |ts| == |rs|
  {
    if p == k then rs
    else
      assert rs[k..][p - 1 - k] == rs[p - 1];
      MovedUpTo(rs, k, p - 1, d)[p - 1 := Moved(rs[p - 1], d)]
  }

  lemma {:induction false} MovedToEnd(rs: seq<Range>, k: nat, p: nat, d: int)
    requires k <= p <= |rs| && Movable(rs[k..], d)
    ensures MovedUpTo(rs, k, p, d) == rs[..k] + MovedAll(rs[k..], d)[..p - k] + rs[p..]
  {
    var m := MovedAll(rs[k..], d);
    if p > k {
      MovedToEnd(rs, k, p - 1, d);
      assert rs[k..][p - 1 - k] == rs[p - 1];
      assert m[..p - k] == m[..p - 1 - k] + [Moved(rs[p - 1], d)];
      assert rs[p - 1..] == [rs[p - 1]] + rs[p..];
    }
  }

  lemma {:induction false} MovedUpToAt(rs: seq<Range>, k: nat, p: nat, d: int)
    requires k <= p < |rs| && Movable(rs[k..], d)
    ensures MovedUpTo(rs, k, p, d)[p] == rs[p] && rs[p].first + d >= 0 && rs[p].second + d >= 0
  {
    MovedToEnd(rs, k, p, d);
    assert rs[k..][p - k] == rs[p];
  }

  // ---------------------------------------------------------------- lists after partial edits

  lemma {:induction false} JoinedLists(rs: seq<Range>, k: nat, a: Range, b: Range)
    requires 0 < k < |rs|
    ensures Removed(rs[k - 1 := a][k - 1 := b], k) == Spliced(rs, k - 1, k + 1, b)
  {
  }

  lemma {:induction false} TailAfterRemoval(rs: seq<Range>, k: nat)
    requires k < |rs|
    ensures Removed(rs, k)[..k] == rs[..k] && Removed(rs, k)[k..] == rs[k + 1..]
  {
  }

  lemma {:induction false} AroundJoined(rs: seq<Range>, k: nat, r: Range)
    requires 0 < k < |rs|
    ensures (rs[..k - 1] + [r] + rs[k + 1..])[..k] == rs[..k - 1] + [r]
    ensures (rs[..k - 1] + [r] + rs[k + 1..])[k..] == rs[k + 1..]
  {
  }

  /** Setting range k and then moving the rest. */
  lemma {:induction false} TailAfterSet(rs: seq<Range>, k: nat, r: Range, d: int)
    requires k < |rs| && Movable(rs[k + 1..], d)
    ensures rs[k := r][k + 1..] == rs[k + 1..]
    ensures rs[k := r][..k + 1] + MovedAll(rs[k := r][k + 1..], d) == rs[..k] + [r] + MovedAll(rs[k + 1..], d)
  {
    assert rs[k := r][k + 1..] == rs[k + 1..];
  }

  /** No member in the count positions at i, nor right after them. */
  ghost predicate RoomFor(s: set<nat>, i: nat, count: nat) {
    forall y: nat | i <= y <= i + count :: y !in s
  }

  lemma {:induction false} RunStep(s: set<nat>, e: set<nat>, index: nat, i: nat, count: nat, at: nat)
    requires i < count && RoomFor(s, index, count) && at == index + i
    requires e == s + Interval(index, index + i)
    ensures e + {at} == s + Interval(index, index + (i + 1))
    ensures at + 1 !in e
  {
  }

  /** The positions made room for are not members. */
  lemma {:induction false} RoomMade(s: set<nat>, i: nat, c: nat)
    requires i !in s
    ensures RoomFor(NatSets.ShiftForInsertAt(s, i, c), i, c)
    ensures NatSets.InsertAt(s, i, c) == NatSets.ShiftForInsertAt(s, i, c) + Interval(i, i + c)
  {
    forall y: nat | i <= y <= i + c ensures y !in NatSets.ShiftForInsertAt(s, i, c) {
      ShiftForInsertAtMember(s, i, c, y);
    }
  }

  lemma {:induction false} SplitShiftedRanges(rs: seq<Range>, k: nat, index: nat, count: nat, shifted: seq<Range>, upper: Range)
    requires k < |rs| && count > 0 && shifted == rs[..k] + MovedAll(rs[k..], count)
    requires upper == Range(index + count, rs[k].second + count)
    ensures Inserted(shifted[k := Range(rs[k].first, index)], k + 1, upper) ==
            rs[..k] + [Range(rs[k].first, index)] + [Range(index + count, rs[k].second + count)] + MovedAll(rs[k + 1..], count)
  {
    var m := MovedAll(rs[k..], count);
    assert m[1..] == MovedAll(rs[k + 1..], count);
  }

  lemma {:induction false} UnshiftWalkEnds(cs: seq<Chunk>, it: Iter, index: nat, shifted: nat, cap: nat)
    requires WellFormed(cs, cap) && Walked(cs, it, index, index - shifted, 0)
    requires it == End(cs) || At(cs, it).second > index
    ensures Located(Flat(cs), Pos(cs, it), index)
    ensures index !in Members(Flat(cs)) ==> shifted == NatSets.Unshift(Members(Flat(cs)), index)
  {
    Deref(cs, it);
    WalkEnds(cs, it, index, index - shifted, 0, cap);
    LocatedMember(Flat(cs), Pos(cs, it), index);
  }

  // ---------------------------------------------------------------- removing another set

  lemma {:induction false} StartRanges(cs: seq<Chunk>, cap: nat)
    requires WellFormed(cs, cap)
    ensures ValidIter(cs, Begin(cs)) && Pos(cs, Begin(cs)) == 0
    ensures Begin(cs) == End(cs) <==> !Dereferenceable(cs, Begin(cs))
    ensures Begin(cs) == End(cs) <==> Flat(cs) == []
  {
    SoundChunks(cs, cap);
    BeginPos(cs);
    Deref(cs, Begin(cs));
  }

  lemma {:induction false} NextRange(cs: seq<Chunk>, i: Iter, k: nat, cap: nat)
    requires WellFormed(cs, cap) && Dereferenceable(cs, i) && k == Pos(cs, i)
    ensures k < |Flat(cs)| && At(cs, i) == Flat(cs)[k] && At(cs, i).first < At(cs, i).second
    ensures Members(Flat(cs)[..k + 1]) == Members(Flat(cs)[..k]) + Interval(At(cs, i).first, At(cs, i).second)
    ensures var n := Next(cs, i);
            && ValidIter(cs, n) && Pos(cs, n) == k + 1
            && (n == End(cs) <==> !Dereferenceable(cs, n))
            && (n == End(cs) ==> k + 1 == |Flat(cs)|)
            && (n != End(cs) ==> At(cs, i).second < At(cs, n).first)
  {
    StepRange(cs, i, k, cap);
    Deref(cs, Next(cs, i));
    var t := Flat(cs);
    if k + 1 < |t| { assert t[k].second < t[k + 1].first; }
    MembersSplit(t[..k + 1], k);
    assert t[..k + 1][..k] == t[..k] && t[..k + 1][k..] == [t[k]];
    MembersOne(t[k]);
  }

  /** Once every element is below b, later ranges have nothing to remove. */
  lemma {:induction false} NothingLeft(s: set<nat>, gone: set<nat>, t: seq<Range>, k: nat, b: nat)
    requires Separated(t) && 0 < k <= |t| && t[k - 1].second == b
    requires gone == Members(t[..k]) && AllBelow(s - gone, b)
    ensures s - gone == s - Members(t)
  {
    SeparatedIsOrdered(t);
    if k < |t| { assert t[k - 1].second < t[k].first; }
    DividedMembers(t, k, b);
  }

  // ---------------------------------------------------------------- writing with a builder

  /** The builder holds maximal ranges with right counts: those of out, the last of which ends
      at sup. */
  ghost predicate HasWritten(builder: ChunkedRangeVectorBuilder, out: set<nat>, sup: nat)
    reads builder
  {
    && builder.Valid() && builder.CountsRight()
    && Separated(builder.Contents()) && Members(builder.Contents()) == out && Sup(builder.Contents()) == sup
  }

  lemma {:induction false} MovedThrough(rs: seq<Range>, k: nat, distance: int)
    requires k <= |rs| && Movable(rs[k..], distance)
    ensures MovedUpTo(rs, k, |rs|, distance) == rs[..k] + MovedAll(rs[k..], distance)
  {
    MovedToEnd(rs, k, |rs|, distance);
    assert MovedAll(rs[k..], distance)[..|rs| - k] == MovedAll(rs[k..], distance);
    assert rs[..k] + MovedAll(rs[k..], distance) + rs[|rs|..] == rs[..k] + MovedAll(rs[k..], distance);
  }

  lemma {:induction false} MinusBoth(s: set<nat>, a: set<nat>, b: set<nat>)
    ensures s - a - b == s - (a + b)
  {
  }

  lemma {:induction false} ShapedAndCounted(cs: seq<Chunk>, cap: nat)
    requires Shaped(cs, cap) && CountsExact(cs)
    ensures Sound(cs, cap)
  {
    forall i | 0 <= i < |cs| ensures ChunkSound(cs[i], cap) {
      assert ChunkShaped(cs[i], cap) && CountExact(cs[i]);
    }
  }

  /** When the first position lies at or after the end of the set, nothing moves. */
  lemma {:induction false} AllBeyond(cs: seq<Chunk>, cap: nat, ps: seq<Chunk>, pcap: nat)
    requires WellFormed(cs, cap) && WellFormed(ps, pcap) && cs != [] && ps != []
    ensures ps[0].begin >= cs[|cs| - 1].end ==> ShiftAll(Members(Flat(cs)), Members(Flat(ps))) == Members(Flat(cs))
  {
    ChunkStretch(cs, |cs| - 1, cap);
    ChunkStretch(ps, 0, pcap);
    assert cs[..|cs|] == cs && ps[..0] == [];
    SupBounds(Flat(cs));
    FirstRange(Flat(ps));
    if ps[0].begin >= cs[|cs| - 1].end {
      ShiftBeyondEnd(Members(Flat(cs)), Members(Flat(ps)));
    }
  }

  lemma {:induction false} SoundIff(cs: seq<Chunk>, cap: nat)
    requires Shaped(cs, cap)
    ensures Sound(cs, cap) <==> CountsExact(cs)
  {
    if CountsExact(cs) { ShapedAndCounted(cs, cap); }
    if Sound(cs, cap) {
      forall i | 0 <= i < |cs| ensures CountExact(cs[i]) { assert ChunkSound(cs[i], cap); }
    }
  }
}
