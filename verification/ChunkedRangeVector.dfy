/** The vector of range chunks that an IndexSet is built on, updated in place. */
module ChunkedRangeVectors {
  import opened Ranges
  import opened Chunks

  class ChunkedRangeVector {
    const maxSize: Capacity
    var data: seq<Chunk>

    /** The ranges of all chunks, end to end. */
    ghost function Contents(): seq<Range>
      reads this
    {
      Flat(data)
    }

    /** Chunk sizes and caches are right; the order of the ranges may be disturbed. */
    ghost predicate Intact()
      reads this
    {
      Sound(data, maxSize)
    }

    /** The full invariant: intact, and the ranges are in order and maximal. */
    ghost predicate Valid()
      reads this
    {
      Intact() && Separated(Contents())
    }

    constructor (maxSize: Capacity)
      ensures data == [] && this.maxSize == maxSize
      ensures Valid() && Contents() == []
    {
      this.maxSize := maxSize;
      data := [];
    }

    // -------------------------------------------------------------- through an iterator

    /** Set the range at it and keep its chunk's caches in step. */
    method SetRange(it: Iter, front: nat, back: nat)
      requires Intact() && Dereferenceable(data, it) && front < back
      modifies this
      ensures Intact() && SameLayout(old(data), data)
      ensures Pos(old(data), it) < |old(Contents())|
      ensures Contents() == old(Contents())[Pos(old(data), it) := Range(front, back)]
    {
      hide Flat, Total;
      var chunk := data[it.outer];
      assert ChunkSound(chunk, maxSize);
      var inner := chunk.data[it.inner];
      assert Nonempty(inner);
      TotalSet(chunk.data, it.inner, Range(front, back));
      TotalAround(chunk.data, it.inner);
      var count := chunk.count - (inner.second - inner.first);
      var begin := if it.inner == 0 then front else chunk.begin;
      var end := if it.inner == |chunk.data| - 1 then back else chunk.end;
      count := count + (back - front);
      var updated := Chunk(chunk.data[it.inner := Range(front, back)], begin, end, count);
      FlatSet(data, it, updated, Range(front, back));
      data := data[it.outer := updated];
    }

    /** Move the two ends of the range at it. */
    method Adjust(it: Iter, front: int, back: int)
      requires Intact() && Dereferenceable(data, it)
      requires 0 <= At(data, it).first + front < At(data, it).second + back
      modifies this
      ensures Intact() && SameLayout(old(data), data)
      ensures Pos(old(data), it) < |old(Contents())|
      ensures Contents() == old(Contents())[Pos(old(data), it) :=
                Range(At(old(data), it).first + front, At(old(data), it).second + back)]
    {
      hide Flat, Total;
      var chunk := data[it.outer];
      assert ChunkSound(chunk, maxSize);
      var inner := chunk.data[it.inner];
      assert Nonempty(inner);
      var moved := Range(inner.first + front, inner.second + back);
      TotalSet(chunk.data, it.inner, moved);
      var begin := if it.inner == 0 then chunk.begin + front else chunk.begin;
      var end := if it.inner == |chunk.data| - 1 then chunk.end + back else chunk.end;
      var count := chunk.count + (-front + back);
      var updated := Chunk(chunk.data[it.inner := moved], begin, end, count);
      FlatSet(data, it, updated, moved);
      data := data[it.outer := updated];
    }

    /** Move the range at it as a whole; the count does not change. */
    method ShiftRange(it: Iter, distance: int)
      requires Intact() && Dereferenceable(data, it)
      requires 0 <= At(data, it).first + distance
      modifies this
      ensures Intact() && SameLayout(old(data), data)
      ensures Pos(old(data), it) < |old(Contents())|
      ensures Nonempty(At(old(data), it))
      ensures Contents() == old(Contents())[Pos(old(data), it) := Moved(At(old(data), it), distance)]
    {
      hide Flat, Total;
      var chunk := data[it.outer];
      assert ChunkSound(chunk, maxSize);
      var inner := chunk.data[it.inner];
      assert Nonempty(inner);
      var moved := Range(inner.first + distance, inner.second + distance);
      TotalSet(chunk.data, it.inner, moved);
      var begin := if it.inner == 0 then chunk.begin + distance else chunk.begin;
      var end := if it.inner == |chunk.data| - 1 then chunk.end + distance else chunk.end;
      var updated := chunk.(data := chunk.data[it.inner := moved], begin := begin, end := end);
      FlatSet(data, it, updated, moved);
      data := data[it.outer := updated];
    }

    // -------------------------------------------------------------- insertion and removal

    method PushBack(value: Range)
      requires Intact() && Nonempty(value)
      requires Contents() != [] ==> Contents()[|Contents()| - 1].second <= value.first
      modifies this
      ensures Intact()
      ensures Contents() == old(Contents()) + [value]
      ensures |data| == |old(data)| +
              if old(data) != [] && |old(data)[|old(data)| - 1].data| < maxSize then 0 else 1
      ensures Begin(data) != End(data)
      ensures Dereferenceable(data, Prev(data, End(data)))
      ensures Pos(data, Prev(data, End(data))) == |old(Contents())|
    {
      hide Flat, Total;
      var last := |data| - 1;
      if |data| != 0 && |data[last].data| < maxSize {
        var range := data[last];
        assert ChunkSound(range, maxSize);
        LastRange(data, maxSize);
        assert range.end <= value.first;
        var updated := Chunk(range.data + [value], range.begin, value.second,
                             range.count + (value.second - value.first));
        ExtendedChunk(data, updated, value, maxSize);
        data := data[last := updated];
      } else {
        var added := Chunk([value], value.first, value.second, value.second - value.first);
        AddedChunk(data, added, value, maxSize);
        data := data + [added];
      }
      EndPos(data);
      PrevPos(data, End(data));
    }

    /** Insert value before pos, splitting the chunk when it is full. */
    method Insert(pos: Iter, value: Range) returns (r: Iter)
      requires Intact() && ValidIter(data, pos) && Nonempty(value)
      requires Pos(data, pos) <= |Contents()| && Ordered(Inserted(Contents(), Pos(data, pos), value))
      modifies this
      ensures Intact()
      ensures Contents() == Inserted(old(Contents()), Pos(old(data), pos), value)
      ensures Dereferenceable(data, r) && Pos(data, r) == Pos(old(data), pos)
    {
      hide Flat, Total;
      AtPos(data, pos);
      if pos.outer == |data| {
        InsertedAtEnd(Contents(), value);
        PushBack(value);
        return Prev(data, End(data));
      }
      ghost var k := Pos(data, pos);
      r := EnsureSpace(pos);
      var chunk := data[r.outer];
      assert ChunkSound(chunk, maxSize);
      InsertedInChunk(data, r, value, maxSize);
      TotalInserted(chunk.data, r.inner, value);
      var updated := Chunk(chunk.data[..r.inner] + [value] + chunk.data[r.inner..],
                           if value.first < chunk.begin then value.first else chunk.begin,
                           if value.second > chunk.end then value.second else chunk.end,
                           chunk.count + (value.second - value.first));
      FlatInserted(data, r, updated, value);
      data := data[r.outer := updated];
    }

    /** Split pos's chunk in half if it is full.  The ranges stay as they are and so does the
        place pos stands for. */
    method EnsureSpace(pos: Iter) returns (r: Iter)
      requires Intact() && Dereferenceable(data, pos)
      modifies this
      ensures Intact() && Contents() == old(Contents())
      ensures Dereferenceable(data, r) && Pos(data, r) == Pos(old(data), pos)
      ensures |data[r.outer].data| < maxSize
      ensures var o := pos.outer;
              if |old(data)[o].data| < maxSize then data == old(data)
              else
                && |data| == |old(data)| + 1 && data[..o] == old(data)[..o] && data[o + 2..] == old(data)[o + 1..]
                && |data[o].data| == |data[o + 1].data| == maxSize / 2
    {
      hide Flat, Separated, Total;
      if |data[pos.outer].data| + 1 <= maxSize {
        return pos;
      }
      var prev := data[pos.outer];
      assert ChunkSound(prev, maxSize);
      var toMove := maxSize / 2;
      var keep := |prev.data| - toMove;
      var moved := prev.data[keep..];
      TotalSplit(prev.data, keep);
      var movedCount := CountMoved(moved);
      var kept := Chunk(prev.data[..keep], prev.begin, prev.data[keep - 1].second, prev.count - movedCount);
      var added := Chunk(moved, moved[0].first, moved[|moved| - 1].second, movedCount);
      SplitChunk(data, pos, kept, added, maxSize);
      data := data[..pos.outer] + [kept, added] + data[pos.outer + 1..];
      if pos.inner >= toMove {
        r := Iter(pos.outer + 1, pos.inner - toMove);
      } else {
        r := pos;
      }
    }

    /** The number of indices in the ranges that move. */
    static method CountMoved(moved: seq<Range>) returns (count: nat)
      requires AllNonempty(moved)
      ensures count == Total(moved)
    {
      count := 0;
      var i := 0;
      while i < |moved|
        invariant 0 <= i <= |moved| && count == Total(moved[..i])
      {
        TotalTake(moved, i);
        assert Nonempty(moved[i]);
        count := count + (moved[i].second - moved[i].first);
        i := i + 1;
      }
      assert moved[..i] == moved;
    }

    /** Remove the range at pos, dropping its chunk when that empties it. */
    method Erase(pos: Iter) returns (r: Iter)
      requires Intact() && Dereferenceable(data, pos)
      modifies this
      ensures Intact()
      ensures Pos(old(data), pos) < |old(Contents())|
      ensures Contents() == Removed(old(Contents()), Pos(old(data), pos))
      ensures ValidIter(data, r) && Pos(data, r) == Pos(old(data), pos)
    {
      hide Flat, Total;
      var chunk := data[pos.outer];
      assert ChunkSound(chunk, maxSize);
      var range := chunk.data[pos.inner];
      TotalRemoved(chunk.data, pos.inner);
      var updated := chunk.(count := chunk.count - (range.second - range.first),
                            data := chunk.data[..pos.inner] + chunk.data[pos.inner + 1..]);
      if |updated.data| == 0 {
        DroppedChunk(data, pos.outer, maxSize);
        data := data[..pos.outer] + data[pos.outer + 1..];
        return Iter(pos.outer, 0);
      }
      updated := updated.(begin := updated.data[0].first, end := updated.data[|updated.data| - 1].second);
      ShrunkChunk(data, pos, updated, maxSize);
      data := data[pos.outer := updated];
      r := if pos.inner < |updated.data| then pos else Iter(pos.outer + 1, 0);
    }

    /** Check the ranges and the caches, as debug builds do after every change.  Going through the
        ranges needs every chunk to have one. */
    method Verify() returns (ok: bool)
      requires NoEmptyChunk(data)
      ensures ok <==> Separated(Contents()) && (forall i | 0 <= i < |data| :: BoundsExact(data[i]) && CountExact(data[i]))
      ensures Valid() <==> ok && forall i | 0 <= i < |data| :: |data[i].data| <= maxSize
    {
      ok := VerifyRanges();
      if !ok {
        return;
      }
      var i := 0;
      while i < |data|
        invariant 0 <= i <= |data|
        invariant forall j | 0 <= j < i :: BoundsExact(data[j]) && CountExact(data[j])
      {
        var chunk := data[i];
        ok := |chunk.data| != 0 && chunk.data[0].first == chunk.begin && chunk.data[|chunk.data| - 1].second == chunk.end;
        if !ok {
          assert !BoundsExact(data[i]);
          return;
        }
        StretchSeparated(data, i);
        TotalWithin(chunk.data);
        var count := 0;
        var j := 0;
        while j < |chunk.data|
          invariant 0 <= j <= |chunk.data| && count == Total(chunk.data[..j])
        {
          TotalTake(chunk.data, j);
          assert Nonempty(chunk.data[j]);
          count := count + (chunk.data[j].second - chunk.data[j].first);
          j := j + 1;
        }
        assert chunk.data[..j] == chunk.data;
        ok := chunk.count <= chunk.end - chunk.begin && count == chunk.count;
        if !ok {
          assert !CountExact(data[i]);
          return;
        }
        i := i + 1;
      }
    }

    /** Every range holds an index and leaves a gap after the one before it. */
    method VerifyRanges() returns (ok: bool)
      requires NoEmptyChunk(data)
      ensures ok <==> Separated(Contents())
    {
      ghost var rs, k := Contents(), 0;
      var it := Begin(data);
      var prevEnd: nat, started := 0, false;
      BeginPos(data);
      AtPos(data, it);
      while it != End(data)
        invariant ValidIter(data, it) && k == Pos(data, it) <= |rs|
        invariant Separated(rs[..k]) && (started <==> k > 0) && (k > 0 ==> prevEnd == rs[k - 1].second)
        decreases |rs| - k
      {
        AtPos(data, it);
        var range := At(data, it);
        if !(range.first < range.second) {
          assert !Nonempty(rs[k]);
          return false;
        }
        if started && !(range.first > prevEnd) {
          assert !(rs[k - 1].second < rs[k].first);
          return false;
        }
        SeparatedConcat(rs[..k], [range]);
        assert rs[..k + 1] == rs[..k] + [range];
        prevEnd, started := range.second, true;
        NextPos(data, it);
        it := Next(data, it);
        AtPos(data, it);
        k := k + 1;
      }
      EndPos(data);
      assert rs[..k] == rs;
      return true;
    }
  }

  // ---------------------------------------------------------------- lemmas about the data

  lemma {:induction false} LastRange(cs: seq<Chunk>, cap: nat)
    requires Sound(cs, cap) && cs != []
    ensures Flat(cs) != [] && Flat(cs)[|Flat(cs)| - 1].second == cs[|cs| - 1].end
  {
    var n := |cs| - 1;
    assert ChunkSound(cs[n], cap);
    FlatAround(cs, n);
    assert cs[n + 1..] == [];
  }

  lemma {:induction false} ExtendedChunk(cs: seq<Chunk>, c: Chunk, v: Range, cap: nat)
    requires Sound(cs, cap) && cs != [] && |cs[|cs| - 1].data| < cap && Nonempty(v)
    requires var d := cs[|cs| - 1];
             c == Chunk(d.data + [v], d.begin, v.second, d.count + (v.second - v.first))
    ensures Sound(cs[|cs| - 1 := c], cap)
    ensures Flat(cs[|cs| - 1 := c]) == Flat(cs) + [v]
  {
    var n := |cs| - 1;
    var d := cs[n];
    assert ChunkSound(d, cap);
    TotalInserted(d.data, |d.data|, v);
    assert Inserted(d.data, |d.data|, v) == d.data + [v];
    assert ChunkSound(c, cap);
    FlatReplaceChunk(cs, n, c);
    FlatAround(cs, n);
    assert cs[n + 1..] == [];
  }

  lemma {:induction false} AddedChunk(cs: seq<Chunk>, c: Chunk, v: Range, cap: Capacity)
    requires Sound(cs, cap) && Nonempty(v)
    requires c == Chunk([v], v.first, v.second, v.second - v.first)
    ensures Sound(cs + [c], cap)
    ensures Flat(cs + [c]) == Flat(cs) + [v]
  {
    TotalOne(v);
    assert ChunkSound(c, cap);
    FlatConcat(cs, [c]);
    FlatOne(c);
  }

  lemma {:induction false} InsertedAtEnd(rs: seq<Range>, v: Range)
    requires Ordered(Inserted(rs, |rs|, v))
    ensures Inserted(rs, |rs|, v) == rs + [v]
    ensures rs != [] ==> rs[|rs| - 1].second <= v.first
  {
    var t := Inserted(rs, |rs|, v);
    assert t == rs + [v];
    if rs != [] { assert t[|rs| - 1].second <= t[|rs|].first; }
  }

  /** Where an insertion keeps the ranges in order, the min and max of the caches come out right. */
  lemma {:induction false} InsertedInChunk(cs: seq<Chunk>, it: Iter, v: Range, cap: nat)
    requires Sound(cs, cap) && Dereferenceable(cs, it) && Pos(cs, it) <= |Flat(cs)|
    requires Ordered(Inserted(Flat(cs), Pos(cs, it), v))
    ensures it.inner == 0 ==> v.first < cs[it.outer].begin
    ensures it.inner > 0 ==> cs[it.outer].begin <= v.first
    ensures v.second <= cs[it.outer].end
  {
    var c, k := cs[it.outer], Pos(cs, it);
    var t := Inserted(Flat(cs), k, v);
    assert ChunkSound(c, cap);
    FlatAround(cs, it.outer);
    var last := k + (|c.data| - it.inner);
    assert t[k] == v && Nonempty(t[k]);
    assert t[last] == c.data[|c.data| - 1] && t[k].second <= t[last].first;
    assert Nonempty(c.data[|c.data| - 1]);
    if it.inner == 0 {
      assert t[k + 1] == c.data[0];
    } else {
      assert t[k - it.inner] == c.data[0] && t[k - it.inner].second <= t[k].first;
      assert Nonempty(c.data[0]);
    }
  }

  lemma {:induction false} SplitChunk(cs: seq<Chunk>, it: Iter, kept: Chunk, added: Chunk, cap: Capacity)
    requires Sound(cs, cap) && Dereferenceable(cs, it) && |cs[it.outer].data| == cap
    requires ChunkSound(kept, cap) && ChunkSound(added, cap)
    requires kept.data == cs[it.outer].data[..cap - cap / 2]
    requires added.data == cs[it.outer].data[cap - cap / 2..]
    ensures var ds := cs[..it.outer] + [kept, added] + cs[it.outer + 1..];
            var r := if it.inner >= cap / 2 then Iter(it.outer + 1, it.inner - cap / 2) else it;
            && Sound(ds, cap)
            && Flat(ds) == Flat(cs)
            && Dereferenceable(ds, r)
            && Pos(ds, r) == Pos(cs, it)
  {
    hide Flat, ChunkSound;
    var o := it.outer;
    var ds := cs[..o] + [kept, added] + cs[o + 1..];
    var r := if it.inner >= cap / 2 then Iter(o + 1, it.inner - cap / 2) else it;
    FlatAround(cs, o);
    FlatConcat(cs[..o], [kept, added]);
    FlatConcat(cs[..o] + [kept, added], cs[o + 1..]);
    assert Flat([kept, added]) == cs[o].data by {
      assert [kept, added] == [kept] + [added];
      FlatConcat([kept], [added]);
      FlatOne(kept);
      FlatOne(added);
    }
    assert ds[..o] == cs[..o];
    assert ds[o] == kept && ds[o + 1] == added;
    FlatTake(ds, o);
  }

  /** Dropping a chunk that held one range. */
  lemma {:induction false} DroppedChunk(cs: seq<Chunk>, o: nat, cap: nat)
    requires Sound(cs, cap) && o < |cs| && |cs[o].data| == 1
    ensures var it, ds := Iter(o, 0), Removed(cs, o);
            && Sound(ds, cap)
            && Pos(cs, it) < |Flat(cs)|
            && Flat(ds) == Removed(Flat(cs), Pos(cs, it))
            && ValidIter(ds, it) && Pos(ds, it) == Pos(cs, it)
  {
    var ds := Removed(cs, o);
    forall i | 0 <= i < |ds| ensures ChunkSound(ds[i], cap) {
      assert ChunkSound(cs[if i < o then i else i + 1], cap);
    }
    FlatDropChunk(cs, o);
    assert o < |ds| ==> ChunkSound(ds[o], cap);
  }

  /** Removing one of several ranges of a chunk. */
  lemma {:induction false} ShrunkChunk(cs: seq<Chunk>, it: Iter, c: Chunk, cap: nat)
    requires Sound(cs, cap) && Dereferenceable(cs, it) && ChunkSound(c, cap)
    requires c.data == Removed(cs[it.outer].data, it.inner)
    ensures Sound(cs[it.outer := c], cap)
    ensures Pos(cs, it) < |Flat(cs)|
    ensures Flat(cs[it.outer := c]) == Removed(Flat(cs), Pos(cs, it))
    ensures var ds, r := cs[it.outer := c], if it.inner < |c.data| then it else Iter(it.outer + 1, 0);
            ValidIter(ds, r) && Pos(ds, r) == Pos(cs, it)
  {
    var ds := cs[it.outer := c];
    FlatRemoved(cs, it, c);
    assert ds[..it.outer] == cs[..it.outer];
    if it.inner >= |c.data| {
      FlatTake(ds, it.outer);
      assert it.outer + 1 < |ds| ==> ChunkSound(ds[it.outer + 1], cap);
    }
  }

  lemma {:induction false} StretchSeparated(cs: seq<Chunk>, o: nat)
    requires o < |cs| && Separated(Flat(cs))
    ensures Separated(cs[o].data)
  {
    FlatAround(cs, o);
    var p, n := |Flat(cs[..o])|, |cs[o].data|;
    SeparatedParts(Flat(cs), p);
    SeparatedParts(Flat(cs)[p..], n);
    assert Flat(cs)[p..][..n] == cs[o].data;
  }

  /** Separated ranges fill at most the space they span. */
  lemma {:induction false} TotalWithin(rs: seq<Range>)
    requires Separated(rs) && rs != []
    ensures Total(rs) <= rs[|rs| - 1].second - rs[0].first
  {
    var n := |rs| - 1;
    assert Nonempty(rs[n]);
    TotalTake(rs, n);
    assert rs[..n + 1] == rs;
    if n > 0 {
      SeparatedParts(rs, n);
      TotalWithin(rs[..n]);
      assert rs[n - 1].second < rs[n].first;
    }
  }
}
