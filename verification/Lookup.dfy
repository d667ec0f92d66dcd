/** Reading a chunked vector whose ranges are in order: where searches land and what the cached
    bounds and counts say about ranks. */
module Lookup {
  import opened NatSets
  import opened Ranges
  import opened RangeUpdates
  import opened Chunks

  /** The invariant of a chunked vector, on its chunks. */
  ghost predicate WellFormed(cs: seq<Chunk>, cap: nat) {
    Sound(cs, cap) && Separated(Flat(cs))
  }

  /** The same, except that ranges may touch. */
  ghost predicate Arranged(cs: seq<Chunk>, cap: nat) {
    Sound(cs, cap) && Ordered(Flat(cs))
  }

  lemma {:induction false} WellFormedIsArranged(cs: seq<Chunk>, cap: nat)
    requires WellFormed(cs, cap)
    ensures Arranged(cs, cap)
  {
    SeparatedIsOrdered(Flat(cs));
  }

  lemma {:induction false} SoundChunks(cs: seq<Chunk>, cap: nat)
    requires Sound(cs, cap)
    ensures NoEmptyChunk(cs)
  {
    forall i | 0 <= i < |cs| ensures cs[i].data != [] { assert ChunkSound(cs[i], cap); }
  }

  /** The cached bounds of a chunk are those of its stretch of the ranges. */
  lemma {:induction false} ChunkStretch(cs: seq<Chunk>, o: nat, cap: nat)
    requires Sound(cs, cap) && o < |cs|
    ensures var p, n := |Flat(cs[..o])|, |cs[o].data|;
            && 0 < n && p + n <= |Flat(cs)|
            && |Flat(cs[..o + 1])| == p + n
            && Flat(cs)[p..p + n] == cs[o].data
            && Flat(cs)[p].first == cs[o].begin
            && Flat(cs)[p + n - 1].second == cs[o].end
  {
    assert ChunkSound(cs[o], cap);
    FlatAround(cs, o);
    FlatTake(cs, o);
  }

  lemma {:induction false} ChunkRange(cs: seq<Chunk>, o: nat, j: nat)
    requires o < |cs| && j < |cs[o].data|
    ensures |Flat(cs[..o])| + j < |Flat(cs)|
    ensures Flat(cs)[|Flat(cs[..o])| + j] == cs[o].data[j]
  {
    AtPos(cs, Iter(o, j));
  }

  /** Chunks are in order too. */
  lemma {:induction false} ChunkOrder(cs: seq<Chunk>, o: nat, p: nat, cap: nat)
    requires WellFormed(cs, cap) && o < p < |cs|
    ensures cs[o].end < cs[p].begin
  {
    ChunkStretch(cs, o, cap);
    ChunkStretch(cs, p, cap);
    SoundChunks(cs, cap);
    FlatPrefixLonger(cs, o, p);
  }

  // ---------------------------------------------------------------- find

  /** The hint a search may start from: nothing before it can be the answer. */
  ghost predicate GoodHint(cs: seq<Chunk>, hint: Iter, index: nat) {
    && ValidIter(cs, hint)
    && (0 < Pos(cs, hint) <= |Flat(cs)| ==> Flat(cs)[Pos(cs, hint) - 1].second <= index)
  }

  /** No chunk from the hint on reaches beyond index. */
  lemma {:induction false} FoundNothing(cs: seq<Chunk>, hint: Iter, index: nat, cap: nat)
    requires Arranged(cs, cap) && GoodHint(cs, hint, index)
    requires hint.outer < |cs| ==> cs[|cs| - 1].end <= index
    ensures Pos(cs, End(cs)) == Scan(Flat(cs), index)
  {
    hide Flat, Members, ChunkSound;
    EndPos(cs);
    assert Located(Flat(cs), |Flat(cs)|, index) by {
      if hint.outer < |cs| {
        ChunkStretch(cs, |cs| - 1, cap);
        assert cs[..|cs|] == cs;
      }
    }
    ScanLocated(Flat(cs), index, |Flat(cs)|);
  }

  /** A hint past the first range of its chunk means the chunk starts at or before index. */
  lemma {:induction false} HintAtStart(cs: seq<Chunk>, hint: Iter, index: nat, cap: nat)
    requires Arranged(cs, cap) && GoodHint(cs, hint, index) && hint.outer < |cs|
    ensures hint.inner > 0 ==> cs[hint.outer].begin <= index
  {
    hide Flat, Members, Separated;
    if hint.inner > 0 {
      AtPos(cs, hint);
      ChunkRange(cs, hint.outer, hint.inner - 1);
      var p, q := |Flat(cs[..hint.outer])|, Pos(cs, hint) - 1;
      ChunkStretch(cs, hint.outer, cap);
      assert Nonempty(Flat(cs)[q]) && (p < q ==> Flat(cs)[p].second <= Flat(cs)[q].first && Nonempty(Flat(cs)[p]));
    }
  }

  /** The first chunk to reach beyond index starts after it. */
  lemma {:induction false} FoundChunk(cs: seq<Chunk>, hint: Iter, o: nat, index: nat, cap: nat)
    requires Arranged(cs, cap) && GoodHint(cs, hint, index) && hint.outer <= o < |cs|
    requires o > hint.outer ==> cs[o - 1].end <= index
    requires index < cs[o].begin
    ensures Dereferenceable(cs, Iter(o, 0)) && Pos(cs, Iter(o, 0)) == Scan(Flat(cs), index)
  {
    if o == hint.outer { HintAtStart(cs, hint, index, cap); }
    SoundChunks(cs, cap);
    ChunkStretch(cs, o, cap);
    assert Nonempty(Flat(cs)[|Flat(cs[..o])|]);
    FoundRange(cs, Iter(o, 0), hint, index, cap);
  }

  /** The search inside a chunk found the first range that ends after index. */
  lemma {:induction false} FoundRange(cs: seq<Chunk>, it: Iter, hint: Iter, index: nat, cap: nat)
    requires Arranged(cs, cap) && GoodHint(cs, hint, index) && Dereferenceable(cs, it)
    requires hint.outer <= it.outer
    requires it.outer > hint.outer ==> cs[it.outer - 1].end <= index
    requires it.outer == hint.outer ==> hint.inner <= it.inner
    requires index < At(cs, it).second
    requires it.inner > (if it.outer == hint.outer then hint.inner else 0) ==>
               cs[it.outer].data[it.inner - 1].second <= index
    ensures Pos(cs, it) == Scan(Flat(cs), index)
  {
    AtPos(cs, it);
    RangeBefore(cs, it, hint, index, cap);
    ScanLocated(Flat(cs), index, Pos(cs, it));
  }

  /** The range just before the one found ends by index. */
  lemma {:induction false} RangeBeforeInChunk(cs: seq<Chunk>, o: nat, j: nat)
    requires o < |cs| && 0 < j < |cs[o].data|
    ensures var p := |Flat(cs[..o])| + j; 0 < p <= |Flat(cs)| && Flat(cs)[p - 1] == cs[o].data[j - 1]
  {
    ChunkRange(cs, o, j - 1);
    assert |Flat(cs[..o])| + (j - 1) == |Flat(cs[..o])| + j - 1;
  }

  lemma {:induction false} RangeBeforeChunk(cs: seq<Chunk>, o: nat, cap: nat)
    requires Sound(cs, cap) && 0 < o < |cs|
    ensures var p := |Flat(cs[..o])|; 0 < p <= |Flat(cs)| && Flat(cs)[p - 1].second == cs[o - 1].end
  {
    ChunkStretch(cs, o - 1, cap);
  }

  lemma {:induction false} RangeBefore(cs: seq<Chunk>, it: Iter, hint: Iter, index: nat, cap: nat)
    requires Sound(cs, cap) && GoodHint(cs, hint, index) && Dereferenceable(cs, it)
    requires hint.outer <= it.outer
    requires it.outer > hint.outer ==> cs[it.outer - 1].end <= index
    requires it.outer == hint.outer ==> hint.inner <= it.inner
    requires it.inner > (if it.outer == hint.outer then hint.inner else 0) ==>
               cs[it.outer].data[it.inner - 1].second <= index
    ensures 0 < Pos(cs, it) <= |Flat(cs)| ==> Flat(cs)[Pos(cs, it) - 1].second <= index
  {
    hide Flat, Members, ChunkSound;
    if it != hint {
      if it.inner > 0 {
        RangeBeforeInChunk(cs, it.outer, it.inner);
      } else {
        RangeBeforeChunk(cs, it.outer, cap);
      }
    }
  }

  // ---------------------------------------------------------------- ranks

  /** The rank of a position that may lie inside range k. */
  lemma {:induction false} RankInside(rs: seq<Range>, k: nat, b: nat)
    requires Separated(rs) && k < |rs| && b <= rs[k].second
    requires k > 0 ==> rs[k - 1].second <= b
    ensures Rank(Members(rs), b) ==
            Total(rs[..k]) + (if b > rs[k].first then b - rs[k].first else 0)
  {
    SeparatedIsOrdered(rs);
    if b <= rs[k].first {
      RankAtDivision(rs, k, b);
    } else {
      if k > 0 { assert rs[k - 1].second < rs[k].first; }
      RankAtDivision(rs, k, rs[k].first);
      MembersAround(rs, k);
      RankStretch(Members(rs), rs[k].first, b);
    }
  }

  lemma {:induction false} RankBetween(rs: seq<Range>, k: nat, b: nat)
    requires Separated(rs) && DividesAt(rs, k, b)
    ensures Rank(Members(rs), b) == Total(rs[..k])
  {
    SeparatedIsOrdered(rs);
    RankAtDivision(rs, k, b);
  }

  /** Skipping a chunk by its cached count adds up the ranges it holds. */
  lemma {:induction false} TotalChunk(cs: seq<Chunk>, o: nat, cap: nat)
    requires Sound(cs, cap) && o < |cs|
    ensures AllNonempty(Flat(cs))
    ensures var p, n := |Flat(cs[..o])|, |cs[o].data|;
            p + n <= |Flat(cs)| && Total(Flat(cs)[..p + n]) == Total(Flat(cs)[..p]) + cs[o].count
  {
    SoundFlat(cs, cap);
    ChunkStretch(cs, o, cap);
    assert ChunkSound(cs[o], cap);
    var p, n := |Flat(cs[..o])|, |cs[o].data|;
    var t := Flat(cs)[..p + n];
    TotalSplit(t, p);
    assert t[..p] == Flat(cs)[..p] && t[p..] == cs[o].data;
  }

  /** The total length of the ranges before position k. */
  ghost function TotalBefore(rs: seq<Range>, k: nat): nat
    requires k <= |rs| && Separated(rs)
  {
    Total(rs[..k])
  }

  lemma {:induction false} TotalBeforeNext(rs: seq<Range>, k: nat)
    requires k < |rs| && Separated(rs)
    ensures TotalBefore(rs, k + 1) == TotalBefore(rs, k) + (rs[k].second - rs[k].first)
  {
    TotalTake(rs, k);
  }

  // ---------------------------------------------------------------- where count stops short

  /** start lies strictly inside chunk o, and the next chunk's first range begins before end and
      reaches at least to it. */
  ghost predicate StopsShortAt(cs: seq<Chunk>, o: nat, start: nat, end: nat) {
    && o + 1 < |cs|
    && cs[o].begin < start < cs[o].end
    && cs[o + 1].data != []
    && cs[o + 1].data[0].first < end <= cs[o + 1].data[0].second
  }

  ghost predicate StopsShort(cs: seq<Chunk>, start: nat, end: nat) {
    exists o: nat :: StopsShortAt(cs, o, start, end)
  }

  /** Only the chunk that the search for start lands in can be the one. */
  lemma {:induction false} StopsShortWhere(cs: seq<Chunk>, o: nat, p: nat, start: nat, end: nat, cap: nat)
    requires WellFormed(cs, cap) && o < |cs| && start < cs[o].end
    requires o > 0 ==> cs[o - 1].end <= start
    requires StopsShortAt(cs, p, start, end)
    ensures p == o
  {
    if p < o {
      if p < o - 1 { BeginBeforeEnd(cs, o - 1, cap); ChunkOrder(cs, p, o - 1, cap); }
    } else if o < p {
      ChunkOrder(cs, o, p, cap);
    }
  }

  lemma {:induction false} BeginBeforeEnd(cs: seq<Chunk>, o: nat, cap: nat)
    requires WellFormed(cs, cap) && o < |cs|
    ensures cs[o].begin < cs[o].end
  {
    ChunkStretch(cs, o, cap);
    var p, n := |Flat(cs[..o])|, |cs[o].data|;
    assert Nonempty(Flat(cs)[p]) && Nonempty(Flat(cs)[p + n - 1]);
  }

  /** Where a search for start lands, in terms of the cached chunk bounds. */
  lemma {:induction false} FoundBounds(cs: seq<Chunk>, it: Iter, start: nat, cap: nat)
    requires WellFormed(cs, cap) && ValidIter(cs, it) && Pos(cs, it) == Scan(Flat(cs), start)
    ensures Located(Flat(cs), Pos(cs, it), start)
    ensures it.outer < |cs| ==> start < cs[it.outer].end
    ensures it.outer < |cs| ==> (cs[it.outer].begin < start <==> start > At(cs, it).first || it.inner != 0)
    ensures it.outer > 0 ==> cs[it.outer - 1].end <= start
  {
    hide Flat, Members, ChunkSound;
    WellFormedIsArranged(cs, cap);
    ScanLocated(Flat(cs), start, Pos(cs, it));
    AtPos(cs, it);
    PreviousChunkEnd(cs, it, start, cap);
    if it.outer < |cs| {
      InsideChunk(cs, it, cap);
      if it.inner != 0 {
        var rs, q := Flat(cs), Pos(cs, it);
        ChunkRange(cs, it.outer, it.inner - 1);
        InsideChunk(cs, Iter(it.outer, it.inner - 1), cap);
        assert Nonempty(rs[q - 1]);
      }
    }
  }

  /** A range lies within the cached bounds of its chunk, and at the begin only as the first. */
  lemma {:induction false} InsideChunk(cs: seq<Chunk>, it: Iter, cap: nat)
    requires WellFormed(cs, cap) && Dereferenceable(cs, it)
    ensures cs[it.outer].begin <= At(cs, it).first && At(cs, it).second <= cs[it.outer].end
    ensures it.inner == 0 ==> cs[it.outer].begin == At(cs, it).first
  {
    hide Flat, Total;
    AtPos(cs, it);
    ChunkStretch(cs, it.outer, cap);
    var rs, p, n, q := Flat(cs), |Flat(cs[..it.outer])|, |cs[it.outer].data|, Pos(cs, it);
    assert Nonempty(rs[p]) && Nonempty(rs[p + n - 1]);
    if q < p + n - 1 { assert rs[q].second < rs[p + n - 1].first; }
    if p < q { assert rs[p].second < rs[q].first; }
  }

  lemma {:induction false} PreviousChunkEnd(cs: seq<Chunk>, it: Iter, start: nat, cap: nat)
    requires WellFormed(cs, cap) && ValidIter(cs, it) && Located(Flat(cs), Pos(cs, it), start)
    ensures it.outer > 0 ==> cs[it.outer - 1].end <= start
  {
    if it.outer > 0 {
      ChunkStretch(cs, it.outer - 1, cap);
      AtPos(cs, it);
      var rs, q, e := Flat(cs), Pos(cs, it), |Flat(cs[..it.outer])|;
      assert rs[e - 1].second == cs[it.outer - 1].end;
      if e - 1 < q - 1 { assert rs[e - 1].second < rs[q - 1].first && Nonempty(rs[q - 1]); }
    }
  }

  lemma {:induction false} StopsShortOnlyHere(cs: seq<Chunk>, it: Iter, start: nat, end: nat, cap: nat)
    requires WellFormed(cs, cap) && ValidIter(cs, it) && Pos(cs, it) == Scan(Flat(cs), start)
    ensures forall p: nat | StopsShortAt(cs, p, start, end) :: p == it.outer
  {
    hide Flat, Members, ChunkSound;
    FoundBounds(cs, it, start, cap);
    forall p: nat | StopsShortAt(cs, p, start, end) ensures p == it.outer {
      if it.outer < |cs| {
        StopsShortWhere(cs, it.outer, p, start, end, cap);
      } else {
        if p < |cs| - 1 { ChunkOrder(cs, p, |cs| - 1, cap); BeginBeforeEnd(cs, |cs| - 1, cap); }
      }
    }
  }

  /** The next chunk starts beyond every range of this one. */
  lemma {:induction false} NextChunkBeyond(cs: seq<Chunk>, it: Iter, cap: nat)
    requires WellFormed(cs, cap) && Dereferenceable(cs, it) && it.outer + 1 < |cs|
    ensures cs[it.outer + 1].data != [] && At(cs, it).second < cs[it.outer + 1].data[0].first
  {
    SoundChunks(cs, cap);
    AtPos(cs, it);
    AtPos(cs, Iter(it.outer + 1, 0));
    PosInjective(cs, it, Iter(it.outer + 1, 0));
  }

  /** Dereferencing and stepping an iterator, on the ranges laid end to end. */
  lemma {:induction false} StepOver(cs: seq<Chunk>, it: Iter, cap: nat)
    requires WellFormed(cs, cap) && ValidIter(cs, it)
    ensures it == End(cs) <==> !Dereferenceable(cs, it)
    ensures it == End(cs) ==> Pos(cs, it) == |Flat(cs)|
    ensures Dereferenceable(cs, it) ==>
              && Pos(cs, it) < |Flat(cs)|
              && At(cs, it) == Flat(cs)[Pos(cs, it)]
              && Nonempty(At(cs, it))
              && ValidIter(cs, Next(cs, it))
              && Pos(cs, Next(cs, it)) == Pos(cs, it) + 1
              && TotalBefore(Flat(cs), Pos(cs, it) + 1) ==
                 TotalBefore(Flat(cs), Pos(cs, it)) + (At(cs, it).second - At(cs, it).first)
  {
    SoundChunks(cs, cap);
    AtPos(cs, it);
    EndPos(cs);
    if Dereferenceable(cs, it) {
      NextPos(cs, it);
      TotalBeforeNext(Flat(cs), Pos(cs, it));
      assert Nonempty(Flat(cs)[Pos(cs, it)]);
    }
  }

  /** The same without the totals, for an iterator known to be at position k. */
  lemma {:induction false} StepRange(cs: seq<Chunk>, it: Iter, k: nat, cap: nat)
    requires WellFormed(cs, cap) && Dereferenceable(cs, it) && k == Pos(cs, it)
    ensures k < |Flat(cs)| && At(cs, it) == Flat(cs)[k] && Nonempty(At(cs, it))
    ensures var n := Next(cs, it);
            && ValidIter(cs, n) && Pos(cs, n) == k + 1
            && (n == End(cs) <==> !Dereferenceable(cs, n))
            && (n == End(cs) ==> k + 1 == |Flat(cs)|)
  {
    StepOver(cs, it, cap);
    StepOver(cs, Next(cs, it), cap);
  }

  /** Skipping a whole chunk, on the ranges laid end to end. */
  lemma {:induction false} SkipChunk(cs: seq<Chunk>, it: Iter, cap: nat)
    requires WellFormed(cs, cap) && it.outer < |cs| && it.inner == 0
    ensures ValidIter(cs, it) && ValidIter(cs, NextChunk(it))
    ensures Pos(cs, it) < Pos(cs, NextChunk(it)) <= |Flat(cs)|
    ensures Flat(cs)[Pos(cs, NextChunk(it)) - 1].second == cs[it.outer].end
    ensures TotalBefore(Flat(cs), Pos(cs, NextChunk(it))) == TotalBefore(Flat(cs), Pos(cs, it)) + cs[it.outer].count
  {
    hide Flat, Total;
    SoundChunks(cs, cap);
    NextChunkPos(cs, it);
    ChunkStretch(cs, it.outer, cap);
    TotalChunk(cs, it.outer, cap);
  }

  // ---------------------------------------------------------------- what count returns

  /** n is the number of members in [start, end), except that a first range cut by end is left out
      where the walk stops short. */
  ghost predicate Counted(cs: seq<Chunk>, start: nat, end: nat, n: int)
    requires start <= end
  {
    && (!StopsShort(cs, start, end) ==> n == CountIn(Members(Flat(cs)), start, end))
    && (forall o: nat | StopsShortAt(cs, o, start, end) ::
          n == CountIn(Members(Flat(cs)), start, end) - (end - cs[o + 1].data[0].first))
  }

  /** The last range of the walk that end cuts through. */
  ghost function PartOf(cs: seq<Chunk>, it: Iter, end: nat): nat
    requires ValidIter(cs, it)
  {
    if Dereferenceable(cs, it) && At(cs, it).first < end && it.inner != 0 then end - At(cs, it).first else 0
  }

  /** The walk has passed the ranges before it, which all end by end, having counted n. */
  ghost predicate Walked(cs: seq<Chunk>, it: Iter, end: nat, n: int, base: int)
    requires Separated(Flat(cs))
  {
    && ValidIter(cs, it) && Pos(cs, it) <= |Flat(cs)|
    && (Pos(cs, it) > 0 ==> Flat(cs)[Pos(cs, it) - 1].second <= end)
    && n == TotalBefore(Flat(cs), Pos(cs, it)) - base
  }

  lemma {:induction false} WalkOn(cs: seq<Chunk>, it: Iter, end: nat, n: int, base: int, cap: nat)
    requires WellFormed(cs, cap) && Walked(cs, it, end, n, base)
    ensures it == End(cs) <==> !Dereferenceable(cs, it)
    ensures Dereferenceable(cs, it) ==> At(cs, it).first < At(cs, it).second
    ensures Dereferenceable(cs, it) && At(cs, it).second <= end ==>
              && Walked(cs, Next(cs, it), end, n + (At(cs, it).second - At(cs, it).first), base)
              && Pos(cs, it) < Pos(cs, Next(cs, it)) <= |Flat(cs)|
  {
    StepOver(cs, it, cap);
    if Dereferenceable(cs, it) { StepOver(cs, Next(cs, it), cap); }
  }

  lemma {:induction false} WalkChunk(cs: seq<Chunk>, it: Iter, end: nat, n: int, base: int, cap: nat)
    requires WellFormed(cs, cap) && Walked(cs, it, end, n, base) && it.inner == 0
    ensures it == End(cs) <==> it.outer >= |cs|
    ensures it.outer < |cs| && cs[it.outer].end <= end ==>
              Walked(cs, NextChunk(it), end, n + cs[it.outer].count, base)
  {
    if it.outer < |cs| { SkipChunk(cs, it, cap); }
  }

  /** When nothing more ends by end, at most one range is left to be cut. */
  lemma {:induction false} WalkEnds(cs: seq<Chunk>, it: Iter, end: nat, n: int, base: int, cap: nat)
    requires WellFormed(cs, cap) && Walked(cs, it, end, n, base)
    requires it == End(cs) || At(cs, it).second >= end
    ensures Rank(Members(Flat(cs)), end) - base ==
            n + (if it != End(cs) && At(cs, it).first < end then end - At(cs, it).first else 0)
  {
    StepOver(cs, it, cap);
    if it != End(cs) {
      RankInside(Flat(cs), Pos(cs, it), end);
    } else {
      RankBetween(Flat(cs), Pos(cs, it), end);
    }
  }

  /** Where counting the rest of found's chunk leaves off, and the count so far. */
  ghost predicate CountedRest(cs: seq<Chunk>, found: Iter, it: Iter, end: nat, n: int, base: int)
    requires Separated(Flat(cs))
  {
    && ValidIter(cs, it) && Walked(cs, it, end, n - PartOf(cs, it, end), base)
    && (if it.inner == 0 then it.outer == found.outer + 1 else it.outer == found.outer)
    && (it == End(cs) || At(cs, it).second >= end || it.inner == 0)
  }

  /** The first step of the walk takes what is left of the range that holds start. */
  lemma {:induction false} WalkStarts(cs: seq<Chunk>, found: Iter, start: nat, end: nat, cap: nat)
    requires WellFormed(cs, cap) && Dereferenceable(cs, found) && Pos(cs, found) == Scan(Flat(cs), start)
    requires At(cs, found).second < end
    ensures start < At(cs, found).second
    ensures var r := At(cs, found);
            Walked(cs, Next(cs, found), end, r.second - (if r.first > start then r.first else start),
                   Rank(Members(Flat(cs)), start))
  {
    StepOver(cs, found, cap);
    ScanLocated(Flat(cs), start, Pos(cs, found));
    RankInside(Flat(cs), Pos(cs, found), start);
  }

  /** The walk is over before it starts. */
  lemma {:induction false} CountNothing(cs: seq<Chunk>, it: Iter, start: nat, end: nat, cap: nat)
    requires WellFormed(cs, cap) && ValidIter(cs, it) && start <= end
    requires Pos(cs, it) == Scan(Flat(cs), start)
    requires it == End(cs) || At(cs, it).first >= end
    ensures Counted(cs, start, end, 0)
  {
    StopsShortOnlyHere(cs, it, start, end, cap);
    FoundBounds(cs, it, start, cap);
    StepOver(cs, it, cap);
    RankBetween(Flat(cs), Pos(cs, it), start);
    RankBetween(Flat(cs), Pos(cs, it), end);
    if it.outer + 1 < |cs| { NextChunkBeyond(cs, it, cap); }
  }

  /** The range found reaches to end. */
  lemma {:induction false} CountOneRange(cs: seq<Chunk>, it: Iter, start: nat, end: nat, cap: nat)
    requires WellFormed(cs, cap) && Dereferenceable(cs, it) && start <= end
    requires Pos(cs, it) == Scan(Flat(cs), start)
    requires At(cs, it).first < end <= At(cs, it).second
    ensures Counted(cs, start, end, end - (if At(cs, it).first > start then At(cs, it).first else start))
  {
    hide Flat, Pos, Members, Separated, Sound;
    StopsShortOnlyHere(cs, it, start, end, cap);
    FoundBounds(cs, it, start, cap);
    StepOver(cs, it, cap);
    RankInside(Flat(cs), Pos(cs, it), start);
    RankInside(Flat(cs), Pos(cs, it), end);
    if it.outer + 1 < |cs| { NextChunkBeyond(cs, it, cap); }
  }

  /** A walk that starts at or before the first range of a chunk has nothing to make up. */
  lemma {:induction false} CountFromChunkStart(cs: seq<Chunk>, it: Iter, start: nat, end: nat, cap: nat)
    requires WellFormed(cs, cap) && Dereferenceable(cs, it) && start <= end
    requires Pos(cs, it) == Scan(Flat(cs), start) && start <= At(cs, it).first
    ensures Walked(cs, it, end, 0, Rank(Members(Flat(cs)), start))
  {
    ScanLocated(Flat(cs), start, Pos(cs, it));
    AtPos(cs, it);
    RankBetween(Flat(cs), Pos(cs, it), start);
  }

  /** Returning right after the partly counted chunk. */
  lemma {:induction false} CountStopsAfterChunk(cs: seq<Chunk>, found: Iter, it: Iter, start: nat, end: nat, n: int, cap: nat)
    requires WellFormed(cs, cap) && Dereferenceable(cs, found) && start <= end
    requires Pos(cs, found) == Scan(Flat(cs), start) && (start > At(cs, found).first || found.inner != 0)
    requires CountedRest(cs, found, it, end, n, Rank(Members(Flat(cs)), start))
    requires it == End(cs) || At(cs, it).second >= end
    ensures Counted(cs, start, end, n)
  {
    hide Flat, Members, Separated;
    StopsShortOnlyHere(cs, found, start, end, cap);
    FoundBounds(cs, found, start, cap);
    WalkEnds(cs, it, end, n - PartOf(cs, it, end), Rank(Members(Flat(cs)), start), cap);
    WalkOn(cs, it, end, n - PartOf(cs, it, end), Rank(Members(Flat(cs)), start), cap);
    if it != End(cs) {
      if it.inner == 0 {
        if At(cs, it).first < end { assert StopsShortAt(cs, found.outer, start, end); }
      } else if it.outer + 1 < |cs| {
        NextChunkBeyond(cs, it, cap);
      }
    }
  }

  /** Carrying on to the end of the walk. */
  lemma {:induction false} CountRunsOn(cs: seq<Chunk>, found: Iter, it: Iter, start: nat, end: nat, n: int, cap: nat)
    requires WellFormed(cs, cap) && Dereferenceable(cs, found) && start <= end
    requires Pos(cs, found) == Scan(Flat(cs), start)
    requires if it == found then start <= At(cs, found).first && found.inner == 0
             else it.outer == found.outer + 1 && it.inner == 0 && Dereferenceable(cs, it) && At(cs, it).second < end
    requires n == Rank(Members(Flat(cs)), end) - Rank(Members(Flat(cs)), start)
    ensures Counted(cs, start, end, n)
  {
    StopsShortOnlyHere(cs, found, start, end, cap);
    FoundBounds(cs, found, start, cap);
  }

  // ---------------------------------------------------------------- iterators during updates

  /** The iterator before it, on the ranges laid end to end. */
  lemma {:induction false} StepBack(cs: seq<Chunk>, it: Iter, cap: nat)
    requires Sound(cs, cap) && ValidIter(cs, it)
    ensures NoEmptyChunk(cs)
    ensures it == Begin(cs) <==> Pos(cs, it) == 0
    ensures it != Begin(cs) ==>
              && 0 < Pos(cs, it) <= |Flat(cs)|
              && Dereferenceable(cs, Prev(cs, it))
              && Pos(cs, Prev(cs, it)) == Pos(cs, it) - 1
              && At(cs, Prev(cs, it)) == Flat(cs)[Pos(cs, it) - 1]
  {
    SoundChunks(cs, cap);
    BeginPos(cs);
    PosInjective(cs, it, Begin(cs));
    AtPos(cs, it);
    if it != Begin(cs) {
      PrevPos(cs, it);
      AtPos(cs, Prev(cs, it));
    }
  }

  /** Reading through an iterator. */
  lemma {:induction false} Deref(cs: seq<Chunk>, it: Iter)
    requires ValidIter(cs, it)
    ensures it == End(cs) <==> !Dereferenceable(cs, it)
    ensures Pos(cs, it) <= |Flat(cs)|
    ensures it == End(cs) <==> Pos(cs, it) == |Flat(cs)|
    ensures Dereferenceable(cs, it) ==> At(cs, it) == Flat(cs)[Pos(cs, it)]
  {
    AtPos(cs, it);
    EndPos(cs);
  }

  /** After an update in place an iterator reads the new range at its old position. */
  lemma {:induction false} DerefAfter(cs: seq<Chunk>, ds: seq<Chunk>, it: Iter)
    requires SameLayout(cs, ds) && ValidIter(cs, it)
    ensures ValidIter(ds, it) && Pos(ds, it) == Pos(cs, it) && (it == End(ds) <==> it == End(cs))
    ensures Dereferenceable(ds, it) <==> Dereferenceable(cs, it)
    ensures Pos(ds, it) <= |Flat(ds)| == |Flat(cs)|
    ensures Dereferenceable(ds, it) ==> Pos(ds, it) < |Flat(ds)| && At(ds, it) == Flat(ds)[Pos(ds, it)]
  {
    LayoutPos(cs, ds, it);
    LayoutLength(cs, ds);
    AtPos(ds, it);
  }

  /** Stepping on after an update in place. */
  lemma {:induction false} NextAfter(cs: seq<Chunk>, ds: seq<Chunk>, it: Iter, cap: nat)
    requires SameLayout(cs, ds) && Dereferenceable(cs, it) && Sound(ds, cap)
    ensures Dereferenceable(ds, it)
    ensures var n := Next(ds, it);
            && ValidIter(ds, n) && Pos(ds, n) == Pos(cs, it) + 1 <= |Flat(ds)|
            && (n == End(ds) <==> !Dereferenceable(ds, n))
            && (n == End(ds) <==> Pos(ds, n) == |Flat(ds)|)
  {
    SoundChunks(ds, cap);
    DerefAfter(cs, ds, it);
    NextPos(ds, it);
    Deref(ds, Next(ds, it));
  }

  /** An iterator at or before the range that holds index is a hint for anything from index on. */
  lemma {:induction false} HintFrom(cs: seq<Chunk>, it: Iter, index: nat, later: nat, cap: nat)
    requires WellFormed(cs, cap) && Dereferenceable(cs, it) && At(cs, it).first <= index <= later
    ensures GoodHint(cs, it, later)
  {
    AtPos(cs, it);
    var k := Pos(cs, it);
    if k > 0 { assert Flat(cs)[k - 1].second < Flat(cs)[k].first; }
  }

  /** The range that holds x ends right after it when x + 1 is not a member. */
  lemma {:induction false} LocatedAfter(cs: seq<Chunk>, it: Iter, x: nat, cap: nat)
    requires WellFormed(cs, cap) && Dereferenceable(cs, it) && At(cs, it).first <= x < At(cs, it).second
    requires x + 1 !in Members(Flat(cs))
    ensures ValidIter(cs, Next(cs, it)) && Located(Flat(cs), Pos(cs, Next(cs, it)), x + 1)
  {
    StepOver(cs, it, cap);
    var rs, k := Flat(cs), Pos(cs, it);
    if rs[k].second > x + 1 { MemberWitness(rs, k, x + 1); }
    if k + 1 < |rs| { assert rs[k].second < rs[k + 1].first && Nonempty(rs[k + 1]); }
  }

  /** Ranges that end by b hold at most b members. */
  lemma {:induction false} WalkBound(cs: seq<Chunk>, it: Iter, end: nat, n: int, cap: nat)
    requires WellFormed(cs, cap) && Walked(cs, it, end, n, 0)
    ensures n <= end
  {
    var rs, k := Flat(cs), Pos(cs, it);
    if k > 0 {
      RankInside(rs, k - 1, rs[k - 1].second);
      TotalBeforeNext(rs, k - 1);
      assert Nonempty(rs[k - 1]);
    }
  }
}
