/** The builder that batch operations use to write a fresh vector of chunks from left to right. */
module Builders {
  import opened Ranges
  import opened Chunks
  import opened ChunkedRangeVectors

  /** A slot reserved by the constructor and not yet used. */
  const BLANK := Chunk([], 0, 0, 0)

  /** Pushing r after rs opens a chunk beyond the reserved ones and r is not a single index: the
      one push whose count comes out wrong. */
  ghost predicate Miscounts(rs: seq<Range>, r: Range, reserved: nat, cap: Capacity) {
    && |rs| % cap == 0 && |rs| / cap >= reserved
    && !Touches(rs, r)
    && r.second - r.first != 1
  }

  class ChunkedRangeVectorBuilder {
    const maxSize: Capacity
    const reserved: nat
    var data: seq<Chunk>
    var outerPos: nat

    ghost predicate Valid()
      reads this
    {
      Progress(data, outerPos, reserved, maxSize)
    }

    /** The ranges written so far. */
    ghost function Contents(): seq<Range>
      reads this
    {
      if outerPos < |data| then Written(data, outerPos) else []
    }

    /** The counts of the chunks written so far are right. */
    ghost predicate CountsRight()
      reads this
    {
      outerPos < |data| && CountsExact(data[..outerPos + 1])
    }

    constructor (expected: ChunkedRangeVector)
      ensures Valid() && CountsRight() && Contents() == []
      ensures maxSize == expected.maxSize
      ensures reserved == |expected.Contents()| / expected.maxSize + 1
    {
      var size := CountRanges(expected.data);
      maxSize := expected.maxSize;
      reserved := size / expected.maxSize + 1;
      data := seq(size / expected.maxSize + 1, _ => BLANK);
      outerPos := 0;
      new;
      hide *;
      AllBlank(data, reserved, maxSize);
    }

    /** The number of ranges in the chunks. */
    static method CountRanges(cs: seq<Chunk>) returns (size: nat)
      ensures size == |Flat(cs)|
    {
      size := 0;
      var i := 0;
      while i < |cs|
        invariant 0 <= i <= |cs|
        invariant size == |Flat(cs[..i])|
      {
        FlatTake(cs, i);
        size := size + |cs[i].data|;
        i := i + 1;
      }
      assert cs[..i] == cs;
    }

    method PushIndex(index: nat)
      requires Valid()
      modifies this
      ensures Valid()
      ensures Contents() == Appended(old(Contents()), Range(index, index + 1))
      ensures CountsRight() == old(CountsRight())
    {
      PushRange(Range(index, index + 1));
    }

    method PushRange(range: Range)
      requires Valid() && Nonempty(range)
      modifies this
      ensures Valid()
      ensures Contents() == Appended(old(Contents()), range)
      ensures CountsRight() ==
              (old(CountsRight()) && !Miscounts(old(Contents()), range, reserved, maxSize))
    {
      hide Flat, Total;
      Pushing(data, outerPos, range, reserved, maxSize);
      Write(range);
    }

    /** The in-place update behind both forms of push. */
    method Write(range: Range)
      requires outerPos < |data| && 0 < maxSize && Nonempty(range)
      modifies this
      ensures (data, outerPos) == Pushed(old(data), old(outerPos), range, maxSize)
    {
      var chunk := data[outerPos];
      if |chunk.data| == 0 {
        data := data[outerPos := Chunk([range], range.first, chunk.end, range.second - range.first)];
      } else if range.first == chunk.data[|chunk.data| - 1].second {
        var last := chunk.data[|chunk.data| - 1];
        data := data[outerPos := chunk.(data := chunk.data[|chunk.data| - 1 := Range(last.first, range.second)],
                                        count := chunk.count + (range.second - range.first))];
      } else if |chunk.data| < maxSize {
        data := data[outerPos := chunk.(data := chunk.data + [range],
                                        count := chunk.count + (range.second - range.first))];
      } else {
        data := data[outerPos := chunk.(end := chunk.data[|chunk.data| - 1].second)];
        outerPos := outerPos + 1;
        if outerPos >= |data| {
          data := data + [Chunk([range], range.first, 0, 1)];
        } else {
          data := data[outerPos := Chunk([range], range.first, data[outerPos].end, range.second - range.first)];
        }
      }
    }

    /** Hand over the chunks, dropping the unused slots. */
    method Finalize() returns (chunks: seq<Chunk>)
      requires Valid()
      modifies this
      ensures Flat(chunks) == old(Contents()) && Shaped(chunks, maxSize)
      ensures CountsExact(chunks) == old(CountsRight())
    {
      Finished(data, outerPos, reserved, maxSize);
      data := data[..outerPos + 1];
      if |data[|data| - 1].data| == 0 {
        data := data[..|data| - 1];
      } else {
        var last := data[|data| - 1];
        data := data[|data| - 1 := last.(end := last.data[|last.data| - 1].second)];
      }
      chunks := data;
      assert chunks == Closed(old(data), old(outerPos));
    }
  }

  /** The chunk being filled: its begin is set, its end is not yet. */
  ghost predicate Current(c: Chunk, o: nat, cap: nat) {
    && |c.data| <= cap
    && AllNonempty(c.data)
    && (c.data == [] ==> o == 0 && c == BLANK)
    && (c.data != [] ==> c.begin == c.data[0].first)
  }

  ghost function Written(cs: seq<Chunk>, o: nat): seq<Range>
    requires o < |cs|
  {
    Flat(cs[..o]) + cs[o].data
  }

  /** A new builder has written nothing. */
  lemma {:induction false} AllBlank(cs: seq<Chunk>, reserved: nat, cap: nat)
    requires |cs| == reserved >= 1 && forall i | 0 <= i < |cs| :: cs[i] == BLANK
    ensures Progress(cs, 0, reserved, cap) && Written(cs, 0) == [] && CountsExact(cs[..1])
  {
    assert cs[..0] == [] && CountExact(BLANK);
  }

  lemma {:induction false} FullLength(cs: seq<Chunk>, cap: nat)
    requires forall i | 0 <= i < |cs| :: |cs[i].data| == cap
    ensures |Flat(cs)| == |cs| * cap
  {
    if cs != [] {
      FullLength(cs[1..], cap);
      assert |cs| * cap == (|cs| - 1) * cap + cap;
    }
  }

  lemma {:induction false} QuotientIs(n: nat, q: nat, r: nat, cap: nat)
    requires n == q * cap + r && r < cap
    ensures n / cap == q && n % cap == r
  {
    var d := n / cap - q;
    assert n == cap * (n / cap) + n % cap;
    assert cap * d == r - n % cap;
  }

  lemma {:induction false} DivideFull(o: nat, c: nat, cap: nat)
    requires 0 < cap && c <= cap && (c == 0 ==> o == 0)
    ensures (o * cap + c) % cap == 0 && o * cap + c > 0 <==> c == cap
    ensures c == cap ==> (o * cap + c) / cap == o + 1
  {
    if c == cap {
      assert o * cap + c == (o + 1) * cap + 0;
      QuotientIs(o * cap + c, o + 1, 0, cap);
    } else {
      QuotientIs(o * cap + c, o, c, cap);
    }
  }

  /** Chunks before o are full and closed, o is being filled, the rest are reserved blanks. */
  ghost predicate Progress(cs: seq<Chunk>, o: nat, reserved: nat, cap: nat) {
    && 1 <= reserved && o < |cs|
    && |cs| == (if o < reserved then reserved else o + 1)
    && (forall i | 0 <= i < o :: ChunkShaped(cs[i], cap) && |cs[i].data| == cap)
    && (forall i | o < i < |cs| :: cs[i] == BLANK)
    && Current(cs[o], o, cap)
  }

  lemma {:induction false} ContentsLength(cs: seq<Chunk>, o: nat, cap: Capacity)
    requires o < |cs| && |cs[o].data| <= cap && (|cs[o].data| == 0 ==> o == 0)
    requires forall i | 0 <= i < o :: |cs[i].data| == cap
    ensures var n := |Written(cs, o)|;
            && (n % cap == 0 && n > 0 <==> |cs[o].data| == cap)
            && (|cs[o].data| == cap ==> n / cap == o + 1)
  {
    FullLength(cs[..o], cap);
    DivideFull(o, |cs[o].data|, cap);
  }

  /** What the state of the current chunk says about the ranges written so far. */
  lemma {:induction false} WhereNext(cs: seq<Chunk>, o: nat, r: Range, reserved: nat, cap: Capacity)
    requires Progress(cs, o, reserved, cap)
    ensures Written(cs, o) == [] <==> cs[o].data == []
    ensures Touches(Written(cs, o), r) <==> Touches(cs[o].data, r)
    ensures Touches(cs[o].data, r) ==>
              Written(cs, o)[|Written(cs, o)| - 1] == cs[o].data[|cs[o].data| - 1]
    ensures Miscounts(Written(cs, o), r, reserved, cap) <==>
              |cs[o].data| == cap && o + 1 >= reserved && !Touches(cs[o].data, r) && r.second - r.first != 1
  {
    ContentsLength(cs, o, cap);
    if cs[o].data == [] { assert cs[..o] == []; }
  }

  lemma {:induction false} MergedIntoLast(d: seq<Range>, r: Range)
    requires AllNonempty(d) && Nonempty(r) && Touches(d, r)
    ensures var m := d[|d| - 1 := Range(d[|d| - 1].first, r.second)];
            && AllNonempty(m)
            && Total(m) == Total(d) + (r.second - r.first)
            && m[0].first == d[0].first
  {
    assert Nonempty(d[|d| - 1]);
    TotalSet(d, |d| - 1, Range(d[|d| - 1].first, r.second));
  }

  lemma {:induction false} ReplaceCurrent(cs: seq<Chunk>, o: nat, c: Chunk, reserved: nat, cap: Capacity)
    requires Progress(cs, o, reserved, cap) && c.data != [] && Current(c, o, cap)
    ensures Progress(cs[o := c], o, reserved, cap)
    ensures Written(cs[o := c], o) == Flat(cs[..o]) + c.data
    ensures (CountExact(c) <==> CountExact(cs[o])) ==>
              (CountsExact(cs[o := c][..o + 1]) <==> CountsExact(cs[..o + 1]))
  {
    var ds := cs[o := c];
    assert ds[..o] == cs[..o];
    CountsSplit(cs, o);
    CountsSplit(ds, o);
  }

  lemma {:induction false} CountsSplit(cs: seq<Chunk>, o: nat)
    requires o < |cs|
    ensures CountsExact(cs[..o + 1]) <==> CountsExact(cs[..o]) && CountExact(cs[o])
  {
    var t := cs[..o + 1];
    if CountsExact(t) {
      forall i | 0 <= i < o ensures CountExact(cs[..o][i]) { assert CountExact(t[i]); }
      assert CountExact(t[o]);
    }
    if CountsExact(cs[..o]) && CountExact(cs[o]) {
      forall i | 0 <= i < |t| ensures CountExact(t[i]) {
        if i < o { assert CountExact(cs[..o][i]); }
      }
    }
  }

  /** The chunks after a full chunk o is closed and the next one opened with r. */
  ghost function Opened(cs: seq<Chunk>, o: nat, r: Range): seq<Chunk>
    requires o < |cs| && cs[o].data != [] && Nonempty(r)
  {
    var c := cs[o].(end := cs[o].data[|cs[o].data| - 1].second);
    if o + 1 >= |cs| then cs[o := c] + [Chunk([r], r.first, 0, 1)]
    else cs[o := c][o + 1 := Chunk([r], r.first, cs[o + 1].end, r.second - r.first)]
  }

  /** Opening a chunk appends one range; the count is wrong exactly when the chunk was not
      reserved and the range is longer than one index. */
  lemma {:induction false} OpenNext(cs: seq<Chunk>, o: nat, r: Range, reserved: nat, cap: Capacity)
    requires Progress(cs, o, reserved, cap) && |cs[o].data| == cap && Nonempty(r)
    ensures var ds := Opened(cs, o, r);
            && Progress(ds, o + 1, reserved, cap)
            && Written(ds, o + 1) == Written(cs, o) + [r]
            && (CountsExact(ds[..o + 2]) <==>
                CountsExact(cs[..o + 1]) && (o + 1 < reserved || r.second - r.first == 1))
  {
    hide Flat, Total;
    var ds := Opened(cs, o, r);
    TotalOne(r);
    assert ds[..o] == cs[..o];
    FlatTake(ds, o);
    CountsSplit(ds, o + 1);
    CountsSplit(ds, o);
    CountsSplit(cs, o);
    assert CountExact(ds[o]) <==> CountExact(cs[o]);
  }

  /** The current chunk once r has gone into it. */
  ghost function Grown(c: Chunk, r: Range): Chunk
    requires Nonempty(r)
  {
    var n := |c.data| - 1;
    if n < 0 then Chunk([r], r.first, c.end, r.second - r.first)
    else if r.first == c.data[n].second then
      c.(data := c.data[n := Range(c.data[n].first, r.second)], count := c.count + (r.second - r.first))
    else c.(data := c.data + [r], count := c.count + (r.second - r.first))
  }

  /** The builder's state after a push. */
  ghost function Pushed(cs: seq<Chunk>, o: nat, r: Range, cap: nat): (seq<Chunk>, nat)
    requires o < |cs| && Nonempty(r) && 0 < cap
  {
    if |cs[o].data| < cap || Touches(cs[o].data, r) then (cs[o := Grown(cs[o], r)], o)
    else (Opened(cs, o, r), o + 1)
  }

  lemma {:induction false} GrownChunk(c: Chunk, o: nat, r: Range, cap: nat)
    requires Current(c, o, cap) && Nonempty(r) && (|c.data| < cap || Touches(c.data, r))
    ensures Current(Grown(c, r), o, cap) && Grown(c, r).data == Appended(c.data, r)
    ensures CountExact(Grown(c, r)) <==> CountExact(c)
  {
    if c.data == [] {
      TotalOne(r);
    } else if Touches(c.data, r) {
      MergedIntoLast(c.data, r);
    } else {
      TotalOne(r);
      TotalConcat(c.data, [r]);
    }
  }

  /** A push appends the range, and keeps the counts right unless it is a miscounting one. */
  lemma {:induction false} Pushing(cs: seq<Chunk>, o: nat, r: Range, reserved: nat, cap: Capacity)
    requires Progress(cs, o, reserved, cap) && Nonempty(r)
    ensures var (ds, p) := Pushed(cs, o, r, cap);
            && Progress(ds, p, reserved, cap)
            && Written(ds, p) == Appended(Written(cs, o), r)
            && (CountsExact(ds[..p + 1]) <==>
                CountsExact(cs[..o + 1]) && !Miscounts(Written(cs, o), r, reserved, cap))
  {
    hide Flat, Members, CountExact, BoundsExact;
    WhereNext(cs, o, r, reserved, cap);
    if |cs[o].data| < cap || Touches(cs[o].data, r) {
      GrownChunk(cs[o], o, r, cap);
      ReplaceCurrent(cs, o, Grown(cs[o], r), reserved, cap);
      assert Flat(cs[..o]) + Appended(cs[o].data, r) == Appended(Written(cs, o), r);
    } else {
      OpenNext(cs, o, r, reserved, cap);
    }
  }

  /** What is left once the unused slots are dropped and the last chunk is closed. */
  ghost function Closed(cs: seq<Chunk>, o: nat): seq<Chunk>
    requires o < |cs|
  {
    if cs[o].data == [] then cs[..o]
    else cs[..o + 1][o := cs[o].(end := cs[o].data[|cs[o].data| - 1].second)]
  }

  lemma {:induction false} Finished(cs: seq<Chunk>, o: nat, reserved: nat, cap: Capacity)
    requires Progress(cs, o, reserved, cap)
    ensures cs[..o + 1][..o] == cs[..o]
    ensures Flat(Closed(cs, o)) == Written(cs, o) && Shaped(Closed(cs, o), cap)
    ensures CountsExact(Closed(cs, o)) <==> CountsExact(cs[..o + 1])
  {
    hide CountExact;
    CountsSplit(cs, o);
    if cs[o].data == [] {
      assert cs[..o] == [];
      BlankCounts();
    } else {
      var c := cs[o].(end := cs[o].data[|cs[o].data| - 1].second);
      assert Closed(cs, o) == cs[..o] + [c];
      SameCount(c, cs[o]);
      assert ChunkShaped(c, cap);
      OneMoreChunk(cs[..o], c);
    }
  }

  lemma {:induction false} BlankCounts()
    ensures CountExact(BLANK)
  {
  }

  lemma {:induction false} OneMoreChunk(cs: seq<Chunk>, c: Chunk)
    ensures Flat(cs + [c]) == Flat(cs) + c.data
    ensures CountsExact(cs + [c]) <==> CountsExact(cs) && CountExact(c)
  {
    FlatConcat(cs, [c]);
    FlatOne(c);
    CountsSplit(cs + [c], |cs|);
    assert (cs + [c])[..|cs|] == cs && (cs + [c])[..|cs| + 1] == cs + [c];
  }

  lemma {:induction false} SameCount(c: Chunk, d: Chunk)
    requires c.data == d.data && c.count == d.count
    ensures CountExact(c) <==> CountExact(d)
  {
  }
}
