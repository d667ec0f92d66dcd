/** Chunks of ranges with their cached bounds and counts, and the two-level positions that
    iterators hold. */
module Chunks {
  import opened Ranges

  /** The capacity of a chunk: 4 in debug builds, 4096 / sizeof(range) otherwise. */
  type Capacity = n: nat | n >= 2 && n % 2 == 0 witness 4

  datatype Chunk = Chunk(data: seq<Range>, begin: nat, end: nat, count: nat)

  /** An iterator: a chunk index and an offset inside the chunk, (|cs|, 0) being the end. */
  datatype Iter = Iter(outer: nat, inner: nat)

  // ---------------------------------------------------------------- one chunk

  ghost predicate BoundsExact(c: Chunk) {
    && c.data != []
    && c.begin == c.data[0].first
    && c.end == c.data[|c.data| - 1].second
  }

  ghost predicate CountExact(c: Chunk) {
    && AllNonempty(c.data)
    && c.count == Total(c.data)
  }

  /** Size and cached bounds are right. */
  ghost predicate ChunkShaped(c: Chunk, cap: nat) {
    && 0 < |c.data| <= cap
    && AllNonempty(c.data)
    && BoundsExact(c)
  }

  /** Everything a chunk promises on its own: size, cached bounds and cached count.  Nothing is
      said about the order of the ranges, which the shifting loops disturb while they run. */
  ghost predicate ChunkSound(c: Chunk, cap: nat) {
    ChunkShaped(c, cap) && CountExact(c)
  }

  ghost predicate Shaped(cs: seq<Chunk>, cap: nat) {
    forall i | 0 <= i < |cs| :: ChunkShaped(cs[i], cap)
  }

  ghost predicate CountsExact(cs: seq<Chunk>) {
    forall i | 0 <= i < |cs| :: CountExact(cs[i])
  }

  ghost predicate Sound(cs: seq<Chunk>, cap: nat) {
    forall i | 0 <= i < |cs| :: ChunkSound(cs[i], cap)
  }

  ghost predicate NoEmptyChunk(cs: seq<Chunk>) {
    forall i | 0 <= i < |cs| :: cs[i].data != []
  }

  // ---------------------------------------------------------------- laying chunks end to end

  ghost function Flat(cs: seq<Chunk>): seq<Range> {
    if cs == [] then [] else cs[0].data + Flat(cs[1..])
  }

  lemma {:induction false} FlatConcat(a: seq<Chunk>, b: seq<Chunk>)
    ensures Flat(a + b) == Flat(a) + Flat(b)
  {
    if a == [] {
      assert a + b == b;
    } else {
      FlatConcat(a[1..], b);
      assert (a + b)[0] == a[0] && (a + b)[1..] == a[1..] + b;
      Regrouped(a[0].data, Flat(a[1..]), Flat(b));
    }
  }

  lemma {:induction false} FlatOne(c: Chunk)
    ensures Flat([c]) == c.data
  {
    assert Flat([c]) == c.data + Flat([]);
  }

  lemma {:induction false} FlatSplit(cs: seq<Chunk>, o: nat)
    requires o <= |cs|
    ensures Flat(cs) == Flat(cs[..o]) + Flat(cs[o..])
  {
    assert cs == cs[..o] + cs[o..];
    FlatConcat(cs[..o], cs[o..]);
  }

  lemma {:induction false} FlatFrom(cs: seq<Chunk>, o: nat)
    requires o < |cs|
    ensures Flat(cs[o..]) == cs[o].data + Flat(cs[o + 1..])
  {
    assert cs[o..][0] == cs[o] && cs[o..][1..] == cs[o + 1..];
  }

  lemma {:induction false} FlatTake(cs: seq<Chunk>, o: nat)
    requires o < |cs|
    ensures Flat(cs[..o + 1]) == Flat(cs[..o]) + cs[o].data
  {
    assert cs[..o + 1] == cs[..o] + [cs[o]];
    FlatConcat(cs[..o], [cs[o]]);
    FlatOne(cs[o]);
  }

  lemma {:induction false} FlatAround(cs: seq<Chunk>, o: nat)
    requires o < |cs|
    ensures Flat(cs) == Flat(cs[..o]) + cs[o].data + Flat(cs[o + 1..])
  {
    FlatSplit(cs, o);
    FlatFrom(cs, o);
    assert Flat(cs[..o]) + (cs[o].data + Flat(cs[o + 1..])) == Flat(cs[..o]) + cs[o].data + Flat(cs[o + 1..]);
  }

  lemma {:induction false} SoundFlat(cs: seq<Chunk>, cap: nat)
    requires Sound(cs, cap)
    ensures AllNonempty(Flat(cs))
  {
    if cs != [] {
      SoundFlat(cs[1..], cap);
      var a, b := cs[0].data, Flat(cs[1..]);
      assert ChunkSound(cs[0], cap);
      forall i | 0 <= i < |a + b| ensures Nonempty((a + b)[i]) {
        if i < |a| { assert Nonempty(a[i]); } else { assert Nonempty(b[i - |a|]); }
      }
    }
  }

  // ---------------------------------------------------------------- iterators

  predicate AtEnd(cs: seq<Chunk>, it: Iter) {
    it == Iter(|cs|, 0)
  }

  predicate Dereferenceable(cs: seq<Chunk>, it: Iter) {
    it.outer < |cs| && it.inner < |cs[it.outer].data|
  }

  predicate ValidIter(cs: seq<Chunk>, it: Iter) {
    AtEnd(cs, it) || Dereferenceable(cs, it)
  }

  function At(cs: seq<Chunk>, it: Iter): Range
    requires Dereferenceable(cs, it)
  {
    cs[it.outer].data[it.inner]
  }

  /** The place of an iterator in the ranges laid end to end. */
  ghost function Pos(cs: seq<Chunk>, it: Iter): nat
    requires ValidIter(cs, it)
  {
    |Flat(cs[..it.outer])| + it.inner
  }

  function Begin(cs: seq<Chunk>): Iter {
    Iter(0, 0)
  }

  function End(cs: seq<Chunk>): Iter {
    Iter(|cs|, 0)
  }

  /** Advance to the first range of the next chunk. */
  function NextChunk(it: Iter): Iter {
    Iter(it.outer + 1, 0)
  }

  function Next(cs: seq<Chunk>, it: Iter): Iter
    requires Dereferenceable(cs, it)
  {
    if it.inner + 1 == |cs[it.outer].data| then NextChunk(it) else Iter(it.outer, it.inner + 1)
  }

  function Prev(cs: seq<Chunk>, it: Iter): Iter
    requires NoEmptyChunk(cs) && ValidIter(cs, it) && it != Begin(cs)
  {
    if it.inner == 0 then Iter(it.outer - 1, |cs[it.outer - 1].data| - 1)
    else Iter(it.outer, it.inner - 1)
  }

  /** Dereferencing an iterator reads the range at its position. */
  lemma {:induction false} AtPos(cs: seq<Chunk>, it: Iter)
    requires ValidIter(cs, it)
    ensures Pos(cs, it) <= |Flat(cs)|
    ensures Dereferenceable(cs, it) <==> Pos(cs, it) < |Flat(cs)|
    ensures Dereferenceable(cs, it) ==> At(cs, it) == Flat(cs)[Pos(cs, it)]
  {
    if it.outer < |cs| {
      FlatAround(cs, it.outer);
    } else {
      assert cs[..|cs|] == cs;
    }
  }

  lemma {:induction false} BeginPos(cs: seq<Chunk>)
    requires NoEmptyChunk(cs)
    ensures ValidIter(cs, Begin(cs)) && Pos(cs, Begin(cs)) == 0
  {
  }

  lemma {:induction false} EndPos(cs: seq<Chunk>)
    ensures ValidIter(cs, End(cs)) && Pos(cs, End(cs)) == |Flat(cs)|
  {
    assert cs[..|cs|] == cs;
  }

  lemma {:induction false} NextPos(cs: seq<Chunk>, it: Iter)
    requires NoEmptyChunk(cs) && Dereferenceable(cs, it)
    ensures ValidIter(cs, Next(cs, it)) && Pos(cs, Next(cs, it)) == Pos(cs, it) + 1
  {
    FlatTake(cs, it.outer);
  }

  lemma {:induction false} NextChunkPos(cs: seq<Chunk>, it: Iter)
    requires NoEmptyChunk(cs) && it.outer < |cs| && it.inner == 0
    ensures ValidIter(cs, it) && ValidIter(cs, NextChunk(it))
    ensures Pos(cs, NextChunk(it)) == Pos(cs, it) + |cs[it.outer].data|
  {
    FlatTake(cs, it.outer);
  }

  lemma {:induction false} FlatPrefixLonger(cs: seq<Chunk>, o: nat, p: nat)
    requires NoEmptyChunk(cs) && o < p <= |cs|
    ensures |Flat(cs[..o])| + |cs[o].data| <= |Flat(cs[..p])|
  {
    FlatTake(cs, o);
    assert cs[..p] == cs[..o + 1] + cs[o + 1..p];
    FlatConcat(cs[..o + 1], cs[o + 1..p]);
  }

  /** Distinct iterators sit at distinct positions. */
  lemma {:induction false} PosInjective(cs: seq<Chunk>, a: Iter, b: Iter)
    requires NoEmptyChunk(cs) && ValidIter(cs, a) && ValidIter(cs, b)
    ensures Pos(cs, a) == Pos(cs, b) <==> a == b
    ensures a.outer < b.outer ==> Pos(cs, a) < Pos(cs, b)
  {
    if a.outer < b.outer {
      FlatPrefixLonger(cs, a.outer, b.outer);
    } else if b.outer < a.outer {
      FlatPrefixLonger(cs, b.outer, a.outer);
    }
  }

  lemma {:induction false} PrevPos(cs: seq<Chunk>, it: Iter)
    requires NoEmptyChunk(cs) && ValidIter(cs, it) && it != Begin(cs)
    ensures Pos(cs, it) > 0
    ensures Dereferenceable(cs, Prev(cs, it)) && Pos(cs, Prev(cs, it)) == Pos(cs, it) - 1
  {
    BeginPos(cs);
    PosInjective(cs, it, Begin(cs));
    if it.inner == 0 { FlatTake(cs, it.outer - 1); }
  }

  // ---------------------------------------------------------------- in-place updates

  /** The same chunk sizes: every iterator of one is an iterator of the other, at the same place. */
  ghost predicate SameLayout(cs: seq<Chunk>, ds: seq<Chunk>) {
    |cs| == |ds| && forall i | 0 <= i < |cs| :: |cs[i].data| == |ds[i].data|
  }

  lemma {:induction false} LayoutLength(cs: seq<Chunk>, ds: seq<Chunk>)
    requires SameLayout(cs, ds)
    ensures |Flat(cs)| == |Flat(ds)|
  {
    if cs != [] { LayoutLength(cs[1..], ds[1..]); }
  }

  lemma {:induction false} LayoutPos(cs: seq<Chunk>, ds: seq<Chunk>, it: Iter)
    requires SameLayout(cs, ds) && ValidIter(cs, it)
    ensures ValidIter(ds, it) && Pos(cs, it) == Pos(ds, it)
  {
    LayoutLength(cs[..it.outer], ds[..it.outer]);
  }

  /** Replacing one chunk replaces its stretch of the ranges. */
  lemma {:induction false} FlatReplaceChunk(cs: seq<Chunk>, o: nat, c: Chunk)
    requires o < |cs|
    ensures Flat(cs[o := c]) == Flat(cs[..o]) + c.data + Flat(cs[o + 1..])
  {
    var ds := cs[o := c];
    FlatAround(ds, o);
    assert ds[..o] == cs[..o] && ds[o + 1..] == cs[o + 1..];
  }

  /** Writing one range inside a chunk writes the range at that position. */
  lemma {:induction false} FlatSet(cs: seq<Chunk>, it: Iter, c: Chunk, r: Range)
    requires Dereferenceable(cs, it) && c.data == cs[it.outer].data[it.inner := r]
    ensures Pos(cs, it) < |Flat(cs)|
    ensures Flat(cs[it.outer := c]) == Flat(cs)[Pos(cs, it) := r]
    ensures SameLayout(cs, cs[it.outer := c])
  {
    AtPos(cs, it);
    FlatAround(cs, it.outer);
    FlatReplaceChunk(cs, it.outer, c);
  }

  lemma {:induction false} TotalSet(rs: seq<Range>, k: nat, r: Range)
    requires k < |rs| && AllNonempty(rs) && Nonempty(r)
    ensures AllNonempty(rs[k := r])
    ensures Total(rs[k := r]) == Total(rs) - (rs[k].second - rs[k].first) + (r.second - r.first)
  {
    TotalAround(rs, k);
    TotalAround(rs[k := r], k);
    assert rs[k := r][..k] == rs[..k] && rs[k := r][k + 1..] == rs[k + 1..];
  }

  // ---------------------------------------------------------------- insertion and removal

  ghost function Inserted<T>(s: seq<T>, k: nat, x: T): seq<T>
    requires k <= |s|
  {
    s[..k] + [x] + s[k..]
  }

  ghost function Removed<T>(s: seq<T>, k: nat): seq<T>
    requires k < |s|
  {
    s[..k] + s[k + 1..]
  }

  lemma {:induction false} TotalInserted(rs: seq<Range>, k: nat, r: Range)
    requires k <= |rs| && AllNonempty(rs) && Nonempty(r)
    ensures AllNonempty(Inserted(rs, k, r))
    ensures Total(Inserted(rs, k, r)) == Total(rs) + (r.second - r.first)
  {
    var t := Inserted(rs, k, r);
    forall i | 0 <= i < |t| ensures Nonempty(t[i]) {
      if i < k { assert Nonempty(rs[i]); } else if i > k { assert Nonempty(rs[i - 1]); }
    }
    TotalAround(t, k);
    assert t[..k] == rs[..k] && t[k + 1..] == rs[k..];
    TotalSplit(rs, k);
  }

  lemma {:induction false} TotalRemoved(rs: seq<Range>, k: nat)
    requires k < |rs| && AllNonempty(rs)
    ensures AllNonempty(Removed(rs, k))
    ensures Total(Removed(rs, k)) == Total(rs) - (rs[k].second - rs[k].first)
  {
    TotalAround(rs, k);
    TotalConcat(rs[..k], rs[k + 1..]);
  }

  lemma {:induction false} FlatInserted(cs: seq<Chunk>, it: Iter, c: Chunk, r: Range)
    requires Dereferenceable(cs, it) && c.data == Inserted(cs[it.outer].data, it.inner, r)
    ensures Pos(cs, it) <= |Flat(cs)|
    ensures Flat(cs[it.outer := c]) == Inserted(Flat(cs), Pos(cs, it), r)
    ensures Dereferenceable(cs[it.outer := c], it) && Pos(cs[it.outer := c], it) == Pos(cs, it)
  {
    hide Flat;
    AtPos(cs, it);
    FlatAround(cs, it.outer);
    FlatReplaceChunk(cs, it.outer, c);
    assert cs[it.outer := c][..it.outer] == cs[..it.outer];
    var p, d, q := Flat(cs[..it.outer]), cs[it.outer].data, Flat(cs[it.outer + 1..]);
    assert Flat(cs) == p + d + q;
    var k := |p| + it.inner;
    assert (p + d + q)[..k] == p + d[..it.inner];
    assert (p + d + q)[k..] == d[it.inner..] + q;
    assert p + Inserted(d, it.inner, r) + q == p + d[..it.inner] + [r] + (d[it.inner..] + q);
  }

  lemma {:induction false} FlatRemoved(cs: seq<Chunk>, it: Iter, c: Chunk)
    requires Dereferenceable(cs, it) && c.data == Removed(cs[it.outer].data, it.inner)
    ensures Pos(cs, it) < |Flat(cs)|
    ensures Flat(cs[it.outer := c]) == Removed(Flat(cs), Pos(cs, it))
  {
    AtPos(cs, it);
    FlatAround(cs, it.outer);
    FlatReplaceChunk(cs, it.outer, c);
    RemovedInMiddle(Flat(cs[..it.outer]), cs[it.outer].data, Flat(cs[it.outer + 1..]), it.inner);
  }

  lemma {:induction false} RemovedInMiddle<T>(p: seq<T>, d: seq<T>, q: seq<T>, k: nat)
    requires k < |d|
    ensures p + Removed(d, k) + q == Removed(p + d + q, |p| + k)
  {
  }

  lemma {:induction false} FlatDropChunk(cs: seq<Chunk>, o: nat)
    requires o < |cs| && |cs[o].data| == 1
    ensures Pos(cs, Iter(o, 0)) < |Flat(cs)|
    ensures Flat(Removed(cs, o)) == Removed(Flat(cs), Pos(cs, Iter(o, 0)))
    ensures Flat(Removed(cs, o)[..o]) == Flat(cs[..o])
  {
    FlatAround(cs, o);
    FlatConcat(cs[..o], cs[o + 1..]);
    assert Removed(cs, o)[..o] == cs[..o];
  }
}
