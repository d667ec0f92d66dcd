/** Iterating over the individual indices of a chunked vector rather than its ranges. */
module IndexIterators {
  import opened NatSets
  import opened Ranges
  import opened RangeUpdates
  import opened Chunks
  import opened Lookup

  datatype IndexIter = IndexIter(it: Iter, offset: nat)

  ghost predicate ValidIndexIter(cs: seq<Chunk>, i: IndexIter) {
    && ValidIter(cs, i.it)
    && (Dereferenceable(cs, i.it) ==> At(cs, i.it).first + i.offset < At(cs, i.it).second)
  }

  function FirstIndex(cs: seq<Chunk>): IndexIter {
    IndexIter(Begin(cs), 0)
  }

  /** Only the range iterators are compared. */
  predicate PastLast(cs: seq<Chunk>, i: IndexIter) {
    i.it == End(cs)
  }

  function IndexOf(cs: seq<Chunk>, i: IndexIter): nat
    requires Dereferenceable(cs, i.it)
  {
    At(cs, i.it).first + i.offset
  }

  function NextIndex(cs: seq<Chunk>, i: IndexIter): IndexIter
    requires Dereferenceable(cs, i.it)
  {
    if At(cs, i.it).first + i.offset + 1 == At(cs, i.it).second then IndexIter(Next(cs, i.it), 0)
    else IndexIter(i.it, i.offset + 1)
  }

  /** The end of the last range. */
  ghost function Sup(rs: seq<Range>): nat {
    if rs == [] then 0 else rs[|rs| - 1].second
  }

  /** The members still to come are those from the cursor on. */
  ghost function Cursor(cs: seq<Chunk>, i: IndexIter): nat {
    if Dereferenceable(cs, i.it) then IndexOf(cs, i) else Sup(Flat(cs))
  }

  /** What the loops know about an index iterator over the members s. */
  ghost predicate Iterating(cs: seq<Chunk>, i: IndexIter, s: set<nat>) {
    && ValidIndexIter(cs, i)
    && (PastLast(cs, i) <==> !Dereferenceable(cs, i.it))
    && CursorAt(s, Cursor(cs, i), !PastLast(cs, i))
    && Cursor(cs, i) <= Sup(Flat(cs))
  }

  lemma {:induction false} SupBounds(rs: seq<Range>)
    requires Separated(rs)
    ensures AllBelow(Members(rs), Sup(rs))
    ensures forall k | 0 <= k < |rs| :: rs[k].second <= Sup(rs)
  {
    if rs != [] {
      SeparatedIsOrdered(rs);
      DividedMembers(rs, |rs|, Sup(rs));
      assert rs[..|rs|] == rs;
      forall k | 0 <= k < |rs| ensures rs[k].second <= Sup(rs) {
        if k < |rs| - 1 { assert rs[k].second < rs[|rs| - 1].first && Nonempty(rs[|rs| - 1]); }
      }
    }
  }

  lemma {:induction false} IteratingAt(cs: seq<Chunk>, i: IndexIter, cap: nat)
    requires WellFormed(cs, cap) && ValidIndexIter(cs, i)
    ensures Iterating(cs, i, Members(Flat(cs)))
  {
    Deref(cs, i.it);
    SupBounds(Flat(cs));
    if Dereferenceable(cs, i.it) { MemberWitness(Flat(cs), Pos(cs, i.it), IndexOf(cs, i)); }
  }

  /** Every member is still to come. */
  lemma {:induction false} StartIterating(cs: seq<Chunk>, cap: nat)
    requires WellFormed(cs, cap)
    ensures Iterating(cs, FirstIndex(cs), Members(Flat(cs)))
    ensures AllFrom(Members(Flat(cs)), Cursor(cs, FirstIndex(cs)))
    ensures cs != [] ==> !PastLast(cs, FirstIndex(cs))
  {
    var rs := Flat(cs);
    SoundChunks(cs, cap);
    BeginPos(cs);
    Deref(cs, Begin(cs));
    StepOver(cs, Begin(cs), cap);
    IteratingAt(cs, FirstIndex(cs), cap);
    if rs != [] {
      FirstRange(rs);
    }
  }

  /** One step passes exactly one member. */
  lemma {:induction false} KeepIterating(cs: seq<Chunk>, i: IndexIter, cap: nat)
    requires WellFormed(cs, cap) && Iterating(cs, i, Members(Flat(cs))) && !PastLast(cs, i)
    ensures Iterating(cs, NextIndex(cs, i), Members(Flat(cs)))
    ensures CursorStep(Members(Flat(cs)), Cursor(cs, i), Cursor(cs, NextIndex(cs, i)))
  {
    var rs, k, j := Flat(cs), Pos(cs, i.it), NextIndex(cs, i);
    StepOver(cs, i.it, cap);
    StepOver(cs, Next(cs, i.it), cap);
    SupBounds(rs);
    IteratingAt(cs, j, cap);
    if j.it != i.it {
      NothingBetween(rs, k);
    }
  }

  /** No member lies between one range and the next, or after the last. */
  lemma {:induction false} NothingBetween(rs: seq<Range>, k: nat)
    requires Separated(rs) && k < |rs|
    ensures var next := if k + 1 < |rs| then rs[k + 1].first else rs[k].second;
            && rs[k].second <= next
            && forall x | x in Members(rs) :: x < next <==> x < rs[k].second
  {
    var next := if k + 1 < |rs| then rs[k + 1].first else rs[k].second;
    if k + 1 < |rs| { assert rs[k].second < rs[k + 1].first; }
    SeparatedIsOrdered(rs);
    DividedMembers(rs, k + 1, next);
    DividedMembers(rs, k + 1, rs[k].second);
  }
}
