/** The merge loops of the batch operations, on sets: what has been written when the two cursors
    stand at s and p. */
module Merges {
  import opened NatSets
  import opened Ranges
  import opened Chunks
  import opened Lookup
  import opened IndexIterators
  import opened Renumbering

  /** Nothing of p lies between the positions already passed and y, so y's rank is known. */
  lemma {:induction false} RankHere(p: set<nat>, c: nat, more: bool, y: nat)
    requires CursorAt(p, c, more) && AllBelow(Below(p, c), y) && (more ==> y <= c)
    ensures Rank(p, y) == Rank(p, c)
    ensures y in p <==> more && y == c
  {
    if y <= c {
      forall x: nat | y <= x < c ensures x !in p { assert x in p ==> x in Below(p, c); }
      RankGap(p, y, c);
    } else {
      RankGap(p, c, y);
    }
    assert y in p && y < c ==> y in Below(p, c);
  }

  // ---------------------------------------------------------------- insert_at and shift_for_insert_at

  /** What holds in the merge: out has been written, every member of it below sup. */
  ghost predicate Shifting(s: set<nat>, p: set<nat>, c: nat, more: bool, d: nat, shift: nat, out: set<nat>, sup: nat) {
    && shift == Rank(p, d)
    && out == ShiftAll(Below(s, c), p)
    && (more ==> sup <= c + shift && AllBelow(Below(p, d), c + shift))
  }

  lemma {:induction false} ShiftingStarts(s: set<nat>, p: set<nat>, c: nat, more: bool, d: nat)
    requires AllFrom(s, c) && AllFrom(p, d)
    ensures Shifting(s, p, c, more, d, 0, {}, 0)
    ensures Below(p, d) == {}
  {
    assert Below(s, c) == {} && Below(p, d) == {};
    assert ShiftAll({}, p) == {};
    RankGap(p, 0, d);
  }

  lemma {:induction false} ShiftAllStep(s: set<nat>, p: set<nat>, c: nat, c': nat)
    requires CursorStep(s, c, c')
    ensures ShiftAll(Below(s, c'), p) == ShiftAll(Below(s, c), p) + {Shift(p, c)}
  {
    StepBelow(s, c, c');
  }

  /** The member c goes out, moved by shift. */
  lemma {:induction false} ShiftingTakes(s: set<nat>, p: set<nat>, c: nat, c': nat, more': bool, d: nat, moreP: bool, shift: nat, out: set<nat>, sup: nat)
    requires Shifting(s, p, c, true, d, shift, out, sup)
    requires CursorStep(s, c, c') && CursorAt(p, d, moreP) && (moreP ==> c + shift < d)
    ensures sup <= c + shift
    ensures Shifting(s, p, c', more', d, shift, out + {c + shift}, c + shift + 1)
  {
    RankHere(p, d, moreP, c + shift);
    ShiftUnique(p, c, c + shift);
    ShiftAllStep(s, p, c, c');
  }

  /** The position d is passed. */
  lemma {:induction false} ShiftingPasses(s: set<nat>, p: set<nat>, c: nat, more: bool, d: nat, d': nat, shift: nat, out: set<nat>, sup: nat)
    requires Shifting(s, p, c, more, d, shift, out, sup)
    requires CursorStep(p, d, d') && (more ==> d <= c + shift)
    ensures Shifting(s, p, c, more, d', shift + 1, out, sup)
    ensures more && sup <= d ==> Shifting(s, p, c, more, d', shift + 1, out, d + 1)
  {
    StepBelow(p, d, d');
  }

  lemma {:induction false} ShiftingEnds(s: set<nat>, p: set<nat>, c: nat, d: nat, shift: nat, out: set<nat>, sup: nat)
    requires Shifting(s, p, c, false, d, shift, out, sup) && AllBelow(s, c)
    ensures out == ShiftAll(s, p)
  {
    assert Below(s, c) == s;
  }

  // ---------------------------------------------------------------- erase_at

  ghost predicate Erasing(s: set<nat>, p: set<nat>, c: nat, more: bool, d: nat, moreP: bool, shift: nat, out: set<nat>, sup: nat) {
    && shift == Rank(p, d)
    && out == EraseAll(Below(s, c), p)
    && (more ==> shift <= c && sup <= c - shift && AllBelow(Below(p, d), c))
    && (moreP ==> sup <= d - shift)
  }

  lemma {:induction false} ErasingStarts(s: set<nat>, p: set<nat>, c: nat, more: bool, d: nat, moreP: bool)
    requires AllFrom(s, c) && AllFrom(p, d)
    ensures Erasing(s, p, c, more, d, moreP, 0, {}, 0)
  {
    assert Below(s, c) == {} && Below(p, d) == {};
    RankGap(p, 0, d);
  }

  /** The member c is not erased and goes out, moved down by shift. */
  lemma {:induction false} ErasingTakes(s: set<nat>, p: set<nat>, c: nat, c': nat, more': bool, d: nat, moreP: bool, shift: nat, out: set<nat>, sup: nat)
    requires Erasing(s, p, c, true, d, moreP, shift, out, sup)
    requires CursorStep(s, c, c') && CursorAt(p, d, moreP) && (moreP ==> c < d)
    ensures c !in p && Unshift(p, c) == c - shift && sup <= c - shift
    ensures Erasing(s, p, c', more', d, moreP, shift, out + {c - shift}, c - shift + 1)
  {
    RankHere(p, d, moreP, c);
    StepBelow(s, c, c');
  }

  /** The member c is erased. */
  lemma {:induction false} ErasingDrops(s: set<nat>, p: set<nat>, c: nat, c': nat, more': bool, d': nat, moreP': bool, shift: nat, out: set<nat>, sup: nat)
    requires Erasing(s, p, c, true, c, true, shift, out, sup)
    requires CursorStep(s, c, c') && CursorStep(p, c, d')
    ensures Erasing(s, p, c', more', d', moreP', shift + 1, out, sup)
  {
    StepBelow(s, c, c');
    StepBelow(p, c, d');
  }

  /** A position that is not a member is passed. */
  lemma {:induction false} ErasingPasses(s: set<nat>, p: set<nat>, c: nat, d: nat, d': nat, moreP': bool, shift: nat, out: set<nat>, sup: nat)
    requires Erasing(s, p, c, true, d, true, shift, out, sup) && CursorStep(p, d, d') && d < c
    ensures Erasing(s, p, c, true, d', moreP', shift + 1, out, sup)
  {
    StepBelow(p, d, d');
  }

  lemma {:induction false} ErasingEnds(s: set<nat>, p: set<nat>, c: nat, d: nat, moreP: bool, shift: nat, out: set<nat>, sup: nat)
    requires Erasing(s, p, c, false, d, moreP, shift, out, sup) && AllBelow(s, c)
    ensures out == EraseAll(s, p)
  {
    assert Below(s, c) == s;
  }

  // ---------------------------------------------------------------- the same, on iterators

  /** Where an iteration over the members of cs stands. */
  ghost predicate Stands(cs: seq<Chunk>, cap: nat, b: IndexIter) {
    WellFormed(cs, cap) && Iterating(cs, b, Members(Flat(cs)))
  }

  /** One step of an iteration, on the set. */
  lemma {:induction false} Advance(cs: seq<Chunk>, cap: nat, b: IndexIter)
    requires Stands(cs, cap, b) && !PastLast(cs, b)
    ensures Stands(cs, cap, NextIndex(cs, b))
    ensures Cursor(cs, b) == IndexOf(cs, b)
    ensures Cursor(cs, b) < Cursor(cs, NextIndex(cs, b)) <= Sup(Flat(cs))
    ensures CursorStep(Members(Flat(cs)), Cursor(cs, b), Cursor(cs, NextIndex(cs, b)))
    ensures CursorAt(Members(Flat(cs)), Cursor(cs, NextIndex(cs, b)), !PastLast(cs, NextIndex(cs, b)))
  {
    KeepIterating(cs, b, cap);
  }

  /** A set being renumbered and the set of positions it is renumbered by, as chunks, with an
      iterator over each. */
  datatype Merge = Merge(cs: seq<Chunk>, cap: nat, ps: seq<Chunk>, pcap: nat, b1: IndexIter, b2: IndexIter) {
    ghost function S(): set<nat> {
      Members(Flat(cs))
    }

    ghost function P(): set<nat> {
      Members(Flat(ps))
    }

    ghost function C(): nat {
      Cursor(cs, b1)
    }

    ghost function D(): nat {
      Cursor(ps, b2)
    }

    ghost predicate More() {
      !PastLast(cs, b1)
    }

    ghost predicate MoreP() {
      !PastLast(ps, b2)
    }

    ghost predicate Valid() {
      Stands(cs, cap, b1) && Stands(ps, pcap, b2)
    }

    /** out has been written by a batch shift, all of it below sup. */
    ghost predicate Shifts(shift: nat, out: set<nat>, sup: nat) {
      Valid() && Shifting(S(), P(), C(), More(), D(), shift, out, sup)
    }

    /** out has been written by a batch insertion, all of it below sup. */
    ghost predicate Inserts(shift: nat, out: set<nat>, sup: nat) {
      && Shifts(shift, ShiftAll(Below(S(), C()), P()), sup)
      && out == Below(P(), D()) + ShiftAll(Below(S(), C()), P())
      && (MoreP() ==> sup <= D())
    }

    /** out has been written by a batch erasure, all of it below sup. */
    ghost predicate Erases(shift: nat, out: set<nat>, sup: nat) {
      Valid() && Erasing(S(), P(), C(), More(), D(), MoreP(), shift, out, sup)
    }

    function Step1(): Merge
      requires Dereferenceable(cs, b1.it)
    {
      this.(b1 := NextIndex(cs, b1))
    }

    function Step2(): Merge
      requires Dereferenceable(ps, b2.it)
    {
      this.(b2 := NextIndex(ps, b2))
    }

    /** What is left to go through. */
    ghost function Left(): int {
      Sup(Flat(cs)) - C() + (Sup(Flat(ps)) - D())
    }

    lemma {:induction false} Starts()
      requires WellFormed(cs, cap) && WellFormed(ps, pcap) && b1 == FirstIndex(cs) && b2 == FirstIndex(ps)
      ensures Shifts(0, {}, 0) && Inserts(0, {}, 0) && Erases(0, {}, 0)
    {
      StartIterating(cs, cap);
      StartIterating(ps, pcap);
      ShiftingStarts(S(), P(), C(), More(), D());
      ErasingStarts(S(), P(), C(), More(), D(), MoreP());
    }

    /** The next member of the set goes out, moved up by shift. */
    lemma {:induction false} ShiftsTake(shift: nat, out: set<nat>, sup: nat, y: nat)
      requires Shifts(shift, out, sup) && More() && y == IndexOf(cs, b1) + shift
      requires MoreP() ==> y < IndexOf(ps, b2)
      ensures sup <= y && Step1().Shifts(shift, out + {y}, y + 1)
      ensures 0 <= Step1().Left() < Left()
    {
      hide Flat, Members, ChunkSound;
      Advance(cs, cap, b1);
      ShiftingTakes(S(), P(), C(), Step1().C(), Step1().More(), D(), MoreP(), shift, out, sup);
    }

    /** The next position is passed. */
    lemma {:induction false} ShiftsPass(shift: nat, out: set<nat>, sup: nat, y: nat)
      requires Shifts(shift, out, sup) && MoreP() && y == IndexOf(ps, b2)
      requires More() ==> y <= IndexOf(cs, b1) + shift
      ensures Step2().Shifts(shift + 1, out, sup)
      ensures sup <= y ==> Step2().Shifts(shift + 1, out, y + 1)
      ensures 0 <= Step2().Left() < Left()
    {
      Advance(ps, pcap, b2);
      ShiftingPasses(S(), P(), C(), More(), D(), Step2().D(), shift, out, sup);
    }

    lemma {:induction false} ShiftsEnd(shift: nat, out: set<nat>, sup: nat)
      requires Shifts(shift, out, sup) && !More()
      ensures out == ShiftAll(S(), P())
    {
      ShiftingEnds(S(), P(), C(), D(), shift, out, sup);
    }

    lemma {:induction false} InsertsTake(shift: nat, out: set<nat>, sup: nat, y: nat)
      requires Inserts(shift, out, sup) && More() && y == IndexOf(cs, b1) + shift
      requires MoreP() ==> y < IndexOf(ps, b2)
      ensures sup <= y && Step1().Inserts(shift, out + {y}, y + 1)
      ensures 0 <= Step1().Left() < Left()
    {
      ShiftsTake(shift, ShiftAll(Below(S(), C()), P()), sup, y);
    }

    lemma {:induction false} InsertsPass(shift: nat, out: set<nat>, sup: nat, y: nat)
      requires Inserts(shift, out, sup) && MoreP() && y == IndexOf(ps, b2)
      requires More() ==> y <= IndexOf(cs, b1) + shift
      ensures sup <= y && Step2().Inserts(shift + 1, out + {y}, y + 1)
      ensures 0 <= Step2().Left() < Left()
    {
      ShiftsPass(shift, ShiftAll(Below(S(), C()), P()), sup, y);
      Advance(ps, pcap, b2);
      StepBelow(P(), D(), Step2().D());
    }

    lemma {:induction false} InsertsEnd(shift: nat, out: set<nat>, sup: nat)
      requires Inserts(shift, out, sup) && !More() && !MoreP()
      ensures out == InsertAll(S(), P())
    {
      ShiftsEnd(shift, ShiftAll(Below(S(), C()), P()), sup);
      assert Below(P(), D()) == P();
    }

    /** The members still to come are not below shift. */
    lemma {:induction false} ErasesRoom(shift: nat, out: set<nat>, sup: nat)
      requires Erases(shift, out, sup) && More()
      ensures shift <= IndexOf(cs, b1)
    {
    }

    /** The next member of the set is kept and goes out, moved down by shift. */
    lemma {:induction false} ErasesTake(shift: nat, out: set<nat>, sup: nat, y: nat)
      requires Erases(shift, out, sup) && More() && y == IndexOf(cs, b1) - shift
      requires MoreP() ==> IndexOf(cs, b1) < IndexOf(ps, b2)
      ensures sup <= y && Step1().Erases(shift, out + {y}, y + 1)
      ensures 0 <= Step1().Left() < Left()
    {
      hide Flat, Members, ChunkSound;
      Advance(cs, cap, b1);
      ErasingTakes(S(), P(), C(), Step1().C(), Step1().More(), D(), MoreP(), shift, out, sup);
    }

    /** The next member of the set is at the next position. */
    lemma {:induction false} ErasesDrop(shift: nat, out: set<nat>, sup: nat)
      requires Erases(shift, out, sup) && More() && MoreP() && IndexOf(cs, b1) == IndexOf(ps, b2)
      ensures Step1().Step2().Erases(shift + 1, out, sup)
      ensures 0 <= Step1().Step2().Left() < Left()
    {
      Advance(cs, cap, b1);
      Advance(ps, pcap, b2);
      ErasingDrops(S(), P(), C(), Step1().C(), Step1().More(), Step2().D(), Step2().MoreP(), shift, out, sup);
    }

    /** The next position is not a member. */
    lemma {:induction false} ErasesPass(shift: nat, out: set<nat>, sup: nat)
      requires Erases(shift, out, sup) && More() && MoreP() && IndexOf(ps, b2) < IndexOf(cs, b1)
      ensures Step2().Erases(shift + 1, out, sup)
      ensures 0 <= Step2().Left() < Left()
    {
      Advance(ps, pcap, b2);
      ErasingPasses(S(), P(), C(), D(), Step2().D(), Step2().MoreP(), shift, out, sup);
    }

    lemma {:induction false} ErasesEnd(shift: nat, out: set<nat>, sup: nat)
      requires Erases(shift, out, sup) && !More()
      ensures out == EraseAll(S(), P())
    {
      ErasingEnds(S(), P(), C(), D(), MoreP(), shift, out, sup);
    }
  }
}
