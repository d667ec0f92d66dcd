/** The three-way merge of add_shifted_by: indices are taken out of one set's numbering and put
    into another's, while the ranges of the receiving set are copied around them. */
module Translations {
  import opened NatSets
  import opened Ranges
  import opened RangeUpdates
  import opened Chunks
  import opened Lookup
  import opened IndexIterators
  import opened Renumbering
  import opened Builders

  // ---------------------------------------------------------------- leaving the old numbering

  /** The ranges of t up to position m have been passed. */
  ghost predicate Passed(t: seq<Range>, m: nat, newShift: nat, skipUntil: nat) {
    && Separated(t) && m <= |t|
    && newShift == TotalBefore(t, m)
    && skipUntil == (if m == 0 then 0 else t[m - 1].second)
  }

  /** The ranges passed all start by c. */
  ghost predicate PassedBy(t: seq<Range>, m: nat, newShift: nat, skipUntil: nat, c: nat) {
    Passed(t, m, newShift, skipUntil) && (m > 0 ==> t[m - 1].first <= c)
  }

  /** Once the ranges that start by index are passed, index is a member exactly when it lies below
      the end of the last of them; otherwise newShift is its rank. */
  lemma {:induction false} PassedTo(t: seq<Range>, m: nat, newShift: nat, skipUntil: nat, index: nat)
    requires PassedBy(t, m, newShift, skipUntil, index)
    requires m < |t| ==> index < t[m].first
    ensures index < skipUntil <==> index in Members(t)
    ensures index !in Members(t) ==> newShift <= index && index - newShift == Unshift(Members(t), index)
  {
    if index < skipUntil {
      MemberWitness(t, m - 1, index);
    } else {
      if m < |t| { assert Nonempty(t[m]); }
      LocatedMember(t, m, index);
      RankBetween(t, m, index);
    }
  }

  /** Pass one more range. */
  lemma {:induction false} PassOne(ts: seq<Chunk>, cap: nat, it: Iter, newShift: nat, skipUntil: nat, index: nat)
    requires WellFormed(ts, cap) && Dereferenceable(ts, it)
    requires PassedBy(Flat(ts), Pos(ts, it), newShift, skipUntil, index) && At(ts, it).first <= index
    ensures At(ts, it).first < At(ts, it).second
    ensures var n := Next(ts, it);
            && ValidIter(ts, n) && Pos(ts, n) == Pos(ts, it) + 1 <= |Flat(ts)|
            && (n == End(ts) <==> !Dereferenceable(ts, n))
            && PassedBy(Flat(ts), Pos(ts, n), newShift + (At(ts, it).second - At(ts, it).first), At(ts, it).second, index)
  {
    StepOver(ts, it, cap);
    Deref(ts, Next(ts, it));
  }

  // ---------------------------------------------------------------- entering the new numbering

  /** The ranges of o up to position j and the translations in added have been written, the last
      index being sup - 1.  Everything with an unshifted position below w is done. */
  ghost predicate Placing(o: seq<Range>, j: nat, oldShift: nat, w: nat, added: set<nat>, out: set<nat>, sup: nat) {
    && Separated(o) && j <= |o|
    && oldShift == TotalBefore(o, j)
    && (j > 0 ==> o[j - 1].second <= w + oldShift)
    && sup <= w + oldShift
    && (j < |o| ==> sup <= o[j].first)
    && out == Members(o[..j]) + added
  }

  /** The last index written is a translation, unless there has been none. */
  ghost predicate EndsWithAdded(added: set<nat>, out: set<nat>, sup: nat) {
    if added == {} then out == {} else sup > 0 && sup - 1 in added && AllBelow(added, sup)
  }

  /** A range that starts at or below the shifted position is copied before it. */
  lemma {:induction false} PlaceOld(o: seq<Range>, j: nat, oldShift: nat, u: nat, added: set<nat>, out: set<nat>, sup: nat)
    requires Placing(o, j, oldShift, u, added, out, sup) && j < |o| && o[j].first <= u + oldShift
    ensures sup <= o[j].first < o[j].second
    ensures Placing(o, j + 1, oldShift + (o[j].second - o[j].first), u, added,
                    out + Interval(o[j].first, o[j].second), o[j].second)
  {
    assert Nonempty(o[j]);
    TotalBeforeNext(o, j);
    MembersSplit(o[..j + 1], j);
    assert o[..j + 1][..j] == o[..j] && o[..j + 1][j..] == [o[j]];
    MembersOne(o[j]);
    if j + 1 < |o| { assert o[j].second < o[j + 1].first; }
  }

  /** When the next range starts beyond it, u + oldShift is where u shifts to. */
  lemma {:induction false} PlaceNew(o: seq<Range>, j: nat, oldShift: nat, u: nat, added: set<nat>, out: set<nat>, sup: nat, y: nat)
    requires Placing(o, j, oldShift, u, added, out, sup)
    requires y == u + oldShift && (j < |o| ==> y < o[j].first)
    ensures sup <= y == Shift(Members(o), u)
    ensures Placing(o, j, oldShift, u + 1, added + {y}, out + {y}, y + 1)
  {
    if j < |o| { assert Nonempty(o[j]); }
    LocatedMember(o, j, y);
    RankBetween(o, j, y);
    ShiftUnique(Members(o), u, y);
  }

  lemma {:induction false} AddedGrows(added: set<nat>, out: set<nat>, sup: nat, y: nat, out': set<nat>)
    requires EndsWithAdded(added, out, sup) && sup <= y
    ensures EndsWithAdded(added + {y}, out', y + 1)
  {
  }

  /** The translation of u is placed behind the ranges copied before it. */
  lemma {:induction false} PlaceOneMore(o: seq<Range>, j: nat, oldShift: nat, u: nat, added: set<nat>,
                                        before: set<nat>, was: nat, out: set<nat>, sup: nat, y: nat)
    requires Placing(o, j, oldShift, u, added, out, sup) && EndsWithAdded(added, before, was) && was <= sup
    requires y == u + oldShift && (j < |o| ==> y < o[j].first)
    ensures sup <= y && y == Shift(Members(o), u)
    ensures Placing(o, j, oldShift, u + 1, added + {y}, out + {y}, y + 1)
    ensures EndsWithAdded(added + {y}, out + {y}, y + 1)
  {
    PlaceNew(o, j, oldShift, u, added, out, sup, y);
    AddedGrows(added, before, was, y, out + {y});
  }

  // ---------------------------------------------------------------- the loop over the values

  /** What the loop over v knows when it stands at c. */
  ghost predicate Translating(o: seq<Range>, t: seq<Range>, v: set<nat>, c: nat,
                              j: nat, oldShift: nat, m: nat, newShift: nat, skipUntil: nat,
                              w: nat, out: set<nat>, sup: nat) {
    && PassedBy(t, m, newShift, skipUntil, c)
    && w <= Unshift(Members(t), c)
    && Placing(o, j, oldShift, w, Translated(Members(o), Members(t), Below(v, c)), out, sup)
    && EndsWithAdded(Translated(Members(o), Members(t), Below(v, c)), out, sup)
  }

  lemma {:induction false} TranslatingStarts(o: seq<Range>, t: seq<Range>, v: set<nat>, c: nat)
    requires Separated(o) && Separated(t) && AllFrom(v, c)
    ensures Translating(o, t, v, c, 0, 0, 0, 0, 0, 0, {}, 0)
  {
    assert Below(v, c) == {};
    assert o[..0] == [] && t[..0] == [];
    assert Translated(Members(o), Members(t), {}) == {};
  }

  lemma {:induction false} TranslatedStep(s: set<nat>, t: set<nat>, v: set<nat>, c: nat, d: nat)
    requires CursorStep(v, c, d)
    ensures c in t ==> Translated(s, t, Below(v, d)) == Translated(s, t, Below(v, c))
    ensures c !in t ==> Translated(s, t, Below(v, d)) == Translated(s, t, Below(v, c)) + {Shift(s, Unshift(t, c))}
  {
    StepBelow(v, c, d);
  }

  /** An index inside t is passed over. */
  lemma {:induction false} SkipIndex(o: seq<Range>, t: seq<Range>, v: set<nat>, c: nat, d: nat,
                  j: nat, oldShift: nat, m: nat, newShift: nat, skipUntil: nat, w: nat, out: set<nat>, sup: nat)
    requires Translating(o, t, v, c, j, oldShift, m, newShift, skipUntil, w, out, sup)
    requires CursorStep(v, c, d) && c in Members(t)
    ensures Translating(o, t, v, d, j, oldShift, m, newShift, skipUntil, w, out, sup)
  {
    TranslatedStep(Members(o), Members(t), v, c, d);
    UnshiftMonotone(Members(t), c, d);
  }

  /** What the translation of index c, which unshifts to u, starts from. */
  lemma {:induction false} TranslationReady(o: seq<Range>, t: seq<Range>, v: set<nat>, c: nat,
                         j: nat, oldShift: nat, m: nat, newShift: nat, skipUntil: nat, w: nat, out: set<nat>, sup: nat,
                         u: nat) returns (added: set<nat>)
    requires Translating(o, t, v, c, j, oldShift, m, newShift, skipUntil, w, out, sup)
    requires u == Unshift(Members(t), c)
    ensures TranslatedBelow(added, o, t, v, c)
    ensures Placing(o, j, oldShift, u, added, out, sup) && EndsWithAdded(added, out, sup)
  {
    added := Translated(Members(o), Members(t), Below(v, c));
  }

  /** added holds the translations of the members of v below c. */
  ghost predicate TranslatedBelow(added: set<nat>, o: seq<Range>, t: seq<Range>, v: set<nat>, c: nat) {
    added == Translated(Members(o), Members(t), Below(v, c))
  }

  /** Index c has gone out at its new place y. */
  lemma {:induction false} PlaceIndex(o: seq<Range>, t: seq<Range>, v: set<nat>, c: nat, d: nat, added: set<nat>,
                   m: nat, newShift: nat, skipUntil: nat, j: nat, oldShift: nat, u: nat, y: nat, out: set<nat>)
    requires PassedBy(t, m, newShift, skipUntil, c)
    requires CursorStep(v, c, d) && c !in Members(t) && u == Unshift(Members(t), c)
    requires TranslatedBelow(added, o, t, v, c) && y == Shift(Members(o), u)
    requires Placing(o, j, oldShift, u + 1, added + {y}, out, y + 1) && EndsWithAdded(added + {y}, out, y + 1)
    ensures Translating(o, t, v, d, j, oldShift, m, newShift, skipUntil, u + 1, out, y + 1)
  {
    TranslatedStep(Members(o), Members(t), v, c, d);
    UnshiftMonotone(Members(t), c, d);
  }

  /** The same as Placing, at an iterator. */
  ghost predicate PlacingAt(os: seq<Chunk>, it: Iter, oldShift: nat, u: nat, added: set<nat>, out: set<nat>, sup: nat) {
    ValidIter(os, it) && Placing(Flat(os), Pos(os, it), oldShift, u, added, out, sup)
  }

  lemma {:induction false} CopyFrom(os: seq<Chunk>, it: Iter, oldShift: nat, u: nat, added: set<nat>, out: set<nat>, sup: nat)
    requires ValidIter(os, it) && Placing(Flat(os), Pos(os, it), oldShift, u, added, out, sup)
    ensures PlacingAt(os, it, oldShift, u, added, out, sup) && (it == End(os) <==> !Dereferenceable(os, it))
  {
    Deref(os, it);
  }

  /** Copying one range, and stepping to the next. */
  lemma {:induction false} CopyNext(os: seq<Chunk>, cap: nat, it: Iter, oldShift: nat, u: nat, added: set<nat>, out: set<nat>, sup: nat)
    requires WellFormed(os, cap) && Dereferenceable(os, it)
    requires PlacingAt(os, it, oldShift, u, added, out, sup) && At(os, it).first <= u + oldShift
    ensures var r, n := At(os, it), Next(os, it);
            && sup <= r.first < r.second
            && PlacingAt(os, n, oldShift + (r.second - r.first), u, added, out + Interval(r.first, r.second), r.second)
            && ValidIter(os, n) && (n == End(os) <==> !Dereferenceable(os, n))
    ensures 0 <= |Flat(os)| - Pos(os, Next(os, it)) < |Flat(os)| - Pos(os, it)
  {
    Deref(os, it);
    PlaceOld(Flat(os), Pos(os, it), oldShift, u, added, out, sup);
    SoundChunks(os, cap);
    NextPos(os, it);
    Deref(os, Next(os, it));
  }

  /** The ranges that start at or before the place that u shifts to have been copied. */
  lemma {:induction false} CopiedBefore(os: seq<Chunk>, it: Iter, oldShift: nat, u: nat, added: set<nat>, out: set<nat>, sup: nat)
    requires PlacingAt(os, it, oldShift, u, added, out, sup)
    requires Dereferenceable(os, it) ==> u + oldShift < At(os, it).first
    ensures ValidIter(os, it) && Placing(Flat(os), Pos(os, it), oldShift, u, added, out, sup)
    ensures Pos(os, it) < |Flat(os)| ==> u + oldShift < Flat(os)[Pos(os, it)].first
  {
    Deref(os, it);
  }

  lemma {:induction false} IntervalGrows(s: set<nat>, a: nat, i: nat)
    requires a <= i
    ensures s + Interval(a, i) + {i} == s + Interval(a, i + 1)
    ensures s + Interval(a, a) == s
  {
  }

  /** The ranges of o up to position j and the added indices have been written; the rest of o is
      still to be copied. */
  ghost predicate CopiedUpTo(o: seq<Range>, j: nat, added: set<nat>, out: set<nat>, sup: nat) {
    && Separated(o) && j <= |o| && out == Members(o[..j]) + added
    && (j < |o| ==> sup <= o[j].first)
    && EndsWithAdded(added, out, sup)
  }

  lemma {:induction false} TranslatingEnds(o: seq<Range>, t: seq<Range>, v: set<nat>, c: nat,
                        j: nat, oldShift: nat, m: nat, newShift: nat, skipUntil: nat, w: nat, out: set<nat>, sup: nat)
      returns (added: set<nat>)
    requires Translating(o, t, v, c, j, oldShift, m, newShift, skipUntil, w, out, sup) && AllBelow(v, c)
    ensures added == Translated(Members(o), Members(t), v)
    ensures CopiedUpTo(o, j, added, out, sup)
  {
    assert Below(v, c) == v;
    added := Translated(Members(o), Members(t), v);
  }

  /** The state of the loop over the values: where the ranges of the receiving set are copied up to and
      the total of their lengths, where the ranges taken out are passed up to with theirs, and the
      end of the last range passed. */
  datatype Translation = Translation(os: seq<Chunk>, ts: seq<Chunk>, oldIt: Iter, oldShift: nat,
                                     shiftIt: Iter, newShift: nat, skipUntil: nat) {

    /** What the loop over v knows when it stands at c, having written out. */
    ghost predicate Stands(cap: nat, tcap: nat, v: set<nat>, c: nat, w: nat, out: set<nat>, sup: nat) {
      && WellFormed(os, cap) && WellFormed(ts, tcap) && ValidIter(os, oldIt) && ValidIter(ts, shiftIt)
      && Translating(Flat(os), Flat(ts), v, c, Pos(os, oldIt), oldShift, Pos(ts, shiftIt), newShift, skipUntil, w, out, sup)
    }

    lemma {:induction false} Starts(cap: nat, tcap: nat, v: set<nat>, c: nat)
      requires WellFormed(os, cap) && WellFormed(ts, tcap) && AllFrom(v, c)
      requires this == Translation(os, ts, Begin(os), 0, Begin(ts), 0, 0)
      ensures Stands(cap, tcap, v, c, 0, {}, 0)
    {
      BeginPos(os);
      BeginPos(ts);
      TranslatingStarts(Flat(os), Flat(ts), v, c);
    }

    lemma {:induction false} Skips(cap: nat, tcap: nat, v: set<nat>, c: nat, d: nat, w: nat, out: set<nat>, sup: nat)
      requires Stands(cap, tcap, v, c, w, out, sup) && CursorStep(v, c, d) && c in Members(Flat(ts))
      ensures Stands(cap, tcap, v, d, w, out, sup)
    {
      SkipIndex(Flat(os), Flat(ts), v, c, d, Pos(os, oldIt), oldShift, Pos(ts, shiftIt), newShift, skipUntil, w, out, sup);
    }

    lemma {:induction false} Ready(cap: nat, tcap: nat, v: set<nat>, c: nat, w: nat, out: set<nat>, sup: nat, u: nat)
        returns (added: set<nat>)
      requires Stands(cap, tcap, v, c, w, out, sup) && u == Unshift(Members(Flat(ts)), c)
      ensures TranslatedBelow(added, Flat(os), Flat(ts), v, c)
      ensures Placing(Flat(os), Pos(os, oldIt), oldShift, u, added, out, sup) && EndsWithAdded(added, out, sup)
    {
      added := TranslationReady(Flat(os), Flat(ts), v, c, Pos(os, oldIt), oldShift, Pos(ts, shiftIt), newShift, skipUntil,
                                w, out, sup, u);
    }

    lemma {:induction false} Placed(cap: nat, tcap: nat, v: set<nat>, c: nat, d: nat, added: set<nat>, u: nat, y: nat, out: set<nat>)
      requires WellFormed(os, cap) && WellFormed(ts, tcap) && ValidIter(os, oldIt) && ValidIter(ts, shiftIt)
      requires PassedBy(Flat(ts), Pos(ts, shiftIt), newShift, skipUntil, c)
      requires CursorStep(v, c, d) && c !in Members(Flat(ts)) && u == Unshift(Members(Flat(ts)), c)
      requires TranslatedBelow(added, Flat(os), Flat(ts), v, c) && y == Shift(Members(Flat(os)), u)
      requires Placing(Flat(os), Pos(os, oldIt), oldShift, u + 1, added + {y}, out, y + 1)
      requires EndsWithAdded(added + {y}, out, y + 1)
      ensures Stands(cap, tcap, v, d, u + 1, out, y + 1)
    {
      PlaceIndex(Flat(os), Flat(ts), v, c, d, added, Pos(ts, shiftIt), newShift, skipUntil, Pos(os, oldIt), oldShift,
                 u, y, out);
    }

    lemma {:induction false} Ends(cap: nat, tcap: nat, v: set<nat>, c: nat, w: nat, out: set<nat>, sup: nat)
        returns (added: set<nat>)
      requires Stands(cap, tcap, v, c, w, out, sup) && AllBelow(v, c)
      ensures added == Translated(Members(Flat(os)), Members(Flat(ts)), v)
      ensures CopiedUpTo(Flat(os), Pos(os, oldIt), added, out, sup)
    {
      added := TranslatingEnds(Flat(os), Flat(ts), v, c, Pos(os, oldIt), oldShift, Pos(ts, shiftIt), newShift, skipUntil,
                               w, out, sup);
    }
  }

  // ---------------------------------------------------------------- copying the rest

  /** The ranges of tail pushed one after the other. */
  ghost function AppendedAll(rs: seq<Range>, tail: seq<Range>): seq<Range> {
    if tail == [] then rs
    else Appended(AppendedAll(rs, tail[..|tail| - 1]), tail[|tail| - 1])
  }

  /** None of those pushes miscounts. */
  ghost predicate CopiesRight(rs: seq<Range>, tail: seq<Range>, reserved: nat, cap: Capacity) {
    tail == [] ||
    (&& CopiesRight(rs, tail[..|tail| - 1], reserved, cap)
     && !Miscounts(AppendedAll(rs, tail[..|tail| - 1]), tail[|tail| - 1], reserved, cap))
  }

  lemma {:induction false} AppendedLast(rs: seq<Range>, tail: seq<Range>)
    ensures AppendedAll(rs, []) == rs
    ensures tail != [] ==>
              AppendedAll(rs, tail) == Appended(AppendedAll(rs, tail[..|tail| - 1]), tail[|tail| - 1])
  {
  }

  /** Only the first range of a separated tail can merge into what is there. */
  lemma {:induction false} AppendedAllIs(rs: seq<Range>, tail: seq<Range>)
    requires Separated(tail) && tail != []
    ensures AppendedAll(rs, tail) == Appended(rs, tail[0]) + tail[1..]
  {
    hide Appended, AppendedAll;
    var n := |tail| - 1;
    var front, r := tail[..n], tail[n];
    AppendedLast(rs, tail);
    if n == 0 {
      assert front == [] && tail[1..] == [];
    } else {
      SeparatedParts(tail, n);
      AppendedAllIs(rs, front);
      assert tail[n - 1].second < tail[n].first;
      EndOfAppended(rs, front[0]);
      AppendAfter(Appended(rs, front[0]), front, r);
      assert tail == front + [r];
    }
  }

  lemma {:induction false} EndOfAppended(rs: seq<Range>, r: Range)
    ensures Appended(rs, r) != [] && Appended(rs, r)[|Appended(rs, r)| - 1].second == r.second
  {
  }

  lemma {:induction false} AppendAfter(a: seq<Range>, front: seq<Range>, r: Range)
    requires a != [] && front != [] && a[|a| - 1].second == front[0].second
    requires front[|front| - 1].second < r.first
    ensures Appended(a + front[1..], r) == a + (front + [r])[1..]
  {
  }

  /** Whether the last push merges. */
  lemma {:induction false} LastPush(rs: seq<Range>, tail: seq<Range>)
    requires Separated(tail) && tail != []
    ensures var ts := AppendedAll(rs, tail[..|tail| - 1]);
            && |ts| >= |rs|
            && (Touches(ts, tail[|tail| - 1]) ==> ts == rs && |AppendedAll(rs, tail)| == |rs|)
            && (!Touches(ts, tail[|tail| - 1]) ==> AppendedAll(rs, tail) == ts + [tail[|tail| - 1]])
  {
    var n := |tail| - 1;
    if n > 0 {
      SeparatedParts(tail, n);
      AppendedAllIs(rs, tail[..n]);
      assert tail[n - 1].second < tail[n].first;
    }
  }

  /** A copied range that opens a chunk beyond the reserved ones with more than one index. */
  ghost predicate OpensMiscounted(rs: seq<Range>, q: nat, reserved: nat, cap: Capacity) {
    && q < |rs| && q % cap == 0 && q / cap >= reserved
    && rs[q].second - rs[q].first != 1
  }

  /** No range from position n on is one of them. */
  ghost predicate AllCounted(rs: seq<Range>, n: nat, reserved: nat, cap: Capacity) {
    forall q: nat | n <= q :: !OpensMiscounted(rs, q, reserved, cap)
  }

  lemma {:induction false} OneMoreCounted(ts: seq<Range>, r: Range, n: nat, reserved: nat, cap: Capacity)
    requires n <= |ts| && !Touches(ts, r)
    ensures AllCounted(ts + [r], n, reserved, cap) <==>
            AllCounted(ts, n, reserved, cap) && !Miscounts(ts, r, reserved, cap)
  {
    var us := ts + [r];
    assert OpensMiscounted(us, |ts|, reserved, cap) <==> Miscounts(ts, r, reserved, cap);
    forall q: nat | q < |ts| ensures OpensMiscounted(us, q, reserved, cap) <==> OpensMiscounted(ts, q, reserved, cap) {
      assert us[q] == ts[q];
    }
    forall q: nat | |ts| < q ensures !OpensMiscounted(us, q, reserved, cap) {}
  }

  /** The pushes are all right exactly when no range beyond those written before is one of them. */
  lemma {:induction false} CopiesRightIff(rs: seq<Range>, tail: seq<Range>, reserved: nat, cap: Capacity)
    requires Separated(tail)
    ensures CopiesRight(rs, tail, reserved, cap) <==> AllCounted(AppendedAll(rs, tail), |rs|, reserved, cap)
    decreases |tail|
  {
    if tail != [] {
      var n := |tail| - 1;
      SeparatedParts(tail, n);
      CopiesRightIff(rs, tail[..n], reserved, cap);
      LastPush(rs, tail);
      var ts := AppendedAll(rs, tail[..n]);
      if !Touches(ts, tail[n]) { OneMoreCounted(ts, tail[n], |rs|, reserved, cap); }
    }
  }

  /** The chunks the builder reserves for a set of n ranges. */
  function Reserved(n: nat, cap: Capacity): nat {
    n / cap + 1
  }

  /** The maximal ranges that make up a set. */
  ghost predicate RangesOf(rs: seq<Range>, s: set<nat>) {
    Separated(rs) && Members(rs) == s
  }

  /** add_shifted_by leaves a wrong count behind: the result after has a range that opens a chunk
      beyond the reserved ones, lies above every index that was added, and holds more than one. */
  ghost predicate TailMiscounts(reserved: nat, added: set<nat>, after: seq<Range>, cap: Capacity) {
    exists q: nat :: OpensMiscounted(after, q, reserved, cap) && AllBelow(added, after[q].first)
  }

  /** Copying the rest of o keeps the ranges maximal and completes the set. */
  lemma {:induction false} TailMembers(rs: seq<Range>, tail: seq<Range>)
    requires Separated(rs) && Separated(tail) && (tail != [] ==> Sup(rs) <= tail[0].first)
    ensures Separated(AppendedAll(rs, tail))
    ensures Members(AppendedAll(rs, tail)) == Members(rs) + Members(tail)
  {
    if tail != [] {
      var a, b := Appended(rs, tail[0]), tail[1..];
      AppendedAllIs(rs, tail);
      assert Nonempty(tail[0]);
      AppendedSeparated(rs, tail[0]);
      SeparatedParts(tail, 1);
      if b != [] { assert tail[0].second < tail[1].first; }
      SeparatedConcat(a, b);
      MembersConcat(a, b);
    }
  }

  /** A range above every added index is one that was copied at the end. */
  lemma {:induction false} AboveIsCopied(rs: seq<Range>, tail: seq<Range>, added: set<nat>, q: nat)
    requires Separated(rs) && Separated(tail) && (tail != [] ==> Sup(rs) <= tail[0].first)
    requires EndsWithAdded(added, Members(rs), Sup(rs)) && q < |AppendedAll(rs, tail)|
    ensures AllBelow(added, AppendedAll(rs, tail)[q].first) <==> |rs| <= q
  {
    hide Members, Sup;
    if tail != [] { AppendedAllIs(rs, tail); }
    if added == {} {
      if rs != [] { FirstRange(rs); }
      assert rs == [];
    } else if q < |rs| {
      assert AppendedAll(rs, tail)[q].first == rs[q].first;
      SupBounds(rs);
      assert Nonempty(rs[q]);
      assert Sup(rs) - 1 in added;
    } else {
      TailStartsBeyond(tail, if Touches(rs, tail[0]) then q - |rs| + 1 else q - |rs|);
    }
  }

  lemma {:induction false} TailStartsBeyond(tail: seq<Range>, i: nat)
    requires Separated(tail) && i < |tail|
    ensures tail[0].first <= tail[i].first
  {
    assert Nonempty(tail[0]);
    assert i > 0 ==> tail[0].second < tail[i].first;
  }

  lemma {:induction false} TailMiscountsIff(reserved: nat, rs: seq<Range>, tail: seq<Range>, added: set<nat>, cap: Capacity)
    requires Separated(rs) && Separated(tail) && (tail != [] ==> Sup(rs) <= tail[0].first)
    requires EndsWithAdded(added, Members(rs), Sup(rs))
    ensures AllCounted(AppendedAll(rs, tail), |rs|, reserved, cap) <==>
            !TailMiscounts(reserved, added, AppendedAll(rs, tail), cap)
  {
    var ts := AppendedAll(rs, tail);
    forall q: nat | q < |ts| ensures AllBelow(added, ts[q].first) <==> |rs| <= q {
      AboveIsCopied(rs, tail, added, q);
    }
  }

  /** With nothing added there is no chunk beyond the reserved ones. */
  lemma {:induction false} NothingMiscounts(rs: seq<Range>, added: set<nat>, cap: Capacity)
    ensures !TailMiscounts(Reserved(|rs|, cap), added, rs, cap)
  {
    forall q: nat | q < |rs| ensures q / cap < Reserved(|rs|, cap) {
      DivideMonotone(q, |rs|, cap);
    }
  }

  lemma {:induction false} DivideMonotone(a: nat, b: nat, cap: nat)
    requires a <= b && cap > 0
    ensures a / cap <= b / cap
  {
    var d := a / cap - b / cap - 1;
    assert a == cap * (a / cap) + a % cap && b == cap * (b / cap) + b % cap;
    assert a - b == cap * d + cap + a % cap - b % cap;
  }

  /** What copying the rest of o after rs leads to. */
  lemma {:induction false} CopiedTail(o: seq<Range>, j: nat, rs: seq<Range>, added: set<nat>, out: set<nat>, sup: nat)
    requires CopiedUpTo(o, j, added, out, sup)
    requires Separated(rs) && Members(rs) == out && Sup(rs) == sup
    ensures Separated(AppendedAll(rs, o[j..])) && Members(AppendedAll(rs, o[j..])) == Members(o) + added
  {
    SeparatedParts(o, j);
    TailMembers(rs, o[j..]);
    MembersSplit(o, j);
  }

  lemma {:induction false} CopiedTailCounts(o: seq<Range>, j: nat, rs: seq<Range>, added: set<nat>, out: set<nat>, sup: nat,
                         reserved: nat, cap: Capacity)
    requires CopiedUpTo(o, j, added, out, sup)
    requires Separated(rs) && Members(rs) == out && Sup(rs) == sup
    ensures CopiesRight(rs, o[j..], reserved, cap) <==> !TailMiscounts(reserved, added, AppendedAll(rs, o[j..]), cap)
  {
    SeparatedParts(o, j);
    CopiesRightIff(rs, o[j..], reserved, cap);
    TailMiscountsIff(reserved, rs, o[j..], added, cap);
  }

  /** The ranges of o from j up to k have been pushed after rs; right tells whether all counts are. */
  ghost predicate Copied(rs: seq<Range>, o: seq<Range>, j: nat, k: nat, ts: seq<Range>, right: bool, reserved: nat, cap: Capacity) {
    && j <= k <= |o|
    && ts == AppendedAll(rs, o[j..k])
    && right == CopiesRight(rs, o[j..k], reserved, cap)
  }

  lemma {:induction false} CopyStarts(rs: seq<Range>, o: seq<Range>, j: nat, reserved: nat, cap: Capacity)
    requires j <= |o|
    ensures Copied(rs, o, j, j, rs, true, reserved, cap)
  {
    assert o[j..j] == [];
  }

  /** One more range pushed. */
  lemma {:induction false} CopyStep(rs: seq<Range>, o: seq<Range>, j: nat, k: nat, ts: seq<Range>, right: bool, reserved: nat, cap: Capacity)
    requires Copied(rs, o, j, k, ts, right, reserved, cap) && k < |o|
    ensures Copied(rs, o, j, k + 1, Appended(ts, o[k]), right && !Miscounts(ts, o[k], reserved, cap), reserved, cap)
  {
    assert o[j..k + 1][..k - j] == o[j..k] && o[j..k + 1][k - j] == o[k];
  }

  lemma {:induction false} CopyEnds(rs: seq<Range>, o: seq<Range>, j: nat, ts: seq<Range>, right: bool, reserved: nat, cap: Capacity)
    requires Copied(rs, o, j, |o|, ts, right, reserved, cap)
    ensures ts == AppendedAll(rs, o[j..]) && right == CopiesRight(rs, o[j..], reserved, cap)
  {
    assert o[j..|o|] == o[j..];
  }
}
