/** Names as the schema compares them: their order, sorting, and the two library passes over sorted
    names that validation relies on. */
module Names {

  /** Lexicographic order. */
  predicate Less(a: string, b: string) {
    b != [] && (a == [] || a[0] < b[0] || (a[0] == b[0] && Less(a[1..], b[1..])))
  }

  lemma {:induction false} LessIrreflexive(a: string)
    ensures !Less(a, a)
  {
    if a != [] { LessIrreflexive(a[1..]); }
  }

  lemma {:induction false} LessTotal(a: string, b: string)
    ensures Less(a, b) || a == b || Less(b, a)
    ensures !(Less(a, b) && Less(b, a))
  {
    if a != [] && b != [] {
      LessTotal(a[1..], b[1..]);
      if a[0] == b[0] && a[1..] == b[1..] {
        assert a == [a[0]] + a[1..] && b == [b[0]] + b[1..];
      }
    }
  }

  lemma {:induction false} LessTransitive(a: string, b: string, c: string)
    requires !Less(b, a) && !Less(c, b)
    ensures !Less(c, a)
    decreases |b|
  {
    if a != [] && b != [] && c != [] && a[0] == b[0] == c[0] {
      LessTransitive(a[1..], b[1..], c[1..]);
    }
  }

  /** The first place where two names differ, up to the length of the shorter. */
  ghost predicate AgreeUpTo(a: string, b: string, k: nat) {
    k <= |a| && k <= |b| && forall i | 0 <= i < k :: a[i] == b[i]
  }

  /** A name comes before another if it has the lesser character where they first differ, or is a
      proper beginning of the other. */
  lemma {:induction false} LessIff(a: string, b: string)
    ensures Less(a, b) <==> exists k: nat ::
              AgreeUpTo(a, b, k) && k < |b| && (k == |a| || (k < |a| && a[k] < b[k]))
  {
    if a == [] || b == [] || a[0] != b[0] {
      assert AgreeUpTo(a, b, 0);
    } else {
      LessIff(a[1..], b[1..]);
      forall k: nat ensures AgreeUpTo(a[1..], b[1..], k) <==> AgreeUpTo(a, b, k + 1) {
        AgreeOneMore(a, b, k);
      }
      if k: nat :| AgreeUpTo(a, b, k) && k < |b| && (k == |a| || (k < |a| && a[k] < b[k])) {
        assert k > 0 && AgreeUpTo(a[1..], b[1..], k - 1);
      }
    }
  }

  lemma {:induction false} AgreeOneMore(a: string, b: string, k: nat)
    requires a != [] && b != [] && a[0] == b[0]
    ensures AgreeUpTo(a[1..], b[1..], k) <==> AgreeUpTo(a, b, k + 1)
  {
    if AgreeUpTo(a[1..], b[1..], k) {
      forall i | 0 <= i < k + 1 ensures a[i] == b[i] {
        assert i > 0 ==> a[i] == a[1..][i - 1] && b[i] == b[1..][i - 1];
      }
    }
  }

  ghost predicate Sorted(names: seq<string>) {
    forall i, j | 0 <= i < j < |names| :: !Less(names[j], names[i])
  }

  function Inserted(x: string, names: seq<string>): seq<string> {
    if names == [] || !Less(names[0], x) then [x] + names
    else [names[0]] + Inserted(x, names[1..])
  }

  lemma {:induction false} InsertedPermutes(x: string, names: seq<string>)
    ensures multiset(Inserted(x, names)) == multiset{x} + multiset(names)
  {
    if names != [] {
      InsertedPermutes(x, names[1..]);
      assert names == [names[0]] + names[1..];
    }
  }

  lemma {:induction false} InsertedSorted(x: string, names: seq<string>)
    requires Sorted(names)
    ensures Sorted(Inserted(x, names))
  {
    if names == [] {
    } else if !Less(names[0], x) {
      forall j | 0 < j < |names| ensures !Less(names[j], x) {
        LessTransitive(x, names[0], names[j]);
      }
    } else {
      var rest := Inserted(x, names[1..]);
      InsertedSorted(x, names[1..]);
      InsertedPermutes(x, names[1..]);
      LessTotal(names[0], x);
      forall j | 0 <= j < |rest| ensures !Less(rest[j], names[0]) {
        assert rest[j] in multiset(rest);
        assert rest[j] == x || rest[j] in names[1..];
      }
    }
  }

  /** The names in ascending order, each as often as it is given. */
  function Sort(names: seq<string>): seq<string> {
    if names == [] then [] else Inserted(names[0], Sort(names[1..]))
  }

  lemma {:induction false} SortSorts(names: seq<string>)
    ensures Sorted(Sort(names)) && multiset(Sort(names)) == multiset(names)
  {
    if names != [] {
      SortSorts(names[1..]);
      InsertedSorted(names[0], Sort(names[1..]));
      InsertedPermutes(names[0], Sort(names[1..]));
      assert names == [names[0]] + names[1..];
    }
  }

  // ---------------------------------------------------------------- duplicates

  /** What a scan reports that goes on two places after each pair of equal neighbours. */
  ghost function Duplicates(names: seq<string>): seq<string>
    decreases |names|
  {
    if |names| < 2 then []
    else if names[0] == names[1] then [names[0]] + Duplicates(names[2..])
    else Duplicates(names[1..])
  }

  lemma {:induction false} HeadIsSingle(names: seq<string>)
    requires Sorted(names) && |names| >= 2 && names[0] != names[1]
    ensures names[0] !in names[1..]
  {
    LessTotal(names[0], names[1]);
    assert !Less(names[1], names[0]);
    forall k | 1 <= k < |names| ensures names[k] != names[0] {
      LessIrreflexive(names[1]);
      assert k > 1 ==> !Less(names[k], names[1]);
    }
  }

  /** A name given k times is reported k / 2 times, rounded down. */
  lemma {:induction false} DuplicatesHalve(names: seq<string>, x: string)
    requires Sorted(names)
    ensures multiset(Duplicates(names))[x] == multiset(names)[x] / 2
    decreases |names|
  {
    hide Less;
    if |names| == 0 {
    } else if |names| == 1 {
      assert names == [names[0]];
    } else if names[0] == names[1] {
      DuplicatesHalve(names[2..], x);
      assert names == [names[0], names[0]] + names[2..];
    } else {
      HeadIsSingle(names);
      DuplicatesHalve(names[1..], x);
      assert names == [names[0]] + names[1..];
      assert names[0] !in multiset(names[1..]);
    }
  }

  lemma {:induction false} DuplicatesAmong(names: seq<string>)
    ensures forall x | x in Duplicates(names) :: x in names
    decreases |names|
  {
    if |names| >= 2 {
      DuplicatesAmong(names[1..]);
      DuplicatesAmong(names[2..]);
    }
  }

  /** The names reported come in ascending order. */
  lemma {:induction false} DuplicatesAscend(names: seq<string>)
    requires Sorted(names)
    ensures Sorted(Duplicates(names))
    decreases |names|
  {
    hide Less;
    if |names| >= 2 {
      if names[0] == names[1] {
        DuplicatesAscend(names[2..]);
        DuplicatesAmong(names[2..]);
        HeadFirst(names[0], names[1..], Duplicates(names[2..]));
      } else {
        DuplicatesAscend(names[1..]);
      }
    }
  }

  lemma {:induction false} HeadFirst(x: string, names: seq<string>, some: seq<string>)
    requires Sorted([x] + names) && Sorted(some) && forall y | y in some :: y in names
    ensures Sorted([x] + some)
  {
    forall j | 0 <= j < |some| ensures !Less(some[j], x) {
      assert some[j] in names;
      var i :| 0 <= i < |names| && names[i] == some[j];
      assert ([x] + names)[0] == x && ([x] + names)[i + 1] == names[i];
    }
  }

  /** The first position from the given one on whose name equals the next, or the end. */
  method AdjacentFind(names: seq<string>, from: nat) returns (k: nat)
    requires from <= |names|
    ensures from <= k <= |names|
    ensures k < |names| ==> k + 1 < |names| && names[k] == names[k + 1]
    ensures forall i | from <= i < k && i + 1 < |names| :: names[i] != names[i + 1]
  {
    k := from;
    while k < |names|
      invariant from <= k <= |names|
      invariant forall i | from <= i < k && i + 1 < |names| :: names[i] != names[i + 1]
    {
      if k + 1 < |names| && names[k] == names[k + 1] { return; }
      k := k + 1;
    }
  }

  lemma {:induction false} DuplicatesSkip(names: seq<string>, from: nat, k: nat)
    requires from <= k <= |names|
    requires forall i | from <= i < k && i + 1 < |names| :: names[i] != names[i + 1]
    ensures Duplicates(names[from..]) == Duplicates(names[k..])
    decreases k - from
  {
    if from < k {
      DuplicatesSkip(names, from + 1, k);
      if from + 1 < |names| {
        assert names[from..][1] == names[from + 1];
        assert names[from..][1..] == names[from + 1..];
      }
    }
  }

  /** The scan for repeated names. */
  method ReportDuplicates(names: seq<string>) returns (reported: seq<string>)
    ensures reported == Duplicates(names)
  {
    reported := [];
    var it := AdjacentFind(names, 0);
    DuplicatesSkip(names, 0, it);
    assert names[0..] == names;
    while it != |names|
      invariant it <= |names|
      invariant it < |names| ==> it + 1 < |names| && names[it] == names[it + 1]
      invariant reported + Duplicates(names[it..]) == Duplicates(names)
      decreases |names| - it
    {
      ghost var was := it;
      assert names[was..][2..] == names[was + 2..];
      reported := reported + [names[it]];
      it := AdjacentFind(names, it + 2);
      DuplicatesSkip(names, was + 2, it);
    }
  }

  // ---------------------------------------------------------------- common names

  /** What the merge of two sorted lists finds in both. */
  ghost function Common(a: seq<string>, b: seq<string>): seq<string>
    decreases |a| + |b|
  {
    if a == [] || b == [] then []
    else if Less(a[0], b[0]) then Common(a[1..], b)
    else if Less(b[0], a[0]) then Common(a, b[1..])
    else [a[0]] + Common(a[1..], b[1..])
  }

  lemma {:induction false} BelowAll(x: string, names: seq<string>)
    requires Sorted(names) && names != [] && Less(x, names[0])
    ensures multiset(names)[x] == 0
  {
    forall k | 0 <= k < |names| ensures names[k] != x {
      LessIrreflexive(x);
      assert k > 0 ==> !Less(names[k], names[0]);
    }
  }

  ghost function Fewer(a: nat, b: nat): nat {
    if a < b then a else b
  }

  lemma {:induction false} CommonCount(a: seq<string>, b: seq<string>, x: string)
    requires Sorted(a) && Sorted(b)
    ensures multiset(Common(a, b))[x] == Fewer(multiset(a)[x], multiset(b)[x])
    decreases |a| + |b|
  {
    if a != [] && b != [] {
      assert a == [a[0]] + a[1..] && b == [b[0]] + b[1..];
      if Less(a[0], b[0]) {
        CommonCount(a[1..], b, x);
        BelowAll(a[0], b);
      } else if Less(b[0], a[0]) {
        CommonCount(a, b[1..], x);
        BelowAll(b[0], a);
      } else {
        LessTotal(a[0], b[0]);
        CommonCount(a[1..], b[1..], x);
      }
    }
  }

  /** Each name is found as often as it occurs in both lists. */
  lemma {:induction false} CommonCounts(a: seq<string>, b: seq<string>)
    requires Sorted(a) && Sorted(b)
    ensures multiset(Common(a, b)) == multiset(a) * multiset(b)
  {
    forall x ensures multiset(Common(a, b))[x] == (multiset(a) * multiset(b))[x] {
      CommonCount(a, b, x);
    }
  }

  lemma {:induction false} CommonAmong(a: seq<string>, b: seq<string>)
    ensures forall x | x in Common(a, b) :: x in a
    decreases |a| + |b|
  {
    if a != [] && b != [] {
      CommonAmong(a[1..], b);
      CommonAmong(a, b[1..]);
      CommonAmong(a[1..], b[1..]);
    }
  }

  /** The names found come in ascending order. */
  lemma {:induction false} CommonAscends(a: seq<string>, b: seq<string>)
    requires Sorted(a)
    ensures Sorted(Common(a, b))
    decreases |a| + |b|
  {
    hide Less;
    if a != [] && b != [] {
      CommonAscends(a[1..], b);
      CommonAscends(a, b[1..]);
      CommonAscends(a[1..], b[1..]);
      CommonAmong(a[1..], b[1..]);
      assert a == [a[0]] + a[1..];
      HeadFirst(a[0], a[1..], Common(a[1..], b[1..]));
    }
  }

  /** The merge that intersects two sorted lists. */
  method Intersect(a: seq<string>, b: seq<string>) returns (both: seq<string>)
    ensures both == Common(a, b)
  {
    both := [];
    var i, j := 0, 0;
    while i < |a| && j < |b|
      invariant i <= |a| && j <= |b|
      invariant both + Common(a[i..], b[j..]) == Common(a, b)
      decreases |a| + |b| - i - j
    {
      assert a[i..][1..] == a[i + 1..] && b[j..][1..] == b[j + 1..];
      if Less(a[i], b[j]) {
        i := i + 1;
      } else {
        if !Less(b[j], a[i]) {
          both := both + [a[i]];
          i := i + 1;
        }
        j := j + 1;
      }
    }
  }
}
