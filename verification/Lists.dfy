/** Replacing the contents of a list by the values of an enumerable object. */
module Lists {

  /** What a list records of a change; these are the writes that reach the file and its observers. */
  datatype Write<T> = Set(index: nat, value: T) | Add(value: T) | Remove(index: nat) | RemoveAll

  datatype Given<T> = TheListItself | Null | Values(values: seq<T>)

  datatype Policy = Skip | ForceCreate | UpdateAll | UpdateModified

  ghost predicate CanWrite<T>(items: seq<T>, w: Write<T>) {
    match w
    case Set(i, _) => i < |items|
    case Remove(i) => i < |items|
    case _ => true
  }

  ghost function Written<T>(items: seq<T>, w: Write<T>): seq<T>
    requires CanWrite(items, w)
  {
    match w
    case Set(i, v) => items[i := v]
    case Add(v) => items + [v]
    case Remove(i) => items[..i] + items[i + 1..]
    case RemoveAll => []
  }

  /** The writes make sense one after the other and turn the first contents into the last. */
  ghost predicate Turns<T>(before: seq<T>, writes: seq<Write<T>>, after: seq<T>)
    decreases |writes|
  {
    if writes == [] then before == after
    else
      && CanWrite(before, writes[0])
      && Turns(Written(before, writes[0]), writes[1..], after)
  }

  lemma {:induction false} TurnsOneMore<T>(before: seq<T>, writes: seq<Write<T>>, middle: seq<T>, w: Write<T>)
    requires Turns(before, writes, middle) && CanWrite(middle, w)
    ensures Turns(before, writes + [w], Written(middle, w))
    decreases |writes|
  {
    if writes == [] {
      assert [w][1..] == [];
    } else {
      TurnsOneMore(Written(before, writes[0]), writes[1..], middle, w);
      assert (writes + [w])[1..] == writes[1..] + [w];
    }
  }

  ghost predicate SetsOnlyDifferences<T>(before: seq<T>, writes: seq<Write<T>>, after: seq<T>) {
    forall w | w in writes && w.Set? ::
      w.index < |before| && w.index < |after| && before[w.index] != after[w.index] && w.value == after[w.index]
  }

  /** A position is written exactly if it is kept and its value differs; nothing is cleared, positions
      are added only past the old end and removed only past the new one. */
  ghost predicate OnlyDifferences<T>(before: seq<T>, writes: seq<Write<T>>, after: seq<T>) {
    && SetsOnlyDifferences(before, writes, after)
    && (forall i | 0 <= i < |before| && i < |after| && before[i] != after[i] :: Set(i, after[i]) in writes)
    && RemoveAll !in writes
    && (forall w | w in writes :: w.Add? ==> |before| < |after|)
    && (forall w | w in writes :: w.Remove? ==> |after| <= w.index < |before|)
  }

  /** How many positions both lists have with different values. */
  ghost function Differences<T>(before: seq<T>, after: seq<T>): nat {
    if before == [] || after == [] then 0
    else (if before[0] != after[0] then 1 else 0) + Differences(before[1..], after[1..])
  }

  lemma {:induction false} DifferencesUpTo<T>(before: seq<T>, after: seq<T>, n: nat)
    requires n < |before| && n < |after|
    ensures Differences(before[..n + 1], after[..n + 1]) ==
            Differences(before[..n], after[..n]) + if before[n] != after[n] then 1 else 0
  {
    if n == 0 {
      assert before[..1] == [before[0]] && after[..1] == [after[0]];
    } else {
      DifferencesUpTo(before[1..], after[1..], n - 1);
      assert before[..n + 1][1..] == before[1..][..n] && after[..n + 1][1..] == after[1..][..n];
      assert before[..n][1..] == before[1..][..n - 1] && after[..n][1..] == after[1..][..n - 1];
    }
  }

  lemma {:induction false} DifferencesClipped<T>(before: seq<T>, after: seq<T>)
    ensures |before| <= |after| ==> Differences(before, after[..|before|]) == Differences(before, after)
    ensures |after| <= |before| ==> Differences(before[..|after|], after) == Differences(before, after)
  {
    if before != [] && after != [] {
      DifferencesClipped(before[1..], after[1..]);
      if |before| <= |after| { assert after[..|before|][1..] == after[1..][..|before| - 1]; }
      if |after| <= |before| { assert before[..|after|][1..] == before[1..][..|after| - 1]; }
    }
  }

  /** The list and its writes once the first values have been gone through. */
  ghost predicate Through<T>(before: seq<T>, values: seq<T>, index: nat, items: seq<T>, made: seq<Write<T>>) {
    && index <= |values|
    && |items| == (if index <= |before| then |before| else index)
    && items[..index] == values[..index]
    && (index <= |before| ==> items[index..] == before[index..])
    && Turns(before, made, items)
    && SetsOnlyDifferences(before, made, values)
    && (forall i | 0 <= i < index && i < |before| && before[i] != values[i] :: Set(i, values[i]) in made)
    && (forall w | w in made :: !w.RemoveAll? && !w.Remove? && (w.Add? ==> |before| < |values|))
    && |made| == if index <= |before| then Differences(before[..index], values[..index])
                 else Differences(before, values[..|before|]) + (index - |before|)
  }

  lemma {:induction false} ThroughSame<T>(before: seq<T>, values: seq<T>, index: nat, items: seq<T>, made: seq<Write<T>>)
    requires Through(before, values, index, items, made)
    requires index < |values| && index < |before| && items[index] == values[index]
    ensures Through(before, values, index + 1, items, made)
  {
    assert items[index..][0] == before[index..][0];
    assert items[index + 1..] == items[index..][1..] == before[index..][1..];
    DifferencesUpTo(before, values, index);
  }

  lemma {:induction false} ThroughSet<T>(before: seq<T>, values: seq<T>, index: nat, items: seq<T>, made: seq<Write<T>>)
    requires Through(before, values, index, items, made)
    requires index < |values| && index < |before| && items[index] != values[index]
    ensures Through(before, values, index + 1, items[index := values[index]], made + [Set(index, values[index])])
  {
    assert items[index..][0] == before[index..][0];
    var now := items[index := values[index]];
    assert now[index + 1..] == items[index..][1..] == before[index..][1..];
    TurnsOneMore(before, made, items, Set(index, values[index]));
    DifferencesUpTo(before, values, index);
  }

  lemma {:induction false} ThroughAdd<T>(before: seq<T>, values: seq<T>, index: nat, items: seq<T>, made: seq<Write<T>>)
    requires Through(before, values, index, items, made)
    requires index < |values| && |before| <= index
    ensures Through(before, values, index + 1, items + [values[index]], made + [Add(values[index])])
  {
    TurnsOneMore(before, made, items, Add(values[index]));
    if index == |before| { assert before[..index] == before; }
  }

  /** Then what is left of the old tail is cut off from the end. */
  ghost predicate Trimmed<T>(before: seq<T>, values: seq<T>, sz: nat, items: seq<T>, made: seq<Write<T>>) {
    && |values| <= sz <= |before| && |items| == sz
    && items[..|values|] == values
    && Turns(before, made, items)
    && SetsOnlyDifferences(before, made, values)
    && (forall i | 0 <= i < |values| && before[i] != values[i] :: Set(i, values[i]) in made)
    && (forall w | w in made :: !w.RemoveAll? && !w.Add? && (w.Remove? ==> |values| <= w.index < |before|))
    && |made| == Differences(before, values) + (|before| - sz)
  }

  lemma {:induction false} TrimmedOneMore<T>(before: seq<T>, values: seq<T>, sz: nat, items: seq<T>, made: seq<Write<T>>)
    requires Trimmed(before, values, sz, items, made) && |values| < sz
    ensures Trimmed(before, values, sz - 1, items[..sz - 1] + items[sz..], made + [Remove(sz - 1)])
  {
    TurnsOneMore(before, made, items, Remove(sz - 1));
  }

  lemma {:induction false} ThroughAll<T>(before: seq<T>, values: seq<T>, items: seq<T>, made: seq<Write<T>>)
    requires Through(before, values, |values|, items, made)
    ensures |values| <= |before| ==> Trimmed(before, values, |before|, items, made)
    ensures |before| <= |values| ==> items == values && OnlyDifferences(before, made, values)
    ensures |before| <= |values| ==> |made| == Differences(before, values) + (|values| - |before|)
  {
    DifferencesClipped(before, values);
    assert values[..|values|] == values;
    if |before| <= |values| { assert before[..|before|] == before; }
    if |before| == |values| { assert items[..|values|] == items; }
  }

  ghost function Added<T>(values: seq<T>): seq<Write<T>> {
    if values == [] then [] else Added(values[..|values| - 1]) + [Add(values[|values| - 1])]
  }

  class List<T(==)> {
    var items: seq<T>
    /** Every write made to the list so far. */
    var writes: seq<Write<T>>

    constructor ()
      ensures items == [] && writes == []
    {
      items, writes := [], [];
    }

    method SetAt(i: nat, value: T)
      requires i < |items|
      modifies this
      ensures items == old(items)[i := value] && writes == old(writes) + [Set(i, value)]
    {
      items, writes := items[i := value], writes + [Set(i, value)];
    }

    method Append(value: T)
      modifies this
      ensures items == old(items) + [value] && writes == old(writes) + [Add(value)]
    {
      items, writes := items + [value], writes + [Add(value)];
    }

    method RemoveAt(i: nat)
      requires i < |items|
      modifies this
      ensures items == old(items)[..i] + old(items)[i + 1..] && writes == old(writes) + [Remove(i)]
    {
      items, writes := items[..i] + items[i + 1..], writes + [Remove(i)];
    }

    method Clear()
      modifies this
      ensures items == [] && writes == old(writes) + [RemoveAll]
    {
      items, writes := [], writes + [RemoveAll];
    }

    method SetIfDifferent(i: nat, value: T)
      requires i < |items|
      modifies this
      ensures items == old(items)[i := value]
      ensures writes == old(writes) + if old(items)[i] != value then [Set(i, value)] else []
    {
      if items[i] != value {
        SetAt(i, value);
      }
    }

    /** The pass over the given values: differing positions are set and a longer tail is added. */
    method Overwrite(values: seq<T>) returns (ghost made: seq<Write<T>>)
      modifies this
      ensures writes == old(writes) + made
      ensures Through(old(items), values, |values|, items, made)
    {
      ghost var before := items;
      made := [];
      var sz := |items|;
      var index := 0;
      while index < |values|
        invariant sz == |before| && writes == old(writes) + made
        invariant Through(before, values, index, items, made)
      {
        if index < sz {
          if items[index] == values[index] {
            ThroughSame(before, values, index, items, made);
            assert items[index := values[index]] == items;
          } else {
            ThroughSet(before, values, index, items, made);
            made := made + [Set(index, values[index])];
          }
          SetIfDifferent(index, values[index]);
        } else {
          ThroughAdd(before, values, index, items, made);
          made := made + [Add(values[index])];
          Append(values[index]);
        }
        index := index + 1;
      }
    }

    /** The pass that removes the rest of a longer list, from its end. */
    method Trim(values: seq<T>, ghost before: seq<T>, ghost sets: seq<Write<T>>) returns (ghost made: seq<Write<T>>)
      requires Trimmed(before, values, |items|, items, sets)
      modifies this
      ensures writes == old(writes) + made
      ensures Trimmed(before, values, |values|, items, sets + made)
    {
      made := [];
      var sz: nat := |items|;
      assert sets + made == sets;
      while |values| < sz
        invariant writes == old(writes) + made
        invariant Trimmed(before, values, sz, items, sets + made)
      {
        TrimmedOneMore(before, values, sz, items, sets + made);
        sz := sz - 1;
        assert sets + (made + [Remove(sz)]) == sets + made + [Remove(sz)];
        made := made + [Remove(sz)];
        RemoveAt(sz);
      }
    }

    /** The element-wise strategy: as many writes as there are differences and positions added or removed. */
    method Update(values: seq<T>)
      modifies this
      ensures items == values
      ensures old(writes) <= writes
      ensures var made := writes[|old(writes)|..];
              && Turns(old(items), made, values)
              && OnlyDifferences(old(items), made, values)
              && |made| == Differences(old(items), values) +
                           (if |values| < |old(items)| then |old(items)| - |values| else |values| - |old(items)|)
    {
      ghost var before, earlier := items, writes;
      var sz := |items|;
      ghost var made := Overwrite(values);
      ThroughAll(before, values, items, made);
      if |values| < sz {
        ghost var removed := Trim(values, before, made);
        made := made + removed;
        assert items == items[..|values|];
      }
      assert writes == earlier + made && writes[|earlier|..] == made;
    }

    /** Clearing and adding. */
    method Replace(values: seq<T>)
      modifies this
      ensures items == values
      ensures writes == old(writes) + [RemoveAll] + Added(values)
      ensures Turns(old(items), [RemoveAll] + Added(values), values)
    {
      ghost var before, made: seq<Write<T>> := items, [RemoveAll];
      TurnsOneMore(before, [], before, RemoveAll);
      assert [] + [RemoveAll] == made + Added(values[..0]);
      Clear();
      var i := 0;
      while i < |values|
        invariant i <= |values| && items == values[..i]
        invariant writes == old(writes) + [RemoveAll] + Added(values[..i])
        invariant Turns(before, made + Added(values[..i]), items)
      {
        assert values[..i + 1][..i] == values[..i];
        TurnsOneMore(before, made + Added(values[..i]), items, Add(values[i]));
        assert made + Added(values[..i]) + [Add(values[i])] == made + Added(values[..i + 1]);
        Append(values[i]);
        i := i + 1;
      }
      assert values[..i] == values;
    }

    /** Whatever the strategy, the list ends with the given values; assigning a list to itself writes nothing. */
    method Assign(given: Given<T>, policy: Policy)
      modifies this
      ensures items == match given { case TheListItself => old(items) case Null => [] case Values(values) => values }
      ensures given.TheListItself? ==> writes == old(writes)
      ensures given.Null? ==> writes == old(writes) + [RemoveAll]
      ensures given.Values? && !policy.UpdateModified? ==> writes == old(writes) + [RemoveAll] + Added(given.values)
      ensures given.Values? && policy.UpdateModified? ==>
                old(writes) <= writes && OnlyDifferences(old(items), writes[|old(writes)|..], given.values)
      ensures given.Values? && policy.UpdateModified? && given.values == old(items) ==> writes == old(writes)
    {
      if given.TheListItself? { return; }
      if given.Null? {
        Clear();
        return;
      }
      if policy == UpdateModified {
        NoDifferences(items);
        Update(given.values);
      } else {
        Replace(given.values);
      }
    }
  }

  lemma {:induction false} NoDifferences<T>(items: seq<T>)
    ensures Differences(items, items) == 0
  {
    if items != [] { NoDifferences(items[1..]); }
  }
}
