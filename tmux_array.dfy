// `TmuxArray` (src/libtmux/_internal/constants.py): a `dict` from int index
// to value whose list view is always in ascending index order, so
// non-contiguous indices (`command-alias[0]`, `command-alias[5]`) survive
// without gap filling. A Python dict remembers the order its keys were first
// inserted in; the model keeps that order next to the key-value map.
module TmuxArrays {

  predicate Ascending(s: seq<int>)
  {
    forall i, j :: 0 <= i < j < |s| ==> s[i] <= s[j]
  }

  predicate Distinct(s: seq<int>)
  {
    forall i, j :: 0 <= i < j < |s| ==> s[i] != s[j]
  }

  /** `max(keys)`; Python raises ValueError on an empty sequence. */
  function Greatest(s: seq<int>): (m: int)
    requires |s| > 0
    ensures m in s && forall k :: k in s ==> k <= m
  {
    if |s| == 1 then s[0]
    else
      var rest := Greatest(s[1..]);
      assert forall k :: k in s ==> k == s[0] || k in s[1..];
      if s[0] < rest then rest else s[0]
  }

  /** Puts `x` into `s` before the first larger element. */
  function InsertAscending(x: int, s: seq<int>): (r: seq<int>)
    ensures |r| == |s| + 1
  {
    if s == [] || x <= s[0] then [x] + s else [s[0]] + InsertAscending(x, s[1..])
  }

  /** Inserting adds exactly `x`: the result is a permutation of `s + [x]`. */
  lemma {:induction false} InsertAscendingCount(x: int, s: seq<int>)
    ensures multiset(InsertAscending(x, s)) == multiset(s) + multiset{x}
  {
    if s != [] && s[0] < x {
      InsertAscendingCount(x, s[1..]);
      assert s == [s[0]] + s[1..];
    }
  }

  /** Dropping the smallest key of an ascending list leaves it ascending. */
  lemma AscendingTail(s: seq<int>)
    requires Ascending(s) && s != []
    ensures Ascending(s[1..])
  {
  }

  lemma AscendingCons(h: int, t: seq<int>)
    requires Ascending(t)
    requires forall k :: k in t ==> h <= k
    ensures Ascending([h] + t)
  {
    var r := [h] + t;
    forall i, j | 0 <= i < j < |r| ensures r[i] <= r[j] {
      assert r[j] == t[j - 1];
      if i > 0 { assert r[i] == t[i - 1]; } else { assert t[j - 1] in t; }
    }
  }

  /** Every element of the result is `x` or an element of `s`. */
  lemma {:induction false} InsertAscendingElements(x: int, s: seq<int>)
    ensures forall k :: k in InsertAscending(x, s) ==> k == x || k in s
  {
    if s != [] && s[0] < x {
      InsertAscendingElements(x, s[1..]);
      assert InsertAscending(x, s) == [s[0]] + InsertAscending(x, s[1..]);
      forall k | k in s[1..] ensures k in s { }
    }
  }

  /** Inserting into an ascending sequence keeps it ascending. */
  lemma {:induction false} InsertAscendingSorted(x: int, s: seq<int>)
    requires Ascending(s)
    ensures Ascending(InsertAscending(x, s))
  {
    if s == [] || x <= s[0] {
      forall k | k in s ensures x <= k {
        var j :| 0 <= j < |s| && s[j] == k;
        assert s[0] <= s[j];
      }
      AscendingCons(x, s);
    } else {
      var tail := s[1..];
      AscendingTail(s);
      InsertAscendingSorted(x, tail);
      InsertAscendingElements(x, tail);
      forall k | k in InsertAscending(x, tail) ensures s[0] <= k {
        if k != x {
          var j :| 0 <= j < |tail| && tail[j] == k;
          assert s[j + 1] == k;
        }
      }
      AscendingCons(s[0], InsertAscending(x, tail));
    }
  }

  /** `sorted(keys)`: the same keys, ascending. */
  function SortedKeys(s: seq<int>): (r: seq<int>)
    ensures |r| == |s|
  {
    if s == [] then [] else InsertAscending(s[0], SortedKeys(s[1..]))
  }

  lemma MultisetMembers(a: seq<int>, b: seq<int>)
    requires multiset(a) == multiset(b)
    ensures forall k :: k in a <==> k in b
  {
    forall k ensures k in a <==> k in b {
      assert k in a <==> k in multiset(a);
      assert k in b <==> k in multiset(b);
    }
  }

  /** `sorted` returns an ascending permutation of its input. */
  lemma {:induction false} SortedKeysSound(s: seq<int>)
    ensures Ascending(SortedKeys(s))
    ensures multiset(SortedKeys(s)) == multiset(s)
    ensures forall k :: k in SortedKeys(s) <==> k in s
  {
    if s != [] {
      SortedKeysSound(s[1..]);
      InsertAscendingCount(s[0], SortedKeys(s[1..]));
      InsertAscendingSorted(s[0], SortedKeys(s[1..]));
      assert s == [s[0]] + s[1..];
    }
    MultisetMembers(SortedKeys(s), s);
  }

  /** Two ascending sequences with the same elements start with the same one. */
  lemma AscendingHeads(a: seq<int>, b: seq<int>)
    requires Ascending(a) && Ascending(b) && a != [] && b != []
    requires multiset(a) == multiset(b)
    ensures a[0] == b[0]
  {
    MultisetMembers(a, b);
    assert a[0] in b && b[0] in a;
    var j :| 0 <= j < |b| && b[j] == a[0];
    var i :| 0 <= i < |a| && a[i] == b[0];
    assert b[0] <= b[j];
    assert a[0] <= a[i];
  }

  lemma MultisetTail(a: seq<int>)
    requires a != []
    ensures multiset(a[1..]) == multiset(a) - multiset{a[0]}
  {
    assert a == [a[0]] + a[1..];
  }

  /** Two ascending sequences with the same elements, counted with multiplicity, are equal. */
  lemma {:induction false} AscendingUnique(a: seq<int>, b: seq<int>)
    requires Ascending(a) && Ascending(b)
    requires multiset(a) == multiset(b)
    ensures a == b
    decreases |a|
  {
    assert |a| == |multiset(a)| == |multiset(b)| == |b|;
    if |a| > 0 {
      AscendingHeads(a, b);
      MultisetTail(a);
      MultisetTail(b);
      AscendingTail(a);
      AscendingTail(b);
      AscendingUnique(a[1..], b[1..]);
      assert a == [a[0]] + a[1..];
      assert b == [b[0]] + b[1..];
    }
  }

  /** The sorted view does not depend on the order the keys were inserted in. */
  lemma SortedKeysOrderIndependent(p: seq<int>, q: seq<int>)
    requires multiset(p) == multiset(q)
    ensures SortedKeys(p) == SortedKeys(q)
  {
    SortedKeysSound(p);
    SortedKeysSound(q);
    AscendingUnique(SortedKeys(p), SortedKeys(q));
  }

  /** A key above every existing key goes to the end of the sorted keys. */
  lemma SortedKeysAppendGreater(s: seq<int>, k: int)
    requires forall j :: j in s ==> j < k
    ensures SortedKeys(s + [k]) == SortedKeys(s) + [k]
  {
    var sorted := SortedKeys(s);
    SortedKeysSound(s);
    SortedKeysSound(s + [k]);
    var a := sorted + [k];
    forall i | 0 <= i < |sorted| ensures sorted[i] < k {
      assert sorted[i] in sorted;
    }
    assert Ascending(a);
    assert multiset(a) == multiset(s + [k]);
    AscendingUnique(SortedKeys(s + [k]), a);
  }

  /** Every key of `order` has a value in `items`. */
  predicate Covers<T>(order: seq<int>, items: map<int, T>)
  {
    forall k :: k in order ==> k in items
  }

  /** `[self[index] for index in sorted(self.keys())]`. */
  function ValuesByIndex<T>(order: seq<int>, items: map<int, T>): seq<T>
    requires Covers(order, items)
  {
    var keys := SortedKeys(order);
    SortedKeysSound(order);
    seq(|keys|, i requires 0 <= i < |keys| => assert keys[i] in keys; items[keys[i]])
  }

  /**
   * The list view has one element per key, and element `i` is the value
   * stored at the `i`-th smallest index.
   */
  lemma ValuesByIndexAt<T>(order: seq<int>, items: map<int, T>, k: int)
    requires Covers(order, items)
    requires k in order
    ensures |ValuesByIndex(order, items)| == |order|
    ensures var keys := SortedKeys(order);
            exists i :: 0 <= i < |keys| && keys[i] == k && ValuesByIndex(order, items)[i] == items[k]
  {
    var keys := SortedKeys(order);
    SortedKeysSound(order);
    var i :| 0 <= i < |keys| && keys[i] == k;
    assert ValuesByIndex(order, items)[i] == items[k];
  }

  /** The list view does not depend on the insertion order of the keys. */
  lemma ValuesOrderIndependent<T>(p: seq<int>, q: seq<int>, items: map<int, T>)
    requires Covers(p, items) && Covers(q, items)
    requires multiset(p) == multiset(q)
    ensures ValuesByIndex(p, items) == ValuesByIndex(q, items)
  {
    SortedKeysOrderIndependent(p, q);
  }

  /** Storing past the greatest index appends to the list view. */
  lemma ValuesAfterAppend<T>(order: seq<int>, items: map<int, T>, k: int, v: T)
    requires Covers(order, items)
    requires forall j :: j in order ==> j < k
    ensures Covers(order + [k], items[k := v])
    ensures ValuesByIndex(order + [k], items[k := v]) == ValuesByIndex(order, items) + [v]
  {
    SortedKeysAppendGreater(order, k);
    var keys := SortedKeys(order);
    SortedKeysSound(order);
    var before := ValuesByIndex(order, items);
    var after := ValuesByIndex(order + [k], items[k := v]);
    assert |after| == |before| + 1;
    forall i | 0 <= i < |keys| ensures after[i] == before[i] {
      assert keys[i] in keys;
    }
  }

  /**
   * Overwriting an existing index keeps the length and the order of the list
   * view and changes only the element at that index's position.
   */
  lemma ValuesAfterOverwrite<T>(order: seq<int>, items: map<int, T>, k: int, v: T)
    requires Covers(order, items)
    requires k in order
    ensures Covers(order, items[k := v])
    ensures |ValuesByIndex(order, items[k := v])| == |ValuesByIndex(order, items)|
    ensures var keys := SortedKeys(order);
            forall i :: 0 <= i < |keys| ==>
              ValuesByIndex(order, items[k := v])[i] == if keys[i] == k then v else ValuesByIndex(order, items)[i]
  {
  }

  /** `TmuxArray[T]`: the dictionary itself, updated in place. */
  class TmuxArray<T> {
    /** The keys in the order they were first inserted, as the dict iterates them. */
    var order: seq<int>
    var items: map<int, T>

    predicate Valid()
      reads this
    {
      Distinct(order) && Covers(order, items) && forall k :: k in items ==> k in order
    }

    /** `TmuxArray()`: empty. */
    constructor ()
      ensures Valid()
      ensures order == [] && items == map[]
    {
      order := [];
      items := map[];
    }

    /**
     * `add(index, value)`: `self[index] = value`. A new index goes to the end
     * of the insertion order; an existing one keeps its place and gets the new
     * value.
     */
    method Add(index: int, value: T)
      requires Valid()
      modifies this
      ensures Valid()
      ensures items == old(items)[index := value]
      ensures order == if index in old(items) then old(order) else old(order) + [index]
    {
      if index !in items {
        order := order + [index];
      }
      items := items[index := value];
    }

    /**
     * `append(value)`: store at `max(keys) + 1`. On an empty array `max`
     * raises ValueError: `ok` is false and nothing changes.
     */
    method Append(value: T) returns (ok: bool)
      requires Valid()
      modifies this
      ensures Valid()
      ensures ok <==> old(order) != []
      ensures !ok ==> order == old(order) && items == old(items)
      ensures ok ==> var index := Greatest(old(order)) + 1;
                     index !in old(items) &&
                     items == old(items)[index := value] && order == old(order) + [index]
      ensures ok ==> AsList() == old(AsList()) + [value]
    {
      if order == [] {
        ok := false;
        return;
      }
      var index := Greatest(order) + 1;
      assert index !in order;
      ValuesAfterAppend(order, items, index, value);
      order := order + [index];
      items := items[index := value];
      ok := true;
    }

    /** `as_list()`. */
    function AsList(): seq<T>
      requires Valid()
      reads this
    {
      ValuesByIndex(order, items)
    }

    /** `iter_values()`: the generator over `sorted(self.keys())`, collected. */
    method IterValues() returns (r: seq<T>)
      requires Valid()
      ensures r == AsList()
    {
      var keys := SortedKeys(order);
      SortedKeysSound(order);
      r := [];
      for i := 0 to |keys|
        invariant |r| == i
        invariant forall j :: 0 <= j < i ==> keys[j] in items && r[j] == items[keys[j]]
      {
        assert keys[i] in keys;
        r := r + [items[keys[i]]];
      }
    }
  }

  /** `command-alias[5]` stored before `command-alias[0]` still lists index 0 first. */
  lemma NonContiguousIndices()
    ensures ValuesByIndex([5, 0], map[5 := "later", 0 := "first"]) == ["first", "later"]
  {
    assert SortedKeys([0]) == [0];
    assert SortedKeys([5, 0]) == [0, 5];
  }
}
