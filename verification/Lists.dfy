/** Lists without repetition, and sorting by a key. */
module Lists {
  ghost predicate NoRepeats<T>(list: seq<T>) {
    forall i, j :: 0 <= i < j < |list| ==> list[i] != list[j]
  }

  /** Putting a new element anywhere keeps a list free of repetitions. */
  lemma InsertedMembers<T>(list: seq<T>, i: nat, x: T)
    requires i <= |list| && x !in list && NoRepeats(list)
    ensures forall y :: y in list[..i] + [x] + list[i..] <==> y == x || y in list
    ensures NoRepeats(list[..i] + [x] + list[i..])
  {
    var r := list[..i] + [x] + list[i..];
    assert r[i] == x;
    assert list == list[..i] + list[i..];
  }

  lemma AppendedNoRepeats<T>(list: seq<T>, x: T)
    requires NoRepeats(list) && x !in list
    ensures NoRepeats(list + [x])
  {
  }

  // --- Counting elements ---

  function Elements<T(!new)>(list: seq<T>): (r: set<T>)
    ensures forall x :: x in r <==> x in list
  {
    if list == [] then {} else Elements(list[..|list| - 1]) + {list[|list| - 1]}
  }

  lemma {:induction false} DistinctCount<T(!new)>(list: seq<T>)
    requires NoRepeats(list)
    ensures |Elements(list)| == |list|
  {
    if list != [] {
      DistinctCount(list[..|list| - 1]);
    }
  }

  lemma SubsetCount<T>(a: set<T>, b: set<T>)
    requires a <= b
    ensures |a| <= |b| && (|a| == |b| ==> a == b)
  {
    assert b == a + (b - a);
    assert |b| == |a| + |b - a|;
  }

  // --- Sorting, largest key first ---

  ghost predicate Descending<T>(list: seq<T>, key: map<T, int>)
    requires forall x :: x in list ==> x in key
  {
    forall i, j :: 0 <= i < j < |list| ==> key[list[j]] <= key[list[i]]
  }

  lemma InsertedOrder<T>(list: seq<T>, i: nat, x: T, key: map<T, int>)
    requires i <= |list| && x in key && (forall y :: y in list ==> y in key) && Descending(list, key)
    requires forall j :: 0 <= j < i ==> key[x] <= key[list[j]]
    requires i < |list| ==> key[list[i]] <= key[x]
    ensures forall y :: y in list[..i] + [x] + list[i..] ==> y in key
    ensures Descending(list[..i] + [x] + list[i..], key)
  {
    var r := list[..i] + [x] + list[i..];
    forall a, b | 0 <= a < b < |r| ensures key[r[b]] <= key[r[a]] {
      assert r[a] == if a < i then list[a] else if a == i then x else list[a - 1];
      assert r[b] == if b < i then list[b] else if b == i then x else list[b - 1];
    }
  }

  /** Puts one element at its place in a sorted list. */
  method InsertSorted<T(==)>(list: seq<T>, x: T, key: map<T, int>) returns (r: seq<T>)
    requires x in key && x !in list && forall y :: y in list ==> y in key
    requires NoRepeats(list) && Descending(list, key)
    ensures forall y :: y in r <==> y == x || y in list
    ensures NoRepeats(r) && Descending(r, key)
  {
    hide NoRepeats, Descending;
    var i := 0;
    while i < |list| && key[x] < key[list[i]]
      invariant 0 <= i <= |list|
      invariant forall j :: 0 <= j < i ==> key[x] < key[list[j]]
    {
      i := i + 1;
    }
    InsertedMembers(list, i, x);
    InsertedOrder(list, i, x, key);
    r := list[..i] + [x] + list[i..];
  }

  /** The keys of a map by descending value; equal values come in any order. */
  method SortDescending<T(==)>(key: map<T, int>) returns (sorted: seq<T>)
    ensures forall x :: x in sorted <==> x in key
    ensures NoRepeats(sorted) && Descending(sorted, key)
  {
    sorted := [];
    var left := key.Keys;
    while left != {}
      invariant left <= key.Keys
      invariant forall x :: x in sorted <==> x in key && x !in left
      invariant NoRepeats(sorted) && Descending(sorted, key)
      decreases |left|
    {
      hide NoRepeats, Descending;
      var x :| x in left;
      sorted := InsertSorted(sorted, x, key);
      left := left - {x};
    }
  }
}
