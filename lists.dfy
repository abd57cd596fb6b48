/** The three ways the pages edit an array at an index: a copy followed by
    `splice(index, 1)`, `filter((_, i) => i !== index)`, and
    `map((item, i) => i === index ? value : item)`. Indices come from the index
    argument of a rendering `map`, so they are never negative. */
module Lists {

  /** Removal of the element at `i`, later elements moving down by one; an index
      past the end removes nothing. */
  function RemoveAt<T>(s: seq<T>, i: nat): (r: seq<T>)
    ensures i < |s| ==> |r| == |s| - 1
    ensures i >= |s| ==> r == s
    ensures forall j :: 0 <= j < i && j < |r| ==> r[j] == s[j]
    ensures i < |s| ==> forall j :: i <= j < |r| ==> r[j] == s[j + 1]
    ensures i < |s| ==> multiset(r) + multiset{s[i]} == multiset(s)
  {
    if i < |s| then
      assert s == s[..i] + [s[i]] + s[i + 1..];
      s[..i] + s[i + 1..]
    else s
  }

  /** `s.filter((_, k) => k !== i)`, walking `s` with `k` the position of its head. */
  function FilterFrom<T>(s: seq<T>, k: nat, i: nat): seq<T>
  {
    if s == [] then []
    else (if k == i then [] else [s[0]]) + FilterFrom(s[1..], k + 1, i)
  }

  /** `s.map((item, k) => k === i ? v : item)`, walking `s` with `k` the position of its head. */
  function MapFrom<T>(s: seq<T>, k: nat, i: nat, v: T): seq<T>
  {
    if s == [] then []
    else [if k == i then v else s[0]] + MapFrom(s[1..], k + 1, i, v)
  }

  function FilterOutIndex<T>(s: seq<T>, i: nat): seq<T>
  {
    FilterFrom(s, 0, i)
  }

  function MapAtIndex<T>(s: seq<T>, i: nat, v: T): seq<T>
  {
    MapFrom(s, 0, i, v)
  }

  lemma RemoveAtCons<T>(s: seq<T>, i: nat)
    requires 0 < i
    requires s != []
    ensures RemoveAt(s, i) == [s[0]] + RemoveAt(s[1..], i - 1)
  {
    if i < |s| {
      assert s[..i] == [s[0]] + s[1..][..i - 1];
      assert s[i + 1..] == s[1..][i..];
    } else {
      assert s == [s[0]] + s[1..];
    }
  }

  lemma {:induction false} FilterFromSpec<T>(s: seq<T>, k: nat, i: nat)
    ensures FilterFrom(s, k, i) == if k <= i then RemoveAt(s, i - k) else s
  {
    if s != [] {
      FilterFromSpec(s[1..], k + 1, i);
      if k == i {
        assert FilterFrom(s[1..], k + 1, i) == s[1..];
      } else if k < i {
        RemoveAtCons(s, i - k);
      } else {
        assert [s[0]] + s[1..] == s;
      }
    }
  }

  lemma {:induction false} MapFromSpec<T>(s: seq<T>, k: nat, i: nat, v: T)
    ensures MapFrom(s, k, i, v) == if k <= i < k + |s| then s[i - k := v] else s
  {
    if s != [] {
      var rest := s[1..];
      MapFromSpec(rest, k + 1, i, v);
      assert s == [s[0]] + rest;
      if k == i {
        assert MapFrom(rest, k + 1, i, v) == rest;
        assert s[0 := v] == [v] + rest;
      } else if k < i < k + |s| {
        assert s[i - k := v] == [s[0]] + rest[i - k - 1 := v];
      } else {
        assert MapFrom(rest, k + 1, i, v) == rest;
      }
    }
  }

  /** Filtering out index `i` and splicing at `i` give the same list: the filter
      keeps every other element, in order, and drops nothing past the end. */
  lemma FilterIsSplice<T>(s: seq<T>, i: nat)
    ensures FilterOutIndex(s, i) == RemoveAt(s, i)
    ensures i < |s| ==> |FilterOutIndex(s, i)| == |s| - 1
    ensures i >= |s| ==> FilterOutIndex(s, i) == s
  {
    FilterFromSpec(s, 0, i);
  }

  /** Mapping with an index test replaces exactly position `i`; an index past
      the end leaves the list equal. */
  lemma MapIsReplace<T>(s: seq<T>, i: nat, v: T)
    ensures MapAtIndex(s, i, v) == if i < |s| then s[i := v] else s
    ensures |MapAtIndex(s, i, v)| == |s|
  {
    MapFromSpec(s, 0, i, v);
  }

  /** Appending an item and then removing the last index restores the list. */
  lemma AppendThenRemoveLast<T>(s: seq<T>, x: T)
    ensures RemoveAt(s + [x], |s|) == s
  {
    assert (s + [x])[..|s|] == s;
  }

  /** `const copy = [...s]; copy.splice(i, 1)`: the elements after `i` are moved
      down one cell at a time in a fresh array, and the last cell is dropped. */
  method SpliceOut<T>(s: seq<T>, i: nat) returns (r: seq<T>)
    ensures r == RemoveAt(s, i)
  {
    var a := new T[|s|](k requires 0 <= k < |s| => s[k]);
    if i >= a.Length {
      return a[..];
    }
    var k := i;
    while k + 1 < a.Length
      invariant i <= k < a.Length
      invariant forall j :: 0 <= j < i ==> a[j] == s[j]
      invariant forall j :: i <= j < k ==> a[j] == s[j + 1]
      invariant forall j :: k <= j < a.Length ==> a[j] == s[j]
    {
      a[k] := a[k + 1];
      k := k + 1;
    }
    r := a[..a.Length - 1];
  }
}
