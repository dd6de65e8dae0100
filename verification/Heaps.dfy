// What the pool relies on from container/heap and sort: a slice whose first element is a least
// one, pushed to and popped from without losing or duplicating anything. The order of the other
// elements is the library's own business and no caller looks at it, so the bodies here sort.
module Heaps {
  ghost predicate IsHeap<T(!new)>(s: seq<T>, key: T -> int) {
    s != [] ==> forall x :: x in s ==> key(s[0]) <= key(x)
  }

  ghost predicate IsSorted<T>(s: seq<T>, key: T -> int) {
    forall i, j :: 0 <= i < j < |s| ==> key(s[i]) <= key(s[j])
  }

  method Insert<T>(s: seq<T>, key: T -> int, x: T) returns (r: seq<T>)
    requires IsSorted(s, key)
    ensures IsSorted(r, key) && multiset(r) == multiset(s) + multiset{x}
  {
    var i := 0;
    while i < |s| && key(s[i]) <= key(x)
      invariant 0 <= i <= |s|
      invariant forall j :: 0 <= j < i ==> key(s[j]) <= key(x)
    {
      i := i + 1;
    }
    r := s[..i] + [x] + s[i..];
    assert s == s[..i] + s[i..];
  }

  method Sort<T>(s: seq<T>, key: T -> int) returns (r: seq<T>)
    ensures IsSorted(r, key) && multiset(r) == multiset(s) && |r| == |s|
  {
    r := [];
    for i := 0 to |s|
      invariant IsSorted(r, key) && multiset(r) == multiset(s[..i])
    {
      r := Insert(r, key, s[i]);
      assert s[..i + 1] == s[..i] + [s[i]];
    }
    assert s[..|s|] == s;
    assert |multiset(r)| == |multiset(s)|;
  }

  /** `heap.Init` */
  method Init<T(!new)>(s: seq<T>, key: T -> int) returns (r: seq<T>)
    ensures IsHeap(r, key) && multiset(r) == multiset(s) && |r| == |s|
  {
    r := Sort(s, key);
  }

  /** `heap.Push` */
  method Push<T(!new)>(s: seq<T>, key: T -> int, x: T) returns (r: seq<T>)
    requires IsHeap(s, key)
    ensures IsHeap(r, key) && multiset(r) == multiset(s) + multiset{x} && |r| == |s| + 1
  {
    r := Init(s + [x], key);
  }

  /** `heap.Remove` */
  method Remove<T(!new)>(s: seq<T>, key: T -> int, i: nat) returns (r: seq<T>)
    requires IsHeap(s, key) && i < |s|
    ensures IsHeap(r, key) && multiset(r) == multiset(s) - multiset{s[i]} && |r| == |s| - 1
  {
    assert s == s[..i] + [s[i]] + s[i + 1..];
    r := Init(s[..i] + s[i + 1..], key);
  }

  /** `heap.Pop` */
  method Pop<T(!new)>(s: seq<T>, key: T -> int) returns (x: T, r: seq<T>)
    requires IsHeap(s, key) && s != []
    ensures x == s[0] && IsHeap(r, key) && multiset(r) == multiset(s) - multiset{x} && |r| == |s| - 1
  {
    x := s[0];
    r := Remove(s, key, 0);
  }
}
