/** The stable sort by an integer key that `Arr.sort` and `Arr.sortWith` perform. */
module StableSort {

  /** Puts `x` behind every element whose key is not larger, keeping the order of the rest. */
  function Insert<T>(sorted: seq<T>, x: T, key: T -> int): seq<T> {
    if sorted == [] then [x]
    else
      var n := |sorted| - 1;
      if key(sorted[n]) <= key(x) then sorted + [x]
      else Insert(sorted[..n], x, key) + [sorted[n]]
  }

  function Sort<T>(xs: seq<T>, key: T -> int): seq<T> {
    if xs == [] then [] else Insert(Sort(xs[..|xs| - 1], key), xs[|xs| - 1], key)
  }

  ghost predicate Sorted<T>(xs: seq<T>, key: T -> int) {
    forall i, j :: 0 <= i < j < |xs| ==> key(xs[i]) <= key(xs[j])
  }

  /** The elements with key `k`, in order. */
  ghost function WithKey<T>(xs: seq<T>, key: T -> int, k: int): seq<T> {
    if xs == [] then []
    else WithKey(xs[..|xs| - 1], key, k) + if key(xs[|xs| - 1]) == k then [xs[|xs| - 1]] else []
  }

  function Reverse<T>(xs: seq<T>): seq<T> {
    if xs == [] then [] else Reverse(xs[1..]) + [xs[0]]
  }

  lemma {:induction false} InsertElements<T>(sorted: seq<T>, x: T, key: T -> int)
    ensures multiset(Insert(sorted, x, key)) == multiset(sorted) + multiset{x}
    ensures |Insert(sorted, x, key)| == |sorted| + 1
  {
    if sorted == [] {
    } else {
      var n := |sorted| - 1;
      InsertElements(sorted[..n], x, key);
      assert sorted == sorted[..n] + [sorted[n]];
    }
  }

  lemma {:induction false} SortPermutes<T>(xs: seq<T>, key: T -> int)
    ensures multiset(Sort(xs, key)) == multiset(xs)
    ensures |Sort(xs, key)| == |xs|
  {
    if xs == [] {
    } else {
      var n := |xs| - 1;
      SortPermutes(xs[..n], key);
      InsertElements(Sort(xs[..n], key), xs[n], key);
      assert xs == xs[..n] + [xs[n]];
    }
  }

  lemma SortMember<T>(xs: seq<T>, key: T -> int, y: T)
    ensures y in Sort(xs, key) <==> y in xs
  {
    SortPermutes(xs, key);
    assert y in Sort(xs, key) <==> y in multiset(Sort(xs, key));
  }

  lemma {:induction false} InsertKeepsSorted<T>(sorted: seq<T>, x: T, key: T -> int)
    requires Sorted(sorted, key)
    ensures Sorted(Insert(sorted, x, key), key)
  {
    if sorted == [] {
    } else {
      var n := |sorted| - 1;
      if key(sorted[n]) > key(x) {
        var front := sorted[..n];
        InsertKeepsSorted(front, x, key);
        InsertElements(front, x, key);
        var r := Insert(front, x, key);
        forall y | y in r ensures key(y) <= key(sorted[n]) {
          assert y in multiset(r);
          assert y == x || y in front;
        }
      }
    }
  }

  lemma {:induction false} SortSorts<T>(xs: seq<T>, key: T -> int)
    ensures Sorted(Sort(xs, key), key)
  {
    if xs == [] {
    } else {
      SortSorts(xs[..|xs| - 1], key);
      InsertKeepsSorted(Sort(xs[..|xs| - 1], key), xs[|xs| - 1], key);
    }
  }

  lemma WithKeyOfSnoc<T>(xs: seq<T>, x: T, key: T -> int, k: int)
    ensures WithKey(xs + [x], key, k) == WithKey(xs, key, k) + if key(x) == k then [x] else []
  {
    assert (xs + [x])[..|xs|] == xs;
  }

  lemma {:induction false} InsertIsStable<T>(sorted: seq<T>, x: T, key: T -> int, k: int)
    ensures WithKey(Insert(sorted, x, key), key, k) == WithKey(sorted, key, k) + if key(x) == k then [x] else []
  {
    if sorted == [] {
      WithKeyOfSnoc([], x, key, k);
      assert [] + [x] == [x];
    } else {
      var n := |sorted| - 1;
      if key(sorted[n]) <= key(x) {
        WithKeyOfSnoc(sorted, x, key, k);
      } else {
        InsertIsStable(sorted[..n], x, key, k);
        WithKeyOfSnoc(Insert(sorted[..n], x, key), sorted[n], key, k);
      }
    }
  }

  /** Elements with equal keys keep their relative order. */
  lemma {:induction false} SortIsStable<T>(xs: seq<T>, key: T -> int, k: int)
    ensures WithKey(Sort(xs, key), key, k) == WithKey(xs, key, k)
  {
    if xs == [] {
    } else {
      var n := |xs| - 1;
      SortIsStable(xs[..n], key, k);
      InsertIsStable(Sort(xs[..n], key), xs[n], key, k);
    }
  }

  lemma {:induction false} InsertFirst<T>(sorted: seq<T>, x: T, key: T -> int)
    requires forall i :: 0 <= i < |sorted| ==> key(x) < key(sorted[i])
    ensures Insert(sorted, x, key) == [x] + sorted
  {
    if sorted == [] {
    } else {
      var n := |sorted| - 1;
      var front := sorted[..n];
      InsertFirst(front, x, key);
      assert sorted == front + [sorted[n]];
    }
  }

  lemma {:induction false} ReverseOfSnoc<T>(xs: seq<T>, x: T)
    ensures Reverse(xs + [x]) == [x] + Reverse(xs)
  {
    if xs == [] {
      assert [x][1..] == [];
    } else {
      assert (xs + [x])[1..] == xs[1..] + [x];
      ReverseOfSnoc(xs[1..], x);
    }
  }

  /** Sorting a strictly descending list reverses it. */
  lemma {:induction false} SortReversesDescending<T>(xs: seq<T>, key: T -> int)
    requires forall i, j :: 0 <= i < j < |xs| ==> key(xs[i]) > key(xs[j])
    ensures Sort(xs, key) == Reverse(xs)
  {
    if xs == [] {
    } else {
      var n := |xs| - 1;
      var front, x := xs[..n], xs[n];
      SortReversesDescending(front, key);
      assert xs == front + [x];
      var s := Sort(front, key);
      forall i | 0 <= i < |s| ensures key(x) < key(s[i]) {
        SortMember(front, key, s[i]);
      }
      InsertFirst(s, x, key);
      ReverseOfSnoc(front, x);
    }
  }

  lemma {:induction false} SortOfEqual<T>(xs: seq<T>, key: T -> int)
    requires forall x, y :: x in xs && y in xs ==> key(x) == key(y)
    ensures Sort(xs, key) == xs
  {
    if xs == [] {
    } else {
      var front := xs[..|xs| - 1];
      SortOfEqual(front, key);
      assert xs == front + [xs[|xs| - 1]];
    }
  }

  /** An element that belongs in front of all of `back` is inserted as if `back` were not there. */
  lemma {:induction false} InsertBefore<T>(front: seq<T>, back: seq<T>, x: T, key: T -> int)
    requires forall y :: y in back ==> key(x) < key(y)
    ensures Insert(front + back, x, key) == Insert(front, x, key) + back
  {
    if back == [] {
      assert front + back == front;
    } else {
      var n := |back| - 1;
      InsertBefore(front, back[..n], x, key);
      assert (front + back)[..|front + back| - 1] == front + back[..n];
      assert back == back[..n] + [back[n]];
    }
  }

  /** A group of ties with the largest key comes last, in the order it had. */
  lemma {:induction false} SortOfTies<T>(ties: seq<T>, rest: seq<T>, key: T -> int)
    requires forall x, y :: x in ties && y in ties ==> key(x) == key(y)
    requires forall x, y :: x in ties && y in rest ==> key(y) < key(x)
    ensures Sort(ties + rest, key) == Sort(rest, key) + ties
  {
    if rest == [] {
      assert ties + rest == ties;
      SortOfEqual(ties, key);
    } else {
      var n := |rest| - 1;
      SortOfTies(ties, rest[..n], key);
      assert (ties + rest)[..|ties + rest| - 1] == ties + rest[..n];
      InsertBefore(Sort(rest[..n], key), ties, rest[n], key);
    }
  }
}
