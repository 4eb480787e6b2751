/** A stable insertion sort by a key, the behaviour of Python's
    `sorted(xs, key=...)`. The key order is a parameter, so proofs about the
    sort never look inside it; they only use that it is a total preorder. */
module Sorting {

  /** Any two keys are comparable. */
  ghost predicate Total<K(!new)>(leq: (K, K) -> bool)
  {
    forall a, b :: leq(a, b) || leq(b, a)
  }

  ghost predicate Transitive<K(!new)>(leq: (K, K) -> bool)
  {
    forall a, b, c :: leq(a, b) && leq(b, c) ==> leq(a, c)
  }

  /** `leq` is total and transitive. */
  ghost predicate TotalPreorder<K(!new)>(leq: (K, K) -> bool)
  {
    Total(leq) && Transitive(leq)
  }

  /** Every element's key is at most every later element's key. */
  ghost predicate SortedBy<T, K>(s: seq<T>, key: T -> K, leq: (K, K) -> bool)
  {
    forall i, j :: 0 <= i < j < |s| ==> leq(key(s[i]), key(s[j]))
  }

  /** Where `x` goes: behind the leading run of elements whose key is not
      greater than its own. */
  function InsertPos<T, K>(x: T, s: seq<T>, key: T -> K, leq: (K, K) -> bool): (i: nat)
    ensures i <= |s|
    ensures forall j :: 0 <= j < i ==> leq(key(s[j]), key(x))
    ensures i < |s| ==> !leq(key(s[i]), key(x))
    decreases |s|
  {
    if |s| == 0 || !leq(key(s[0]), key(x)) then 0
    else 1 + InsertPos(x, s[1..], key, leq)
  }

  function InsertBy<T, K>(x: T, s: seq<T>, key: T -> K, leq: (K, K) -> bool): seq<T>
  {
    var i := InsertPos(x, s, key, leq);
    s[..i] + [x] + s[i..]
  }

  /** Insertion sort, taking the elements in their original order. */
  function SortBy<T, K>(s: seq<T>, key: T -> K, leq: (K, K) -> bool): seq<T>
    decreases |s|
  {
    if |s| == 0 then []
    else InsertBy(s[|s| - 1], SortBy(s[..|s| - 1], key, leq), key, leq)
  }

  /** The elements of `s` whose key is `k`, in order. */
  ghost function KeyRun<T, K>(s: seq<T>, key: T -> K, k: K): seq<T>
    decreases |s|
  {
    if |s| == 0 then []
    else
      var last := s[|s| - 1];
      KeyRun(s[..|s| - 1], key, k) + (if key(last) == k then [last] else [])
  }

  lemma InsertPermutes<T, K>(x: T, s: seq<T>, key: T -> K, leq: (K, K) -> bool)
    ensures multiset(InsertBy(x, s, key, leq)) == multiset(s) + multiset{x}
  {
    var i := InsertPos(x, s, key, leq);
    assert s == s[..i] + s[i..];
  }

  lemma {:induction false} SortPermutes<T, K>(s: seq<T>, key: T -> K, leq: (K, K) -> bool)
    ensures multiset(SortBy(s, key, leq)) == multiset(s)
    decreases |s|
  {
    if |s| > 0 {
      var p := s[..|s| - 1];
      var x := s[|s| - 1];
      SortPermutes(p, key, leq);
      InsertPermutes(x, SortBy(p, key, leq), key, leq);
      MultisetOfLast(s);
    }
  }

  lemma MultisetOfLast<T>(s: seq<T>)
    requires |s| > 0
    ensures multiset(s) == multiset(s[..|s| - 1]) + multiset{s[|s| - 1]}
  {
    assert s == s[..|s| - 1] + [s[|s| - 1]];
  }

  /** Inserting into a sorted sequence keeps it sorted. */
  lemma InsertSorted<T, K(!new)>(x: T, s: seq<T>, key: T -> K, leq: (K, K) -> bool)
    requires TotalPreorder(leq) && SortedBy(s, key, leq)
    ensures SortedBy(InsertBy(x, s, key, leq), key, leq)
  {
    var i := InsertPos(x, s, key, leq);
    var r := InsertBy(x, s, key, leq);
    assert |r| == |s| + 1;
    assert forall j :: 0 <= j < i ==> r[j] == s[j];
    assert r[i] == x;
    assert forall j :: i < j < |r| ==> r[j] == s[j - 1];
    forall a, b | 0 <= a < b < |r|
      ensures leq(key(r[a]), key(r[b]))
    {
      if b == i {
        assert r[a] == s[a];
      } else if a == i {
        assert leq(key(x), key(s[i]));
        if b - 1 > i {
          assert leq(key(s[i]), key(s[b - 1]));
        }
      } else {
        var a' := if a < i then a else a - 1;
        var b' := if b < i then b else b - 1;
        assert r[a] == s[a'] && r[b] == s[b'];
      }
    }
  }

  lemma {:induction false} SortSorted<T, K(!new)>(s: seq<T>, key: T -> K, leq: (K, K) -> bool)
    requires TotalPreorder(leq)
    ensures SortedBy(SortBy(s, key, leq), key, leq)
    decreases |s|
  {
    if |s| > 0 {
      var p := s[..|s| - 1];
      SortSorted(p, key, leq);
      InsertSorted(s[|s| - 1], SortBy(p, key, leq), key, leq);
    }
  }

  lemma {:induction false} KeyRunAppend<T, K>(a: seq<T>, b: seq<T>, key: T -> K, k: K)
    ensures KeyRun(a + b, key, k) == KeyRun(a, key, k) + KeyRun(b, key, k)
    decreases |b|
  {
    if |b| == 0 {
      assert a + b == a;
    } else {
      var n := |b| - 1;
      assert (a + b)[..|a + b| - 1] == a + b[..n];
      assert (a + b)[|a + b| - 1] == b[n];
      KeyRunAppend(a, b[..n], key, k);
    }
  }

  lemma {:induction false} KeyRunNone<T, K>(s: seq<T>, key: T -> K, k: K)
    requires forall i :: 0 <= i < |s| ==> key(s[i]) != k
    ensures KeyRun(s, key, k) == []
    decreases |s|
  {
    if |s| > 0 {
      KeyRunNone(s[..|s| - 1], key, k);
    }
  }

  /** Nothing behind the insertion point shares the inserted key. */
  lemma NoEqualKeyBehind<T, K(!new)>(x: T, s: seq<T>, key: T -> K, leq: (K, K) -> bool)
    requires Total(leq) && SortedBy(s, key, leq)
    ensures var i := InsertPos(x, s, key, leq);
      forall j :: 0 <= j < |s[i..]| ==> key(s[i..][j]) != key(x)
  {
    var i := InsertPos(x, s, key, leq);
    forall j | 0 <= j < |s[i..]|
      ensures key(s[i..][j]) != key(x)
    {
      assert s[i..][j] == s[i + j];
      if j == 0 {
        assert leq(key(x), key(x)) || leq(key(x), key(x));
      } else {
        assert leq(key(s[i]), key(s[i + j]));
      }
    }
  }

  /** The key runs of an insertion, split at the insertion point. */
  lemma InsertKeyRun<T, K>(x: T, s: seq<T>, key: T -> K, leq: (K, K) -> bool, k: K)
    ensures var i := InsertPos(x, s, key, leq);
      && KeyRun(InsertBy(x, s, key, leq), key, k)
         == KeyRun(s[..i], key, k) + (if key(x) == k then [x] else []) + KeyRun(s[i..], key, k)
      && KeyRun(s, key, k) == KeyRun(s[..i], key, k) + KeyRun(s[i..], key, k)
  {
    var i := InsertPos(x, s, key, leq);
    var lo, hi := s[..i], s[i..];
    KeyRunAppend(lo + [x], hi, key, k);
    assert (lo + [x])[..|lo|] == lo;
    KeyRunAppend(lo, hi, key, k);
    assert s == lo + hi;
  }

  /** Insertion lands behind every element with the same key. */
  lemma InsertStable<T, K(!new)>(x: T, s: seq<T>, key: T -> K, leq: (K, K) -> bool, k: K)
    requires Total(leq) && SortedBy(s, key, leq)
    ensures KeyRun(InsertBy(x, s, key, leq), key, k) == KeyRun(s, key, k) + (if key(x) == k then [x] else [])
  {
    var i := InsertPos(x, s, key, leq);
    InsertKeyRun(x, s, key, leq, k);
    if key(x) == k {
      NoEqualKeyBehind(x, s, key, leq);
      KeyRunNone(s[i..], key, k);
    }
  }

  /** The sort is stable: elements with equal keys keep their original order. */
  lemma {:induction false} SortStable<T, K(!new)>(s: seq<T>, key: T -> K, leq: (K, K) -> bool, k: K)
    requires TotalPreorder(leq)
    ensures KeyRun(SortBy(s, key, leq), key, k) == KeyRun(s, key, k)
    decreases |s|
  {
    if |s| > 0 {
      var p := s[..|s| - 1];
      var x := s[|s| - 1];
      SortStable(p, key, leq, k);
      SortSorted(p, key, leq);
      InsertStable(x, SortBy(p, key, leq), key, leq, k);
    }
  }
}
