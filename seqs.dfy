/**
  Sequence operations that the application gets from JavaScript's Array
  prototype: `findIndex`, `splice(i, 1)`, and a stable `sort` keyed by an
  integer (the comparators `b.kills - a.kills` and `a.placement - b.placement`).
 */
module Seqs {

  /** `Array.prototype.findIndex`: the first index whose element satisfies `p`, or -1. */
  function IndexWhere<T>(s: seq<T>, p: T -> bool): (r: int)
    ensures -1 <= r < |s|
    ensures r == -1 <==> forall i :: 0 <= i < |s| ==> !p(s[i])
    ensures 0 <= r ==> p(s[r]) && forall i :: 0 <= i < r ==> !p(s[i])
  {
    if s == [] then -1
    else if p(s[0]) then 0
    else
      var k := IndexWhere(s[1..], p);
      if k == -1 then -1 else k + 1
  }

  /** `splice(i, 1)`: the sequence without its element at index `i`. */
  function RemoveAt<T>(s: seq<T>, i: int): (r: seq<T>)
    requires 0 <= i < |s|
    ensures |r| == |s| - 1
    ensures forall j :: 0 <= j < i ==> r[j] == s[j]
    ensures forall j :: i <= j < |r| ==> r[j] == s[j + 1]
    ensures multiset(r) + multiset{s[i]} == multiset(s)
  {
    assert s == s[..i] + [s[i]] + s[i + 1..];
    s[..i] + s[i + 1..]
  }

  /** `a` is obtained from `b` by deleting elements: what survives keeps its relative order. */
  ghost predicate IsSubsequence<T>(a: seq<T>, b: seq<T>)
    decreases |b|
  {
    if b == [] then a == []
    else (a != [] && a[0] == b[0] && IsSubsequence(a[1..], b[1..])) || IsSubsequence(a, b[1..])
  }

  lemma {:induction false} SubsequenceOfItself<T>(s: seq<T>)
    ensures IsSubsequence(s, s)
    decreases |s|
  {
    if s != [] {
      SubsequenceOfItself(s[1..]);
    }
  }

  lemma {:induction false} EmptyIsSubsequence<T>(s: seq<T>)
    ensures IsSubsequence([], s)
    decreases |s|
  {
    if s != [] {
      EmptyIsSubsequence(s[1..]);
    }
  }

  lemma {:induction false} SubsequenceTransitive<T>(a: seq<T>, b: seq<T>, c: seq<T>)
    requires IsSubsequence(a, b) && IsSubsequence(b, c)
    ensures IsSubsequence(a, c)
    decreases |c|
  {
    if c == [] {
    } else if b != [] && b[0] == c[0] && IsSubsequence(b[1..], c[1..]) {
      if a != [] && a[0] == b[0] && IsSubsequence(a[1..], b[1..]) {
        SubsequenceTransitive(a[1..], b[1..], c[1..]);
      } else {
        SubsequenceTransitive(a, b[1..], c[1..]);
      }
    } else {
      SubsequenceTransitive(a, b, c[1..]);
    }
  }

  /** Dropping a leading element keeps a subsequence a subsequence. */
  lemma {:induction false} SubsequenceDropFirst<T>(a: seq<T>, b: seq<T>)
    requires a != [] && IsSubsequence(a, b)
    ensures IsSubsequence(a[1..], b)
    decreases |b|
  {
    if a[0] == b[0] && IsSubsequence(a[1..], b[1..]) {
      assert IsSubsequence(a[1..], b);
    } else {
      SubsequenceDropFirst(a, b[1..]);
    }
  }

  /** Any suffix of a subsequence is a subsequence. */
  lemma {:induction false} SuffixOfSubsequence<T>(a: seq<T>, b: seq<T>, k: nat)
    requires k <= |a| && IsSubsequence(a, b)
    ensures IsSubsequence(a[k..], b)
    decreases k
  {
    if k > 0 {
      SubsequenceDropFirst(a, b);
      assert a[1..][k - 1..] == a[k..];
      SuffixOfSubsequence(a[1..], b, k - 1);
    }
  }

  /** Any prefix of a sequence is a subsequence of it. */
  lemma {:induction false} PrefixIsSubsequence<T>(s: seq<T>, n: nat)
    requires n <= |s|
    ensures IsSubsequence(s[..n], s)
    decreases |s|
  {
    if n == 0 {
      EmptyIsSubsequence(s);
    } else {
      PrefixIsSubsequence(s[1..], n - 1);
      assert s[..n][1..] == s[1..][..n - 1];
    }
  }

  /** Removing one element leaves a subsequence. */
  lemma {:induction false} RemoveAtIsSubsequence<T>(s: seq<T>, i: int)
    requires 0 <= i < |s|
    ensures IsSubsequence(RemoveAt(s, i), s)
    decreases |s|
  {
    var r := RemoveAt(s, i);
    if i == 0 {
      assert r == s[1..];
      SubsequenceOfItself(s[1..]);
    } else {
      RemoveAtIsSubsequence(s[1..], i - 1);
      assert r[0] == s[0] && r[1..] == RemoveAt(s[1..], i - 1);
    }
  }

  /** Sorted non-decreasingly by `key`. */
  ghost predicate SortedBy<T>(s: seq<T>, key: T -> int)
  {
    forall i, j :: 0 <= i < j < |s| ==> key(s[i]) <= key(s[j])
  }

  /** Inserts `x` after every element whose key is at most `key(x)`: the step of a stable sort. */
  function InsertBy<T>(s: seq<T>, x: T, key: T -> int): (r: seq<T>)
    requires SortedBy(s, key)
    ensures SortedBy(r, key)
    ensures multiset(r) == multiset(s) + multiset{x}
  {
    if s == [] then [x]
    else if key(x) < key(s[0]) then [x] + s
    else
      var rest := InsertBy(s[1..], x, key);
      assert s == [s[0]] + s[1..];
      InsertedAfterHead(s, x, key, rest);
      [s[0]] + rest
  }

  lemma InsertedAfterHead<T>(s: seq<T>, x: T, key: T -> int, rest: seq<T>)
    requires s != [] && SortedBy(s, key) && key(s[0]) <= key(x)
    requires SortedBy(rest, key) && multiset(rest) == multiset(s[1..]) + multiset{x}
    ensures SortedBy([s[0]] + rest, key)
  {
    forall k | 0 <= k < |rest|
      ensures key(s[0]) <= key(rest[k])
    {
      assert rest[k] in multiset(rest);
      if rest[k] != x {
        assert rest[k] in multiset(s[1..]);
        var j :| 0 <= j < |s[1..]| && s[1..][j] == rest[k];
        assert s[j + 1] == rest[k];
      }
    }
  }

  /**
    A stable sort by an integer key, ascending: the model of
    `Array.prototype.sort((a, b) => key(a) - key(b))`, which is stable.
   */
  function SortBy<T>(s: seq<T>, key: T -> int): (r: seq<T>)
    ensures SortedBy(r, key)
    ensures multiset(r) == multiset(s)
    decreases |s|
  {
    if s == [] then []
    else
      assert s == s[..|s| - 1] + [s[|s| - 1]];
      InsertBy(SortBy(s[..|s| - 1], key), s[|s| - 1], key)
  }

  /** How many elements satisfy `p`. */
  function CountWhere<T>(s: seq<T>, p: T -> bool): nat
    decreases |s|
  {
    if s == [] then 0 else CountWhere(s[..|s| - 1], p) + if p(s[|s| - 1]) then 1 else 0
  }

  lemma {:induction false} CountWhereRemoveAt<T>(s: seq<T>, p: T -> bool, j: int)
    requires 0 <= j < |s|
    ensures CountWhere(s, p) == CountWhere(RemoveAt(s, j), p) + if p(s[j]) then 1 else 0
    decreases |s|
  {
    var n := |s| - 1;
    var r := RemoveAt(s, j);
    if j == n {
      assert r == s[..n];
    } else {
      assert r[..n - 1] == RemoveAt(s[..n], j);
      assert r[n - 1] == s[n];
      CountWhereRemoveAt(s[..n], p, j);
    }
  }

  /** Reordering does not change how many elements satisfy `p`. */
  lemma {:induction false} CountWherePermutation<T>(a: seq<T>, b: seq<T>, p: T -> bool)
    requires multiset(a) == multiset(b)
    ensures CountWhere(a, p) == CountWhere(b, p)
    decreases |a|
  {
    if a == [] {
      assert |b| == |multiset(b)|;
    } else {
      var n := |a| - 1;
      var x := a[n];
      assert a == a[..n] + [x];
      assert x in multiset(b);
      var j :| 0 <= j < |b| && b[j] == x;
      var rest := RemoveAt(b, j);
      assert multiset(a) == multiset(a[..n]) + multiset{x};
      assert multiset(b) == multiset(rest) + multiset{x};
      assert multiset(a[..n]) == multiset(a) - multiset{x};
      assert multiset(rest) == multiset(b) - multiset{x};
      CountWherePermutation(a[..n], RemoveAt(b, j), p);
      CountWhereRemoveAt(b, p, j);
    }
  }

  lemma {:induction false} CountWhereUpdate<T>(s: seq<T>, k: int, x: T, p: T -> bool)
    requires 0 <= k < |s|
    ensures CountWhere(s[k := x], p) + (if p(s[k]) then 1 else 0) == CountWhere(s, p) + (if p(x) then 1 else 0)
    decreases |s|
  {
    var n := |s| - 1;
    if k < n {
      assert s[k := x][..n] == s[..n][k := x];
      CountWhereUpdate(s[..n], k, x, p);
    } else {
      assert s[k := x][..n] == s[..n];
    }
  }

  lemma {:induction false} CountWherePrepend<T>(x: T, s: seq<T>, p: T -> bool)
    ensures CountWhere([x] + s, p) == CountWhere(s, p) + if p(x) then 1 else 0
    decreases |s|
  {
    if s != [] {
      var n := |s| - 1;
      assert ([x] + s)[..n + 1] == [x] + s[..n];
      CountWherePrepend(x, s[..n], p);
    }
  }

  lemma {:induction false} CountWhereNone<T>(s: seq<T>, p: T -> bool, k: int)
    requires CountWhere(s, p) == 0 && 0 <= k < |s|
    ensures !p(s[k])
    decreases |s|
  {
    if k < |s| - 1 {
      assert s[..|s| - 1][k] == s[k];
      CountWhereNone(s[..|s| - 1], p, k);
    }
  }
}
