/** Filtered and ordered sequences, as the version arrays need them. */
module Seqs {

  ghost function Filter<T(!new)>(s: seq<T>, p: T -> bool): (r: seq<T>)
    ensures forall x :: x in r <==> x in s && p(x)
  {
    if s == [] then []
    else if p(s[0]) then [s[0]] + Filter(s[1..], p)
    else Filter(s[1..], p)
  }

  ghost function Map<T, U>(s: seq<T>, f: T -> U): (r: seq<U>)
    ensures |r| == |s| && forall i :: 0 <= i < |s| ==> r[i] == f(s[i])
  {
    seq(|s|, i requires 0 <= i < |s| => f(s[i]))
  }

  lemma MapPush<T, U>(s: seq<T>, x: T, f: T -> U)
    ensures Map(s + [x], f) == Map(s, f) + [f(x)]
    ensures Map([x] + s, f) == [f(x)] + Map(s, f)
    ensures Map(s + [], f) == Map(s, f) && Map([] + s, f) == Map(s, f)
  {
    hide Map;
    assert s + [] == s && [] + s == s;
    assert Map(s + [x], f) == Map(s, f) + [f(x)];
    assert Map([x] + s, f) == [f(x)] + Map(s, f);
  }

  // Strictly increasing under a key.
  ghost predicate Rising<T>(s: seq<T>, key: T -> nat) {
    forall i, j :: 0 <= i < j < |s| ==> key(s[i]) < key(s[j])
  }

  lemma {:induction false} FilterRising<T(!new)>(s: seq<T>, p: T -> bool, key: T -> nat)
    requires Rising(s, key)
    ensures Rising(Filter(s, p), key)
  {
    if s != [] {
      var r := Filter(s[1..], p);
      FilterRising(s[1..], p, key);
      forall x | x in r ensures key(s[0]) < key(x) {
        var i :| 0 <= i < |s[1..]| && s[1..][i] == x;
        assert s[i + 1] == x;
      }
    }
  }

  // Rising sequences with the same members are the same sequence.
  lemma {:induction false} RisingUnique<T(!new)>(s: seq<T>, t: seq<T>, key: T -> nat)
    requires Rising(s, key) && Rising(t, key)
    requires forall x :: x in s <==> x in t
    ensures s == t
  {
    if t != [] {
      assert t[0] in s;
    }
    if s != [] {
      assert s[0] in t && t != [];
      assert t[0] in s;
      var i :| 0 <= i < |t| && t[i] == s[0];
      var j :| 0 <= j < |s| && s[j] == t[0];
      assert s[0] == t[0];
      forall x | x in s[1..] ensures x in t[1..] {
        var a :| 0 <= a < |s[1..]| && s[1..][a] == x;
        assert s[a + 1] == x && x in t && key(x) > key(s[0]);
      }
      forall x | x in t[1..] ensures x in s[1..] {
        var a :| 0 <= a < |t[1..]| && t[1..][a] == x;
        assert t[a + 1] == x && x in s && key(x) > key(t[0]);
      }
      RisingUnique(s[1..], t[1..], key);
    }
  }

  lemma {:induction false} FilterConcat<T(!new)>(a: seq<T>, b: seq<T>, p: T -> bool)
    ensures Filter(a + b, p) == Filter(a, p) + Filter(b, p)
  {
    if a == [] {
      assert a + b == b;
    } else {
      assert (a + b)[1..] == a[1..] + b;
      FilterConcat(a[1..], b, p);
    }
  }

  lemma {:induction false} FilterNone<T(!new)>(s: seq<T>, p: T -> bool)
    requires forall x :: x in s ==> !p(x)
    ensures Filter(s, p) == []
  {
    if s != [] {
      FilterNone(s[1..], p);
    }
  }

  // Taking one more element in, at either end of a slice.
  lemma FilterSlice<T(!new)>(s: seq<T>, i: nat, p: T -> bool)
    requires i < |s|
    ensures Filter(s[..i + 1], p) == Filter(s[..i], p) + (if p(s[i]) then [s[i]] else [])
    ensures Filter(s[i..], p) == (if p(s[i]) then [s[i]] else []) + Filter(s[i + 1..], p)
  {
    assert s[..i + 1] == s[..i] + [s[i]];
    assert s[i..] == [s[i]] + s[i + 1..];
    FilterConcat(s[..i], [s[i]], p);
    FilterConcat([s[i]], s[i + 1..], p);
    assert Filter([s[i]], p) == if p(s[i]) then [s[i]] else [];
  }

  lemma {:induction false} FilterFilter<T(!new)>(s: seq<T>, p: T -> bool, q: T -> bool, r: T -> bool)
    requires forall x :: x in s ==> r(x) == (p(x) && q(x))
    ensures Filter(Filter(s, p), q) == Filter(s, r)
  {
    if s != [] {
      FilterFilter(s[1..], p, q, r);
      var t := Filter(s[1..], p);
      assert p(s[0]) ==> ([s[0]] + t)[1..] == t;
    }
  }

  // A filter and its complement share a sequence out between them.
  lemma {:induction false} FilterSplits<T(!new)>(s: seq<T>, p: T -> bool, q: T -> bool)
    requires forall x :: x in s ==> q(x) == !p(x)
    ensures multiset(Filter(s, p)) + multiset(Filter(s, q)) == multiset(s)
    ensures |Filter(s, p)| + |Filter(s, q)| == |s|
  {
    if s != [] {
      assert s == [s[0]] + s[1..];
      FilterSplits(s[1..], p, q);
    }
  }

  // A sorted permutation of a rising sequence is that sequence.
  lemma SortedPermutation<T(!new)>(s: seq<T>, t: seq<T>, key: T -> nat)
    requires Rising(t, key) && multiset(s) == multiset(t)
    requires forall i, j :: 0 <= i < j < |s| ==> key(s[i]) <= key(s[j])
    ensures s == t
  {
    forall x ensures x in s <==> x in t {
      assert x in multiset(s) <==> x in multiset(t);
    }
    forall i, j | 0 <= i < j < |s| ensures key(s[i]) < key(s[j]) {
      assert s[i] in s && s[j] in s;
      var a :| 0 <= a < |t| && t[a] == s[i];
      var b :| 0 <= b < |t| && t[b] == s[j];
      Twice(s, i, j);
      Once(t, a, key);
      assert s[i] != s[j];
      assert a != b;
    }
    RisingUnique(s, t, key);
  }

  lemma Twice<T>(s: seq<T>, i: nat, j: nat)
    requires i < j < |s|
    ensures s[i] == s[j] ==> multiset(s)[s[i]] >= 2
  {
    assert s == s[..i] + [s[i]] + s[i + 1..j] + [s[j]] + s[j + 1..];
  }

  lemma Once<T>(t: seq<T>, a: nat, key: T -> nat)
    requires Rising(t, key) && a < |t|
    ensures multiset(t)[t[a]] == 1
  {
    assert t == t[..a] + [t[a]] + t[a + 1..];
    assert t[a] !in t[..a] && t[a] !in t[a + 1..];
  }

  ghost function Dropped<T>(t: seq<T>, i: nat): (r: seq<T>)
    requires i < |t|
    ensures |r| == |t| - 1
  {
    t[..i] + t[i + 1..]
  }

  lemma PullOut<T>(t: seq<T>, i: nat)
    requires i < |t|
    ensures multiset(t) == multiset(Dropped(t, i)) + multiset{t[i]}
  {
    assert t == t[..i] + [t[i]] + t[i + 1..];
  }

  lemma MapPullOut<T, U>(t: seq<T>, i: nat, f: T -> U)
    requires i < |t|
    ensures multiset(Map(t, f)) == multiset(Map(Dropped(t, i), f)) + multiset{f(t[i])}
  {
    PullOut(Map(t, f), i);
    assert Dropped(Map(t, f), i) == Map(Dropped(t, i), f);
  }

  lemma SameRest<T>(a: multiset<T>, b: multiset<T>, x: T)
    requires a + multiset{x} == b + multiset{x}
    ensures a == b
  {
    assert a == (a + multiset{x}) - multiset{x};
    assert b == (b + multiset{x}) - multiset{x};
  }

  // Mapping respects permutation.
  lemma {:induction false} MapPermuted<T, U>(s: seq<T>, t: seq<T>, f: T -> U)
    requires multiset(s) == multiset(t)
    ensures multiset(Map(s, f)) == multiset(Map(t, f))
    decreases |s|
  {
    if s == [] {
      assert |t| == |multiset(t)| == 0;
    } else {
      assert s[0] in multiset(t);
      var i :| 0 <= i < |t| && t[i] == s[0];
      hide Dropped, Map;
      PullOut(s, 0);
      PullOut(t, i);
      SameRest(multiset(Dropped(s, 0)), multiset(Dropped(t, i)), s[0]);
      MapPermuted(Dropped(s, 0), Dropped(t, i), f);
      MapPullOut(s, 0, f);
      MapPullOut(t, i, f);
    }
  }

  ghost predicate Apart<T>(s: seq<T>, key: T -> nat) {
    forall i, j :: 0 <= i < j < |s| ==> key(s[i]) != key(s[j])
  }

  lemma ApartOnce<T>(t: seq<T>, x: T, key: T -> nat)
    requires Apart(t, key)
    ensures multiset(t)[x] == if x in t then 1 else 0
  {
    if x in t {
      var a :| 0 <= a < |t| && t[a] == x;
      assert t == t[..a] + [t[a]] + t[a + 1..];
      assert x !in t[..a] && x !in t[a + 1..];
    }
  }

  // Members told apart by a key: the same members are a permutation.
  lemma ApartPermuted<T(!new)>(s: seq<T>, t: seq<T>, key: T -> nat)
    requires Apart(s, key) && Apart(t, key)
    requires forall x :: x in s <==> x in t
    ensures multiset(s) == multiset(t)
    ensures |s| == |t|
  {
    forall x: T ensures multiset(s)[x] == multiset(t)[x] {
      ApartOnce(s, x, key);
      ApartOnce(t, x, key);
    }
    assert multiset(s) == multiset(t);
    assert |multiset(s)| == |s| && |multiset(t)| == |t|;
  }
}
