/** Lists without repeats: what the dlist operations of moon_common.h do to the list they work on. */
module Lists {

  predicate NoDup<T(==)>(s: seq<T>) { forall i, j :: 0 <= i < j < |s| ==> s[i] != s[j] }

  predicate Sorted<T(!new)>(s: seq<T>, key: T -> int) {
    forall i, j :: 0 <= i < j < |s| ==> key(s[i]) <= key(s[j])
  }

  // dlist_del: the list without its element `x`.
  function Cut<T(==)>(s: seq<T>, x: T): seq<T> {
    if s == [] then [] else if s[0] == x then s[1..] else [s[0]] + Cut(s[1..], x)
  }

  lemma CutAt<T>(s: seq<T>, k: nat)
    requires NoDup(s) && k < |s|
    ensures Cut(s, s[k]) == s[..k] + s[k + 1..]
    decreases k
  {
    if k > 0 {
      CutAt(s[1..], k - 1);
      assert s[..k] + s[k + 1..] == [s[0]] + (s[1..][..k - 1] + s[1..][k..]);
    }
  }

  lemma CutMembers<T>(s: seq<T>, x: T)
    requires NoDup(s)
    ensures NoDup(Cut(s, x))
    ensures |Cut(s, x)| == |s| - (if x in s then 1 else 0)
    ensures forall y :: y in Cut(s, x) <==> y in s && y != x
  {
    if x in s {
      var k :| 0 <= k < |s| && s[k] == x;
      CutAt(s, k);
      var r := s[..k] + s[k + 1..];
      forall y | y in s && y != x ensures y in r {
        var j :| 0 <= j < |s| && s[j] == y;
        assert y == r[if j < k then j else j - 1];
      }
    } else {
      CutNothing(s, x);
    }
  }

  lemma {:induction false} CutNothing<T>(s: seq<T>, x: T)
    requires x !in s
    ensures Cut(s, x) == s
  {
    if s != [] { CutNothing(s[1..], x); }
  }

  lemma CutSorted<T(!new)>(s: seq<T>, x: T, key: T -> int)
    requires NoDup(s) && Sorted(s, key)
    ensures Sorted(Cut(s, x), key)
  {
    if x in s {
      var k :| 0 <= k < |s| && s[k] == x;
      CutAt(s, k);
    } else {
      CutNothing(s, x);
    }
  }

  lemma AppendNoDup<T>(s: seq<T>, x: T)
    requires NoDup(s) && x !in s
    ensures NoDup(s + [x]) && NoDup([x] + s)
  {}

  lemma SomeMember<T(!new)>(s: set<T>)
    requires s != {}
    ensures exists x :: x in s
  {
    assert (forall x :: x !in s) ==> s == {};
  }

  method Pick<T(==, !new)>(s: set<T>) returns (x: T)
    requires s != {}
    ensures x in s
  {
    SomeMember(s);
    x :| x in s;
  }
}
