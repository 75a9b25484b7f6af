/**
  The sorted pair arrays of moon_runtime.c: the in-place quicksort that builds
  them and the floor search that reads them.
 */
module PairArrays {

  // addr_pair_s: a 64-bit key (an address or an id) and what it leads to.
  datatype Pair<V> = Pair(key: nat, val: V)

  ghost predicate Sorted<V>(s: seq<Pair<V>>) {
    forall i, j :: 0 <= i < j < |s| ==> s[i].key <= s[j].key
  }

  ghost predicate Permuted<V>(s: seq<Pair<V>>, t: seq<Pair<V>>) {
    multiset(s) == multiset(t)
  }

  lemma Chained<V>(a: seq<Pair<V>>, b: seq<Pair<V>>, c: seq<Pair<V>>)
    requires Permuted(a, b) && Permuted(b, c)
    ensures Permuted(a, c)
  {
  }

  // The `num` pairs from `lo` on that one call of the sort works on.
  ghost function Part<V>(w: seq<Pair<V>>, lo: nat, num: nat): (s: seq<Pair<V>>)
    requires lo + num <= |w|
    ensures |s| == num && forall i :: 0 <= i < num ==> s[i] == w[lo + i]
  {
    w[lo..lo + num]
  }

  // Outside those pairs `w` still reads as `was`.
  ghost predicate SameAround<V>(w: seq<Pair<V>>, lo: nat, num: nat, was: seq<Pair<V>>) {
    && |was| == |w|
    && forall i :: 0 <= i < |w| && (i < lo || lo + num <= i) ==> w[i] == was[i]
  }

  // Everything left of `m` is below the key at `m`, everything right of it is not.
  ghost predicate Parted<V>(s: seq<Pair<V>>, m: nat) {
    && m < |s|
    && (forall i :: 0 <= i < m ==> s[i].key < s[m].key)
    && (forall i :: m <= i < |s| ==> s[m].key <= s[i].key)
  }

  ghost function Swapped<V>(s: seq<Pair<V>>, i: nat, j: nat): seq<Pair<V>>
    requires i < |s| && j < |s|
  {
    s[i := s[j]][j := s[i]]
  }

  lemma SwapPermutes<V>(s: seq<Pair<V>>, i: nat, j: nat)
    requires i < |s| && j < |s|
    ensures Permuted(Swapped(s, i, j), s)
  {
  }

  // One round of the hole-shifting partition: the small pair at `c` drops into the
  // hole at `h`, and the pair next to the hole moves out to `c`.
  ghost function Shifted<V>(s: seq<Pair<V>>, h: nat, c: nat): seq<Pair<V>>
    requires h < c < |s|
  {
    s[h := s[c]][c := s[h := s[c]][h + 1]]
  }

  // The partition keeps one pair `p` aside.  With it put back into the hole, a
  // round is one or two exchanges.
  lemma ShiftPermutes<V>(s: seq<Pair<V>>, h: nat, c: nat, p: Pair<V>, was: seq<Pair<V>>)
    requires h < c < |s| && Permuted(s[h := p], was)
    ensures Permuted(Shifted(s, h, c)[h + 1 := p], was)
  {
    hide Permuted;
    var a := s[h := p];
    if c == h + 1 {
      assert Shifted(s, h, c)[h + 1 := p] == Swapped(a, h, c);
      SwapPermutes(a, h, c);
      Chained(Swapped(a, h, c), a, was);
    } else {
      var b := Swapped(a, h, h + 1);
      assert Shifted(s, h, c)[h + 1 := p] == Swapped(b, h, c);
      SwapPermutes(a, h, h + 1);
      SwapPermutes(b, h, c);
      Chained(Swapped(b, h, c), b, a);
      Chained(Swapped(b, h, c), a, was);
    }
  }

  // Sorting the two sides of a parted sequence sorts the whole.
  lemma PartsSort<V>(s: seq<Pair<V>>, m: nat, l: seq<Pair<V>>, r: seq<Pair<V>>)
    requires Parted(s, m)
    requires Sorted(l) && Permuted(l, s[..m]) && Sorted(r) && Permuted(r, s[m + 1..])
    ensures Sorted(l + [s[m]] + r) && Permuted(l + [s[m]] + r, s)
  {
    forall x | x in l ensures x.key < s[m].key {
      assert x in multiset(l);
      assert x in s[..m];
    }
    forall x | x in r ensures s[m].key <= x.key {
      assert x in multiset(r);
      assert x in s[m + 1..];
    }
    assert s == s[..m] + [s[m]] + s[m + 1..];
  }

  // The two recursive calls, one after the other, on an array that reads `w0`
  // after the partition, `w1` after the first call and `w2` after the second.
  lemma BothSides<V>(w0: seq<Pair<V>>, w1: seq<Pair<V>>, w2: seq<Pair<V>>, lo: nat, num: nat, m: nat)
    requires lo + num <= |w0| && m < num && Parted(Part(w0, lo, num), m)
    requires SameAround(w1, lo, m, w0) && SameAround(w2, lo + m + 1, num - 1 - m, w1)
    requires Sorted(Part(w1, lo, m)) && Permuted(Part(w1, lo, m), Part(w0, lo, m))
    requires Sorted(Part(w2, lo + m + 1, num - 1 - m))
    requires Permuted(Part(w2, lo + m + 1, num - 1 - m), Part(w1, lo + m + 1, num - 1 - m))
    ensures SameAround(w2, lo, num, w0)
    ensures Sorted(Part(w2, lo, num)) && Permuted(Part(w2, lo, num), Part(w0, lo, num))
  {
    hide Permuted, Sorted, Parted;
    var s, l, r := Part(w0, lo, num), Part(w1, lo, m), Part(w2, lo + m + 1, num - 1 - m);
    assert Part(w0, lo, m) == s[..m];
    assert Part(w1, lo + m + 1, num - 1 - m) == s[m + 1..];
    assert Part(w2, lo, num) == l + [s[m]] + r;
    PartsSort(s, m, l, r);
  }

  method Shift<V>(out: array<Pair<V>>, lo: nat, num: nat, save: nat, next: nat)
    requires lo + num <= out.Length && save < next < num
    modifies out
    ensures SameAround(out[..], lo, num, old(out[..]))
    ensures Part(out[..], lo, num) == Shifted(old(Part(out[..], lo, num)), save, next)
  {
    out[lo + save] := out[lo + next];
    out[lo + next] := out[lo + save + 1];
  }

  // The pairs left of the hole are below the kept one, those up to `next` are not.
  ghost predicate Sifted<V>(s: seq<Pair<V>>, save: nat, next: nat, cmp: Pair<V>) {
    && save < next <= |s|
    && (forall i :: 0 <= i < save ==> s[i].key < cmp.key)
    && (forall i :: save < i < next ==> cmp.key <= s[i].key)
  }

  // The first pair fills the pivot's place and leaves the hole at the front.
  lemma LiftPivot<V>(s: seq<Pair<V>>, m: nat)
    requires m < |s|
    ensures Permuted(s[m := s[0]][0 := s[m]], s)
    ensures Sifted(s[m := s[0]], 0, 1, s[m])
  {
    assert s[m := s[0]][0 := s[m]] == Swapped(s, m, 0);
    SwapPermutes(s, m, 0);
  }

  // The partition loop of qsort_addr_pair.
  method Partition<V>(out: array<Pair<V>>, lo: nat, num: nat) returns (save: nat)
    requires 1 < num && lo + num <= out.Length
    modifies out
    ensures Parted(Part(out[..], lo, num), save)
    ensures Permuted(Part(out[..], lo, num), old(Part(out[..], lo, num)))
    ensures SameAround(out[..], lo, num, old(out[..]))
  {
    hide Permuted;
    ghost var was, w0 := Part(out[..], lo, num), out[..];
    var cmp := out[lo + num / 2];
    out[lo + num / 2] := out[lo];
    SetInPart(w0, lo, num, num / 2, out[lo], w0);
    LiftPivot(was, num / 2);
    save := 0;
    for next := 1 to num
      invariant SameAround(out[..], lo, num, old(out[..]))
      invariant Sifted(Part(out[..], lo, num), save, next, cmp)
      invariant Permuted(Part(out[..], lo, num)[save := cmp], was)
    {
      if out[lo + next].key < cmp.key {
        ShiftPermutes(Part(out[..], lo, num), save, next, cmp, was);
        Shift(out, lo, num, save, next);
        save := save + 1;
      }
    }
    ghost var s, w := Part(out[..], lo, num), out[..];
    Placing(s, save, cmp);
    hide Sifted, Parted;
    out[lo + save] := cmp;
    SetInPart(w, lo, num, save, cmp, old(out[..]));
  }

  // The pivot in the hole parts what the loop has sifted.
  lemma Placing<V>(s: seq<Pair<V>>, save: nat, cmp: Pair<V>)
    requires save < |s| && Sifted(s, save, |s|, cmp)
    ensures Parted(s[save := cmp], save)
  {}

  lemma SetInPart<V>(w: seq<Pair<V>>, lo: nat, num: nat, k: nat, x: Pair<V>, was: seq<Pair<V>>)
    requires lo + num <= |w| && k < num && SameAround(w, lo, num, was)
    ensures Part(w[lo + k := x], lo, num) == Part(w, lo, num)[k := x]
    ensures SameAround(w[lo + k := x], lo, num, was)
  {}

  // qsort_addr_pair.
  method QSort<V>(out: array<Pair<V>>, lo: nat, num: nat)
    requires lo + num <= out.Length
    modifies out
    ensures Sorted(Part(out[..], lo, num)) && Permuted(Part(out[..], lo, num), old(Part(out[..], lo, num)))
    ensures SameAround(out[..], lo, num, old(out[..]))
    decreases num
  {
    if num <= 1 {
      return;
    }
    hide Permuted, Sorted;
    ghost var was := out[..];
    var save := Partition(out, lo, num);
    ghost var w0 := out[..];
    QSort(out, lo, save);
    ghost var w1 := out[..];
    QSort(out, lo + save + 1, num - 1 - save);
    BothSides(w0, w1, out[..], lo, num, save);
    Chained(Part(out[..], lo, num), Part(w0, lo, num), Part(was, lo, num));
  }

  // The place of the greatest key not above `id`, if any.
  ghost predicate IsFloor<V>(s: seq<Pair<V>>, id: nat, at: int) {
    if at < 0 then forall i :: 0 <= i < |s| ==> s[i].key > id
    else
      && at < |s| && s[at].key <= id
      && forall i :: 0 <= i < |s| && s[i].key <= id ==> s[i].key <= s[at].key
  }

  // search_addr_id; -1 stands for NULL.
  method Search<V>(s: seq<Pair<V>>, id: nat) returns (last: int)
    requires Sorted(s)
    ensures -1 <= last < |s| && IsFloor(s, id, last)
  {
    if |s| == 0 {
      return -1;
    }
    if s[0].key > id {
      return -1;
    } else if s[0].key == id {
      return 0;
    }
    last := 0;
    var left, right := 1, |s|;
    while right > left
      invariant 1 <= left <= right <= |s| && last == left - 1
      invariant s[last].key < id
      invariant forall i :: right <= i < |s| ==> s[i].key > id
      decreases right - left
    {
      var mid := left / 2 + right / 2;
      assert left <= mid < right;
      if s[mid].key == id {
        return mid;
      } else if s[mid].key < id {
        last := mid;
        left := mid + 1;
      } else {
        right := mid;
      }
    }
  }
}
