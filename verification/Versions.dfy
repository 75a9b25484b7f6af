/**
  Version history of moon_runtime.c: how _create_new_version merges a packet into
  a version, and how ids grow along a chain of commits.

  Block contents are opaque bytes.  The merged id array is built as a growing
  sequence, so a bad packet is refused by the checks of the merge loop itself.
 */
module Versions {
  import opened Options
  import opened Seqs
  import PairArrays

  // What a block is to every replica; `vaddr` is where one host keeps it.
  datatype Shade = Shade(id: nat, typ: nat, num: nat, data: seq<int>)
  datatype Block = Block(vaddr: nat, shade: Shade)

  // The blocks of a version by increasing id (order_id).
  type Version = seq<Block>

  function IdOf(b: Block): nat { b.shade.id }
  function AddrOf(b: Block): nat { b.vaddr }
  function ShadeOf(b: Block): Shade { b.shade }

  ghost function Erase(v: Version): seq<Shade> { Map(v, ShadeOf) }

  ghost function Ids(v: Version): set<nat> { set b | b in v :: b.shade.id }
  ghost function Addrs(v: Version): set<nat> { set b | b in v :: b.vaddr }
  ghost function Elems(s: seq<nat>): set<nat> { set x | x in s }

  ghost predicate Climbing(s: seq<nat>) {
    s == [] || ((forall x :: x in s[1..] ==> s[0] < x) && Climbing(s[1..]))
  }

  ghost predicate DistinctAddrs(v: Version) {
    forall b, c :: b in v && c in v && b.vaddr == c.vaddr ==> b == c
  }

  ghost predicate Wf(v: Version) {
    v != [] && Rising(v, IdOf) && DistinctAddrs(v)
  }

  function MaxId(v: Version): nat
    requires v != []
  {
    v[|v| - 1].shade.id
  }

  // An update packet: ids to delete, blocks to rewrite and blocks to create.  New
  // ids come with the packet (HAS_NEW_ID) or are counted up from the greatest id.
  datatype Write = Write(prev: nat, id: nat, data: seq<int>)
  datatype Packet = Packet(hasNewId: bool, dels: seq<nat>, writes: seq<Write>, news: seq<Shade>)

  function Olds(ws: seq<Write>): (r: seq<nat>)
    ensures |r| == |ws| && forall k :: 0 <= k < |ws| ==> r[k] == ws[k].prev
  {
    seq(|ws|, k requires 0 <= k < |ws| => ws[k].prev)
  }

  // ---------- The merge loop ----------

  datatype Split = Split(kept: Version, hit: Version)

  // What the merge loop makes of the blocks in `v`: the ones it passes on and, in
  // list order, the ones that are rewritten; None on an illegal id.
  ghost function Scan(v: Version, dels: seq<nat>, olds: seq<nat>): Option<Split> {
    if v == [] then
      if dels == [] && olds == [] then Some(Split([], [])) else None
    else if dels != [] && dels[0] < IdOf(v[0]) then None
    else if dels != [] && dels[0] == IdOf(v[0]) then Scan(v[1..], dels[1..], olds)
    else if olds != [] && olds[0] < IdOf(v[0]) then None
    else if olds != [] && olds[0] == IdOf(v[0]) then
      match Scan(v[1..], dels, olds[1..])
      case None => None
      case Some(s) => Some(Split(s.kept, [v[0]] + s.hit))
    else
      match Scan(v[1..], dels, olds)
      case None => None
      case Some(s) => Some(Split([v[0]] + s.kept, s.hit))
  }

  // Both lists name blocks of the version, each once and in id order, and no block twice.
  ghost predicate Fits(v: Version, dels: seq<nat>, olds: seq<nat>) {
    && Climbing(dels) && Climbing(olds)
    && Elems(dels) <= Ids(v) && Elems(olds) <= Ids(v) && Elems(dels) !! Elems(olds)
  }

  lemma IdsOfTail(v: Version)
    requires v != [] && Rising(v, IdOf)
    ensures Ids(v) == {IdOf(v[0])} + Ids(v[1..])
    ensures forall x :: x in Ids(v[1..]) ==> x > IdOf(v[0])
    ensures Rising(v[1..], IdOf)
  {
    assert v == [v[0]] + v[1..];
    forall b | b in v[1..] ensures IdOf(b) > IdOf(v[0]) {
      var i :| 0 <= i < |v[1..]| && v[1..][i] == b;
      assert v[i + 1] == b;
    }
  }

  lemma ElemsOfTail(s: seq<nat>)
    requires s != []
    ensures Elems(s) == {s[0]} + Elems(s[1..])
    ensures Climbing(s) <==> Climbing(s[1..]) && forall x :: x in Elems(s[1..]) ==> s[0] < x
  {
    assert s == [s[0]] + s[1..];
    assert forall x :: x in s[1..] <==> x in Elems(s[1..]);
  }

  ghost predicate Ahead(s: seq<nat>, n: nat) {
    s == [] || n < s[0]
  }

  lemma AheadAll(s: seq<nat>, n: nat)
    requires Ahead(s, n) && Climbing(s)
    ensures forall x :: x in Elems(s) ==> n < x
  {
    if s != [] {
      ElemsOfTail(s);
    }
  }

  lemma FitsDel(v: Version, dels: seq<nat>, olds: seq<nat>)
    requires v != [] && Rising(v, IdOf) && dels != [] && dels[0] == IdOf(v[0])
    ensures Fits(v, dels, olds) <==> Fits(v[1..], dels[1..], olds)
  {
    IdsOfTail(v);
    ElemsOfTail(dels);
    hide Climbing, Elems, Ids, Rising;
  }

  lemma FitsOld(v: Version, dels: seq<nat>, olds: seq<nat>)
    requires v != [] && Rising(v, IdOf) && Ahead(dels, IdOf(v[0])) && olds != [] && olds[0] == IdOf(v[0])
    ensures Fits(v, dels, olds) <==> Fits(v[1..], dels, olds[1..])
  {
    IdsOfTail(v);
    ElemsOfTail(olds);
    if Climbing(dels) {
      AheadAll(dels, IdOf(v[0]));
    }
    hide Climbing, Elems, Ids, Rising;
  }

  lemma FitsPass(v: Version, dels: seq<nat>, olds: seq<nat>)
    requires v != [] && Rising(v, IdOf) && Ahead(dels, IdOf(v[0])) && Ahead(olds, IdOf(v[0]))
    ensures Fits(v, dels, olds) <==> Fits(v[1..], dels, olds)
  {
    IdsOfTail(v);
    if Climbing(dels) && Climbing(olds) {
      AheadAll(dels, IdOf(v[0]));
      AheadAll(olds, IdOf(v[0]));
    }
    hide Climbing, Elems, Ids, Rising;
  }

  lemma FitsNot(v: Version, dels: seq<nat>, olds: seq<nat>)
    requires v != [] && Rising(v, IdOf)
    requires (dels != [] && dels[0] < IdOf(v[0])) || (olds != [] && olds[0] < IdOf(v[0]))
    ensures !Fits(v, dels, olds)
  {
    IdsOfTail(v);
    assert dels != [] ==> dels[0] in Elems(dels);
    assert olds != [] ==> olds[0] in Elems(olds);
  }

  // The merge loop accepts exactly the lists that fit the version.
  lemma {:induction false} ScanFits(v: Version, dels: seq<nat>, olds: seq<nat>)
    requires Rising(v, IdOf)
    ensures Scan(v, dels, olds).Some? <==> Fits(v, dels, olds)
  {
    if v == [] {
      assert dels != [] ==> dels[0] in Elems(dels);
      assert olds != [] ==> olds[0] in Elems(olds);
    } else {
      IdsOfTail(v);
      hide Fits, Rising;
      if (dels != [] && dels[0] < IdOf(v[0])) {
        FitsNot(v, dels, olds);
      } else if dels != [] && dels[0] == IdOf(v[0]) {
        FitsDel(v, dels, olds);
        ScanFits(v[1..], dels[1..], olds);
      } else if olds != [] && olds[0] < IdOf(v[0]) {
        FitsNot(v, dels, olds);
      } else if olds != [] && olds[0] == IdOf(v[0]) {
        FitsOld(v, dels, olds);
        ScanFits(v[1..], dels, olds[1..]);
      } else {
        FitsPass(v, dels, olds);
        ScanFits(v[1..], dels, olds);
      }
    }
  }

  ghost predicate Spared(b: Block, dels: seq<nat>, olds: seq<nat>) {
    IdOf(b) !in Elems(dels) && IdOf(b) !in Elems(olds)
  }

  ghost predicate KeptOk(v: Version, dels: seq<nat>, olds: seq<nat>, kept: Version) {
    Rising(kept, IdOf) && forall b :: b in kept <==> b in v && Spared(b, dels, olds)
  }

  ghost predicate HitOk(v: Version, olds: seq<nat>, hit: Version) {
    |hit| == |olds| && forall k :: 0 <= k < |olds| ==> hit[k] in v && IdOf(hit[k]) == olds[k]
  }

  lemma TailMembers(v: Version)
    requires v != [] && Rising(v, IdOf)
    ensures forall b :: b in v <==> b == v[0] || b in v[1..]
    ensures forall b :: b in v[1..] ==> IdOf(b) > IdOf(v[0])
  {
    IdsOfTail(v);
    assert v == [v[0]] + v[1..];
    assert forall b :: b in v[1..] ==> IdOf(b) in Ids(v[1..]);
  }

  lemma KeptDel(v: Version, dels: seq<nat>, olds: seq<nat>, kept: Version)
    requires v != [] && Rising(v, IdOf) && dels != [] && dels[0] == IdOf(v[0])
    requires KeptOk(v[1..], dels[1..], olds, kept)
    ensures KeptOk(v, dels, olds, kept)
  {
    TailMembers(v);
    ElemsOfTail(dels);
  }

  lemma KeptOld(v: Version, dels: seq<nat>, olds: seq<nat>, kept: Version)
    requires v != [] && Rising(v, IdOf) && olds != [] && olds[0] == IdOf(v[0])
    requires KeptOk(v[1..], dels, olds[1..], kept)
    ensures KeptOk(v, dels, olds, kept)
  {
    TailMembers(v);
    ElemsOfTail(olds);
  }

  lemma KeptPass(v: Version, dels: seq<nat>, olds: seq<nat>, kept: Version)
    requires v != [] && Rising(v, IdOf) && Spared(v[0], dels, olds)
    requires KeptOk(v[1..], dels, olds, kept)
    ensures KeptOk(v, dels, olds, [v[0]] + kept)
  {
    TailMembers(v);
    var r := [v[0]] + kept;
    assert forall b :: b in r <==> b == v[0] || b in kept;
  }

  // What the loop passes on is what neither list names, in the same order; what it
  // rewrites is what the write list names, in that list's order.
  lemma {:induction false} ScanSplits(v: Version, dels: seq<nat>, olds: seq<nat>)
    requires Rising(v, IdOf) && Scan(v, dels, olds).Some?
    ensures KeptOk(v, dels, olds, Scan(v, dels, olds).value.kept)
    ensures HitOk(v, olds, Scan(v, dels, olds).value.hit)
  {
    ScanFits(v, dels, olds);
    if v != [] {
      IdsOfTail(v);
      hide KeptOk, HitOk, Rising, Climbing, Elems, Ids;
      var w := v[1..];
      if dels != [] && dels[0] == IdOf(v[0]) {
        ScanSplits(w, dels[1..], olds);
        KeptDel(v, dels, olds, Scan(v, dels, olds).value.kept);
        HitTail(v, olds, Scan(v, dels, olds).value.hit);
      } else if olds != [] && olds[0] == IdOf(v[0]) {
        ScanSplits(w, dels, olds[1..]);
        KeptOld(v, dels, olds, Scan(v, dels, olds).value.kept);
        HitCons(v, olds, Scan(w, dels, olds[1..]).value.hit);
      } else {
        AheadAll(dels, IdOf(v[0]));
        AheadAll(olds, IdOf(v[0]));
        ScanSplits(w, dels, olds);
        KeptPass(v, dels, olds, Scan(w, dels, olds).value.kept);
        HitTail(v, olds, Scan(w, dels, olds).value.hit);
      }
    }
  }

  lemma HitTail(v: Version, olds: seq<nat>, hit: Version)
    requires v != [] && HitOk(v[1..], olds, hit)
    ensures HitOk(v, olds, hit)
  {
  }

  lemma HitCons(v: Version, olds: seq<nat>, hit: Version)
    requires v != [] && olds != [] && olds[0] == IdOf(v[0]) && HitOk(v[1..], olds[1..], hit)
    ensures HitOk(v, olds, [v[0]] + hit)
  {
    assert forall k :: 1 <= k < |olds| ==> ([v[0]] + hit)[k] == hit[k - 1] && olds[k] == olds[1..][k - 1];
  }

  lemma {:induction false} ScanCounts(v: Version, dels: seq<nat>, olds: seq<nat>)
    requires Scan(v, dels, olds).Some?
    ensures var s := Scan(v, dels, olds).value; |s.kept| + |s.hit| + |dels| == |v| && |s.hit| == |olds|
  {
    if v != [] {
      if dels != [] && dels[0] == IdOf(v[0]) {
        ScanCounts(v[1..], dels[1..], olds);
      } else if olds != [] && olds[0] == IdOf(v[0]) {
        ScanCounts(v[1..], dels, olds[1..]);
      } else {
        ScanCounts(v[1..], dels, olds);
      }
    }
  }

  // ---------- The merged version ----------

  function WriteId(v: Version, p: Packet, k: nat): nat
    requires v != [] && k < |p.writes|
  {
    if p.hasNewId then p.writes[k].id else MaxId(v) + 1 + k
  }

  function NewId(v: Version, p: Packet, i: nat): nat
    requires v != [] && i < |p.news|
  {
    if p.hasNewId then p.news[i].id else MaxId(v) + 1 + |p.writes| + i
  }

  function Rewritten(b: Block, id: nat, data: seq<int>): Block {
    b.(shade := b.shade.(id := id, data := data))
  }

  ghost function Written(v: Version, p: Packet, hit: Version): (r: Version)
    requires v != [] && |hit| == |p.writes|
    ensures |r| == |hit|
    ensures forall k :: 0 <= k < |hit| ==> r[k] == Rewritten(hit[k], WriteId(v, p, k), p.writes[k].data)
  {
    seq(|hit|, k requires 0 <= k < |hit| => Rewritten(hit[k], WriteId(v, p, k), p.writes[k].data))
  }

  // New blocks land wherever this host allocates them.
  ghost function Created(v: Version, p: Packet, addrs: seq<nat>): (r: Version)
    requires v != [] && |addrs| == |p.news|
    ensures |r| == |addrs|
    ensures forall i :: 0 <= i < |addrs| ==> r[i] == Block(addrs[i], p.news[i].(id := NewId(v, p, i)))
  {
    seq(|addrs|, i requires 0 <= i < |addrs| => Block(addrs[i], p.news[i].(id := NewId(v, p, i))))
  }

  // The id array the merge fills in before any sorting; None when it refuses.
  ghost function Joined(v: Version, p: Packet, addrs: seq<nat>): Option<Version>
    requires v != [] && |addrs| == |p.news|
  {
    if p.writes == [] || |p.dels| + |p.writes| > |v| then None
    else
      match Scan(v, p.dels, Olds(p.writes))
      case None => None
      case Some(s) =>
        if |s.hit| != |p.writes| then None
        else Some(s.kept + Written(v, p, s.hit) + Created(v, p, addrs))
  }

  // The merge accepts a packet exactly when it rewrites something and its lists fit.
  lemma JoinedAccepts(v: Version, p: Packet, addrs: seq<nat>)
    requires v != [] && Rising(v, IdOf) && |addrs| == |p.news|
    ensures Joined(v, p, addrs).Some? <==> p.writes != [] && Fits(v, p.dels, Olds(p.writes))
    ensures Joined(v, p, addrs).Some? ==> |Joined(v, p, addrs).value| == |v| + |p.news| - |p.dels|
  {
    ScanFits(v, p.dels, Olds(p.writes));
    if Scan(v, p.dels, Olds(p.writes)).Some? {
      ScanCounts(v, p.dels, Olds(p.writes));
    }
  }

  lemma {:induction false} MaxIsMax(v: Version)
    requires v != [] && Rising(v, IdOf)
    ensures forall b :: b in v ==> IdOf(b) <= MaxId(v)
  {
    forall b | b in v ensures IdOf(b) <= MaxId(v) {
      var i :| 0 <= i < |v| && v[i] == b;
      assert IdOf(v[|v| - 1]) == MaxId(v);
    }
  }

  lemma RisingConcat(a: Version, b: Version, n: nat)
    requires Rising(a, IdOf) && Rising(b, IdOf)
    requires forall x :: x in a ==> IdOf(x) <= n
    requires forall x :: x in b ==> n < IdOf(x)
    ensures Rising(a + b, IdOf)
  {
    forall i, j | 0 <= i < j < |a + b| ensures IdOf((a + b)[i]) < IdOf((a + b)[j]) {
      if j < |a| {
      } else if i < |a| {
        assert a[i] in a && b[j - |a|] in b;
      } else {
        assert IdOf(b[i - |a|]) < IdOf(b[j - |a|]);
      }
    }
  }

  // A commit counts its ids up: untouched blocks keep their place, rewritten ones
  // follow from the greatest id + 1, new ones after them.
  lemma CommitRises(v: Version, p: Packet, addrs: seq<nat>)
    requires v != [] && Rising(v, IdOf) && |addrs| == |p.news| && !p.hasNewId && Joined(v, p, addrs).Some?
    ensures var r := Joined(v, p, addrs).value;
            Rising(r, IdOf) && r != [] && MaxId(r) == MaxId(v) + |p.writes| + |p.news|
  {
    var olds := Olds(p.writes);
    ScanFits(v, p.dels, olds);
    ScanSplits(v, p.dels, olds);
    MaxIsMax(v);
    var s := Scan(v, p.dels, olds).value;
    var w, c := Written(v, p, s.hit), Created(v, p, addrs);
    assert KeptOk(v, p.dels, olds, s.kept);
    hide Scan, Fits, Spared, HitOk, Rising;
    CountUp(w, MaxId(v) + 1);
    CountUp(c, MaxId(v) + 1 + |w|);
    RisingConcat(s.kept, w, MaxId(v));
    assert forall b :: b in s.kept + w ==> b in s.kept || b in w;
    RisingConcat(s.kept + w, c, MaxId(v) + |w|);
  }

  /**
    The layout of an accepted commit: each untouched block once, as it was and in its
    old order; then the rewritten blocks in list order, in their old places with the
    new contents, numbered from the greatest id + 1; then the new blocks.
   */
  lemma CommitLayout(v: Version, p: Packet, addrs: seq<nat>) returns (kept: Version, hit: Version, made: Version)
    requires v != [] && Rising(v, IdOf) && |addrs| == |p.news| && !p.hasNewId && Joined(v, p, addrs).Some?
    ensures |hit| == |p.writes| && |made| == |p.news| && |kept| + |hit| + |p.dels| == |v|
    ensures Joined(v, p, addrs).value == kept + Written(v, p, hit) + made
    ensures Rising(kept, IdOf) && forall b :: b in kept <==> b in v && Spared(b, p.dels, Olds(p.writes))
    ensures forall k :: 0 <= k < |hit| ==> hit[k] in v && IdOf(hit[k]) == p.writes[k].prev
    ensures forall k :: 0 <= k < |hit| ==>
                          var b := Written(v, p, hit)[k];
                          b.vaddr == hit[k].vaddr && b.shade.data == p.writes[k].data && IdOf(b) == MaxId(v) + 1 + k
    ensures forall i :: 0 <= i < |made| ==>
                          made[i] == Block(addrs[i], p.news[i].(id := MaxId(v) + 1 + |p.writes| + i))
  {
    var olds := Olds(p.writes);
    ScanFits(v, p.dels, olds);
    ScanSplits(v, p.dels, olds);
    ScanCounts(v, p.dels, olds);
    var s := Scan(v, p.dels, olds).value;
    kept, hit, made := s.kept, s.hit, Created(v, p, addrs);
    hide Scan, Fits, Spared;
  }

  lemma CountUp(w: Version, n: nat)
    requires forall k :: 0 <= k < |w| ==> IdOf(w[k]) == n + k
    ensures Rising(w, IdOf)
    ensures forall b :: b in w ==> n <= IdOf(b) < n + |w|
  {
  }

  // ---------- The merge as the source runs it ----------

  ghost function Prepend(kept: Version, hit: Version, o: Option<Split>): Option<Split> {
    match o
    case None => None
    case Some(s) => Some(Split(kept + s.kept, hit + s.hit))
  }

  // One round of the merge loop, on what is left of the three lists.
  lemma ScanRound(v: Version, dels: seq<nat>, olds: seq<nat>, i: nat, j: nat, k: nat, kept: Version, hit: Version)
    requires i < |v| && j <= |dels| && k <= |olds|
    ensures var id := IdOf(v[i]);
            var rest := Prepend(kept, hit, Scan(v[i..], dels[j..], olds[k..]));
            if j < |dels| && dels[j] < id then rest == None
            else if j < |dels| && dels[j] == id then
              rest == Prepend(kept, hit, Scan(v[i + 1..], dels[j + 1..], olds[k..]))
            else if k < |olds| && olds[k] < id then rest == None
            else if k < |olds| && olds[k] == id then
              rest == Prepend(kept, hit + [v[i]], Scan(v[i + 1..], dels[j..], olds[k + 1..]))
            else rest == Prepend(kept + [v[i]], hit, Scan(v[i + 1..], dels[j..], olds[k..]))
  {
    assert v[i..][1..] == v[i + 1..];
    assert j < |dels| ==> dels[j..][1..] == dels[j + 1..];
    assert k < |olds| ==> olds[k..][1..] == olds[k + 1..];
    if k < |olds| && olds[k] == IdOf(v[i]) {
      Shuffle(kept, hit, v[i], Scan(v[i + 1..], dels[j..], olds[k + 1..]));
    }
    Shuffle(kept, hit, v[i], Scan(v[i + 1..], dels[j..], olds[k..]));
  }

  lemma Shuffle(kept: Version, hit: Version, b: Block, o: Option<Split>)
    ensures o.Some? ==>
              && hit + ([b] + o.value.hit) == (hit + [b]) + o.value.hit
              && kept + ([b] + o.value.kept) == (kept + [b]) + o.value.kept
  {
  }

  // The walk over the old id array in _create_new_version.
  method Walk(v: Version, dels: seq<nat>, olds: seq<nat>) returns (ok: bool, kept: Version, hit: Version)
    ensures Scan(v, dels, olds) == if ok then Some(Split(kept, hit)) else None
  {
    var i, j, k := 0, 0, 0;
    kept, hit := [], [];
    assert v[0..] == v && dels[0..] == dels && olds[0..] == olds;
    WalkStarts(Scan(v, dels, olds));
    while i < |v|
      invariant i <= |v| && j <= |dels| && k <= |olds|
      invariant Scan(v, dels, olds) == Prepend(kept, hit, Scan(v[i..], dels[j..], olds[k..]))
    {
      ScanRound(v, dels, olds, i, j, k, kept, hit);
      hide Prepend, Scan;
      if j < |dels| && dels[j] < IdOf(v[i]) {
        return false, [], [];
      } else if j < |dels| && dels[j] == IdOf(v[i]) {
        j := j + 1;
      } else if k < |olds| && olds[k] < IdOf(v[i]) {
        return false, [], [];
      } else if k < |olds| && olds[k] == IdOf(v[i]) {
        hit := hit + [v[i]];
        k := k + 1;
      } else {
        kept := kept + [v[i]];
      }
      i := i + 1;
    }
    ok := j == |dels| && k == |olds|;
    assert v[i..] == [] && kept + [] == kept && hit + [] == hit;
  }

  lemma WalkStarts(o: Option<Split>)
    ensures Prepend([], [], o) == o
  {
    assert o.Some? ==> [] + o.value.kept == o.value.kept && [] + o.value.hit == o.value.hit;
  }

  ghost predicate ByRisingId(v: Version) {
    forall i, j :: 0 <= i < j < |v| ==> IdOf(v[i]) <= IdOf(v[j])
  }

  function PairOf(b: Block): PairArrays.Pair<Block> { PairArrays.Pair(IdOf(b), b) }
  function BlockOf(q: PairArrays.Pair<Block>): Block { q.val }

  ghost predicate Keyed(ps: seq<PairArrays.Pair<Block>>) {
    forall i :: 0 <= i < |ps| ==> ps[i].key == IdOf(ps[i].val)
  }

  lemma KeyedPermuted(ps: seq<PairArrays.Pair<Block>>, qs: seq<PairArrays.Pair<Block>>)
    requires Keyed(ps) && multiset(qs) == multiset(ps)
    ensures Keyed(qs)
  {
    forall i | 0 <= i < |qs| ensures qs[i].key == IdOf(qs[i].val) {
      assert qs[i] in multiset(qs);
      assert qs[i] in ps;
    }
  }

  // qsort_addr_pair on an id array.
  method SortById(v: Version) returns (r: Version)
    ensures multiset(r) == multiset(v) && ByRisingId(r)
  {
    var a := new PairArrays.Pair<Block>[|v|](i requires 0 <= i < |v| => PairOf(v[i]));
    ghost var ps := a[..];
    assert Map(ps, BlockOf) == v;
    PairArrays.QSort(a, 0, a.Length);
    assert PairArrays.Part(a[..], 0, a.Length) == a[..] && PairArrays.Part(ps, 0, a.Length) == ps;
    KeyedPermuted(ps, a[..]);
    r := seq(a.Length, i requires 0 <= i < a.Length reads a => a[i].val);
    assert r == Map(a[..], BlockOf);
    MapPermuted(a[..], ps, BlockOf);
  }

  // What _create_new_version makes of a packet: the joined array, sorted when the
  // packet brought its own ids.
  ghost predicate Merges(v: Version, p: Packet, addrs: seq<nat>, r: Option<Version>)
    requires v != [] && |addrs| == |p.news|
  {
    if p.hasNewId && Joined(v, p, addrs).Some? then
      r.Some? && multiset(r.value) == multiset(Joined(v, p, addrs).value) && ByRisingId(r.value)
    else r == Joined(v, p, addrs)
  }

  method Merge(v: Version, p: Packet, addrs: seq<nat>) returns (r: Option<Version>)
    requires v != [] && |addrs| == |p.news|
    ensures Merges(v, p, addrs, r)
  {
    if p.writes == [] || |p.dels| + |p.writes| > |v| {
      return None;
    }
    var ok, kept, hit := Walk(v, p.dels, Olds(p.writes));
    if !ok {
      return None;
    }
    ScanCounts(v, p.dels, Olds(p.writes));
    var out := kept;
    for k := 0 to |hit|
      invariant out == kept + Written(v, p, hit)[..k]
    {
      out := out + [Rewritten(hit[k], WriteId(v, p, k), p.writes[k].data)];
    }
    ghost var w := Written(v, p, hit);
    assert w[..|hit|] == w;
    for i := 0 to |p.news|
      invariant out == kept + w + Created(v, p, addrs)[..i]
    {
      out := out + [Block(addrs[i], p.news[i].(id := NewId(v, p, i)))];
    }
    assert Created(v, p, addrs)[..|p.news|] == Created(v, p, addrs);
    if p.hasNewId {
      out := SortById(out);
    }
    r := Some(out);
  }
}
