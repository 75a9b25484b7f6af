/** get_update_packet as the source runs it: three passes over two versions. */
module UpdatePackets {
  import opened Options
  import opened Seqs
  import opened Versions
  import opened History
  import opened Deltas
  import PairArrays

  // A version's second array (order_addr): the same blocks by address.
  ghost predicate AddrOrder(order: seq<PairArrays.Pair<Block>>, v: Version) {
    && PairArrays.Sorted(order)
    && (forall i :: 0 <= i < |order| ==> order[i].key == order[i].val.vaddr && order[i].val in v)
    && (forall b :: b in v ==> PairArrays.Pair(b.vaddr, b) in order)
    && multiset(Map(order, BlockOf)) == multiset(v)
  }

  function ByAddr(b: Block): PairArrays.Pair<Block> { PairArrays.Pair(b.vaddr, b) }

  lemma OrderedByAddr(v: Version, ps: seq<PairArrays.Pair<Block>>, qs: seq<PairArrays.Pair<Block>>)
    requires ps == Map(v, ByAddr) && multiset(qs) == multiset(ps) && PairArrays.Sorted(qs)
    ensures AddrOrder(qs, v)
  {
    MapPermuted(qs, ps, BlockOf);
    assert Map(ps, BlockOf) == v;
    forall i | 0 <= i < |qs| ensures qs[i].key == qs[i].val.vaddr && qs[i].val in v {
      assert qs[i] in multiset(ps);
      var j :| 0 <= j < |ps| && ps[j] == qs[i];
      assert v[j] in v;
    }
    forall b | b in v ensures PairArrays.Pair(b.vaddr, b) in qs {
      var j :| 0 <= j < |v| && v[j] == b;
      assert ps[j] in multiset(ps);
      assert ps[j] in multiset(qs);
    }
  }

  // sort_addr_id.
  method SortByAddr(v: Version) returns (order: seq<PairArrays.Pair<Block>>)
    ensures AddrOrder(order, v)
  {
    var a := new PairArrays.Pair<Block>[|v|](i requires 0 <= i < |v| => ByAddr(v[i]));
    ghost var ps := a[..];
    assert ps == Map(v, ByAddr);
    PairArrays.QSort(a, 0, a.Length);
    assert PairArrays.Part(a[..], 0, a.Length) == a[..] && PairArrays.Part(ps, 0, a.Length) == ps;
    order := a[..];
    OrderedByAddr(v, ps, order);
  }

  // A floor search followed by the test for the very address.
  method FindAt(order: seq<PairArrays.Pair<Block>>, a: nat, ghost v: Version) returns (found: bool, b: Block)
    requires AddrOrder(order, v) && DistinctAddrs(v)
    ensures found <==> a in Addrs(v)
    ensures found ==> b == At(v, a)
  {
    var k := PairArrays.Search(order, a);
    b := Block(0, Shade(0, 0, 0, []));
    if k >= 0 && order[k].val.vaddr == a {
      found, b := true, order[k].val;
    } else {
      found := false;
      if a in Addrs(v) {
        NearMiss(order, v, a, k);
      }
    }
  }

  lemma NearMiss(order: seq<PairArrays.Pair<Block>>, v: Version, a: nat, k: int)
    requires AddrOrder(order, v) && a in Addrs(v) && k < |order| && PairArrays.IsFloor(order, a, k)
    ensures k >= 0 && order[k].val.vaddr == a
  {
    var c :| c in v && c.vaddr == a;
    assert PairArrays.Pair(a, c) in order;
    var i :| 0 <= i < |order| && order[i] == PairArrays.Pair(a, c);
  }

  ghost function AgainIn(v0: Version): Block -> bool
    requires v0 != []
  {
    (b: Block) => IsHigh(b, v0) && b.vaddr in Addrs(v0)
  }

  ghost function FreshIn(v0: Version): Block -> bool
    requires v0 != []
  {
    (b: Block) => IsHigh(b, v0) && b.vaddr !in Addrs(v0)
  }

  // Below the point where a downward pass stopped there are only old ids.
  lemma BelowIsLow(v0: Version, v: Version, i: nat)
    requires v0 != [] && Rising(v, IdOf) && i <= |v| && (i > 0 ==> IdOf(v[i - 1]) <= MaxId(v0))
    ensures Filter(v[..i], AgainIn(v0)) == [] && Filter(v[..i], FreshIn(v0)) == []
    ensures Filter(v, AgainIn(v0)) == Filter(v[i..], AgainIn(v0))
    ensures Filter(v, FreshIn(v0)) == Filter(v[i..], FreshIn(v0))
  {
    hide Filter;
    forall b | b in v[..i] ensures !IsHigh(b, v0) {
      var j :| 0 <= j < i && v[j] == b;
      if j < i - 1 {
        assert IdOf(v[j]) < IdOf(v[i - 1]);
      }
    }
    FilterNone(v[..i], AgainIn(v0));
    FilterNone(v[..i], FreshIn(v0));
    assert v == v[..i] + v[i..];
    FilterConcat(v[..i], v[i..], AgainIn(v0));
    FilterConcat(v[..i], v[i..], FreshIn(v0));
  }

  // First pass: from the top down to the earlier version's greatest id, count what
  // is rewritten and what is new; `low` blocks stay below.
  method CountHigh(v0: Version, v: Version, order0: seq<PairArrays.Pair<Block>>)
    returns (low: nat, nWrites: nat, nNews: nat)
    requires v0 != [] && DistinctAddrs(v0) && AddrOrder(order0, v0) && Rising(v, IdOf)
    ensures nWrites == |Again(v0, v)| && nNews == |Fresh(v0, v)|
    ensures low + nWrites + nNews == |v|
  {
    low, nWrites, nNews := |v|, 0, 0;
    assert v[low..] == [];
    assert Again(v0, v) == Filter(v, AgainIn(v0)) && Fresh(v0, v) == Filter(v, FreshIn(v0));
    hide AddrOrder, Rising, DistinctAddrs, Filter;
    while low > 0 && IdOf(v[low - 1]) > MaxId(v0)
      invariant low <= |v| && low + nWrites + nNews == |v|
      invariant nWrites == |Filter(v[low..], AgainIn(v0))| && nNews == |Filter(v[low..], FreshIn(v0))|
    {
      low := low - 1;
      FilterSlice(v, low, AgainIn(v0));
      FilterSlice(v, low, FreshIn(v0));
      var found, _ := FindAt(order0, v[low].vaddr, v0);
      if found {
        nWrites := nWrites + 1;
      } else {
        nNews := nNews + 1;
      }
    }
    BelowIsLow(v0, v, low);
  }

  // Second pass: through the earlier version, list what is gone and what changed.
  method ListOld(v0: Version, v: Version, order: seq<PairArrays.Pair<Block>>)
    returns (dels: seq<nat>, writes: seq<Write>)
    requires DistinctAddrs(v) && AddrOrder(order, v)
    ensures dels == Map(Gone(v0, v), IdOf)
    ensures writes == Map(Changed(v0, v), (c: Block) => WriteOf(c, v))
  {
    ghost var gone, changed, write := (c: Block) => IsGone(c, v), (c: Block) => IsChanged(c, v), (c: Block) => WriteOf(c, v);
    dels, writes := [], [];
    hide Filter, Map, AddrOrder, IsGone, IsChanged, WriteOf;
    ListStarts(v0, v);
    for i := 0 to |v0|
      invariant dels == Map(Filter(v0[..i], gone), IdOf)
      invariant writes == Map(Filter(v0[..i], changed), write)
    {
      var c := v0[i];
      FilterSlice(v0, i, gone);
      FilterSlice(v0, i, changed);
      MapPush(Filter(v0[..i], gone), c, IdOf);
      MapPush(Filter(v0[..i], changed), c, write);
      HowFares(c, v);
      var found, b := FindAt(order, c.vaddr, v);
      if !found {
        dels := dels + [IdOf(c)];
      } else if IdOf(b) != IdOf(c) {
        writes := writes + [Write(IdOf(c), IdOf(b), b.shade.data)];
      }
    }
    assert v0[..|v0|] == v0;
  }

  lemma ListStarts(v0: Version, v: Version)
    ensures Map(Filter(v0[..0], (c: Block) => IsGone(c, v)), IdOf) == []
    ensures Map(Filter(v0[..0], (c: Block) => IsChanged(c, v)), (c: Block) => WriteOf(c, v)) == []
  {
  }

  lemma HowFares(c: Block, v: Version)
    ensures IsGone(c, v) <==> c.vaddr !in Addrs(v)
    ensures IsChanged(c, v) <==> c.vaddr in Addrs(v) && IdOf(At(v, c.vaddr)) != IdOf(c)
    ensures c.vaddr in Addrs(v) ==> WriteOf(c, v) == Write(IdOf(c), IdOf(At(v, c.vaddr)), At(v, c.vaddr).shade.data)
  {
  }

  // Third pass: from the top down again, collect as many new blocks as were counted.
  method ListNew(v0: Version, v: Version, order0: seq<PairArrays.Pair<Block>>, nNews: nat) returns (news: seq<Shade>)
    requires v0 != [] && DistinctAddrs(v0) && AddrOrder(order0, v0) && Rising(v, IdOf)
    requires nNews == |Fresh(v0, v)|
    ensures news == Map(Fresh(v0, v), ShadeOf)
  {
    var i: nat, j: nat := |v|, nNews;
    news := [];
    hide Filter, Map, AddrOrder, Rising, Fresh;
    NewStarts(v0, v);
    while i > 0 && j > 0 && IdOf(v[i - 1]) > MaxId(v0)
      invariant i <= |v| && |news| + j == nNews
      invariant news == Map(Filter(v[i..], FreshIn(v0)), ShadeOf)
    {
      i := i - 1;
      FilterSlice(v, i, FreshIn(v0));
      MapPush(Filter(v[i + 1..], FreshIn(v0)), v[i], ShadeOf);
      var found, _ := FindAt(order0, v[i].vaddr, v0);
      if !found {
        news := [v[i].shade] + news;
        j := j - 1;
      }
    }
    assert |news| == |Filter(v[i..], FreshIn(v0))|;
    AllNewListed(v0, v, i, nNews, j);
  }

  lemma NewStarts(v0: Version, v: Version)
    requires v0 != []
    ensures Map(Filter(v[|v|..], FreshIn(v0)), ShadeOf) == []
  {
  }

  lemma AllNewListed(v0: Version, v: Version, i: nat, nNews: nat, j: nat)
    requires v0 != [] && Rising(v, IdOf) && i <= |v| && nNews == |Fresh(v0, v)|
    requires |Filter(v[i..], FreshIn(v0))| + j == nNews
    requires i == 0 || j == 0 || IdOf(v[i - 1]) <= MaxId(v0)
    ensures Filter(v[i..], FreshIn(v0)) == Fresh(v0, v)
  {
    assert v == v[..i] + v[i..];
    FilterConcat(v[..i], v[i..], FreshIn(v0));
    assert Fresh(v0, v) == Filter(v, FreshIn(v0));
    if j > 0 {
      BelowIsLow(v0, v, i);
    }
  }

  // get_update_packet: whatever it sends is the delta, and between versions of a
  // chain it fails only when no rewritten block survives.
  method GetUpdate(v0: Version, v: Version) returns (r: Option<Packet>)
    requires Rising(v0, IdOf) && DistinctAddrs(v0) && Rising(v, IdOf) && DistinctAddrs(v)
    ensures r.Some? ==> v0 != [] && r.value == Delta(v0, v)
    ensures Descends(v0, v) ==> (r.Some? <==> Changed(v0, v) != [])
  {
    if |v| <= 0 || |v0| <= 0 {
      return None;
    }
    var order0 := SortByAddr(v0);
    var order := SortByAddr(v);
    var low, nWrites, nNews := CountHigh(v0, v, order0);
    AgreeOnChain(v0, v);
    if nWrites == 0 {
      return None;
    }
    var nDels := |v0| - low - nWrites;
    var dels, writes := ListOld(v0, v, order);
    if |dels| != nDels || |writes| != nWrites {
      return None;
    }
    var news := ListNew(v0, v, order0, nNews);
    r := Some(Packet(true, dels, writes, news));
  }

  lemma AgreeOnChain(v0: Version, v: Version)
    requires v0 != []
    ensures Descends(v0, v) ==>
              && |Again(v0, v)| == |Changed(v0, v)|
              && |Gone(v0, v)| == |v0| - (|v| - |Again(v0, v)| - |Fresh(v0, v)|) - |Again(v0, v)|
  {
    if Descends(v0, v) {
      PassesAgree(v0, v);
    }
  }

  // The counts of the first pass are those of the second.
  lemma PassesAgree(v0: Version, v: Version)
    requires Descends(v0, v)
    ensures |Again(v0, v)| == |Changed(v0, v)|
    ensures |Gone(v0, v)| == |v0| - (|v| - |Again(v0, v)| - |Fresh(v0, v)|) - |Again(v0, v)|
  {
    PartsOfLater(v0, v);
    PartsOfEarlier(v0, v);
    LowIsSame(v0, v);
    AgainIsChanged(v0, v);
  }

  // ---------- A pair of versions with no packet between them ----------

  const First: Version := [Block(100, Shade(1, 0, 1, [5])), Block(200, Shade(2, 0, 1, [6]))]
  const Middle: Version :=
    [Block(200, Shade(2, 0, 1, [6])), Block(100, Shade(3, 0, 1, [7])), Block(300, Shade(4, 0, 1, [8]))]
  const Last: Version := [Block(200, Shade(2, 0, 1, [6])), Block(300, Shade(5, 0, 1, [9]))]

  const WriteAndMake: Commit := Commit(Packet(false, [], [Write(1, 0, [7])], [Shade(0, 0, 1, [8])]), [300])
  const DropAndWrite: Commit := Commit(Packet(false, [3], [Write(4, 0, [9])], []), [])

  lemma ScanPasses(b: Block, w: Version, dels: seq<nat>, olds: seq<nat>, s: Split)
    requires Scan(w, dels, olds) == Some(s) && Ahead(dels, IdOf(b)) && Ahead(olds, IdOf(b))
    ensures Scan([b] + w, dels, olds) == Some(Split([b] + s.kept, s.hit))
  {
    assert ([b] + w)[1..] == w;
  }

  lemma ScanDrops(b: Block, w: Version, dels: seq<nat>, olds: seq<nat>, s: Split)
    requires Scan(w, dels, olds) == Some(s)
    ensures Scan([b] + w, [IdOf(b)] + dels, olds) == Some(s)
  {
    assert ([b] + w)[1..] == w && ([IdOf(b)] + dels)[1..] == dels;
  }

  lemma ScanRewrites(b: Block, w: Version, dels: seq<nat>, olds: seq<nat>, s: Split)
    requires Scan(w, dels, olds) == Some(s) && Ahead(dels, IdOf(b))
    ensures Scan([b] + w, dels, [IdOf(b)] + olds) == Some(Split(s.kept, [b] + s.hit))
  {
    assert ([b] + w)[1..] == w && ([IdOf(b)] + olds)[1..] == olds;
  }

  lemma FirstCommit()
    ensures Commits(First, WriteAndMake, Middle)
  {
    var v, p := First, WriteAndMake.packet;
    ScanPasses(v[1], [], [], [], Split([], []));
    ScanRewrites(v[0], [v[1]] + [], [], [], Split([v[1]] + [], []));
    assert v == [v[0]] + ([v[1]] + []) && Olds(p.writes) == [1] + [];
    var kept, hit := [v[1]] + [], [v[0]] + [];
    assert Scan(v, [], Olds(p.writes)) == Some(Split(kept, hit));
    assert Middle == kept + Written(v, p, hit) + Created(v, p, [300]);
  }

  lemma SecondCommit()
    ensures Commits(Middle, DropAndWrite, Last)
  {
    var v, p := Middle, DropAndWrite.packet;
    ScanRewrites(v[2], [], [], [], Split([], []));
    ScanDrops(v[1], [v[2]] + [], [], [4] + [], Split([], [v[2]] + []));
    ScanPasses(v[0], [v[1]] + ([v[2]] + []), [3] + [], [4] + [], Split([], [v[2]] + []));
    assert v == [v[0]] + ([v[1]] + ([v[2]] + [])) && Olds(p.writes) == [4] + [] && p.dels == [3] + [];
    var kept, hit := [v[0]] + [], [v[2]] + [];
    assert Scan(v, p.dels, Olds(p.writes)) == Some(Split(kept, hit));
    assert Last == kept + Written(v, p, hit) + Created(v, p, []);
  }

  /**
    Two commits whose rewritten blocks are gone or new at the end: the versions differ,
    yet no block of the first survives rewritten, so get_update_packet sends nothing.
   */
  lemma NoPacketThoughChanged()
    ensures Chain([First, Middle, Last], [WriteAndMake, DropAndWrite])
    ensures Changed(First, Last) == [] && Erase(First) != Erase(Last)
  {
    FirstCommit();
    SecondCommit();
    hide Commits;
    AddressesOf();
    forall c | c in First ensures !IsChanged(c, Last) {
      if c == First[1] { assert Last[0] in Last; }
    }
    FilterNone(First, (c: Block) => IsChanged(c, Last));
    assert Erase(First)[0].data == [5] && Erase(Last)[0].data == [6];
  }

  lemma AddressesOf()
    ensures Addrs(First) == {100, 200} && Addrs(Middle) == {100, 200, 300} && Addrs(Last) == {200, 300}
  {
    assert First[0] in First && First[1] in First;
    assert Middle[0] in Middle && Middle[1] in Middle && Middle[2] in Middle;
    assert Last[0] in Last && Last[1] in Last;
  }
}
