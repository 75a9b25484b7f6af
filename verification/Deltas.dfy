/**
  get_update_packet: one catch-up delta between any two versions of a chain, and
  why applying it gives the later version.
 */
module Deltas {
  import opened Options
  import opened Seqs
  import opened Versions
  import opened History
  import PairArrays

  function ShadeId(s: Shade): nat { s.id }

  // The block of `v` at an address it holds.
  ghost function At(v: Version, a: nat): (b: Block)
    requires a in Addrs(v)
    ensures b in v && b.vaddr == a
  {
    var b :| b in v && b.vaddr == a;
    b
  }

  // ---------- The three ways a block of the earlier version fares ----------

  ghost predicate IsGone(c: Block, v: Version) { c.vaddr !in Addrs(v) }
  ghost predicate IsChanged(c: Block, v: Version) {
    c.vaddr in Addrs(v) && IdOf(At(v, c.vaddr)) != IdOf(c)
  }
  ghost predicate IsSame(c: Block, v: Version) {
    c.vaddr in Addrs(v) && IdOf(At(v, c.vaddr)) == IdOf(c)
  }

  ghost function Gone(v0: Version, v: Version): Version { Filter(v0, (c: Block) => IsGone(c, v)) }
  ghost function Changed(v0: Version, v: Version): Version { Filter(v0, (c: Block) => IsChanged(c, v)) }
  ghost function Same(v0: Version, v: Version): Version { Filter(v0, (c: Block) => IsSame(c, v)) }

  // ---------- The three parts of the later version ----------

  ghost predicate IsHigh(b: Block, v0: Version)
    requires v0 != []
  {
    MaxId(v0) < IdOf(b)
  }

  ghost function Low(v0: Version, v: Version): Version
    requires v0 != []
  {
    Filter(v, (b: Block) => !IsHigh(b, v0))
  }

  // Rewritten: a high id at an address the earlier version holds.
  ghost function Again(v0: Version, v: Version): Version
    requires v0 != []
  {
    Filter(v, (b: Block) => IsHigh(b, v0) && b.vaddr in Addrs(v0))
  }

  ghost function Fresh(v0: Version, v: Version): Version
    requires v0 != []
  {
    Filter(v, (b: Block) => IsHigh(b, v0) && b.vaddr !in Addrs(v0))
  }

  ghost function Latest(c: Block, v: Version): (b: Block)
    ensures c.vaddr in Addrs(v) ==> b in v && b.vaddr == c.vaddr
  {
    if c.vaddr in Addrs(v) then At(v, c.vaddr) else c
  }

  ghost function WriteOf(c: Block, v: Version): Write {
    Write(IdOf(c), IdOf(Latest(c, v)), Latest(c, v).shade.data)
  }

  // The packet get_update_packet sends.
  ghost function Delta(v0: Version, v: Version): Packet
    requires v0 != []
  {
    Packet(true, Map(Gone(v0, v), IdOf), Map(Changed(v0, v), (c: Block) => WriteOf(c, v)),
           Map(Fresh(v0, v), ShadeOf))
  }

  // ---------- What a chain guarantees ----------

  lemma AtIs(v: Version, b: Block)
    requires Wf(v) && b in v
    ensures b.vaddr in Addrs(v) && At(v, b.vaddr) == b
  {
  }

  // An unchanged id means the very same block; a changed one is a high one.
  lemma Fares(v0: Version, v: Version, c: Block)
    requires Descends(v0, v) && c in v0
    ensures IsSame(c, v) <==> c in v
    ensures IsChanged(c, v) <==> c.vaddr in Addrs(v) && IsHigh(At(v, c.vaddr), v0)
  {
    MaxIsMax(v0);
    if c in v {
      AtIs(v, c);
    }
    if c.vaddr in Addrs(v) {
      var b := At(v, c.vaddr);
      if IdOf(b) == IdOf(c) {
        SameIdSameBlock(v0, v, b, c);
      }
      if !IsHigh(b, v0) {
        assert b in v0;
      }
    }
  }

  // The blocks of the later version with an old id are those that fared the same.
  lemma LowIsSame(v0: Version, v: Version)
    requires Descends(v0, v)
    ensures Low(v0, v) == Same(v0, v)
  {
    FilterRising(v, (b: Block) => !IsHigh(b, v0), IdOf);
    FilterRising(v0, (c: Block) => IsSame(c, v), IdOf);
    MaxIsMax(v0);
    forall b ensures b in Low(v0, v) <==> b in Same(v0, v) {
      if b in v0 {
        Fares(v0, v, b);
      }
    }
    RisingUnique(Low(v0, v), Same(v0, v), IdOf);
  }

  lemma PartApart(s: Version, v: Version)
    requires Wf(v) && Rising(s, IdOf) && forall b :: b in s ==> b in v
    ensures Apart(s, AddrOf)
  {
    forall i, j | 0 <= i < j < |s| ensures AddrOf(s[i]) != AddrOf(s[j]) {
      assert IdOf(s[i]) < IdOf(s[j]);
      assert s[i] in v && s[j] in v;
    }
  }

  ghost function Successors(v0: Version, v: Version): Version {
    Map(Changed(v0, v), (c: Block) => Latest(c, v))
  }

  lemma SuccessorIsAgain(v0: Version, v: Version, c: Block)
    requires Descends(v0, v) && c in Changed(v0, v)
    ensures Latest(c, v) in Again(v0, v)
  {
    Fares(v0, v, c);
    hide Descends;
  }

  lemma AgainIsSuccessor(v0: Version, v: Version, b: Block) returns (c: Block)
    requires Descends(v0, v) && b in Again(v0, v)
    ensures c in Changed(v0, v) && Latest(c, v) == b
  {
    c :| c in v0 && c.vaddr == b.vaddr;
    AtIs(v, b);
    Fares(v0, v, c);
    hide Descends;
  }

  lemma SuccessorsAreAgain(v0: Version, v: Version, b: Block)
    requires Descends(v0, v)
    ensures b in Successors(v0, v) <==> b in Again(v0, v)
  {
    assert v0 != [];
    hide Descends, Changed, Again, Latest;
    var ch, su := Changed(v0, v), Successors(v0, v);
    if b in su {
      var i :| 0 <= i < |su| && su[i] == b;
      assert ch[i] in ch;
      SuccessorIsAgain(v0, v, ch[i]);
    }
    if b in Again(v0, v) {
      var c := AgainIsSuccessor(v0, v, b);
      var i :| 0 <= i < |ch| && ch[i] == c;
      assert su[i] == b;
    }
  }

  lemma SuccessorsApart(v0: Version, v: Version)
    requires Descends(v0, v)
    ensures Apart(Successors(v0, v), AddrOf)
  {
    var ch, su := Changed(v0, v), Successors(v0, v);
    FilterRising(v0, (c: Block) => IsChanged(c, v), IdOf);
    PartApart(ch, v0);
    assert forall i :: 0 <= i < |su| ==> ch[i] in ch && AddrOf(su[i]) == AddrOf(ch[i]);
  }

  // The changed blocks of the earlier version lead, one to one, to the rewritten
  // ones of the later.
  lemma AgainIsChanged(v0: Version, v: Version)
    requires Descends(v0, v)
    ensures multiset(Successors(v0, v)) == multiset(Again(v0, v))
    ensures |Changed(v0, v)| == |Again(v0, v)|
  {
    var ag, su := Again(v0, v), Successors(v0, v);
    FilterRising(v, (b: Block) => IsHigh(b, v0) && b.vaddr in Addrs(v0), IdOf);
    PartApart(ag, v);
    SuccessorsApart(v0, v);
    forall b ensures b in su <==> b in ag {
      SuccessorsAreAgain(v0, v, b);
    }
    ApartPermuted(su, ag, AddrOf);
  }

  // Low, rewritten and new blocks make up the later version.
  lemma PartsOfLater(v0: Version, v: Version)
    requires v0 != []
    ensures multiset(v) == multiset(Low(v0, v)) + multiset(Again(v0, v)) + multiset(Fresh(v0, v))
    ensures |v| == |Low(v0, v)| + |Again(v0, v)| + |Fresh(v0, v)|
  {
    var hi := (b: Block) => IsHigh(b, v0);
    var h := Filter(v, hi);
    FilterSplits(v, (b: Block) => !IsHigh(b, v0), hi);
    FilterFilter(v, hi, (b: Block) => b.vaddr in Addrs(v0), (b: Block) => IsHigh(b, v0) && b.vaddr in Addrs(v0));
    FilterFilter(v, hi, (b: Block) => b.vaddr !in Addrs(v0), (b: Block) => IsHigh(b, v0) && b.vaddr !in Addrs(v0));
    FilterSplits(h, (b: Block) => b.vaddr in Addrs(v0), (b: Block) => b.vaddr !in Addrs(v0));
  }

  // Gone, changed and same blocks make up the earlier version.
  lemma PartsOfEarlier(v0: Version, v: Version)
    ensures |v0| == |Gone(v0, v)| + |Changed(v0, v)| + |Same(v0, v)|
  {
    var held := (c: Block) => !IsGone(c, v);
    FilterSplits(v0, (c: Block) => IsGone(c, v), held);
    FilterFilter(v0, held, (c: Block) => IsChanged(c, v), (c: Block) => IsChanged(c, v));
    FilterFilter(v0, held, (c: Block) => IsSame(c, v), (c: Block) => IsSame(c, v));
    FilterSplits(Filter(v0, held), (c: Block) => IsChanged(c, v), (c: Block) => IsSame(c, v));
  }

  // ---------- The delta fits, and gives the later version ----------

  lemma {:induction false} RisingIdsClimb(s: Version)
    requires Rising(s, IdOf)
    ensures Climbing(Map(s, IdOf)) && Elems(Map(s, IdOf)) == Ids(s)
  {
    if s != [] {
      IdsOfTail(s);
      RisingIdsClimb(s[1..]);
      assert Map(s, IdOf)[1..] == Map(s[1..], IdOf);
      ElemsOfTail(Map(s, IdOf));
    }
  }

  lemma DeltaFits(v0: Version, v: Version)
    requires Descends(v0, v)
    ensures Fits(v0, Delta(v0, v).dels, Olds(Delta(v0, v).writes))
    ensures Olds(Delta(v0, v).writes) == Map(Changed(v0, v), IdOf)
    ensures forall c :: c in v0 ==> (Spared(c, Delta(v0, v).dels, Olds(Delta(v0, v).writes)) <==> IsSame(c, v))
  {
    var g, ch := Gone(v0, v), Changed(v0, v);
    FilterRising(v0, (c: Block) => IsGone(c, v), IdOf);
    FilterRising(v0, (c: Block) => IsChanged(c, v), IdOf);
    RisingIdsClimb(g);
    RisingIdsClimb(ch);
    assert Olds(Delta(v0, v).writes) == Map(ch, IdOf);
    forall c | c in v0
      ensures IdOf(c) in Ids(g) <==> IsGone(c, v)
      ensures IdOf(c) in Ids(ch) <==> IsChanged(c, v)
    {
      IdTells(v0, g, c);
      IdTells(v0, ch, c);
    }
  }

  // In a part of a version, an id stands for its block.
  lemma IdTells(v: Version, part: Version, c: Block)
    requires Rising(v, IdOf) && c in v && forall b :: b in part ==> b in v
    ensures IdOf(c) in Ids(part) <==> c in part
  {
    if IdOf(c) in Ids(part) {
      var b :| b in part && IdOf(b) == IdOf(c);
      IdsTell(v, b, c);
    }
  }

  lemma KeptIsLow(v0: Version, v: Version, kept: Version)
    requires Descends(v0, v) && KeptOk(v0, Delta(v0, v).dels, Olds(Delta(v0, v).writes), kept)
    ensures kept == Low(v0, v)
  {
    var same := Same(v0, v);
    DeltaFits(v0, v);
    LowIsSame(v0, v);
    FilterRising(v0, (c: Block) => IsSame(c, v), IdOf);
    assert forall b :: b in kept <==> b in same;
    RisingUnique(kept, same, IdOf);
  }

  lemma HitIsChanged(v0: Version, v: Version, hit: Version)
    requires Descends(v0, v) && HitOk(v0, Map(Changed(v0, v), IdOf), hit)
    ensures hit == Changed(v0, v)
  {
    var ch := Changed(v0, v);
    forall k | 0 <= k < |ch| ensures hit[k] == ch[k] {
      assert ch[k] in ch;
      IdsTell(v0, hit[k], ch[k]);
    }
  }

  lemma DeltaKeepsAndHits(v0: Version, v: Version)
    requires Descends(v0, v)
    ensures Scan(v0, Delta(v0, v).dels, Olds(Delta(v0, v).writes)) == Some(Split(Low(v0, v), Changed(v0, v)))
  {
    hide KeptOk, HitOk, Fits, Spared, Scan, Low, Changed, Delta;
    var d := Delta(v0, v);
    var olds := Olds(d.writes);
    DeltaFits(v0, v);
    ScanFits(v0, d.dels, olds);
    ScanSplits(v0, d.dels, olds);
    KeptIsLow(v0, v, Scan(v0, d.dels, olds).value.kept);
    HitIsChanged(v0, v, Scan(v0, d.dels, olds).value.hit);
  }

  // Rewriting a changed block as the delta says gives the later version's block.
  lemma DeltaWrites(v0: Version, v: Version)
    requires Descends(v0, v)
    ensures |Changed(v0, v)| == |Delta(v0, v).writes|
    ensures Written(v0, Delta(v0, v), Changed(v0, v)) == Successors(v0, v)
  {
    var d, ch, su := Delta(v0, v), Changed(v0, v), Successors(v0, v);
    forall k | 0 <= k < |ch| ensures Written(v0, d, ch)[k] == su[k] {
      assert ch[k] in ch;
      assert su[k] in v;
    }
  }

  lemma EraseConcat(a: Version, b: Version)
    ensures Erase(a + b) == Erase(a) + Erase(b)
  {
  }

  // Applied to the earlier version itself, the delta gives the later version's
  // blocks, new ones wherever they were allocated.
  lemma DeltaJoins(v0: Version, v: Version, addrs: seq<nat>)
    requires Descends(v0, v) && Changed(v0, v) != [] && |addrs| == |Delta(v0, v).news|
    ensures Joined(v0, Delta(v0, v), addrs).Some?
    ensures multiset(Erase(Joined(v0, Delta(v0, v), addrs).value)) == multiset(Erase(v))
  {
    var d := Delta(v0, v);
    JoinedAccepts(v0, d, addrs);
    DeltaFits(v0, v);
    DeltaKeepsAndHits(v0, v);
    DeltaWrites(v0, v);
    var lo, su, fr, cr := Low(v0, v), Successors(v0, v), Fresh(v0, v), Created(v0, d, addrs);
    assert Joined(v0, d, addrs).value == lo + su + cr;
    assert Erase(cr) == Erase(fr);
    EraseConcat(lo + su, cr);
    EraseConcat(lo + su, fr);
    PartsOfLater(v0, v);
    AgainIsChanged(v0, v);
    assert multiset(lo + su + fr) == multiset(v);
    MapPermuted(lo + su + fr, v, ShadeOf);
  }

  // ---------- Replicas ----------

  // A replica holds the same blocks at addresses of its own.
  ghost predicate Replica(r: Version, v: Version) {
    Erase(r) == Erase(v)
  }

  lemma ReplicaTail(r: Version, v: Version)
    requires Replica(r, v) && v != []
    ensures r != [] && r[0].shade == v[0].shade && Replica(r[1..], v[1..])
  {
    assert |r| == |Erase(r)| == |v|;
    assert Erase(r)[0] == r[0].shade && Erase(v)[0] == v[0].shade;
    assert Erase(r[1..]) == Erase(r)[1..] && Erase(v[1..]) == Erase(v)[1..];
  }

  lemma ReplicaCons(b: Block, r: Version, c: Block, v: Version)
    requires b.shade == c.shade && Replica(r, v)
    ensures Replica([b] + r, [c] + v)
  {
    EraseConcat([b], r);
    EraseConcat([c], v);
    assert Erase([b]) == Erase([c]);
  }

  lemma {:induction false} ReplicaScan(r: Version, v: Version, dels: seq<nat>, olds: seq<nat>)
    requires Replica(r, v)
    ensures Scan(r, dels, olds).Some? == Scan(v, dels, olds).Some?
    ensures Scan(v, dels, olds).Some? ==>
              && Replica(Scan(r, dels, olds).value.kept, Scan(v, dels, olds).value.kept)
              && Replica(Scan(r, dels, olds).value.hit, Scan(v, dels, olds).value.hit)
    decreases v
  {
    assert |r| == |Erase(r)| == |Erase(v)| == |v|;
    if v != [] {
      ReplicaTail(r, v);
      hide Replica;
      var r1, v1 := r[1..], v[1..];
      if dels != [] && dels[0] == IdOf(v[0]) {
        ReplicaScan(r1, v1, dels[1..], olds);
      } else if olds != [] && olds[0] == IdOf(v[0]) {
        ReplicaScan(r1, v1, dels, olds[1..]);
        if Scan(v1, dels, olds[1..]).Some? {
          ReplicaCons(r[0], Scan(r1, dels, olds[1..]).value.hit, v[0], Scan(v1, dels, olds[1..]).value.hit);
        }
      } else {
        ReplicaScan(r1, v1, dels, olds);
        if Scan(v1, dels, olds).Some? {
          ReplicaCons(r[0], Scan(r1, dels, olds).value.kept, v[0], Scan(v1, dels, olds).value.kept);
        }
      }
    }
  }

  lemma ReplicaRises(r: Version, v: Version)
    requires Replica(r, v) && v != [] && Rising(v, IdOf)
    ensures r != [] && Rising(r, IdOf) && MaxId(r) == MaxId(v)
  {
    assert |r| == |Erase(r)| == |v|;
    assert forall i :: 0 <= i < |v| ==> IdOf(r[i]) == Erase(r)[i].id == IdOf(v[i]);
  }

  // The same packet makes replicas out of replicas.
  lemma ReplicaJoins(r: Version, v: Version, p: Packet, raddrs: seq<nat>, vaddrs: seq<nat>)
    requires Replica(r, v) && v != [] && Rising(v, IdOf) && |raddrs| == |vaddrs| == |p.news|
    ensures r != [] && Joined(r, p, raddrs).Some? == Joined(v, p, vaddrs).Some?
    ensures Joined(v, p, vaddrs).Some? ==> Replica(Joined(r, p, raddrs).value, Joined(v, p, vaddrs).value)
  {
    ReplicaRises(r, v);
    var olds := Olds(p.writes);
    ReplicaScan(r, v, p.dels, olds);
    assert |r| == |Erase(r)| == |Erase(v)| == |v|;
    if Joined(v, p, vaddrs).Some? {
      var s, t := Scan(v, p.dels, olds).value, Scan(r, p.dels, olds).value;
      hide Scan;
      assert |t.hit| == |Erase(t.hit)| == |Erase(s.hit)| == |s.hit|;
      ReplicaPieces(r, v, p, raddrs, vaddrs, t.hit, s.hit);
      var ws, wt, cs, ct := Written(v, p, s.hit), Written(r, p, t.hit), Created(v, p, vaddrs), Created(r, p, raddrs);
      EraseConcat(s.kept, ws);
      EraseConcat(t.kept, wt);
      EraseConcat(s.kept + ws, cs);
      EraseConcat(t.kept + wt, ct);
    }
  }

  lemma ReplicaPieces(r: Version, v: Version, p: Packet, raddrs: seq<nat>, vaddrs: seq<nat>, rhit: Version, vhit: Version)
    requires r != [] && v != [] && MaxId(r) == MaxId(v) && |raddrs| == |vaddrs| == |p.news|
    requires |rhit| == |vhit| == |p.writes| && Replica(rhit, vhit)
    ensures Replica(Written(r, p, rhit), Written(v, p, vhit))
    ensures Replica(Created(r, p, raddrs), Created(v, p, vaddrs))
  {
    assert forall k :: 0 <= k < |rhit| ==> Erase(rhit)[k] == rhit[k].shade && Erase(vhit)[k] == vhit[k].shade;
    assert Erase(Written(r, p, rhit)) == Erase(Written(v, p, vhit));
  }

  lemma SortedErase(r: Version)
    requires ByRisingId(r)
    ensures forall i, j :: 0 <= i < j < |Erase(r)| ==> ShadeId(Erase(r)[i]) <= ShadeId(Erase(r)[j])
  {
    assert forall i :: 0 <= i < |r| ==> ShadeId(Erase(r)[i]) == IdOf(r[i]);
  }

  lemma RisingErase(v: Version)
    requires Rising(v, IdOf)
    ensures Rising(Erase(v), ShadeId)
  {
    assert forall i :: 0 <= i < |v| ==> ShadeId(Erase(v)[i]) == IdOf(v[i]);
  }

  // The catch-up: a replica of the earlier version, whatever its own addresses,
  // accepts the one delta and becomes a replica of the later version.
  lemma DeltaCatchesUp(v0: Version, v: Version, r0: Version, addrs: seq<nat>, r: Option<Version>)
    requires Descends(v0, v) && Changed(v0, v) != [] && Replica(r0, v0)
    requires |addrs| == |Delta(v0, v).news| && r0 != [] && Merges(r0, Delta(v0, v), addrs, r)
    ensures r.Some? && Replica(r.value, v)
  {
    var d := Delta(v0, v);
    DeltaJoins(v0, v, addrs);
    ReplicaJoins(r0, v0, d, addrs, addrs);
    var j := Joined(r0, d, addrs).value;
    MapPermuted(r.value, j, ShadeOf);
    SortedErase(r.value);
    RisingErase(v);
    SortedPermutation(Erase(r.value), Erase(v), ShadeId);
  }

  // Replaying every commit of the chain on the replica leads to the same place.
  ghost predicate Replayed(r: Version, cs: seq<Commit>, last: Version, raddrs: seq<seq<nat>>)
    decreases cs
  {
    && |raddrs| == |cs|
    && if cs == [] then r == last
       else
         && r != [] && |raddrs[0]| == |cs[0].packet.news|
         && Joined(r, cs[0].packet, raddrs[0]).Some?
         && Replayed(Joined(r, cs[0].packet, raddrs[0]).value, cs[1..], last, raddrs[1..])
  }

  lemma {:induction false} ReplayCatchesUp(vs: seq<Version>, cs: seq<Commit>, k: nat, r: Version, last: Version,
                                           raddrs: seq<seq<nat>>)
    requires Chain(vs, cs) && k <= |cs| && Replica(r, vs[k]) && Replayed(r, cs[k..], last, raddrs)
    ensures Replica(last, vs[|cs|])
    decreases |cs| - k
  {
    if k < |cs| {
      ChainDescends(vs, cs, k);
      var c := cs[k];
      assert cs[k..] != [] && cs[k..][0] == c && cs[k..][1..] == cs[k + 1..];
      assert Commits(vs[k], c, vs[k + 1]) && |raddrs[0]| == |c.packet.news|;
      ReplicaJoins(r, vs[k], c.packet, raddrs[0], c.addrs);
      ReplayCatchesUp(vs, cs, k + 1, Joined(r, c.packet, raddrs[0]).value, last, raddrs[1..]);
    }
  }

  // One delta does what replaying the whole chain does.
  lemma DeltaIsReplay(vs: seq<Version>, cs: seq<Commit>, r0: Version, addrs: seq<nat>, r: Option<Version>,
                      last: Version, raddrs: seq<seq<nat>>)
    requires Chain(vs, cs) && Replica(r0, vs[0]) && r0 != [] && Changed(vs[0], vs[|cs|]) != []
    requires |addrs| == |Delta(vs[0], vs[|cs|]).news| && Merges(r0, Delta(vs[0], vs[|cs|]), addrs, r)
    requires Replayed(r0, cs, last, raddrs)
    ensures r.Some? && Replica(r.value, last)
  {
    ChainDescends(vs, cs, |cs|);
    DeltaCatchesUp(vs[0], vs[|cs|], r0, addrs, r);
    assert cs[0..] == cs;
    ReplayCatchesUp(vs, cs, 0, r0, last, raddrs);
  }
}
