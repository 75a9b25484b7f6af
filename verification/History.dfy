/**
  Commit chains: what a later version still shares with an earlier one, and why
  block ids are never reused.
 */
module History {
  import opened Options
  import opened Seqs
  import opened Versions

  // One commit on one host: its packet, and where the new blocks were allocated.
  datatype Commit = Commit(packet: Packet, addrs: seq<nat>)

  // A block a live version holds keeps its memory, so the allocator cannot hand
  // its address out again.
  ghost predicate FreshFor(addrs: seq<nat>, v: Version) {
    && (forall i, j :: 0 <= i < j < |addrs| ==> addrs[i] != addrs[j])
    && (forall i :: 0 <= i < |addrs| ==> addrs[i] !in Addrs(v))
  }

  ghost predicate Commits(v: Version, c: Commit, r: Version) {
    && v != [] && |c.addrs| == |c.packet.news| && !c.packet.hasNewId
    && Joined(v, c.packet, c.addrs) == Some(r)
  }

  // `v` lies later than `v0` on a chain along which `v0` stayed alive.
  ghost predicate Descends(v0: Version, v: Version) {
    && Wf(v0) && Wf(v) && MaxId(v0) <= MaxId(v)
    && (forall b :: b in v && IdOf(b) <= MaxId(v0) ==> b in v0)
    && (forall b, c :: b in v && c in v0 && b.vaddr == c.vaddr ==>
                         b.shade.typ == c.shade.typ && b.shade.num == c.shade.num)
  }

  lemma IdsTell(v: Version, b: Block, c: Block)
    requires Rising(v, IdOf) && b in v && c in v && IdOf(b) == IdOf(c)
    ensures b == c
  {
    var i :| 0 <= i < |v| && v[i] == b;
    var j :| 0 <= j < |v| && v[j] == c;
  }

  // Where each block of a merged version comes from.
  ghost predicate From(b: Block, v: Version, p: Packet, hit: Version, addrs: seq<nat>)
    requires v != [] && |hit| == |p.writes| && |addrs| == |p.news|
  {
    || (b in v && Spared(b, p.dels, Olds(p.writes)))
    || (exists k :: 0 <= k < |hit| && b == Written(v, p, hit)[k])
    || (exists i :: 0 <= i < |addrs| && b == Created(v, p, addrs)[i])
  }

  lemma JoinedFrom(v: Version, p: Packet, addrs: seq<nat>) returns (hit: Version)
    requires Wf(v) && |addrs| == |p.news| && Joined(v, p, addrs).Some?
    ensures |hit| == |p.writes| && HitOk(v, Olds(p.writes), hit) && Climbing(Olds(p.writes))
    ensures forall b :: b in Joined(v, p, addrs).value ==> From(b, v, p, hit, addrs)
  {
    var olds := Olds(p.writes);
    ScanFits(v, p.dels, olds);
    ScanSplits(v, p.dels, olds);
    var s := Scan(v, p.dels, olds).value;
    hit := s.hit;
    var w, c := Written(v, p, hit), Created(v, p, addrs);
    assert Joined(v, p, addrs).value == s.kept + w + c;
    hide Joined, Scan, Fits, Spared;
    forall b | b in s.kept + w + c ensures From(b, v, p, hit, addrs) {
      if b in s.kept {
      } else if b in w {
        var k :| 0 <= k < |w| && w[k] == b;
      } else {
        var i :| 0 <= i < |c| && c[i] == b;
      }
    }
  }

  lemma {:induction false} ClimbingApart(s: seq<nat>, i: nat, j: nat)
    requires Climbing(s) && i < j < |s|
    ensures s[i] < s[j]
  {
    assert s[1..][j - 1] in s[1..];
    if i > 0 {
      ClimbingApart(s[1..], i - 1, j - 1);
    }
  }

  // Each block of the merged version sits at the address of the block it comes
  // from, or at a fresh one; its id is old only if it was not touched.
  lemma FromFacts(b: Block, v: Version, p: Packet, hit: Version, addrs: seq<nat>)
    requires Wf(v) && |hit| == |p.writes| && |addrs| == |p.news| && !p.hasNewId
    requires HitOk(v, Olds(p.writes), hit) && From(b, v, p, hit, addrs)
    ensures IdOf(b) <= MaxId(v) ==> b in v
    ensures b.vaddr in Addrs(v) || b.vaddr in addrs
    ensures b.vaddr in addrs || exists h :: h in v && h.vaddr == b.vaddr
                                            && h.shade.typ == b.shade.typ && h.shade.num == b.shade.num
  {
    if b in v {
    } else if k :| 0 <= k < |hit| && b == Written(v, p, hit)[k] {
      assert hit[k] in v && hit[k].vaddr == b.vaddr;
    } else {
      var i :| 0 <= i < |addrs| && b == Created(v, p, addrs)[i];
      assert b.vaddr == addrs[i];
    }
  }

  ghost predicate IsKept(b: Block, v: Version, p: Packet) {
    b in v && Spared(b, p.dels, Olds(p.writes))
  }

  lemma SameAddrSameBlock(b: Block, c: Block, v: Version, p: Packet, hit: Version, addrs: seq<nat>)
    requires Wf(v) && |hit| == |p.writes| && |addrs| == |p.news| && FreshFor(addrs, v)
    requires HitOk(v, Olds(p.writes), hit) && Climbing(Olds(p.writes))
    requires From(b, v, p, hit, addrs) && From(c, v, p, hit, addrs) && b.vaddr == c.vaddr
    ensures b == c
  {
    var olds := Olds(p.writes);
    if IsKept(b, v, p) && IsKept(c, v, p) {
    } else if !IsKept(b, v, p) && !IsKept(c, v, p) {
      NotKept(b, c, v, p, hit, addrs);
    } else if IsKept(b, v, p) {
      OneKept(b, c, v, p, hit, addrs);
    } else {
      OneKept(c, b, v, p, hit, addrs);
    }
  }

  lemma NotKept(b: Block, c: Block, v: Version, p: Packet, hit: Version, addrs: seq<nat>)
    requires Wf(v) && |hit| == |p.writes| && |addrs| == |p.news| && FreshFor(addrs, v)
    requires HitOk(v, Olds(p.writes), hit) && Climbing(Olds(p.writes))
    requires From(b, v, p, hit, addrs) && !IsKept(b, v, p)
    requires From(c, v, p, hit, addrs) && !IsKept(c, v, p) && b.vaddr == c.vaddr
    ensures b == c
  {
    var w, n := Written(v, p, hit), Created(v, p, addrs);
    assert forall k :: 0 <= k < |hit| ==> w[k].vaddr == hit[k].vaddr && hit[k].vaddr in Addrs(v);
    assert forall i :: 0 <= i < |addrs| ==> n[i].vaddr == addrs[i] && addrs[i] !in Addrs(v);
    if b.vaddr in Addrs(v) {
      var k :| 0 <= k < |hit| && b == w[k];
      var l :| 0 <= l < |hit| && c == w[l];
      HitApart(v, Olds(p.writes), hit, k, l);
    } else {
      var i :| 0 <= i < |addrs| && b == n[i];
      var j :| 0 <= j < |addrs| && c == n[j];
    }
  }

  lemma HitApart(v: Version, olds: seq<nat>, hit: Version, k: nat, l: nat)
    requires Wf(v) && HitOk(v, olds, hit) && Climbing(olds) && k < |hit| && l < |hit| && hit[k].vaddr == hit[l].vaddr
    ensures k == l
  {
    assert hit[l] == hit[k] && olds[l] == olds[k];
    if k < l {
      ClimbingApart(olds, k, l);
    } else if l < k {
      ClimbingApart(olds, l, k);
    }
  }

  lemma OneKept(b: Block, c: Block, v: Version, p: Packet, hit: Version, addrs: seq<nat>)
    requires Wf(v) && |hit| == |p.writes| && |addrs| == |p.news| && FreshFor(addrs, v)
    requires HitOk(v, Olds(p.writes), hit)
    requires IsKept(b, v, p) && From(c, v, p, hit, addrs) && !IsKept(c, v, p)
    ensures b.vaddr != c.vaddr
  {
    assert b.vaddr in Addrs(v);
    if l :| 0 <= l < |hit| && c == Written(v, p, hit)[l] {
      assert hit[l] in v && IdOf(hit[l]) in Elems(Olds(p.writes));
      assert b != hit[l];
    }
  }

  // A commit on a live chain: the new version descends from `v0` as the old did.
  lemma CommitDescends(v0: Version, v: Version, c: Commit, r: Version)
    requires Descends(v0, v) && Commits(v, c, r) && FreshFor(c.addrs, v0) && FreshFor(c.addrs, v)
    ensures Descends(v0, r) && MaxId(v) < MaxId(r)
  {
    var hit := JoinedFrom(v, c.packet, c.addrs);
    CommitRises(v, c.packet, c.addrs);
    JoinedAccepts(v, c.packet, c.addrs);
    assert MaxId(v) < MaxId(r);
    hide Joined;
    forall b, d | b in r && d in r && b.vaddr == d.vaddr ensures b == d {
      SameAddrSameBlock(b, d, v, c.packet, hit, c.addrs);
    }
    forall b | b in r && IdOf(b) <= MaxId(v0) ensures b in v0 {
      FromFacts(b, v, c.packet, hit, c.addrs);
    }
    forall b, d | b in r && d in v0 && b.vaddr == d.vaddr
      ensures b.shade.typ == d.shade.typ && b.shade.num == d.shade.num
    {
      FromFacts(b, v, c.packet, hit, c.addrs);
      assert d.vaddr in Addrs(v0);
      var h :| h in v && h.vaddr == b.vaddr && h.shade.typ == b.shade.typ && h.shade.num == b.shade.num;
    }
  }

  // A chain of commits, along which its first version stays alive.
  ghost predicate Chain(vs: seq<Version>, cs: seq<Commit>) {
    && |vs| == |cs| + 1 && Wf(vs[0])
    && forall k :: 0 <= k < |cs| ==>
                     Commits(vs[k], cs[k], vs[k + 1]) && FreshFor(cs[k].addrs, vs[0]) && FreshFor(cs[k].addrs, vs[k])
  }

  lemma {:induction false} ChainDescends(vs: seq<Version>, cs: seq<Commit>, n: nat)
    requires Chain(vs, cs) && n < |vs|
    ensures Descends(vs[0], vs[n])
    ensures n > 0 ==> MaxId(vs[0]) < MaxId(vs[n])
    decreases n
  {
    if n == 0 {
      MaxIsMax(vs[0]);
      assert forall b, c :: b in vs[0] && c in vs[0] && b.vaddr == c.vaddr ==> b == c;
    } else {
      ChainDescends(vs, cs, n - 1);
      CommitDescends(vs[0], vs[n - 1], cs[n - 1], vs[n]);
    }
  }

  // ---------- Ids along any run of commits ----------

  // Commits one after the other; nothing is asked of where the blocks are.
  ghost predicate CommitRun(vs: seq<Version>, cs: seq<Commit>) {
    && |vs| == |cs| + 1 && vs[0] != [] && Rising(vs[0], IdOf)
    && forall k :: 0 <= k < |cs| ==> Commits(vs[k], cs[k], vs[k + 1])
  }

  // What a later version may hold under the ids of an earlier one: its own blocks, and no others.
  ghost predicate Follows(u: Version, v: Version) {
    && u != [] && v != [] && Rising(u, IdOf) && Rising(v, IdOf) && MaxId(u) <= MaxId(v)
    && forall b :: b in v && IdOf(b) <= MaxId(u) ==> b in u
  }

  lemma CommitFollows(v: Version, c: Commit, r: Version)
    requires v != [] && Rising(v, IdOf) && Commits(v, c, r)
    ensures Follows(v, r) && MaxId(v) < MaxId(r)
  {
    CommitRises(v, c.packet, c.addrs);
    JoinedAccepts(v, c.packet, c.addrs);
    var kept, hit, made := CommitLayout(v, c.packet, c.addrs);
    var w := Written(v, c.packet, hit);
    hide Joined, Written, Spared, Rising;
    forall b | b in r && IdOf(b) <= MaxId(v) ensures b in v {
      assert b in kept || b in w || b in made;
    }
  }

  lemma {:induction false} RunFollows(vs: seq<Version>, cs: seq<Commit>, i: nat, j: nat)
    requires CommitRun(vs, cs) && i <= j < |vs|
    ensures Follows(vs[i], vs[j])
    ensures i < j ==> MaxId(vs[i]) < MaxId(vs[j])
    decreases j
  {
    if j == 0 {
      MaxIsMax(vs[0]);
    } else if i < j {
      RunFollows(vs, cs, i, j - 1);
      CommitFollows(vs[j - 1], cs[j - 1], vs[j]);
    } else {
      RunFollows(vs, cs, j - 1, j - 1);
      CommitFollows(vs[j - 1], cs[j - 1], vs[j]);
      MaxIsMax(vs[j]);
    }
  }

  /** Along any run of commits an id names one block, and an id that is gone, or was passed over, stays so. */
  lemma IdsAreNeverReused(vs: seq<Version>, cs: seq<Commit>, i: nat, j: nat)
    requires CommitRun(vs, cs) && i <= j < |vs|
    ensures forall b, c :: b in vs[i] && c in vs[j] && IdOf(b) == IdOf(c) ==> b == c
    ensures vs[i] != [] && forall x :: x <= MaxId(vs[i]) && x !in Ids(vs[i]) ==> x !in Ids(vs[j])
  {
    RunFollows(vs, cs, i, j);
    MaxIsMax(vs[i]);
    forall b, c | b in vs[i] && c in vs[j] && IdOf(b) == IdOf(c) ensures b == c { IdsTell(vs[i], c, b); }
  }

  // An id that shows up in two versions of a chain names the same block.
  lemma SameIdSameBlock(v0: Version, v: Version, b: Block, c: Block)
    requires Descends(v0, v) && b in v && c in v0 && IdOf(b) == IdOf(c)
    ensures b == c
  {
    MaxIsMax(v0);
    IdsTell(v0, b, c);
  }
}
