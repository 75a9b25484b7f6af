/**
  From an environment to a commit: the del, write and new lists that pac1_func and
  pac2_func gather from the overlay, and why the version merged from them shows what
  the program saw.
 */
module CommitLists {

  import opened Options
  import opened Seqs
  import opened Versions
  import opened History
  import opened Lists
  import PairArrays
  import O = Overlay

  // A block of the environment's version and the version block it stands for.
  ghost predicate Same(s: O.State, b: O.Block, c: Block) {
    && b.addr == c.vaddr && b.id == IdOf(c) && b.buf in s.bufs && s.bufs[b.buf] == c.shade.data
    && KindOf(c.shade) == b.kind
  }

  function KindOf(x: Shade): O.Kind { O.Kind(x.typ, x.num) }

  // The environment works on `v`.
  ghost predicate Mirrors(s: O.State, v: Version) {
    && (forall c :: c in v ==> exists b :: b in s.base && Same(s, b, c))
    && (forall b :: b in s.base ==> exists c :: c in v && Same(s, b, c))
  }

  predicate IsDel(o: O.Block) { o.id != 0 && o.gone }
  predicate IsWrite(o: O.Block) { o.id != 0 && !o.gone }
  predicate IsNew(o: O.Block) { o.id == 0 }

  ghost predicate Carries(s: O.State, o: O.Block, data: seq<int>) { o.buf in s.bufs && s.bufs[o.buf] == data }

  ghost predicate WriteFor(s: O.State, w: Write, a: nat) {
    a in s.overlay && IsWrite(s.overlay[a]) && s.overlay[a].id == w.prev && Carries(s, s.overlay[a], w.data)
  }

  ghost predicate DelsReport(s: O.State, dels: seq<nat>) {
    forall x :: x in dels <==> exists a :: a in s.overlay && IsDel(s.overlay[a]) && s.overlay[a].id == x
  }

  ghost predicate WritesReport(s: O.State, writes: seq<Write>) {
    && (forall w :: w in writes ==> exists a :: WriteFor(s, w, a))
    && (forall a :: a in s.overlay && IsWrite(s.overlay[a]) ==> exists w :: w in writes && WriteFor(s, w, a))
  }

  ghost predicate NewFor(s: O.State, n: Shade, a: nat) {
    a in s.overlay && IsNew(s.overlay[a]) && Carries(s, s.overlay[a], n.data) && KindOf(n) == s.overlay[a].kind
  }

  // `origin` is where the environment has the new blocks.
  ghost predicate NewsReport(s: O.State, news: seq<Shade>, origin: seq<nat>) {
    && |origin| == |news| && NoDup(origin)
    && (forall i :: 0 <= i < |news| ==> NewFor(s, news[i], origin[i]))
    && (forall a :: a in s.overlay && IsNew(s.overlay[a]) ==> a in origin)
  }

  // The lists name every overlay block, by rising id, with its bytes.
  ghost predicate Reports(s: O.State, p: Packet, origin: seq<nat>) {
    && !p.hasNewId && Climbing(p.dels) && Climbing(Olds(p.writes))
    && DelsReport(s, p.dels) && WritesReport(s, p.writes) && NewsReport(s, p.news, origin)
  }

  // ---------- Overlay blocks and version blocks ----------

  // A version block with the id of an overlay block is the one at its address.
  lemma OldBlock(s: O.State, v: Version, a: nat) returns (c: Block)
    requires O.Inv(s) && Wf(v) && Mirrors(s, v) && a in s.overlay && s.overlay[a].id != 0
    ensures c in v && c.vaddr == a && IdOf(c) == s.overlay[a].id && KindOf(c.shade) == s.overlay[a].kind
    ensures forall d :: d in v && IdOf(d) == IdOf(c) ==> d == c
  {
    hide O.Inv, Wf;
    var b := O.BlockUnder(s, a);
    c :| c in v && Same(s, b, c);
    hide Mirrors;
    forall d | d in v && IdOf(d) == IdOf(c) ensures d == c { OneId(v, d, c); }
  }

  lemma OneId(v: Version, d: Block, c: Block)
    requires Wf(v) && d in v && c in v && IdOf(d) == IdOf(c)
    ensures d == c
  {
    IdsTell(v, d, c);
  }

  // Two overlay blocks with one id are one block.
  lemma IdsApart(s: O.State, v: Version, a: nat, e: nat)
    requires O.Inv(s) && Wf(v) && Mirrors(s, v) && a in s.overlay && e in s.overlay
    requires s.overlay[a].id == s.overlay[e].id != 0
    ensures a == e
  {
    var c := OldBlock(s, v, a);
    var d := OldBlock(s, v, e);
  }

  lemma OldsHave(p: Packet, x: nat)
    ensures x in Olds(p.writes) <==> exists w :: w in p.writes && w.prev == x
  {
    if x in Olds(p.writes) {
      var k :| 0 <= k < |p.writes| && Olds(p.writes)[k] == x;
      assert p.writes[k] in p.writes;
    }
    if w :| w in p.writes && w.prev == x {
      var k :| 0 <= k < |p.writes| && p.writes[k] == w;
      assert Olds(p.writes)[k] == x;
    }
  }

  lemma DelFits(s: O.State, v: Version, p: Packet, x: nat)
    requires O.Inv(s) && Wf(v) && Mirrors(s, v) && DelsReport(s, p.dels) && WritesReport(s, p.writes) && x in p.dels
    ensures x in Ids(v) && x !in Olds(p.writes)
  {
    hide O.Inv, Wf, Mirrors;
    var a :| a in s.overlay && IsDel(s.overlay[a]) && s.overlay[a].id == x;
    var c := OldBlock(s, v, a);
    OldsHave(p, x);
    forall w | w in p.writes && w.prev == x ensures false {
      var e :| WriteFor(s, w, e);
      IdsApart(s, v, a, e);
    }
  }

  lemma WriteFits(s: O.State, v: Version, p: Packet, x: nat)
    requires O.Inv(s) && Wf(v) && Mirrors(s, v) && WritesReport(s, p.writes) && x in Olds(p.writes)
    ensures x in Ids(v)
  {
    hide O.Inv, Wf, Mirrors;
    OldsHave(p, x);
    var w :| w in p.writes && w.prev == x;
    var a :| WriteFor(s, w, a);
    var c := OldBlock(s, v, a);
  }

  // Every list names blocks of the version and no block is named twice.
  lemma ListsFit(s: O.State, v: Version, p: Packet, origin: seq<nat>)
    requires O.Inv(s) && Wf(v) && Mirrors(s, v) && Reports(s, p, origin)
    ensures Fits(v, p.dels, Olds(p.writes))
  {
    hide O.Inv, Wf, Mirrors, DelsReport, WritesReport, NewsReport, Climbing, Ids, Olds;
    forall x | x in p.dels ensures x in Ids(v) && x !in Olds(p.writes) { DelFits(s, v, p, x); }
    forall x | x in Olds(p.writes) ensures x in Ids(v) { WriteFits(s, v, p, x); }
  }

  // ---------- What the merged version shows ----------

  ghost predicate Untouched(s: O.State, c: Block) {
    exists b :: b in s.base && b.addr !in s.overlay && Same(s, b, c)
  }

  ghost predicate Updated(s: O.State, v: Version, c: Block)
    requires v != []
  {
    && c.vaddr in s.overlay && IsWrite(s.overlay[c.vaddr]) && Carries(s, s.overlay[c.vaddr], c.shade.data)
    && KindOf(c.shade) == s.overlay[c.vaddr].kind && MaxId(v) < IdOf(c)
  }

  ghost predicate NewAt(s: O.State, addr: nat, a: nat, c: Block) { c.vaddr == addr && NewFor(s, c.shade, a) }

  lemma TouchedId(s: O.State, v: Version, c: Block)
    requires O.Inv(s) && Mirrors(s, v) && c in v && c.vaddr in s.overlay
    ensures s.overlay[c.vaddr].id == IdOf(c) && IdOf(c) != 0
  {
    var b :| b in s.base && Same(s, b, c);
    hide Mirrors;
    O.SameRange(s, b);
    assert b.id > 0;
  }

  lemma TouchedIsNamed(s: O.State, v: Version, p: Packet, c: Block)
    requires O.Inv(s) && Mirrors(s, v) && DelsReport(s, p.dels) && WritesReport(s, p.writes)
    requires c in v && c.vaddr in s.overlay
    ensures IdOf(c) in p.dels || IdOf(c) in Olds(p.writes)
  {
    hide O.Inv, Mirrors;
    TouchedId(s, v, c);
    OldsHave(p, IdOf(c));
    hide Olds;
    if IsWrite(s.overlay[c.vaddr]) {
      var w :| w in p.writes && WriteFor(s, w, c.vaddr);
    }
  }

  lemma NamedIsTouched(s: O.State, v: Version, p: Packet, c: Block)
    requires O.Inv(s) && Wf(v) && Mirrors(s, v) && DelsReport(s, p.dels) && WritesReport(s, p.writes)
    requires c in v && (IdOf(c) in p.dels || IdOf(c) in Olds(p.writes))
    ensures c.vaddr in s.overlay
  {
    hide O.Inv, Mirrors, Wf;
    OldsHave(p, IdOf(c));
    hide Olds;
    if IdOf(c) in p.dels {
      var a :| a in s.overlay && IsDel(s.overlay[a]) && s.overlay[a].id == IdOf(c);
      var d := OldBlock(s, v, a);
    } else {
      var w :| w in p.writes && w.prev == IdOf(c);
      var a :| WriteFor(s, w, a);
      var d := OldBlock(s, v, a);
    }
  }

  ghost predicate Relocated(s: O.State, addrs: seq<nat>, origin: seq<nat>, c: Block)
    requires |addrs| == |origin|
  {
    exists i :: 0 <= i < |addrs| && NewAt(s, addrs[i], origin[i], c)
  }

  // An untouched block of the environment is one no list names.
  lemma SparedIs(s: O.State, v: Version, p: Packet, c: Block)
    requires O.Inv(s) && Wf(v) && Mirrors(s, v) && DelsReport(s, p.dels) && WritesReport(s, p.writes) && c in v
    ensures Spared(c, p.dels, Olds(p.writes)) <==> c.vaddr !in s.overlay
  {
    hide O.Inv, Wf, Mirrors, DelsReport, WritesReport, Olds;
    if c.vaddr in s.overlay {
      TouchedIsNamed(s, v, p, c);
    } else if !Spared(c, p.dels, Olds(p.writes)) {
      NamedIsTouched(s, v, p, c);
    }
  }

  lemma WrittenIs(s: O.State, v: Version, p: Packet, hit: Version, k: nat, a: nat)
    requires O.Inv(s) && Wf(v) && Mirrors(s, v) && !p.hasNewId && |hit| == |p.writes|
    requires k < |p.writes| && WriteFor(s, p.writes[k], a) && hit[k] in v && IdOf(hit[k]) == p.writes[k].prev
    ensures Written(v, p, hit)[k].vaddr == a && Updated(s, v, Written(v, p, hit)[k])
  {
    hide O.Inv, Mirrors, Wf, Rising;
    var c := OldBlock(s, v, a);
  }

  // Every block of the merged version is one the program saw.
  ghost predicate NothingElse(s: O.State, v: Version, addrs: seq<nat>, origin: seq<nat>, r: Version)
    requires v != [] && |addrs| == |origin|
  {
    forall c :: c in r ==>
                  Untouched(s, c) || Updated(s, v, c) || Relocated(s, addrs, origin, c)
  }

  ghost predicate HasSame(s: O.State, r: Version, b: O.Block) { exists c :: c in r && Same(s, b, c) }
  ghost predicate HasUpdate(s: O.State, v: Version, r: Version, a: nat)
    requires v != []
  {
    exists c :: c in r && c.vaddr == a && Updated(s, v, c)
  }
  ghost predicate HasNew(s: O.State, r: Version, addr: nat, a: nat) { exists c :: c in r && NewAt(s, addr, a, c) }

  // Every block the program saw is in the merged version.
  ghost predicate NothingLost(s: O.State, v: Version, addrs: seq<nat>, origin: seq<nat>, r: Version)
    requires v != [] && |addrs| == |origin|
  {
    && (forall b :: b in s.base && b.addr !in s.overlay ==> HasSame(s, r, b))
    && (forall a :: a in s.overlay && IsWrite(s.overlay[a]) ==> HasUpdate(s, v, r, a))
    && (forall i :: 0 <= i < |addrs| ==> HasNew(s, r, addrs[i], origin[i]))
  }

  lemma HasMore(s: O.State, v: Version, part: Version, r: Version)
    requires v != [] && forall c :: c in part ==> c in r
    ensures forall b :: HasSame(s, part, b) ==> HasSame(s, r, b)
    ensures forall a :: HasUpdate(s, v, part, a) ==> HasUpdate(s, v, r, a)
    ensures forall x, a :: HasNew(s, part, x, a) ==> HasNew(s, r, x, a)
  {
    hide Same, Updated, NewAt;
  }

  ghost predicate Ready(s: O.State, v: Version, p: Packet, addrs: seq<nat>, origin: seq<nat>) {
    O.Inv(s) && Wf(v) && Mirrors(s, v) && Reports(s, p, origin) && p.writes != [] && |addrs| == |p.news|
  }

  // The three parts the merge puts together.
  lemma Accepted(s: O.State, v: Version, p: Packet, addrs: seq<nat>, origin: seq<nat>) returns (kept: Version, hit: Version)
    requires Ready(s, v, p, addrs, origin)
    ensures |hit| == |p.writes| && v != [] && Rising(v, IdOf)
    ensures Joined(v, p, addrs) == Some(kept + Written(v, p, hit) + Created(v, p, addrs))
    ensures KeptOk(v, p.dels, Olds(p.writes), kept) && HitOk(v, Olds(p.writes), hit)
  {
    hide O.Inv, Mirrors, DelsReport, WritesReport, NewsReport, Climbing;
    ListsFit(s, v, p, origin);
    JoinedAccepts(v, p, addrs);
    ScanFits(v, p.dels, Olds(p.writes));
    ScanSplits(v, p.dels, Olds(p.writes));
    var sp := Scan(v, p.dels, Olds(p.writes)).value;
    kept, hit := sp.kept, sp.hit;
    hide KeptOk, HitOk, Scan, Fits, Rising;
  }

  lemma KeptIs(s: O.State, v: Version, p: Packet, origin: seq<nat>, kept: Version)
    requires O.Inv(s) && Wf(v) && Mirrors(s, v) && Reports(s, p, origin) && KeptOk(v, p.dels, Olds(p.writes), kept)
    ensures forall c :: c in kept ==> Untouched(s, c)
    ensures forall b :: b in s.base && b.addr !in s.overlay ==> HasSame(s, kept, b)
  {
    hide O.Inv, Wf, DelsReport, WritesReport, NewsReport, Climbing, Olds, Rising, Spared;
    forall c | c in kept ensures Untouched(s, c) {
      SparedIs(s, v, p, c);
      var b :| b in s.base && Same(s, b, c);
    }
    forall b | b in s.base && b.addr !in s.overlay ensures HasSame(s, kept, b) {
      var c :| c in v && Same(s, b, c);
      SparedIs(s, v, p, c);
    }
  }

  lemma WriteIs(s: O.State, v: Version, p: Packet, hit: Version, k: nat)
    requires O.Inv(s) && Wf(v) && Mirrors(s, v) && WritesReport(s, p.writes) && HitOk(v, Olds(p.writes), hit)
    requires |hit| == |p.writes| && !p.hasNewId && k < |hit|
    ensures Updated(s, v, Written(v, p, hit)[k])
    ensures forall a :: WriteFor(s, p.writes[k], a) ==> Written(v, p, hit)[k].vaddr == a
  {
    hide O.Inv, Mirrors, Wf, Updated, Written;
    assert p.writes[k] in p.writes;
    var a :| WriteFor(s, p.writes[k], a);
    WrittenIs(s, v, p, hit, k, a);
    forall e | WriteFor(s, p.writes[k], e) ensures Written(v, p, hit)[k].vaddr == e {
      WrittenIs(s, v, p, hit, k, e);
    }
  }

  lemma WritesAre(s: O.State, v: Version, p: Packet, hit: Version)
    requires O.Inv(s) && Wf(v) && Mirrors(s, v) && WritesReport(s, p.writes) && HitOk(v, Olds(p.writes), hit)
    requires |hit| == |p.writes| && !p.hasNewId
    ensures forall c :: c in Written(v, p, hit) ==> Updated(s, v, c)
    ensures forall a :: a in s.overlay && IsWrite(s.overlay[a]) ==> HasUpdate(s, v, Written(v, p, hit), a)
  {
    hide O.Inv, Mirrors, HitOk, Rising, Updated, Rewritten, WriteFor, Olds;
    var ws := Written(v, p, hit);
    forall c | c in ws ensures Updated(s, v, c) {
      var k :| 0 <= k < |ws| && ws[k] == c;
      WriteIs(s, v, p, hit, k);
    }
    forall a | a in s.overlay && IsWrite(s.overlay[a]) ensures HasUpdate(s, v, ws, a) {
      var w :| w in p.writes && WriteFor(s, w, a);
      var k :| 0 <= k < |p.writes| && p.writes[k] == w;
      WriteIs(s, v, p, hit, k);
      assert ws[k] in ws;
    }
  }

  lemma NewIs(s: O.State, v: Version, p: Packet, addrs: seq<nat>, i: nat, a: nat)
    requires v != [] && |addrs| == |p.news| && i < |addrs| && NewFor(s, p.news[i], a)
    ensures NewAt(s, addrs[i], a, Created(v, p, addrs)[i])
  {}

  lemma NewsAre(s: O.State, v: Version, p: Packet, addrs: seq<nat>, origin: seq<nat>)
    requires v != [] && NewsReport(s, p.news, origin) && |addrs| == |p.news|
    ensures forall c :: c in Created(v, p, addrs) ==> Relocated(s, addrs, origin, c)
    ensures forall i :: 0 <= i < |addrs| ==> HasNew(s, Created(v, p, addrs), addrs[i], origin[i])
  {
    var cs := Created(v, p, addrs);
    forall c | c in cs ensures Relocated(s, addrs, origin, c) {
      var i :| 0 <= i < |cs| && cs[i] == c;
      assert NewAt(s, addrs[i], origin[i], c) by { NewIs(s, v, p, addrs, i, origin[i]); }
    }
    forall i | 0 <= i < |addrs| ensures HasNew(s, cs, addrs[i], origin[i]) {
      NewIs(s, v, p, addrs, i, origin[i]);
      hide NewAt;
      assert cs[i] in cs;
    }
  }

  /**
    A commit is accepted, and the version merged from it holds exactly what the program
    saw: untouched blocks as they were, written blocks at their old addresses with a
    higher id and the overlay's bytes, new blocks where this host puts them.
   */
  lemma CommitShowsOverlay(s: O.State, v: Version, p: Packet, addrs: seq<nat>, origin: seq<nat>)
    requires Ready(s, v, p, addrs, origin)
    ensures v != [] && |addrs| == |origin|
    ensures Joined(v, p, addrs).Some?
    ensures NothingElse(s, v, addrs, origin, Joined(v, p, addrs).value)
    ensures NothingLost(s, v, addrs, origin, Joined(v, p, addrs).value)
    ensures |Joined(v, p, addrs).value| == |v| + |origin| - |p.dels|
  {
    hide O.Inv, Wf, Mirrors, DelsReport, WritesReport, NewsReport, Climbing, KeptOk, HitOk, Joined, NothingElse, NothingLost;
    var kept, hit := Accepted(s, v, p, addrs, origin);
    assert |addrs| == |origin| by { SameLength(s, p.news, origin); }
    JoinedAccepts(v, p, addrs);
    KeptIs(s, v, p, origin, kept);
    WritesAre(s, v, p, hit);
    NewsAre(s, v, p, addrs, origin);
    Assemble(s, v, addrs, origin, kept, Written(v, p, hit), Created(v, p, addrs));
  }

  // Byte `x` at address `q`, in a block of the version that starts at `a`.
  ghost predicate Shows(r: Version, a: nat, q: nat, x: int) {
    exists c :: c in r && c.vaddr == a <= q < a + |c.shade.data| && c.shade.data[q - a] == x
  }

  /**
    Byte by byte: what the program saw in a block of the version it worked on is at the
    same address of the version it committed; what it saw in a new block is at the same
    offset from the address that block was given.
   */
  lemma CommitShowsMemory(s: O.State, mem: O.Memory, v: Version, p: Packet, addrs: seq<nat>, origin: seq<nat>, q: nat)
    requires Ready(s, v, p, addrs, origin) && O.Refines(s, mem) && q in mem
    ensures v != [] && |addrs| == |origin| && Joined(v, p, addrs).Some?
    ensures var r := Joined(v, p, addrs).value;
            && O.Target(s, q).Some?
            && var t := O.Target(s, q).value;
            if t.id != 0 then Shows(r, t.addr, q, mem[q])
            else exists i :: 0 <= i < |origin| && origin[i] == t.addr <= q && Shows(r, addrs[i], addrs[i] + (q - t.addr), mem[q])
  {
    hide O.Inv, O.Target, O.Refines, Mirrors, DelsReport, WritesReport, NewsReport, Climbing, Joined, NothingElse,
      NothingLost, Wf, Shows;
    CommitShowsOverlay(s, v, p, addrs, origin);
    var r := Joined(v, p, addrs).value;
    var t := SeenIn(s, mem, q);
    if t.id != 0 {
      OldShows(s, v, addrs, origin, r, t, q);
    } else {
      var i := NewShows(s, v, p, addrs, origin, r, t, q);
    }
  }

  // The version holds, at `at`, the block the program has at `a`: its length, type, count and bytes.
  ghost predicate HoldsLot(r: Version, at: nat, f: O.Flat, a: nat)
    requires a in f.blocks
  {
    exists c :: c in r && c.vaddr == at && HasLot(c.shade, f, a)
  }

  ghost predicate HasLot(x: Shade, f: O.Flat, a: nat)
    requires a in f.blocks
  {
    KindOf(x) == f.blocks[a].kind && |x.data| == f.blocks[a].len && InMemory(f.mem, a, x.data)
  }

  // The memory has `data` from address `a` on.
  ghost predicate InMemory(mem: O.Memory, a: nat, data: seq<int>) {
    forall q: nat :: a <= q < a + |data| ==> q in mem && mem[q] == data[q - a]
  }

  /**
    Block by block: each one the program had is in the version it committed with its type
    and count, its length and all its bytes, at its old address, or, if it was made in
    the environment, at the address it was given.
   */
  lemma CommitShowsBlocks(s: O.State, f: O.Flat, v: Version, p: Packet, addrs: seq<nat>, origin: seq<nat>, a: nat)
    requires Ready(s, v, p, addrs, origin) && O.RefinesFlat(s, f) && a in f.blocks
    ensures v != [] && |addrs| == |origin| && Joined(v, p, addrs).Some?
    ensures var r := Joined(v, p, addrs).value;
            if !f.blocks[a].made then HoldsLot(r, a, f, a)
            else exists i :: 0 <= i < |origin| && origin[i] == a && HoldsLot(r, addrs[i], f, a)
  {
    hide O.Inv, O.Target, O.Refines, Mirrors, DelsReport, WritesReport, NewsReport, Climbing, Joined, NothingElse,
      NothingLost, Wf, HoldsLot, HasLot;
    CommitShowsOverlay(s, v, p, addrs, origin);
    var r := Joined(v, p, addrs).value;
    var t := LotIn(s, f, a);
    if t.id != 0 {
      OldLot(s, v, addrs, origin, r, f, t);
    } else {
      var i := NewLot(s, v, p, addrs, origin, r, f, t);
    }
  }

  // Where the program's block at `a` is kept.
  lemma LotIn(s: O.State, f: O.Flat, a: nat) returns (t: O.Block)
    requires O.Inv(s) && O.RefinesFlat(s, f) && a in f.blocks
    ensures t.addr == a && f.blocks[a] == O.LotOf(t) && KeptIn(s, t, a)
    ensures |s.bufs[t.buf]| == t.len && InMemory(f.mem, a, s.bufs[t.buf])
  {
    assert O.TabledAt(s, f.blocks, a);
    t := O.Target(s, a).value;
    O.TargetCases(s, a);
    O.TargetBacked(s, a);
    hide O.Inv, O.Target, O.Refines;
    forall q: nat | a <= q < a + t.len ensures q in f.mem && f.mem[q] == s.bufs[t.buf][q - a] { LotByte(s, f, a, t, q); }
  }

  lemma LotByte(s: O.State, f: O.Flat, a: nat, t: O.Block, q: nat)
    requires O.Inv(s) && O.RefinesFlat(s, f) && O.Target(s, a) == Some(t) && t.addr == a && !t.gone
    requires t.buf in s.bufs && |s.bufs[t.buf]| == t.len && a <= q < a + t.len
    ensures q in f.mem && f.mem[q] == s.bufs[t.buf][q - a]
  {
    O.TargetSpreads(s, a, q);
    assert O.Agrees(s, f.mem, q);
    hide O.Inv, O.Target, O.RefinesFlat;
  }

  lemma OldLot(s: O.State, v: Version, addrs: seq<nat>, origin: seq<nat>, r: Version, f: O.Flat, t: O.Block)
    requires v != [] && |addrs| == |origin| && NothingLost(s, v, addrs, origin, r)
    requires t.addr in f.blocks && f.blocks[t.addr] == O.LotOf(t) && KeptIn(s, t, t.addr) && t.id != 0
    requires |s.bufs[t.buf]| == t.len && InMemory(f.mem, t.addr, s.bufs[t.buf])
    ensures HoldsLot(r, t.addr, f, t.addr)
  {
    hide InMemory;
    if t.addr !in s.overlay {
      assert HasSame(s, r, t);
      var c :| c in r && Same(s, t, c);
      assert HasLot(c.shade, f, t.addr);
    } else {
      assert HasUpdate(s, v, r, t.addr);
      var c :| c in r && c.vaddr == t.addr && Updated(s, v, c);
      assert HasLot(c.shade, f, t.addr);
    }
  }

  lemma NewLot(s: O.State, v: Version, p: Packet, addrs: seq<nat>, origin: seq<nat>, r: Version, f: O.Flat, t: O.Block)
    returns (i: nat)
    requires v != [] && |addrs| == |origin| && NothingLost(s, v, addrs, origin, r) && NewsReport(s, p.news, origin)
    requires t.addr in f.blocks && f.blocks[t.addr] == O.LotOf(t) && KeptIn(s, t, t.addr) && t.id == 0
    requires |s.bufs[t.buf]| == t.len && InMemory(f.mem, t.addr, s.bufs[t.buf])
    ensures i < |origin| && origin[i] == t.addr && HoldsLot(r, addrs[i], f, t.addr)
  {
    hide InMemory;
    assert t.addr in origin;
    i :| 0 <= i < |origin| && origin[i] == t.addr;
    assert HasNew(s, r, addrs[i], origin[i]);
    var c :| c in r && NewAt(s, addrs[i], origin[i], c);
    assert HasLot(c.shade, f, t.addr);
  }

  // Where the program's byte at `q` is kept.
  lemma SeenIn(s: O.State, mem: O.Memory, q: nat) returns (t: O.Block)
    requires O.Inv(s) && O.Refines(s, mem) && q in mem
    ensures O.Target(s, q) == Some(t) && KeptIn(s, t, q) && mem[q] == s.bufs[t.buf][q - t.addr]
  {
    assert O.Agrees(s, mem, q);
    O.TargetCases(s, q);
    O.TargetBacked(s, q);
    t := O.Target(s, q).value;
    hide O.Target, O.Refines, O.OverlayOk, O.OverBase, O.BufsOk;
  }

  ghost predicate KeptIn(s: O.State, t: O.Block, q: nat) {
    && t.addr <= q && t.buf in s.bufs && q - t.addr < |s.bufs[t.buf]| && !t.gone
    && ((t.addr in s.overlay && s.overlay[t.addr] == t) || (t.addr !in s.overlay && t in s.base && t.id != 0))
  }

  lemma OldShows(s: O.State, v: Version, addrs: seq<nat>, origin: seq<nat>, r: Version, t: O.Block, q: nat)
    requires v != [] && |addrs| == |origin| && NothingLost(s, v, addrs, origin, r) && KeptIn(s, t, q) && t.id != 0
    ensures Shows(r, t.addr, q, s.bufs[t.buf][q - t.addr])
  {
    if t.addr !in s.overlay {
      assert HasSame(s, r, t);
      var c :| c in r && Same(s, t, c);
    } else {
      assert HasUpdate(s, v, r, t.addr);
      var c :| c in r && c.vaddr == t.addr && Updated(s, v, c);
    }
  }

  lemma NewShows(s: O.State, v: Version, p: Packet, addrs: seq<nat>, origin: seq<nat>, r: Version, t: O.Block, q: nat)
    returns (i: nat)
    requires v != [] && |addrs| == |origin| && NothingLost(s, v, addrs, origin, r) && NewsReport(s, p.news, origin)
    requires KeptIn(s, t, q) && t.id == 0
    ensures i < |origin| && origin[i] == t.addr && Shows(r, addrs[i], addrs[i] + (q - t.addr), s.bufs[t.buf][q - t.addr])
  {
    assert t.addr in origin;
    i :| 0 <= i < |origin| && origin[i] == t.addr;
    assert HasNew(s, r, addrs[i], origin[i]);
    var c :| c in r && NewAt(s, addrs[i], origin[i], c);
  }

  lemma SameLength(s: O.State, news: seq<Shade>, origin: seq<nat>)
    requires NewsReport(s, news, origin)
    ensures |news| == |origin|
  {}

  lemma Assemble(s: O.State, v: Version, addrs: seq<nat>, origin: seq<nat>, kept: Version, ws: Version, cs: Version)
    requires v != [] && |addrs| == |origin|
    requires forall c :: c in kept ==> Untouched(s, c)
    requires forall b :: b in s.base && b.addr !in s.overlay ==> HasSame(s, kept, b)
    requires forall c :: c in ws ==> Updated(s, v, c)
    requires forall a :: a in s.overlay && IsWrite(s.overlay[a]) ==> HasUpdate(s, v, ws, a)
    requires forall c :: c in cs ==> Relocated(s, addrs, origin, c)
    requires forall i :: 0 <= i < |addrs| ==> HasNew(s, cs, addrs[i], origin[i])
    ensures NothingElse(s, v, addrs, origin, kept + ws + cs) && NothingLost(s, v, addrs, origin, kept + ws + cs)
  {
    var r := kept + ws + cs;
    assert forall c :: c in r <==> c in kept || c in ws || c in cs;
    HasMore(s, v, kept, r);
    HasMore(s, v, ws, r);
    HasMore(s, v, cs, r);
    hide Untouched, Updated, HasSame, HasUpdate, HasNew, NewAt, IsWrite;
  }

  // ---------- The gathering ----------

  function AddrIn(o: O.Block): nat { o.addr }
  function ById(o: O.Block): PairArrays.Pair<O.Block> { PairArrays.Pair(o.id, o) }
  function InPair(q: PairArrays.Pair<O.Block>): O.Block { q.val }

  // The blocks of the overlay as a traversal of its tree meets them.
  ghost predicate InOrder(m: map<nat, O.Block>, tree: seq<O.Block>) {
    && Rising(tree, AddrIn)
    && (forall o :: o in tree ==> o.addr in m && m[o.addr] == o)
    && (forall a :: a in m ==> m[a].addr == a && m[a] in tree)
  }

  // qsort_addr_pair on the pairs of ids and blocks.
  method SortBlocks(os: seq<O.Block>) returns (r: seq<O.Block>)
    ensures multiset(r) == multiset(os) && forall i, j :: 0 <= i < j < |r| ==> r[i].id <= r[j].id
  {
    var a := new PairArrays.Pair<O.Block>[|os|](i requires 0 <= i < |os| => ById(os[i]));
    ghost var ps := a[..];
    assert ps == Map(os, ById) && Map(ps, InPair) == os;
    PairArrays.QSort(a, 0, a.Length);
    assert PairArrays.Part(a[..], 0, a.Length) == a[..] && PairArrays.Part(ps, 0, a.Length) == ps;
    PairsKeyed(os, a[..]);
    r := seq(a.Length, i requires 0 <= i < a.Length reads a => a[i].val);
    assert r == Map(a[..], InPair);
    MapPermuted(a[..], ps, InPair);
  }

  lemma PairsKeyed(os: seq<O.Block>, qs: seq<PairArrays.Pair<O.Block>>)
    requires multiset(qs) == multiset(Map(os, ById))
    ensures forall i :: 0 <= i < |qs| ==> qs[i].key == qs[i].val.id
  {
    var ps := Map(os, ById);
    forall i | 0 <= i < |qs| ensures qs[i].key == qs[i].val.id {
      assert qs[i] in multiset(qs);
      assert qs[i] in ps;
    }
  }

  // A part of the overlay sorted by id: its members, each once, by strictly rising id.
  ghost predicate StrictById(os: seq<O.Block>, r: seq<O.Block>) {
    && (forall o :: o in r <==> o in os)
    && forall i, j :: 0 <= i < j < |r| ==> r[i].id < r[j].id
  }

  lemma SortedStrictly(s: O.State, v: Version, os: seq<O.Block>, r: seq<O.Block>)
    requires O.Inv(s) && Wf(v) && Mirrors(s, v)
    requires Rising(os, AddrIn) && forall o :: o in os ==> o.id != 0 && o.addr in s.overlay && s.overlay[o.addr] == o
    requires multiset(r) == multiset(os) && forall i, j :: 0 <= i < j < |r| ==> r[i].id <= r[j].id
    ensures StrictById(os, r)
  {
    hide O.Inv, Wf, Mirrors;
    forall o ensures o in r <==> o in os { assert o in multiset(r) <==> o in multiset(os); }
    forall i, j | 0 <= i < j < |r| ensures r[i].id < r[j].id {
      assert r[i] in r && r[j] in r;
      if r[i].id == r[j].id {
        IdsApart(s, v, r[i].addr, r[j].addr);
        Twice(r, i, j);
        ApartOnce(os, r[i], AddrIn);
      }
    }
  }

  lemma {:induction false} StrictClimbs(ns: seq<nat>)
    requires forall i, j :: 0 <= i < j < |ns| ==> ns[i] < ns[j]
    ensures Climbing(ns)
  {
    if ns != [] {
      forall x | x in ns[1..] ensures ns[0] < x {
        var i :| 0 <= i < |ns[1..]| && ns[1..][i] == x;
        assert ns[i + 1] == x;
      }
      StrictClimbs(ns[1..]);
    }
  }

  lemma BufferOf(s: O.State, o: O.Block)
    requires O.Inv(s) && o.addr in s.overlay && s.overlay[o.addr] == o
    ensures o.buf in s.bufs
  {
    O.OverlayBacked(s, o.addr);
  }

  function DelIds(ds: seq<O.Block>): (r: seq<nat>)
    ensures |r| == |ds| && forall i :: 0 <= i < |ds| ==> r[i] == ds[i].id
  {
    seq(|ds|, i requires 0 <= i < |ds| => ds[i].id)
  }

  ghost predicate AllHeld(s: O.State, os: seq<O.Block>) { forall i :: 0 <= i < |os| ==> os[i].buf in s.bufs }

  function WriteList(s: O.State, ws: seq<O.Block>, next: nat): (r: seq<Write>)
    requires AllHeld(s, ws)
    ensures |r| == |ws|
    ensures forall k :: 0 <= k < |ws| ==> r[k] == Write(ws[k].id, next + k, s.bufs[ws[k].buf])
  {
    seq(|ws|, k requires 0 <= k < |ws| => Write(ws[k].id, next + k, s.bufs[ws[k].buf]))
  }

  function NewList(s: O.State, ns: seq<O.Block>, next: nat): (r: seq<Shade>)
    requires AllHeld(s, ns)
    ensures |r| == |ns|
    ensures forall i :: 0 <= i < |ns| ==> r[i] == Shade(next + i, ns[i].kind.typ, ns[i].kind.num, s.bufs[ns[i].buf])
  {
    seq(|ns|, i requires 0 <= i < |ns| => Shade(next + i, ns[i].kind.typ, ns[i].kind.num, s.bufs[ns[i].buf]))
  }

  function AddrList(ns: seq<O.Block>): (r: seq<nat>)
    ensures |r| == |ns| && forall i :: 0 <= i < |ns| ==> r[i] == ns[i].addr
  {
    seq(|ns|, i requires 0 <= i < |ns| => ns[i].addr)
  }

  lemma DelsGathered(s: O.State, tree: seq<O.Block>, ds: seq<O.Block>)
    requires InOrder(s.overlay, tree) && StrictById(Filter(tree, IsDel), ds)
    ensures Climbing(DelIds(ds)) && DelsReport(s, DelIds(ds))
  {
    hide Filter, Climbing, Rising;
    StrictClimbs(DelIds(ds));
    forall x | x in DelIds(ds) ensures exists a :: a in s.overlay && IsDel(s.overlay[a]) && s.overlay[a].id == x {
      var i :| 0 <= i < |ds| && ds[i].id == x;
      assert ds[i] in ds;
    }
    forall a | a in s.overlay && IsDel(s.overlay[a]) ensures s.overlay[a].id in DelIds(ds) {
      assert s.overlay[a] in tree && s.overlay[a] in ds;
      var i :| 0 <= i < |ds| && ds[i] == s.overlay[a];
      assert DelIds(ds)[i] == s.overlay[a].id;
    }
  }

  lemma WritesGathered(s: O.State, tree: seq<O.Block>, ws: seq<O.Block>, next: nat)
    requires InOrder(s.overlay, tree) && StrictById(Filter(tree, IsWrite), ws) && AllHeld(s, ws)
    ensures Climbing(Olds(WriteList(s, ws, next))) && WritesReport(s, WriteList(s, ws, next))
  {
    var r := WriteList(s, ws, next);
    hide Filter, Climbing, Rising;
    StrictClimbs(Olds(r));
    forall w | w in r ensures exists a :: WriteFor(s, w, a) {
      var k :| 0 <= k < |r| && r[k] == w;
      assert ws[k] in ws && WriteFor(s, w, ws[k].addr);
    }
    forall a | a in s.overlay && IsWrite(s.overlay[a]) ensures exists w :: w in r && WriteFor(s, w, a) {
      assert s.overlay[a] in tree && s.overlay[a] in ws;
      var k :| 0 <= k < |ws| && ws[k] == s.overlay[a];
      assert r[k] in r && WriteFor(s, r[k], a);
    }
  }

  lemma NewsGathered(s: O.State, tree: seq<O.Block>, ns: seq<O.Block>, next: nat)
    requires InOrder(s.overlay, tree) && ns == Filter(tree, IsNew) && AllHeld(s, ns)
    ensures NewsReport(s, NewList(s, ns, next), AddrList(ns))
  {
    hide Filter;
    FilterRising(tree, IsNew, AddrIn);
    var r, origin := NewList(s, ns, next), AddrList(ns);
    forall i | 0 <= i < |r| ensures NewFor(s, r[i], origin[i]) { assert ns[i] in ns; }
    forall i, j | 0 <= i < j < |origin| ensures origin[i] != origin[j] { assert AddrIn(ns[i]) < AddrIn(ns[j]); }
    forall a | a in s.overlay && IsNew(s.overlay[a]) ensures a in origin {
      assert s.overlay[a] in tree && s.overlay[a] in ns;
      var i :| 0 <= i < |ns| && ns[i] == s.overlay[a];
      assert origin[i] == a;
    }
  }

  // pac2_func over the tree: each block goes to one of three lists.
  method Classify(tree: seq<O.Block>) returns (ds: seq<O.Block>, ws: seq<O.Block>, ns: seq<O.Block>)
    ensures ds == Filter(tree, IsDel) && ws == Filter(tree, IsWrite) && ns == Filter(tree, IsNew)
  {
    ds, ws, ns := [], [], [];
    for i := 0 to |tree|
      invariant ds == Filter(tree[..i], IsDel) && ws == Filter(tree[..i], IsWrite) && ns == Filter(tree[..i], IsNew)
    {
      FilterSlice(tree, i, IsDel);
      FilterSlice(tree, i, IsWrite);
      FilterSlice(tree, i, IsNew);
      hide Filter;
      var o := tree[i];
      if o.id == 0 {
        ns := ns + [o];
      } else if o.gone {
        ds := ds + [o];
      } else {
        ws := ws + [o];
      }
    }
    assert tree[..|tree|] == tree;
  }

  lemma PartsHeld(s: O.State, tree: seq<O.Block>, part: seq<O.Block>)
    requires O.Inv(s) && InOrder(s.overlay, tree) && forall o :: o in part ==> o in tree
    ensures AllHeld(s, part)
  {
    forall i | 0 <= i < |part| ensures part[i].buf in s.bufs {
      assert part[i] in part;
      BufferOf(s, part[i]);
    }
  }

  // A sorted part of the tree.
  method SortPart(s: O.State, tree: seq<O.Block>, part: seq<O.Block>, ghost v: Version) returns (r: seq<O.Block>)
    requires O.Inv(s) && Wf(v) && Mirrors(s, v) && InOrder(s.overlay, tree)
    requires Rising(part, AddrIn) && forall o :: o in part ==> o in tree && o.id != 0
    ensures StrictById(part, r) && AllHeld(s, r)
  {
    hide O.Inv, Wf, Mirrors, Rising;
    r := SortBlocks(part);
    assert forall o :: o in tree ==> o.addr in s.overlay && s.overlay[o.addr] == o;
    SortedStrictly(s, v, part, r);
    PartsHeld(s, tree, r);
  }

  /** What get_commit_packet gathers reports the overlay; `next` is the first id it gives out. */
  method Gather(s: O.State, tree: seq<O.Block>, next: nat, ghost v: Version) returns (p: Packet, origin: seq<nat>)
    requires O.Inv(s) && Wf(v) && Mirrors(s, v) && InOrder(s.overlay, tree)
    ensures Reports(s, p, origin)
    ensures forall k :: 0 <= k < |p.writes| ==> p.writes[k].id == next + k
    ensures forall i :: 0 <= i < |p.news| ==> p.news[i].id == next + |p.writes| + i
  {
    hide O.Inv, Wf, Mirrors, DelsReport, WritesReport, NewsReport, Climbing, StrictById, Rising, IsDel, IsWrite, IsNew;
    var ds, ws, ns := Classify(tree);
    FilterRising(tree, IsDel, AddrIn);
    FilterRising(tree, IsWrite, AddrIn);
    KindsTell();
    hide Filter;
    PartsHeld(s, tree, ns);
    ds := SortPart(s, tree, ds, v);
    ws := SortPart(s, tree, ws, v);
    p := Packet(false, DelIds(ds), WriteList(s, ws, next), NewList(s, ns, next + |ws|));
    origin := AddrList(ns);
    DelsGathered(s, tree, ds);
    WritesGathered(s, tree, ws, next);
    NewsGathered(s, tree, ns, next + |ws|);
  }

  lemma KindsTell()
    ensures forall o :: IsDel(o) || IsWrite(o) ==> o.id != 0
  {}
}
