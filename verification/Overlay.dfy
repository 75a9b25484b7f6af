/**
  The copy-on-write overlay of moon_runtime.c: shadow_runtime, shadow_new and
  shadow_del of one environment over one immutable version.

  Blocks live at virtual addresses; their bytes live in numbered buffers, so that
  two blocks can share one.  What a program may rely on is a flat memory of bytes:
  the overlay refines it, and never changes a buffer of the version.
 */
module Overlay {

  import opened Options
  import opened Bytes

  type Memory = imap<nat, Byte>

  // `id` is 0 for a block made by shadow_new, `gone` is is_del.
  // `kind` is type_id and type_num.
  datatype Kind = Kind(typ: nat, num: nat)
  datatype Block = Block(addr: nat, len: nat, id: nat, buf: nat, gone: bool, kind: Kind)

  // `base` is the version by increasing address, `overlay` the environment's tree.
  datatype State = State(base: seq<Block>, overlay: map<nat, Block>, bufs: map<nat, seq<Byte>>)

  // What shadow_runtime returns: a place in a buffer.
  datatype Place = Place(buf: nat, off: nat)

  predicate Within(at: nat, len: nat, p: nat) { at <= p < at + len }
  predicate Covers(b: Block, p: nat) { Within(b.addr, b.len, p) }
  predicate Beside(a: Block, b: Block) { a.addr + a.len <= b.addr || b.addr + b.len <= a.addr }

  // ---------- The invariant ----------

  ghost predicate BaseOk(s: State) {
    && (forall i, j :: 0 <= i < j < |s.base| ==> s.base[i].addr + s.base[i].len <= s.base[j].addr)
    && (forall b :: b in s.base ==> b.len > 0 && b.id > 0 && !b.gone)
  }

  ghost predicate OverlayOk(s: State) {
    && (forall a :: a in s.overlay ==> s.overlay[a].addr == a && s.overlay[a].len > 0)
    && (forall a, c :: a in s.overlay && c in s.overlay && a != c ==> Beside(s.overlay[a], s.overlay[c]))
  }

  // An overlay block stands for the version's block at its address, or is new and clear of them all.
  ghost predicate Over(base: seq<Block>, o: Block) {
    if o.id == 0 then !o.gone && forall b :: b in base ==> Beside(b, o)
    else exists b :: b in base && b.addr == o.addr && b.len == o.len && b.id == o.id && b.kind == o.kind
  }

  ghost predicate OverBase(s: State) { forall a :: a in s.overlay ==> Over(s.base, s.overlay[a]) }

  ghost predicate Backed(s: State, b: Block) { b.buf in s.bufs && |s.bufs[b.buf]| == b.len }

  predicate InBase(s: State, buf: nat) { exists b :: b in s.base && b.buf == buf }

  // Every block has a buffer of its own, but for a marker of a deletion, which may share
  // the buffer of the version's block at its address.
  ghost predicate BufsOk(s: State) {
    && (forall b :: b in s.base ==> Backed(s, b))
    && (forall b, c :: b in s.base && c in s.base && b != c ==> b.buf != c.buf)
    && (forall a :: a in s.overlay ==> Backed(s, s.overlay[a]))
    && (forall a, c :: a in s.overlay && c in s.overlay && a != c ==> s.overlay[a].buf != s.overlay[c].buf)
    && (forall a :: a in s.overlay && !s.overlay[a].gone ==> !InBase(s, s.overlay[a].buf))
    && (forall a, b :: a in s.overlay && b in s.base && b.buf == s.overlay[a].buf ==> b.addr == a)
  }

  ghost predicate Inv(s: State) { BaseOk(s) && OverlayOk(s) && OverBase(s) && BufsOk(s) }

  // ---------- Floor lookups ----------

  ghost predicate FloorKey(m: map<nat, Block>, p: nat, r: Option<nat>) {
    match r
    case None => forall k :: k in m ==> p < k
    case Some(a) => a in m && a <= p && forall k :: k in m && k <= p ==> k <= a
  }

  // search_addr_id on the version's addresses: the block with the greatest address up to `p`.
  function BaseFloor(base: seq<Block>, p: nat): Option<Block> {
    if base == [] then None
    else if base[|base| - 1].addr <= p then Some(base[|base| - 1])
    else BaseFloor(base[..|base| - 1], p)
  }

  function Under(base: seq<Block>, p: nat): Option<Block> {
    match BaseFloor(base, p)
    case Some(b) => if Covers(b, p) then Some(b) else None
    case None => None
  }

  lemma {:induction false} BaseFloorFinds(base: seq<Block>, p: nat, b: Block)
    requires forall i, j :: 0 <= i < j < |base| ==> base[i].addr + base[i].len <= base[j].addr
    requires b in base && Covers(b, p)
    ensures BaseFloor(base, p) == Some(b)
  {
    var last := base[|base| - 1];
    var i :| 0 <= i < |base| && base[i] == b;
    if last.addr > p {
      assert base[..|base| - 1][i] == b;
      BaseFloorFinds(base[..|base| - 1], p, b);
    }
  }

  lemma {:induction false} BaseFloorIn(base: seq<Block>, p: nat)
    ensures BaseFloor(base, p).Some? ==> BaseFloor(base, p).value in base
  {
    if base != [] { BaseFloorIn(base[..|base| - 1], p); }
  }

  // A floor lookup followed by the range test finds the block that covers `p`, if there is one.
  lemma UnderIs(s: State, p: nat)
    requires BaseOk(s)
    ensures forall b :: b in s.base && Covers(b, p) <==> Under(s.base, p) == Some(b)
  {
    BaseFloorIn(s.base, p);
    forall b | b in s.base && Covers(b, p) ensures Under(s.base, p) == Some(b) { BaseFloorFinds(s.base, p, b); }
  }

  lemma FloorIs(s: State, p: nat, r: Option<nat>, a: nat)
    requires OverlayOk(s) && FloorKey(s.overlay, p, r) && a in s.overlay && Covers(s.overlay[a], p)
    ensures r == Some(a)
  {
    assert r.Some? && r.value != a ==> Beside(s.overlay[a], s.overlay[r.value]);
  }

  // The overlay block that covers `p`.
  ghost function Hit(m: map<nat, Block>, p: nat): (r: Option<Block>)
    ensures r.Some? ==> exists a :: a in m && m[a] == r.value && Covers(r.value, p)
    ensures r.None? ==> forall a :: a in m ==> !Covers(m[a], p)
  {
    if exists a :: a in m && Covers(m[a], p) then
      var a :| a in m && Covers(m[a], p);
      Some(m[a])
    else None
  }

  lemma OverlayUnique(s: State, a: nat, c: nat, p: nat)
    requires OverlayOk(s) && a in s.overlay && c in s.overlay
    requires Covers(s.overlay[a], p) && Covers(s.overlay[c], p)
    ensures a == c
  {}

  lemma HitIs(s: State, p: nat, a: nat)
    requires OverlayOk(s) && a in s.overlay && Covers(s.overlay[a], p)
    ensures Hit(s.overlay, p) == Some(s.overlay[a])
  {
    var b := Hit(s.overlay, p).value;
    var c :| c in s.overlay && s.overlay[c] == b;
    OverlayUnique(s, a, c, p);
  }

  // The block an address belongs to: overlay first, then the version.
  ghost function Target(s: State, p: nat): Option<Block> {
    if Hit(s.overlay, p).Some? then Hit(s.overlay, p) else Under(s.base, p)
  }

  // ---------- The operations ----------

  // The copy shadow_runtime makes before the first write to a block.
  function Copy(s: State, b: Block, room: nat): State
    requires b.buf in s.bufs
  {
    s.(overlay := s.overlay[b.addr := b.(buf := room)], bufs := s.bufs[room := s.bufs[b.buf]])
  }

  ghost function Writable(s: State, p: nat, room: nat): State
    requires Inv(s)
  {
    match Under(s.base, p)
    case Some(b) =>
      UnderIs(s, p);
      if Hit(s.overlay, p).None? then Copy(s, b, room) else s
    case None => s
  }

  function Patch(buf: seq<Byte>, off: nat, bytes: seq<Byte>): seq<Byte> {
    seq(|buf|, i requires 0 <= i < |buf| => if off <= i < off + |bytes| then bytes[i - off] else buf[i])
  }

  // A write through the place shadow_runtime returned for `p`.
  function Poke(s: State, b: Block, off: nat, bytes: seq<Byte>): State
    requires b.buf in s.bufs
  {
    s.(bufs := s.bufs[b.buf := Patch(s.bufs[b.buf], off, bytes)])
  }

  ghost function Stored(s: State, p: nat, bytes: seq<Byte>, room: nat): State
    requires Inv(s)
  {
    var s1 := Writable(s, p, room);
    match Hit(s1.overlay, p)
    case None => s1
    case Some(b) => if b.buf in s1.bufs && b.addr <= p then Poke(s1, b, p - b.addr, bytes) else s1
  }

  function Created(s: State, at: nat, size: nat, room: nat, kind: Kind): State {
    s.(overlay := s.overlay[at := Block(at, size, 0, room, false, kind)],
    bufs := s.bufs[room := seq(size, i requires 0 <= i < size => 0)])
  }

  // shadow_del: a new block goes, a written one is marked, and an unwritten one gets a
  // marker in the overlay that shares the version's buffer.
  function Deleted(s: State, a: nat): State {
    if a in s.overlay then
      if s.overlay[a].id == 0 then s.(overlay := s.overlay - {a})
      else s.(overlay := s.overlay[a := s.overlay[a].(gone := true)])
    else
      match Under(s.base, a)
      case Some(b) => if b.addr == a then s.(overlay := s.overlay[a := b.(gone := true)]) else s
      case None => s
  }

  // ---------- The flat memory ----------

  ghost predicate Seen(s: State, p: nat) { Target(s, p).Some? && !Target(s, p).value.gone }

  ghost function Peek(s: State, p: nat): Byte {
    var t := Target(s, p);
    if t.Some? && t.value.addr <= p && t.value.buf in s.bufs && p - t.value.addr < |s.bufs[t.value.buf]|
    then s.bufs[t.value.buf][p - t.value.addr] else 0
  }

  ghost predicate Agrees(s: State, mem: Memory, p: nat) {
    (p in mem <==> Seen(s, p)) && (p in mem ==> mem[p] == Peek(s, p))
  }

  ghost predicate Refines(s: State, mem: Memory) { forall p :: Agrees(s, mem, p) }

  // The `n` bytes from `p` on lie in the block `p` belongs to.
  ghost predicate InBlock(s: State, p: nat, n: nat) {
    Target(s, p).Some? && p + n <= Target(s, p).value.addr + Target(s, p).value.len
  }

  ghost function Wrote(mem: Memory, p: nat, bytes: seq<Byte>): Memory {
    imap q | q in mem :: if p <= q < p + |bytes| then bytes[q - p] else mem[q]
  }

  ghost function Zeroed(mem: Memory, at: nat, len: nat): Memory {
    imap q | q in mem || Within(at, len, q) :: if Within(at, len, q) then 0 else mem[q]
  }

  ghost function Cleared(mem: Memory, at: nat, len: nat): Memory { imap q | q in mem && !Within(at, len, q) :: mem[q] }

  // ---------- Which block an address belongs to ----------

  lemma BaseUnique(s: State, b: Block, c: Block, p: nat)
    requires BaseOk(s) && b in s.base && c in s.base
    requires b.addr == c.addr || (Covers(b, p) && Covers(c, p))
    ensures b == c
  {
    var i :| 0 <= i < |s.base| && s.base[i] == b;
    var j :| 0 <= j < |s.base| && s.base[j] == c;
  }

  // An overlay block with the address of a version block covers what that one covers.
  lemma SameRange(s: State, b: Block)
    requires BaseOk(s) && OverlayOk(s) && OverBase(s) && b in s.base && b.addr in s.overlay
    ensures var o := s.overlay[b.addr]; o.len == b.len && o.id == b.id && o.kind == b.kind
  {
    var o := s.overlay[b.addr];
    assert Over(s.base, o);
    if o.id != 0 {
      var c :| c in s.base && c.addr == o.addr && c.len == o.len && c.id == o.id && c.kind == o.kind;
      BaseUnique(s, b, c, 0);
    }
  }

  lemma TargetOver(s: State, p: nat, a: nat)
    requires Inv(s) && a in s.overlay && Covers(s.overlay[a], p)
    ensures Target(s, p) == Some(s.overlay[a])
  {
    HitIs(s, p, a);
  }

  lemma TargetBase(s: State, p: nat, b: Block)
    requires Inv(s) && b in s.base && Covers(b, p) && b.addr !in s.overlay
    ensures Target(s, p) == Some(b) && Hit(s.overlay, p).None?
  {
    UnderIs(s, p);
    forall a | a in s.overlay && Covers(s.overlay[a], p) ensures a == b.addr { OverCovers(s, a, b, p); }
  }

  lemma OverCovers(s: State, a: nat, b: Block, p: nat)
    requires Inv(s) && a in s.overlay && Covers(s.overlay[a], p) && b in s.base && Covers(b, p)
    ensures a == b.addr
  {
    var o := s.overlay[a];
    assert Over(s.base, o);
    if o.id != 0 {
      var c :| c in s.base && c.addr == o.addr && c.len == o.len;
      BaseUnique(s, b, c, p);
    }
  }

  // And these are the only cases.
  lemma TargetCases(s: State, p: nat)
    requires Inv(s) && Target(s, p).Some?
    ensures var t := Target(s, p).value;
            && Covers(t, p)
            && ((t.addr in s.overlay && s.overlay[t.addr] == t) || (t in s.base && t.addr !in s.overlay))
  {
    UnderIs(s, p);
    var t := Target(s, p).value;
    if Hit(s.overlay, p).None? && t.addr in s.overlay { SameRange(s, t); }
  }

  // ---------- Each operation refines the flat one ----------

  // The overlays differ at `a` at most.
  ghost predicate Near(s: State, s2: State, a: nat) {
    && s2.base == s.base
    && (forall k :: k != a ==> (k in s2.overlay <==> k in s.overlay))
    && (forall k :: k != a && k in s.overlay ==> s2.overlay[k] == s.overlay[k])
  }

  lemma Elsewhere(s: State, s2: State, a: nat, p: nat)
    requires OverlayOk(s) && OverlayOk(s2) && Near(s, s2, a)
    requires a in s.overlay ==> !Covers(s.overlay[a], p)
    requires a in s2.overlay ==> !Covers(s2.overlay[a], p)
    ensures Target(s2, p) == Target(s, p)
  {
    if Hit(s.overlay, p).Some? {
      var k :| k in s.overlay && s.overlay[k] == Hit(s.overlay, p).value;
      HitIs(s2, p, k);
    }
  }

  ghost predicate SameBase(s: State, s2: State) {
    s2.base == s.base && forall b :: b in s.base ==> b.buf in s.bufs && b.buf in s2.bufs && s2.bufs[b.buf] == s.bufs[b.buf]
  }

  // A live block with a buffer of its own, put where no overlay block is.
  function Added(s: State, o: Block, bytes: seq<Byte>): State {
    s.(overlay := s.overlay[o.addr := o], bufs := s.bufs[o.buf := bytes])
  }

  ghost predicate Addable(s: State, o: Block, bytes: seq<Byte>) {
    && o.addr !in s.overlay && o.buf !in s.bufs && |bytes| == o.len > 0 && !o.gone && Over(s.base, o)
    && forall a :: a in s.overlay ==> Beside(o, s.overlay[a])
  }

  lemma AddedShape(s: State, o: Block, bytes: seq<Byte>)
    requires Inv(s) && Addable(s, o, bytes)
    ensures BaseOk(Added(s, o, bytes)) && OverlayOk(Added(s, o, bytes)) && OverBase(Added(s, o, bytes))
  {
    hide BufsOk, Over, Beside;
    assert forall x, y :: Beside(x, y) ==> Beside(y, x) by { BesideTurns(); }
    assert OverBase(Added(s, o, bytes));
  }

  lemma BesideTurns()
    ensures forall x, y :: Beside(x, y) ==> Beside(y, x)
  {}

  lemma AddedBufs(s: State, o: Block, bytes: seq<Byte>)
    requires BufsOk(s) && Addable(s, o, bytes)
    ensures BufsOk(Added(s, o, bytes)) && SameBase(s, Added(s, o, bytes))
  {
    hide Over, Beside, InBase;
    var s2 := Added(s, o, bytes);
    forall b | b in s.base ensures Backed(s2, b) && b.buf != o.buf { assert Backed(s, b); }
    forall a | a in s.overlay ensures Backed(s2, s2.overlay[a]) && s.overlay[a].buf != o.buf {
      assert Backed(s, s.overlay[a]);
    }
    InBaseSame(s, s2);
    FreshNotInBase(s, o.buf);
  }

  lemma InBaseSame(s: State, s2: State)
    requires s2.base == s.base
    ensures forall buf :: InBase(s2, buf) == InBase(s, buf)
  {}

  lemma FreshNotInBase(s: State, buf: nat)
    requires BufsOk(s) && buf !in s.bufs
    ensures !InBase(s, buf)
  {
    forall b | b in s.base ensures b.buf != buf { assert Backed(s, b); }
  }

  // A copy is such a block.
  lemma CopyAdds(s: State, b: Block, room: nat)
    requires Inv(s) && b in s.base && b.addr !in s.overlay && room !in s.bufs
    ensures b.buf in s.bufs && |s.bufs[b.buf]| == b.len && !b.gone
    ensures Addable(s, b.(buf := room), s.bufs[b.buf])
    ensures Copy(s, b, room) == Added(s, b.(buf := room), s.bufs[b.buf])
  {
    var o := b.(buf := room);
    forall a | a in s.overlay ensures Beside(o, s.overlay[a]) { BesideOverlay(s, b, a); }
    assert Backed(s, b);
  }

  lemma CopyKeeps(s: State, b: Block, room: nat)
    requires Inv(s) && b in s.base && b.addr !in s.overlay && room !in s.bufs
    ensures Inv(Copy(s, b, room)) && SameBase(s, Copy(s, b, room))
  {
    CopyAdds(s, b, room);
    AddedShape(s, b.(buf := room), s.bufs[b.buf]);
    AddedBufs(s, b.(buf := room), s.bufs[b.buf]);
  }

  // A version block without an overlay block is clear of the whole overlay.
  lemma BesideOverlay(s: State, b: Block, a: nat)
    requires Inv(s) && b in s.base && b.addr !in s.overlay && a in s.overlay
    ensures Beside(b, s.overlay[a])
  {
    var o := s.overlay[a];
    assert Over(s.base, o);
    if o.id != 0 {
      var c :| c in s.base && c.addr == o.addr && c.len == o.len;
      var i :| 0 <= i < |s.base| && s.base[i] == b;
      var j :| 0 <= j < |s.base| && s.base[j] == c;
    }
  }

  lemma TargetBacked(s: State, p: nat)
    requires Inv(s) && Target(s, p).Some?
    ensures Backed(s, Target(s, p).value)
  {
    TargetCases(s, p);
    hide BaseOk, OverlayOk, OverBase, Target;
  }

  // ---------- New blocks ----------

  ghost predicate Clear(s: State, b: Block) {
    (forall c :: c in s.base ==> Beside(c, b)) && (forall a :: a in s.overlay ==> Beside(b, s.overlay[a]))
  }

  /** shadow_new adds zero bytes in a range of its own and disturbs nothing. */
  lemma NewRefines(s: State, mem: Memory, at: nat, size: nat, room: nat, kind: Kind)
    requires Inv(s) && Refines(s, mem) && room !in s.bufs && size > 0
    requires Clear(s, Block(at, size, 0, room, false, kind))
    ensures var s2 := Created(s, at, size, room, kind);
            Inv(s2) && SameBase(s, s2) && Refines(s2, Zeroed(mem, at, size))
  {
    var o := Block(at, size, 0, room, false, kind);
    var zeros := seq(size, i requires 0 <= i < size => 0);
    var s2 := Created(s, at, size, room, kind);
    assert at !in s.overlay;
    AddedShape(s, o, zeros);
    AddedBufs(s, o, zeros);
    assert s2 == Added(s, o, zeros);
    forall q ensures Agrees(s2, Zeroed(mem, at, size), q) { NewAgrees(s, mem, o, zeros, q); }
    hide *;
    ToRefines(s2, Zeroed(mem, at, size));
  }

  lemma NewAgrees(s: State, mem: Memory, o: Block, zeros: seq<Byte>, q: nat)
    requires Inv(s) && Refines(s, mem) && Addable(s, o, zeros) && forall i :: 0 <= i < |zeros| ==> zeros[i] == 0
    ensures Agrees(Added(s, o, zeros), Zeroed(mem, o.addr, o.len), q)
  {
    hide Inv, Seen, Peek, Added, BaseOk, OverlayOk, OverBase, BufsOk, Over;
    assert Agrees(s, mem, q);
    NewSees(s, o, zeros, q);
  }

  lemma AddedTarget(s: State, o: Block, bytes: seq<Byte>, q: nat)
    requires Inv(s) && Addable(s, o, bytes)
    ensures Target(Added(s, o, bytes), q) == if Covers(o, q) then Some(o) else Target(s, q)
  {
    var s2 := Added(s, o, bytes);
    AddedShape(s, o, bytes);
    AddedBufs(s, o, bytes);
    if Covers(o, q) { TargetOver(s2, q, o.addr); } else { Elsewhere(s, s2, o.addr, q); }
  }

  lemma NewSees(s: State, o: Block, bytes: seq<Byte>, q: nat)
    requires Inv(s) && Addable(s, o, bytes)
    ensures var s2 := Added(s, o, bytes);
            if Covers(o, q) then Seen(s2, q) && Peek(s2, q) == bytes[q - o.addr]
            else Seen(s2, q) == Seen(s, q) && (Seen(s, q) ==> Peek(s2, q) == Peek(s, q))
  {
    hide Inv, Target, Covers;
    AddedTarget(s, o, bytes, q);
    if Target(s, q).Some? { TargetBacked(s, q); }
    assert o.buf !in s.bufs && Added(s, o, bytes).bufs == s.bufs[o.buf := bytes] && |bytes| == o.len;
    hide Addable, Added;
    assert Covers(o, q) ==> o.addr <= q < o.addr + o.len by { CoversIs(o, q); }
  }

  lemma CoversIs(b: Block, p: nat)
    ensures Covers(b, p) <==> b.addr <= p < b.addr + b.len
  {}

  lemma CopySees(s: State, b: Block, room: nat, p: nat)
    requires Inv(s) && b in s.base && b.addr !in s.overlay && room !in s.bufs
    ensures Seen(Copy(s, b, room), p) == Seen(s, p)
    ensures Seen(s, p) ==> Peek(Copy(s, b, room), p) == Peek(s, p)
  {
    var o := b.(buf := room);
    CopyAdds(s, b, room);
    NewSees(s, o, s.bufs[b.buf], p);
    if Covers(b, p) { TargetBase(s, p, b); }
    hide Inv, Target, Added;
  }

  // ---------- Writing ----------

  // Even a write through a deletion marker leaves every block in order; only one that goes
  // to a buffer of the version changes the version.
  lemma PokeKeeps(s: State, a: nat, off: nat, bytes: seq<Byte>)
    requires Inv(s) && a in s.overlay
    ensures s.overlay[a].buf in s.bufs
    ensures Inv(Poke(s, s.overlay[a], off, bytes))
    ensures !InBase(s, s.overlay[a].buf) ==> SameBase(s, Poke(s, s.overlay[a], off, bytes))
  {
    hide Over, Beside;
    var o := s.overlay[a];
    assert Backed(s, o);
    var s2 := Poke(s, o, off, bytes);
    PokeBacks(s, o, off, bytes);
    forall b | b in s.base ensures Backed(s, b) {}
    hide Backed, InBase, Poke;
  }

  lemma PokeBacks(s: State, o: Block, off: nat, bytes: seq<Byte>)
    requires o.buf in s.bufs
    ensures var s2 := Poke(s, o, off, bytes);
            && s2.base == s.base && s2.overlay == s.overlay
            && (forall b :: Backed(s, b) ==> Backed(s2, b))
            && (forall buf :: InBase(s2, buf) == InBase(s, buf))
    ensures BufsOk(s) && !InBase(s, o.buf) ==> SameBase(s, Poke(s, o, off, bytes))
  {
    if BufsOk(s) { forall b | b in s.base ensures Backed(s, b) {} }
  }

  lemma PokeSees(s: State, a: nat, off: nat, bytes: seq<Byte>, q: nat)
    requires Inv(s) && a in s.overlay && off + |bytes| <= s.overlay[a].len && s.overlay[a].buf in s.bufs
    ensures var s2 := Poke(s, s.overlay[a], off, bytes);
            && Seen(s2, q) == Seen(s, q)
            && (Seen(s, q) && a + off <= q < a + off + |bytes| ==> Peek(s2, q) == bytes[q - a - off])
            && (Seen(s, q) && !(a + off <= q < a + off + |bytes|) ==> Peek(s2, q) == Peek(s, q))
  {
    hide Inv, Target, Poke;
    var o := s.overlay[a];
    OverlayBacked(s, a);
    if Covers(o, q) { TargetOver(s, q, a); }
    if !Covers(o, q) && Seen(s, q) { OtherBuffer(s, a, q); }
    PokeTarget(s, o, off, bytes, q);
  }

  lemma OverlayBacked(s: State, a: nat)
    requires Inv(s) && a in s.overlay
    ensures s.overlay[a].addr == a && s.overlay[a].buf in s.bufs && |s.bufs[s.overlay[a].buf]| == s.overlay[a].len
  {
    assert Backed(s, s.overlay[a]);
  }

  lemma PokeTarget(s: State, o: Block, off: nat, bytes: seq<Byte>, q: nat)
    requires o.buf in s.bufs
    ensures var s2 := Poke(s, o, off, bytes);
            && Target(s2, q) == Target(s, q)
            && s2.bufs == s.bufs[o.buf := Patch(s.bufs[o.buf], off, bytes)]
  {}

  lemma OtherBuffer(s: State, a: nat, q: nat)
    requires Inv(s) && a in s.overlay && !Covers(s.overlay[a], q) && Target(s, q).Some?
    ensures Target(s, q).value.buf != s.overlay[a].buf
  {
    TargetCases(s, q);
    hide BaseOk, OverBase, Target;
  }

  lemma PokeRefines(s: State, mem: Memory, a: nat, off: nat, bytes: seq<Byte>)
    requires Inv(s) && Refines(s, mem) && a in s.overlay && off + |bytes| <= s.overlay[a].len
    requires s.overlay[a].buf in s.bufs
    ensures Refines(Poke(s, s.overlay[a], off, bytes), Wrote(mem, a + off, bytes))
  {
    hide Inv, Seen, Peek, Poke, Wrote, Agrees;
    var s2 := Poke(s, s.overlay[a], off, bytes);
    var mem2 := Wrote(mem, a + off, bytes);
    forall q ensures Agrees(s2, mem2, q) {
      assert Agrees(s, mem, q);
      PokeAgrees(s, mem, a, off, bytes, q);
    }
  }

  lemma PokeAgrees(s: State, mem: Memory, a: nat, off: nat, bytes: seq<Byte>, q: nat)
    requires Inv(s) && Agrees(s, mem, q) && a in s.overlay && off + |bytes| <= s.overlay[a].len
    requires s.overlay[a].buf in s.bufs
    ensures Agrees(Poke(s, s.overlay[a], off, bytes), Wrote(mem, a + off, bytes), q)
  {
    hide Inv, Seen, Peek, Poke;
    PokeSees(s, a, off, bytes, q);
  }

  lemma ToRefines(s: State, mem: Memory)
    requires forall q :: Agrees(s, mem, q)
    ensures Refines(s, mem)
  {}

  // `p` is in a block that was deleted without having been written: its marker shares the version's buffer.
  ghost predicate SharedMarker(s: State, p: nat) {
    Target(s, p).Some? && Target(s, p).value.gone && InBase(s, Target(s, p).value.buf)
  }

  // The first write to a block of the version goes to a copy, which nobody can tell.
  lemma WritableRefines(s: State, mem: Memory, p: nat, room: nat)
    requires Inv(s) && Refines(s, mem) && room !in s.bufs && Target(s, p).Some?
    ensures var s1 := Writable(s, p, room);
            var t := Target(s, p).value;
            && Inv(s1) && SameBase(s, s1) && Refines(s1, mem)
            && t.addr in s1.overlay && s1.overlay[t.addr].len == t.len
            && (InBase(s1, s1.overlay[t.addr].buf) ==> SharedMarker(s, p))
            && t.addr <= p && Hit(s1.overlay, p) == Some(s1.overlay[t.addr]) && s1.overlay[t.addr].addr == t.addr
  {
    TargetCases(s, p);
    UnderIs(s, p);
    var t := Target(s, p).value;
    var s1 := Writable(s, p, room);
    if t.addr in s.overlay {
      HitIs(s, p, t.addr);
      SelfSame(s);
      assert !t.gone ==> !InBase(s, t.buf);
      hide *;
    } else {
      TargetBase(s, p, t);
      CopyKeeps(s, t, room);
      HitIs(s1, p, t.addr);
      assert !InBase(s1, room);
      hide Inv, Seen, Peek, Target, SameBase, Hit, Under, BaseOk, OverlayOk;
      forall q ensures Agrees(s1, mem, q) {
        assert Agrees(s, mem, q);
        CopySees(s, t, room, q);
      }
    }
  }

  /**
    A write inside a block: the flat memory changes there and nowhere else, and not at all
    if the block is deleted; the version stays as it is unless the write goes through a
    marker that shares its buffer.
   */
  lemma StoreRefines(s: State, mem: Memory, p: nat, bytes: seq<Byte>, room: nat)
    requires Inv(s) && Refines(s, mem) && room !in s.bufs && InBlock(s, p, |bytes|)
    ensures var s2 := Stored(s, p, bytes, room);
            Inv(s2) && Refines(s2, Wrote(mem, p, bytes)) && (!SharedMarker(s, p) ==> SameBase(s, s2))
  {
    hide *;
    var t := Target(s, p);
    BlockThere(s, p, |bytes|);
    WritableRefines(s, mem, p, room);
    var s1 := Writable(s, p, room);
    var a := t.value.addr;
    var o := s1.overlay[a];
    PokeKeeps(s1, a, p - a, bytes);
    PokeRefines(s1, mem, a, p - a, bytes);
    StoredIs(s, p, bytes, room, o);
    if !SharedMarker(s, p) { SameBaseTwice(s, s1, Poke(s1, o, p - a, bytes)); }
  }

  lemma BlockThere(s: State, p: nat, n: nat)
    requires InBlock(s, p, n)
    ensures Target(s, p).Some? && p + n <= Target(s, p).value.addr + Target(s, p).value.len
  {}

  lemma StoredIs(s: State, p: nat, bytes: seq<Byte>, room: nat, o: Block)
    requires Inv(s)
    requires var s1 := Writable(s, p, room); Hit(s1.overlay, p) == Some(o) && o.buf in s1.bufs && o.addr <= p
    ensures Stored(s, p, bytes, room) == Poke(Writable(s, p, room), o, p - o.addr, bytes)
  {}

  lemma SameBaseTwice(s: State, s1: State, s2: State)
    requires SameBase(s, s1) && SameBase(s1, s2)
    ensures SameBase(s, s2)
  {}

  lemma SelfSame(s: State)
    requires BufsOk(s)
    ensures SameBase(s, s)
  {
    forall b | b in s.base ensures b.buf in s.bufs { assert Backed(s, b); }
  }

  // ---------- Reading ----------

  ghost function Loaded(s: State, p: nat, n: nat): (r: seq<Byte>)
    requires Inv(s) && InBlock(s, p, n)
    ensures |r| == n
  {
    TargetCases(s, p);
    TargetBacked(s, p);
    var t := Target(s, p).value;
    s.bufs[t.buf][p - t.addr..p - t.addr + n]
  }

  lemma TargetSpreads(s: State, p: nat, q: nat)
    requires Inv(s) && Target(s, p).Some? && Covers(Target(s, p).value, q)
    ensures Target(s, q) == Target(s, p)
  {
    TargetCases(s, p);
    var t := Target(s, p).value;
    if t.addr in s.overlay { TargetOver(s, q, t.addr); } else { TargetBase(s, q, t); }
  }

  /** A read inside a live block gives the bytes of the flat memory. */
  lemma LoadRefines(s: State, mem: Memory, p: nat, n: nat)
    requires Inv(s) && Refines(s, mem) && p in mem && InBlock(s, p, n)
    ensures forall q :: p <= q < p + n ==> q in mem && Loaded(s, p, n)[q - p] == mem[q]
  {
    hide Inv, InBlock;
    forall q | p <= q < p + n ensures q in mem && Loaded(s, p, n)[q - p] == mem[q] {
      LoadByte(s, mem, p, n, q - p);
    }
  }

  lemma LoadByte(s: State, mem: Memory, p: nat, n: nat, i: nat)
    requires Inv(s) && Refines(s, mem) && p in mem && InBlock(s, p, n) && i < n
    ensures p + i in mem && Loaded(s, p, n)[i] == mem[p + i]
  {
    assert Agrees(s, mem, p) && Agrees(s, mem, p + i);
    TargetCases(s, p);
    TargetBacked(s, p);
    TargetSpreads(s, p, p + i);
    hide Inv, Refines, Target;
  }

  // ---------- Deleting ----------

  // Three ways to be deleted, one lemma each for the invariant.
  lemma RemoveKeeps(s: State, a: nat)
    requires Inv(s) && a in s.overlay && s.overlay[a].id == 0
    ensures Inv(Deleted(s, a)) && SameBase(s, Deleted(s, a))
  {
    SelfSame(s);
    forall buf ensures InBase(Deleted(s, a), buf) == InBase(s, buf) {}
    forall b ensures Backed(Deleted(s, a), b) == Backed(s, b) {}
    hide InBase, Backed, Over, Beside, SameBase;
  }

  // A deletion marker, over nothing or over the live block of the same address.
  lemma MarkerShape(s: State, o: Block)
    requires Inv(s) && o.gone && o.len > 0 && Over(s.base, o)
    requires forall a :: a in s.overlay && a != o.addr ==> Beside(o, s.overlay[a])
    ensures var s2 := s.(overlay := s.overlay[o.addr := o]); OverlayOk(s2) && OverBase(s2) && BaseOk(s2)
  {
    hide BufsOk, Over, Beside;
    assert forall x, y :: Beside(x, y) ==> Beside(y, x) by { BesideTurns(); }
    assert OverBase(s.(overlay := s.overlay[o.addr := o]));
  }

  lemma MarkerBufs(s: State, o: Block)
    requires BufsOk(s) && o.gone && Backed(s, o)
    requires if o.addr in s.overlay then s.overlay[o.addr].buf == o.buf
             else exists b :: b in s.base && b.addr == o.addr && b.buf == o.buf
    ensures BufsOk(s.(overlay := s.overlay[o.addr := o]))
  {
    var s2 := s.(overlay := s.overlay[o.addr := o]);
    forall buf ensures InBase(s2, buf) == InBase(s, buf) {}
    forall c ensures Backed(s2, c) == Backed(s, c) {}
    hide InBase, Backed;
  }

  lemma MarkKeeps(s: State, a: nat)
    requires Inv(s) && a in s.overlay && s.overlay[a].id != 0
    ensures Inv(Deleted(s, a)) && SameBase(s, Deleted(s, a))
  {
    var o := s.overlay[a].(gone := true);
    assert Over(s.base, s.overlay[a]) && Backed(s, s.overlay[a]);
    SelfSame(s);
    MarkerShape(s, o);
    MarkerBufs(s, o);
    hide BaseOk, OverlayOk, BufsOk, OverBase;
  }

  lemma MarkerKeeps(s: State, b: Block)
    requires Inv(s) && b in s.base && b.addr !in s.overlay
    ensures Under(s.base, b.addr) == Some(b)
    ensures Inv(Deleted(s, b.addr)) && SameBase(s, Deleted(s, b.addr))
  {
    UnderIs(s, b.addr);
    SelfSame(s);
    var o := b.(gone := true);
    forall a | a in s.overlay ensures Beside(o, s.overlay[a]) { BesideOverlay(s, b, a); }
    assert Backed(s, b) && Over(s.base, o);
    MarkerShape(s, o);
    MarkerBufs(s, o);
    hide BaseOk, OverlayOk, BufsOk, OverBase;
  }

  lemma DeletedKeeps(s: State, a: nat)
    requires Inv(s)
    ensures Inv(Deleted(s, a)) && SameBase(s, Deleted(s, a))
  {
    UnderIs(s, a);
    SelfSame(s);
    hide Inv, SameBase, BufsOk;
    if a in s.overlay {
      if s.overlay[a].id == 0 { RemoveKeeps(s, a); } else { MarkKeeps(s, a); }
    } else if Under(s.base, a).Some? && Under(s.base, a).value.addr == a {
      MarkerKeeps(s, Under(s.base, a).value);
    }
  }

  // Is `a` where a block starts?
  ghost predicate Starts(s: State, a: nat) { Target(s, a).Some? && Target(s, a).value.addr == a }

  lemma DeletedSees(s: State, a: nat, q: nat)
    requires Inv(s)
    ensures Starts(s, a) && Covers(Target(s, a).value, q) ==> !Seen(Deleted(s, a), q)
    ensures !(Starts(s, a) && Covers(Target(s, a).value, q)) ==>
              Seen(Deleted(s, a), q) == Seen(s, q) && (Seen(s, q) ==> Peek(Deleted(s, a), q) == Peek(s, q))
  {
    hide Inv, Target, Starts, Deleted;
    DeletedTarget(s, a, q);
    DeletedBufs(s, a);
  }

  lemma DeletedBufs(s: State, a: nat)
    ensures Deleted(s, a).bufs == s.bufs
  {
    hide Under;
  }

  lemma DeletedTarget(s: State, a: nat, q: nat)
    requires Inv(s)
    ensures Starts(s, a) && Covers(Target(s, a).value, q) ==>
              Target(Deleted(s, a), q).None? || Target(Deleted(s, a), q).value.gone
    ensures !(Starts(s, a) && Covers(Target(s, a).value, q)) ==> Target(Deleted(s, a), q) == Target(s, q)
  {
    var s2 := Deleted(s, a);
    DeletedKeeps(s, a);
    StartsIs(s, a);
    DeletedShape(s, a);
    hide Deleted, Target, Starts;
    if Starts(s, a) {
      if !Covers(Target(s, a).value, q) {
        Elsewhere(s, s2, a, q);
      } else if a in s2.overlay {
        TargetOver(s2, q, a);
      } else {
        NotUnder(s, a, q);
      }
    }
  }

  lemma DeletedShape(s: State, a: nat)
    requires Inv(s)
    ensures var s2 := Deleted(s, a);
            && Near(s, s2, a)
            && (!Starts(s, a) ==> s2 == s)
            && (Starts(s, a) && a in s2.overlay ==> s2.overlay[a] == Target(s, a).value.(gone := true))
            && (Starts(s, a) && a !in s2.overlay ==> a in s.overlay && s.overlay[a].id == 0)
  {
    hide Inv, Target, Starts, Under, BaseOk, OverlayOk, OverBase, BufsOk, Hit;
    StartsIs(s, a);
  }

  lemma StartsIs(s: State, a: nat)
    requires Inv(s)
    ensures Starts(s, a) <==> a in s.overlay || (Under(s.base, a).Some? && Under(s.base, a).value.addr == a)
    ensures a in s.overlay ==> Target(s, a) == Some(s.overlay[a])
    ensures Starts(s, a) && a !in s.overlay ==> Target(s, a) == Under(s.base, a)
  {
    if a in s.overlay {
      TargetOver(s, a, a);
    } else if Target(s, a).Some? {
      TargetCases(s, a);
      UnderIs(s, a);
    }
    if a !in s.overlay && Under(s.base, a).Some? && Under(s.base, a).value.addr == a {
      UnderIs(s, a);
      TargetBase(s, a, Under(s.base, a).value);
    }
  }

  // Nothing lies under a new block.
  lemma NotUnder(s: State, a: nat, q: nat)
    requires Inv(s) && a in s.overlay && s.overlay[a].id == 0 && Covers(s.overlay[a], q)
    ensures Target(Deleted(s, a), q).None?
  {
    UnderIs(s, q);
    assert Over(s.base, s.overlay[a]);
    var s2 := Deleted(s, a);
    if Hit(s2.overlay, q).Some? {
      var c :| c in s2.overlay && s2.overlay[c] == Hit(s2.overlay, q).value;
      OverlayUnique(s, a, c, q);
    }
  }

  /** shadow_del takes away exactly the block that starts at the address, if one does. */
  lemma DeleteRefines(s: State, mem: Memory, a: nat)
    requires Inv(s) && Refines(s, mem)
    ensures var s2 := Deleted(s, a);
            && Inv(s2) && SameBase(s, s2)
            && Refines(s2, if Starts(s, a) then Cleared(mem, a, Target(s, a).value.len) else mem)
  {
    var s2 := Deleted(s, a);
    var mem2 := if Starts(s, a) then Cleared(mem, a, Target(s, a).value.len) else mem;
    DeletedKeeps(s, a);
    forall q ensures Agrees(s2, mem2, q) {
      assert Agrees(s, mem, q);
      DeletedSees(s, a, q);
      hide Inv, Refines, Seen, Peek, SameBase, Deleted, Target;
    }
    hide *;
    ToRefines(s2, mem2);
  }

  // ---------- Writing into a deleted block ----------

  lemma PokeSameBase(s: State, o: Block, off: nat, x: Byte)
    requires BufsOk(s) && o.buf in s.bufs && off < |s.bufs[o.buf]|
    ensures SameBase(s, Poke(s, o, off, [x])) <==> !InBase(s, o.buf) || s.bufs[o.buf][off] == x
  {
    var s2 := Poke(s, o, off, [x]);
    var old1, new1 := s.bufs[o.buf], Patch(s.bufs[o.buf], off, [x]);
    assert new1[off] == x;
    if old1[off] == x { assert new1 == old1; }
    SelfSame(s);
  }

  /**
    Whatever byte is written, the version survives a write at `p` if and only if `p`
    is not in a block that was deleted without having been written: its marker shares
    the version's buffer, and shadow_runtime hands that out for writing.
   */
  lemma VersionSurvivesIff(s: State, p: nat, room: nat)
    requires Inv(s) && Target(s, p).Some? && room !in s.bufs
    ensures (forall x: Byte :: SameBase(s, Stored(s, p, [x], room))) <==> !SharedMarker(s, p)
  {
    var t := Target(s, p).value;
    TargetCases(s, p);
    TargetBacked(s, p);
    assert t.addr in s.overlay && !t.gone ==> !InBase(s, t.buf);
    if t.addr in s.overlay {
      OverlaySurvives(s, p, t.addr, room);
    } else {
      assert !t.gone;
      forall x: Byte ensures SameBase(s, Stored(s, p, [x], room)) { BaseSurvives(s, p, t, x, room); }
    }
    hide Inv, Target, Stored, SameBase;
  }

  lemma OverlaySurvives(s: State, p: nat, a: nat, room: nat)
    requires Inv(s) && a in s.overlay && Covers(s.overlay[a], p)
    ensures (forall x: Byte :: SameBase(s, Stored(s, p, [x], room))) <==> !InBase(s, s.overlay[a].buf)
  {
    var o := s.overlay[a];
    HitIs(s, p, a);
    assert Backed(s, o) && o.addr == a && Writable(s, p, room) == s;
    forall x: Byte
      ensures SameBase(s, Stored(s, p, [x], room)) <==> !InBase(s, o.buf) || s.bufs[o.buf][p - a] == x
    {
      StoredIs(s, p, [x], room, o);
      PokeSameBase(s, o, p - a, x);
    }
    hide SameBase, Inv, InBase, Stored;
    var y: Byte := if s.bufs[o.buf][p - a] == 0 then 1 else 0;
    assert SameBase(s, Stored(s, p, [y], room)) <==> !InBase(s, o.buf);
  }

  lemma BaseSurvives(s: State, p: nat, b: Block, x: Byte, room: nat)
    requires Inv(s) && b in s.base && b.addr !in s.overlay && Covers(b, p) && room !in s.bufs
    ensures SameBase(s, Stored(s, p, [x], room))
  {
    var s1 := Copy(s, b, room);
    UnderIs(s, p);
    TargetBase(s, p, b);
    CopyKeeps(s, b, room);
    HitIs(s1, p, b.addr);
    PokeKeeps(s1, b.addr, p - b.addr, [x]);
    StoredIs(s, p, [x], room, s1.overlay[b.addr]);
    hide Inv, Hit, Under, Stored, Poke;
  }

  // Deleting a block that was not written makes just such a marker.
  lemma DeletionShares(s: State, b: Block, p: nat)
    requires Inv(s) && b in s.base && b.addr !in s.overlay && Covers(b, p)
    ensures Target(Deleted(s, b.addr), p) == Some(b.(gone := true))
  {
    MarkerKeeps(s, b);
    TargetOver(Deleted(s, b.addr), p, b.addr);
  }

  // What shadow_runtime does to an environment, and where it sends the caller.
  lemma RuntimeKeeps(s: State, mem: Memory, p: nat, room: nat)
    requires Inv(s) && Refines(s, mem) && room !in s.bufs
    ensures var s1 := Writable(s, p, room);
            && Inv(s1) && Refines(s1, mem) && SameBase(s, s1) && SameBase(s, s)
            && (Hit(s.overlay, p).Some? || Target(s, p).None? ==> s1 == s)
            && (Target(s, p).Some? ==> Target(s, p).value.addr <= p)
            && (Hit(s.overlay, p).None? && Target(s, p).Some? ==>
                  var b := Target(s, p).value;
                  b.buf in s.bufs && s1 == Copy(s, b, room) && Target(s1, p) == Some(b.(buf := room)))
  {
    UnderIs(s, p);
    SelfSame(s);
    if Target(s, p).Some? {
      TargetCases(s, p);
      var t := Target(s, p).value;
      if t.addr in s.overlay {
        HitIs(s, p, t.addr);
      } else {
        TargetBase(s, p, t);
        WritableRefines(s, mem, p, room);
        TargetOver(Copy(s, t, room), p, t.addr);
      }
    }
  }

  lemma StorePlace(s: State, mem: Memory, p: nat, bytes: seq<Byte>, room: nat)
    requires Inv(s) && Refines(s, mem) && room !in s.bufs && InBlock(s, p, |bytes|)
    ensures var s1 := Writable(s, p, room);
            var t := Target(s1, p);
            && t.Some? && t.value.buf in s1.bufs && t.value.addr <= p
            && Stored(s, p, bytes, room) == Poke(s1, t.value, p - t.value.addr, bytes)
  {
    hide Inv, Refines, Writable, InBase, SharedMarker, SameBase, Seen, Peek, Poke;
    BlockThere(s, p, |bytes|);
    WritableRefines(s, mem, p, room);
    var s1 := Writable(s, p, room);
    var o := s1.overlay[Target(s, p).value.addr];
    PokeKeeps(s1, o.addr, 0, []);
    StoredIs(s, p, bytes, room, o);
  }

  lemma NothingThere(s: State, p: nat, room: nat)
    requires Inv(s) && Target(s, p).None?
    ensures Writable(s, p, room) == s
  {}

  // The version block under an overlay block that is not new.
  lemma BlockUnder(s: State, a: nat) returns (b: Block)
    requires Inv(s) && a in s.overlay && s.overlay[a].id != 0
    ensures b in s.base && b.addr == a && b.len == s.overlay[a].len && b.id == s.overlay[a].id && b.kind == s.overlay[a].kind
  {
    var o := s.overlay[a];
    assert Over(s.base, o);
    b :| b in s.base && b.addr == o.addr && b.len == o.len && b.id == o.id && b.kind == o.kind;
  }

  // ---------- The flat side: bytes, and the blocks they lie in ----------

  // A live block as a program knows it: how long it is, its type and count, and whether it
  // was made in the environment rather than in the version.
  datatype Lot = Lot(len: nat, kind: Kind, made: bool)

  // What a program knows of its memory: the bytes, and the live block that starts at an address.
  datatype Flat = Flat(mem: Memory, blocks: map<nat, Lot>)

  // The block an address belongs to, as far as it starts somewhere, and whether it is deleted.
  datatype Extent = Extent(addr: nat, lot: Lot, gone: bool)

  function LotOf(b: Block): Lot { Lot(b.len, b.kind, b.id == 0) }

  ghost function ExtentAt(s: State, p: nat): Option<Extent> {
    match Target(s, p)
    case None => None
    case Some(t) => Some(Extent(t.addr, LotOf(t), t.gone))
  }

  ghost predicate TabledAt(s: State, blocks: map<nat, Lot>, a: nat) {
    var x := ExtentAt(s, a);
    && (a in blocks <==> x.Some? && x.value.addr == a && !x.value.gone)
    && (a in blocks ==> blocks[a] == x.value.lot)
  }

  ghost predicate Tabled(s: State, blocks: map<nat, Lot>) { forall a :: TabledAt(s, blocks, a) }

  ghost predicate RefinesFlat(s: State, f: Flat) { Refines(s, f.mem) && Tabled(s, f.blocks) }

  // `n` bytes from `p` on lie in one live block.
  ghost predicate Fits(f: Flat, p: nat, n: nat) {
    exists a :: a in f.blocks && Within(a, f.blocks[a].len, p) && p + n <= a + f.blocks[a].len
  }

  datatype Event =
    | Write(p: nat, bytes: seq<Byte>, room: nat)
    | Make(at: nat, size: nat, room: nat, kind: Kind)
    | Remove(a: nat)

  // The event on the flat memory, which knows nothing of versions and overlays.
  ghost function FlatAfter(f: Flat, e: Event): Flat {
    match e
    case Write(p, bytes, _) => f.(mem := Wrote(f.mem, p, bytes))
    case Make(at, size, _, kind) => Flat(Zeroed(f.mem, at, size), f.blocks[at := Lot(size, kind, true)])
    case Remove(a) => if a in f.blocks then Flat(Cleared(f.mem, a, f.blocks[a].len), f.blocks - {a}) else f
  }

  // A program writes inside its blocks, and new memory is clear of every block in use.
  ghost predicate Allowed(s: State, f: Flat, e: Event) {
    match e
    case Write(p, bytes, room) => Fits(f, p, |bytes|) && room !in s.bufs
    case Make(at, size, room, kind) => size > 0 && room !in s.bufs && Clear(s, Block(at, size, 0, room, false, kind))
    case Remove(_) => true
  }

  ghost function After(s: State, e: Event): State
    requires Inv(s)
  {
    match e
    case Write(p, bytes, room) => Stored(s, p, bytes, room)
    case Make(at, size, room, kind) => Created(s, at, size, room, kind)
    case Remove(a) => Deleted(s, a)
  }

  lemma DeleteFlat(s: State, f: Flat, a: nat)
    requires Inv(s) && RefinesFlat(s, f)
    ensures Inv(Deleted(s, a)) && SameBase(s, Deleted(s, a)) && RefinesFlat(Deleted(s, a), FlatAfter(f, Remove(a)))
  {
    hide Inv, Refines, SameBase, Tabled, Cleared, Starts, Target;
    DeleteRefines(s, f.mem, a);
    RemoveMem(s, f, a);
    RemoveTables(s, f, a);
    assert a !in f.blocks ==> f.blocks - {a} == f.blocks;
  }

  lemma MakeFlat(s: State, f: Flat, at: nat, size: nat, room: nat, kind: Kind)
    requires Inv(s) && RefinesFlat(s, f) && size > 0 && room !in s.bufs && Clear(s, Block(at, size, 0, room, false, kind))
    ensures var s2 := Created(s, at, size, room, kind);
            Inv(s2) && SameBase(s, s2) && RefinesFlat(s2, FlatAfter(f, Make(at, size, room, kind)))
  {
    hide Inv, Refines, SameBase, Clear, Tabled, Zeroed;
    NewRefines(s, f.mem, at, size, room, kind);
    MakeTables(s, f, at, size, room, kind);
  }

  // The new block is found at its address, and nothing was there before.
  lemma NewThere(s: State, f: Flat, at: nat, size: nat, room: nat, kind: Kind)
    requires Inv(s) && RefinesFlat(s, f) && size > 0 && room !in s.bufs && Clear(s, Block(at, size, 0, room, false, kind))
    ensures at !in f.blocks
    ensures Target(Created(s, at, size, room, kind), at) == Some(Block(at, size, 0, room, false, kind))
  {
    var o := Block(at, size, 0, room, false, kind);
    assert TabledAt(s, f.blocks, at);
    ClearAt(s, o, at);
    var zeros := seq(size, i requires 0 <= i < size => 0);
    assert at !in s.overlay;
    AddedTarget(s, o, zeros, at);
    assert Created(s, at, size, room, kind) == Added(s, o, zeros);
  }

  // Any write inside a block, deleted ones included.
  lemma StoreFlat(s: State, f: Flat, p: nat, bytes: seq<Byte>, room: nat)
    requires Inv(s) && RefinesFlat(s, f) && room !in s.bufs && InBlock(s, p, |bytes|)
    ensures var s2 := Stored(s, p, bytes, room);
            Inv(s2) && RefinesFlat(s2, FlatAfter(f, Write(p, bytes, room))) && (!SharedMarker(s, p) ==> SameBase(s, s2))
  {
    hide Inv, Refines, SameBase, InBlock, Tabled, SharedMarker, Wrote, Stored;
    StoreRefines(s, f.mem, p, bytes, room);
    WriteTables(s, f, p, bytes, room);
  }

  lemma FitsInBlock(s: State, f: Flat, p: nat, n: nat)
    requires Inv(s) && RefinesFlat(s, f) && Fits(f, p, n)
    ensures InBlock(s, p, n) && !SharedMarker(s, p)
  {
    var a :| a in f.blocks && Within(a, f.blocks[a].len, p) && p + n <= a + f.blocks[a].len;
    assert TabledAt(s, f.blocks, a);
    TargetSpreads(s, a, p);
  }

  // A write moves no block.
  lemma StoreExtent(s: State, p: nat, bytes: seq<Byte>, room: nat, q: nat)
    requires Inv(s) && room !in s.bufs && Target(s, p).Some?
    ensures ExtentAt(Stored(s, p, bytes, room), q) == ExtentAt(s, q)
  {
    UnderIs(s, p);
    TargetCases(s, p);
    var t := Target(s, p).value;
    if t.addr in s.overlay {
      HitIs(s, p, t.addr);
    } else {
      TargetBase(s, p, t);
      CopyExtent(s, t, room, q);
    }
    var s1 := Writable(s, p, room);
    hide Inv, Target, Writable, Copy, Hit;
    assert ExtentAt(s1, q) == ExtentAt(s, q);
    StoredTarget(s, p, bytes, room, q);
  }

  lemma StoredTarget(s: State, p: nat, bytes: seq<Byte>, room: nat, q: nat)
    requires Inv(s)
    ensures Target(Stored(s, p, bytes, room), q) == Target(Writable(s, p, room), q)
  {}

  lemma CopyExtent(s: State, b: Block, room: nat, q: nat)
    requires Inv(s) && b in s.base && b.addr !in s.overlay && room !in s.bufs
    ensures ExtentAt(Copy(s, b, room), q) == ExtentAt(s, q)
  {
    CopyAdds(s, b, room);
    AddedTarget(s, b.(buf := room), s.bufs[b.buf], q);
    if Covers(b, q) { TargetBase(s, q, b); }
    hide Inv, Target, Added, Copy;
  }

  lemma WriteTables(s: State, f: Flat, p: nat, bytes: seq<Byte>, room: nat)
    requires Inv(s) && RefinesFlat(s, f) && room !in s.bufs && InBlock(s, p, |bytes|)
    ensures Tabled(Stored(s, p, bytes, room), f.blocks)
  {
    forall a ensures TabledAt(Stored(s, p, bytes, room), f.blocks, a) {
      assert TabledAt(s, f.blocks, a);
      hide Inv, RefinesFlat, Stored, ExtentAt;
      StoreExtent(s, p, bytes, room, a);
    }
  }

  lemma MakeTables(s: State, f: Flat, at: nat, size: nat, room: nat, kind: Kind)
    requires Inv(s) && RefinesFlat(s, f) && room !in s.bufs && size > 0
    requires Clear(s, Block(at, size, 0, room, false, kind))
    ensures Tabled(Created(s, at, size, room, kind), f.blocks[at := Lot(size, kind, true)])
  {
    var o := Block(at, size, 0, room, false, kind);
    var zeros := seq(size, i requires 0 <= i < size => 0);
    assert at !in s.overlay;
    assert Addable(s, o, zeros) && Created(s, at, size, room, kind) == Added(s, o, zeros);
    var blocks := f.blocks[at := Lot(size, kind, true)];
    forall a ensures TabledAt(Added(s, o, zeros), blocks, a) {
      assert TabledAt(s, f.blocks, a);
      AddedTarget(s, o, zeros, a);
      if Covers(o, a) { ClearAt(s, o, a); }
      hide Inv, RefinesFlat, Added, Target;
    }
    hide TabledAt, Inv, Added, Created, RefinesFlat;
  }

  // Nothing lies where a clear block goes.
  lemma ClearAt(s: State, o: Block, q: nat)
    requires Inv(s) && Clear(s, o) && Covers(o, q)
    ensures Target(s, q).None?
  {
    if Target(s, q).Some? { TargetCases(s, q); }
  }

  lemma RemoveTables(s: State, f: Flat, a: nat)
    requires Inv(s) && RefinesFlat(s, f)
    ensures Tabled(Deleted(s, a), f.blocks - {a})
  {
    forall q ensures TabledAt(Deleted(s, a), f.blocks - {a}, q) {
      assert TabledAt(s, f.blocks, q) && TabledAt(s, f.blocks, a);
      DeletedTarget(s, a, q);
      StartsAt(s, a, q);
      hide Inv, RefinesFlat, Deleted, Target;
    }
  }

  lemma StartsAt(s: State, a: nat, q: nat)
    requires Inv(s)
    ensures Starts(s, a) ==> Covers(Target(s, a).value, a)
    ensures Starts(s, a) && Covers(Target(s, a).value, q) ==> Target(s, q) == Target(s, a)
  {
    if Starts(s, a) {
      TargetCases(s, a);
      if Covers(Target(s, a).value, q) { TargetSpreads(s, a, q); }
    }
  }

  // A marker's bytes were not in memory anyway.
  lemma RemoveMem(s: State, f: Flat, a: nat)
    requires Inv(s) && RefinesFlat(s, f)
    ensures (if Starts(s, a) then Cleared(f.mem, a, Target(s, a).value.len) else f.mem) == FlatAfter(f, Remove(a)).mem
  {
    assert TabledAt(s, f.blocks, a);
    if Starts(s, a) && Target(s, a).value.gone {
      forall q | Within(a, Target(s, a).value.len, q) ensures q !in f.mem {
        StartsAt(s, a, q);
        assert Agrees(s, f.mem, q);
      }
    }
    hide Inv, RefinesFlat, Target;
  }

  /** Each event keeps the overlay a refinement of the flat memory, and the version as it is. */
  lemma AfterRefines(s: State, f: Flat, e: Event)
    requires Inv(s) && RefinesFlat(s, f) && Allowed(s, f, e)
    ensures Inv(After(s, e)) && RefinesFlat(After(s, e), FlatAfter(f, e)) && SameBase(s, After(s, e))
  {
    hide Inv, RefinesFlat, FlatAfter, SameBase, Clear, InBlock, Fits, SharedMarker;
    match e
    case Write(p, bytes, room) =>
      FitsInBlock(s, f, p, |bytes|);
      StoreFlat(s, f, p, bytes, room);
    case Make(at, size, room, kind) => MakeFlat(s, f, at, size, room, kind);
    case Remove(a) => DeleteFlat(s, f, a);
  }

  // ---------- Whole runs ----------

  // Both runs side by side; an event that is not allowed is not made.
  ghost function Run(s: State, f: Flat, events: seq<Event>): (State, Flat)
    requires Inv(s) && RefinesFlat(s, f)
    decreases events
  {
    if events == [] then (s, f)
    else if Allowed(s, f, events[0]) then
      AfterRefines(s, f, events[0]);
      Run(After(s, events[0]), FlatAfter(f, events[0]), events[1..])
    else Run(s, f, events[1..])
  }

  /** After any run of writes, news and deletes the overlay still shows the flat memory, and the version is as it was. */
  lemma {:induction false} EveryRun(s: State, f: Flat, events: seq<Event>)
    requires Inv(s) && RefinesFlat(s, f)
    ensures var (s2, f2) := Run(s, f, events); Inv(s2) && RefinesFlat(s2, f2) && SameBase(s, s2)
    decreases events
  {
    hide RefinesFlat, SameBase, Allowed, After, FlatAfter, BaseOk, OverlayOk, OverBase;
    if events == [] {
      SelfSame(s);
    } else if Allowed(s, f, events[0]) {
      AfterRefines(s, f, events[0]);
      var s1, f1 := After(s, events[0]), FlatAfter(f, events[0]);
      EveryRun(s1, f1, events[1..]);
      SameBaseTwice(s, s1, Run(s1, f1, events[1..]).0);
    } else {
      EveryRun(s, f, events[1..]);
    }
  }

  // ---------- An environment in which nothing was done yet ----------

  function Table(base: seq<Block>): map<nat, Lot> {
    if base == [] then map[] else Table(base[..|base| - 1])[base[|base| - 1].addr := LotOf(base[|base| - 1])]
  }

  lemma {:induction false} TableHas(base: seq<Block>)
    requires forall i, j :: 0 <= i < j < |base| ==> base[i].addr != base[j].addr
    ensures forall b :: b in base ==> b.addr in Table(base) && Table(base)[b.addr] == LotOf(b)
    ensures forall a :: a in Table(base) ==> exists b :: b in base && b.addr == a
  {
    if base != [] {
      var rest, last := base[..|base| - 1], base[|base| - 1];
      assert base == rest + [last];
      TableHas(rest);
      forall b | b in rest ensures b.addr != last.addr {
        var i :| 0 <= i < |rest| && rest[i] == b;
        assert base[i] == b;
      }
    }
  }

  // It shows the version: its bytes, in its blocks.
  lemma Untouched(s: State) returns (f: Flat)
    requires BaseOk(s) && BufsOk(s) && s.overlay == map[]
    ensures Inv(s) && RefinesFlat(s, f)
    ensures forall b, q :: b in s.base && Covers(b, q) ==> q in f.mem && Target(s, q) == Some(b)
    ensures f.blocks == Table(s.base)
  {
    f := Flat(imap p | Seen(s, p) :: Peek(s, p), Table(s.base));
    hide Target, Seen, Peek, Table, BufsOk;
    forall b, q | b in s.base && Covers(b, q) ensures Target(s, q) == Some(b) { TargetBase(s, q, b); }
    forall b, q | b in s.base && Covers(b, q) ensures q in f.mem { SeesBase(s, b, q); }
    forall a ensures TabledAt(s, f.blocks, a) { TableShows(s, a); }
  }

  lemma SeesBase(s: State, b: Block, q: nat)
    requires Inv(s) && b in s.base && Covers(b, q) && b.addr !in s.overlay
    ensures Seen(s, q)
  {
    TargetBase(s, q, b);
  }

  lemma TableShows(s: State, a: nat)
    requires Inv(s) && s.overlay == map[]
    ensures TabledAt(s, Table(s.base), a)
  {
    hide OverlayOk, OverBase, BufsOk, Table;
    TableHas(s.base);
    if Target(s, a).Some? { TargetCases(s, a); }
    if b :| b in s.base && b.addr == a { TargetBase(s, a, b); }
  }

  // ---------- What an environment's calls rest on ----------

  lemma RuntimeFlat(s: State, f: Flat, p: nat, room: nat)
    requires Inv(s) && RefinesFlat(s, f) && room !in s.bufs
    ensures var s1 := Writable(s, p, room);
            && Inv(s1) && RefinesFlat(s1, f) && SameBase(s, s1) && SameBase(s, s)
            && (Hit(s.overlay, p).Some? || Target(s, p).None? ==> s1 == s)
            && (Target(s, p).Some? ==> Target(s, p).value.addr <= p)
            && (Hit(s.overlay, p).None? && Target(s, p).Some? ==>
                  var b := Target(s, p).value;
                  b.buf in s.bufs && s1 == Copy(s, b, room) && Target(s1, p) == Some(b.(buf := room)))
  {
    RuntimeKeeps(s, f.mem, p, room);
    WritableTables(s, f, p, room);
    hide Inv, Refines, SameBase, Target, Writable, Hit;
  }

  lemma WritableTables(s: State, f: Flat, p: nat, room: nat)
    requires Inv(s) && RefinesFlat(s, f) && room !in s.bufs
    ensures Tabled(Writable(s, p, room), f.blocks)
  {
    UnderIs(s, p);
    forall a ensures TabledAt(Writable(s, p, room), f.blocks, a) {
      assert TabledAt(s, f.blocks, a);
      if Hit(s.overlay, p).None? && Under(s.base, p).Some? {
        var b := Under(s.base, p).value;
        TargetCases(s, p);
        CopyExtent(s, b, room, a);
      }
    }
  }

  lemma LoadPlace(s: State, f: Flat, p: nat, n: nat)
    requires Inv(s) && RefinesFlat(s, f) && (Target(s, p).Some? ==> InBlock(s, p, n))
    ensures Target(s, p).Some? ==>
              var t := Target(s, p).value;
              && t.addr <= p && t.buf in s.bufs && p - t.addr + n <= |s.bufs[t.buf]|
              && Loaded(s, p, n) == s.bufs[t.buf][p - t.addr..p - t.addr + n]
    ensures p in f.mem ==>
              && Target(s, p).Some?
              && forall q :: p <= q < p + n ==> q in f.mem && Loaded(s, p, n)[q - p] == f.mem[q]
  {
    assert Agrees(s, f.mem, p);
    if Target(s, p).Some? { TargetCases(s, p); TargetBacked(s, p); }
    if p in f.mem { LoadRefines(s, f.mem, p, n); }
  }

  lemma StoreReady(s: State, f: Flat, p: nat, bytes: seq<Byte>, room: nat)
    requires Inv(s) && RefinesFlat(s, f) && room !in s.bufs && (Target(s, p).Some? ==> InBlock(s, p, |bytes|))
    ensures if Target(s, p).None? then Writable(s, p, room) == s && SameBase(s, s)
            else
              var s1, s2 := Writable(s, p, room), Stored(s, p, bytes, room);
              var t := Target(s1, p);
              && t.Some? && t.value.buf in s1.bufs && t.value.addr <= p
              && s2 == Poke(s1, t.value, p - t.value.addr, bytes)
              && Inv(s2) && RefinesFlat(s2, FlatAfter(f, Write(p, bytes, room)))
              && (!SharedMarker(s, p) ==> SameBase(s, s2))
  {
    if Target(s, p).Some? {
      StoreFlat(s, f, p, bytes, room);
      StorePlace(s, f.mem, p, bytes, room);
    } else {
      NothingThere(s, p, room);
      SelfSame(s);
    }
    hide Inv, RefinesFlat, SameBase, Target, Writable, Stored, SharedMarker;
  }
}
