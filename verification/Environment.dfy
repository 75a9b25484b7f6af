/** One thread's environment of moon_runtime.c, worked on through shadow_runtime, shadow_new and shadow_del. */
module Environment {

  import opened Options
  import opened Bytes
  import opened Overlay
  import opened Lists

  class Env {
    const base: seq<Block>           // order_addr of the version
    var overlay: map<nat, Block>     // the tree of changed blocks
    var bufs: map<nat, seq<Byte>>
    ghost var flat: Flat             // what the program sees

    ghost function View(): State
      reads this
    {
      State(base, overlay, bufs)
    }

    ghost predicate Valid()
      reads this
    {
      Inv(View()) && RefinesFlat(View(), flat)
    }

    // An environment starts with nothing changed: it sees the version.
    constructor (version: seq<Block>, buffers: map<nat, seq<Byte>>)
      requires var s := State(version, map[], buffers); BaseOk(s) && BufsOk(s)
      ensures Valid() && base == version && overlay == map[] && bufs == buffers && flat.blocks == Table(version)
      ensures forall b, q :: b in version && Covers(b, q) ==> q in flat.mem && Target(View(), q) == Some(b)
    {
      base, overlay, bufs := version, map[], buffers;
      ghost var f := Untouched(State(version, map[], buffers));
      flat := f;
    }

    // avl_search: the greatest key up to `p`.
    method Floor(p: nat) returns (r: Option<nat>)
      ensures FloorKey(overlay, p, r)
    {
      r := None;
      var rest := overlay.Keys;
      while rest != {}
        invariant rest <= overlay.Keys
        invariant r.Some? ==> r.value in overlay && r.value <= p
        invariant forall k :: k in overlay && k !in rest && k <= p ==> r.Some? && k <= r.value
        decreases |rest|
      {
        var k := Pick(rest);
        rest := rest - {k};
        if k <= p && (r.None? || r.value < k) { r := Some(k); }
      }
    }

    // The tree half of shadow_runtime: floor, then range.
    method InTree(p: nat) returns (r: Option<Block>)
      requires OverlayOk(View())
      ensures r == Hit(overlay, p)
    {
      var k := Floor(p);
      ghost var h := Hit(overlay, p);
      if h.Some? {
        ghost var a :| a in overlay && overlay[a] == h.value && Covers(h.value, p);
        FloorIs(View(), p, k, a);
      }
      if k.Some? && p < overlay[k.value].addr + overlay[k.value].len { return Some(overlay[k.value]); }
      return None;
    }

    // The two lookups of shadow_runtime.
    method Find(p: nat) returns (t: Option<Block>, inTree: bool)
      requires OverlayOk(View())
      ensures t == Target(View(), p) && inTree == Hit(overlay, p).Some?
    {
      t := InTree(p);
      inTree := t.Some?;
      if !inTree { t := Under(base, p); }
    }

    method CopyBlock(b: Block, room: nat)
      requires b.buf in bufs
      modifies this
      ensures b.buf in old(bufs) && View() == Copy(old(View()), b, room) && flat == old(flat)
    {
      bufs := bufs[room := bufs[b.buf]];
      overlay := overlay[b.addr := b.(buf := room)];
    }

    /** shadow_runtime: where the bytes at `p` are, after a copy if they are to be written.  Nobody can tell the copy. */
    method Runtime(p: nat, write: bool, room: nat) returns (place: Option<Place>)
      requires Valid() && room !in bufs
      modifies this
      ensures Valid() && flat == old(flat) && SameBase(old(View()), View())
      ensures View() == if write then Writable(old(View()), p, room) else old(View())
      ensures place.Some? <==> Target(View(), p).Some?
      ensures place.Some? ==> var t := Target(View(), p).value; t.addr <= p && place.value == Place(t.buf, p - t.addr)
    {
      RuntimeFlat(View(), flat, p, room);
      var t, inTree := Find(p);
      hide *;
      if t.None? { return None; }
      var b := t.value;
      place := Some(Place(b.buf, p - b.addr));
      if write && !inTree {
        CopyBlock(b, room);
        place := Some(Place(room, p - b.addr));
      }
    }

    /**
      A read inside a block gives its bytes, those of the flat memory if it is live; an
      address of no block is refused.
     */
    method Load(p: nat, n: nat, room: nat) returns (bytes: Option<seq<Byte>>)
      requires Valid() && room !in bufs
      requires Target(View(), p).Some? ==> InBlock(View(), p, n)
      modifies this
      ensures Valid() && flat == old(flat) && View() == old(View())
      ensures bytes == if Target(View(), p).Some? then Some(Loaded(View(), p, n)) else None
      ensures p in flat.mem ==>
                bytes.Some? && forall q :: p <= q < p + n ==> q in flat.mem && bytes.value[q - p] == flat.mem[q]
    {
      hide Inv, RefinesFlat, Target, SameBase, Writable, Loaded, InBlock, Hit, Under;
      LoadPlace(View(), flat, p, n);
      var place := Runtime(p, false, room);
      if place.None? { return None; }
      var at := place.value;
      return Some(bufs[at.buf][at.off..at.off + n]);
    }

    /**
      A write inside a block changes the flat memory there and nowhere else, and not at all
      if the block is deleted.  The version stays as it is, unless the write goes through
      the marker of a block that was deleted without having been written.
     */
    method Store(p: nat, bytes: seq<Byte>, room: nat) returns (ok: bool)
      requires Valid() && room !in bufs
      requires Target(View(), p).Some? ==> InBlock(View(), p, |bytes|)
      modifies this
      ensures Valid()
      ensures ok == Target(old(View()), p).Some?
      ensures flat == if ok then FlatAfter(old(flat), Write(p, bytes, room)) else old(flat)
      ensures SharedMarker(old(View()), p) || SameBase(old(View()), View())
    {
      hide Inv, RefinesFlat, Target, SameBase, Writable, Stored, InBlock, SharedMarker, FlatAfter, Hit, Under, Patch;
      StoreReady(View(), flat, p, bytes, room);
      var place := Runtime(p, true, room);
      if place.None? { return false; }
      var at := place.value;
      bufs := bufs[at.buf := Patch(bufs[at.buf], at.off, bytes)];
      flat := FlatAfter(flat, Write(p, bytes, room));
      return true;
    }

    /**
      shadow_new: zero bytes in a range of its own, in a live block of the length, type and
      count asked for that is no block of the version; the other blocks are as they were.
     */
    method New(at: nat, size: nat, kind: Kind, room: nat)
      requires Valid() && room !in bufs && size > 0 && Clear(View(), Block(at, size, 0, room, false, kind))
      modifies this
      ensures Valid() && SameBase(old(View()), View())
      ensures flat == FlatAfter(old(flat), Make(at, size, room, kind))
      ensures at !in old(flat).blocks && flat.blocks == old(flat).blocks[at := Lot(size, kind, true)]
      ensures Target(View(), at).Some? && var t := Target(View(), at).value;
                                       t.addr == at && t.len == size && t.id == 0 && !t.gone && t.kind == kind
      ensures forall q :: q in flat.mem <==> q in old(flat).mem || Within(at, size, q)
      ensures forall q :: q in flat.mem ==> flat.mem[q] == if Within(at, size, q) then 0 else old(flat).mem[q]
    {
      MakeFlat(View(), flat, at, size, room, kind);
      NewThere(View(), flat, at, size, room, kind);
      hide Inv, RefinesFlat, SameBase, FlatAfter;
      bufs := bufs[room := seq(size, i requires 0 <= i < size => 0)];
      overlay := overlay[at := Block(at, size, 0, room, false, kind)];
      flat := FlatAfter(flat, Make(at, size, room, kind));
    }

    /** shadow_del: the block that starts at `a` is gone from the flat memory; any other address changes nothing. */
    method Delete(a: nat)
      requires Valid()
      modifies this
      ensures Valid() && SameBase(old(View()), View())
      ensures flat == FlatAfter(old(flat), Remove(a))
    {
      ghost var was := View();
      DeleteFlat(was, flat, a);
      hide Inv, RefinesFlat, SameBase, FlatAfter;
      flat := FlatAfter(flat, Remove(a));
      var k := Floor(a);
      if k == Some(a) {
        if overlay[a].id == 0 {
          overlay := overlay - {a};
        } else {
          overlay := overlay[a := overlay[a].(gone := true)];
        }
      } else {
        var low := Under(base, a);
        if low.Some? && low.value.addr == a { overlay := overlay[a := low.value.(gone := true)]; }
      }
      assert View() == Deleted(was, a);
    }
  }
}
