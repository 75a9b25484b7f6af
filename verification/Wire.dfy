/**
  A delta on its way to another host: its three lists through the packers and
  unpackers, its contents beside them.
 */
module Wire {
  import opened Options
  import opened Bytes
  import opened Seqs
  import opened Versions
  import opened History
  import opened Deltas
  import opened MoonNum
  import L = IdLists

  // ---------- The lists of a packet as the packers take them ----------

  ghost predicate SmallPacket(p: Packet) {
    && (forall x :: x in p.dels ==> x < B62)
    && (forall w :: w in p.writes ==> w.prev < B62 && w.id < B62)
    && (forall n :: n in p.news ==> n.id < B62 && n.typ < B62 && n.num < B62)
  }

  function AsWord(n: nat): L.Word
    requires n < B62
  {
    n
  }

  ghost function DelsOut(p: Packet): seq<L.Word>
    requires SmallPacket(p)
  {
    seq(|p.dels|, i requires 0 <= i < |p.dels| => assert p.dels[i] in p.dels; AsWord(p.dels[i]))
  }

  ghost function WritesOut(p: Packet): seq<L.IdPair>
    requires SmallPacket(p)
  {
    seq(|p.writes|, k requires 0 <= k < |p.writes| => assert p.writes[k] in p.writes; L.IdPair(p.writes[k].prev, p.writes[k].id))
  }

  ghost function NewsOut(p: Packet): seq<L.NewBlock>
    requires SmallPacket(p)
  {
    seq(|p.news|, i requires 0 <= i < |p.news| =>
      assert p.news[i] in p.news; L.NewBlock(p.news[i].typ, p.news[i].num, p.news[i].id))
  }

  // The packet made of received lists and contents.
  ghost function Received(dels: seq<L.Word>, pairs: seq<L.IdPair>, news: seq<L.NewBlock>,
                          written: seq<seq<int>>, made: seq<seq<int>>): Packet
    requires |pairs| == |written| && |news| == |made|
  {
    Packet(true, dels,
           seq(|pairs|, k requires 0 <= k < |pairs| => Write(pairs[k].prev, pairs[k].id, written[k])),
           seq(|news|, i requires 0 <= i < |news| => Shade(news[i].id, news[i].typ, news[i].num, made[i])))
  }

  ghost function WrittenData(p: Packet): (r: seq<seq<int>>)
    ensures |r| == |p.writes|
  {
    seq(|p.writes|, k requires 0 <= k < |p.writes| => p.writes[k].data)
  }

  ghost function MadeData(p: Packet): (r: seq<seq<int>>)
    ensures |r| == |p.news|
  {
    seq(|p.news|, i requires 0 <= i < |p.news| => p.news[i].data)
  }

  // ---------- The lists of a delta are sorted ----------

  lemma {:induction false} RisingDels(s: Version, ids: seq<L.Word>, last: L.Word)
    requires Rising(s, IdOf) && ids == Map(s, IdOf) && (forall b :: b in s ==> IdOf(b) < B62)
    requires s != [] ==> last <= IdOf(s[0])
    ensures L.RisingIds(ids, last)
  {
    if s != [] {
      assert ids[1..] == Map(s[1..], IdOf) && ids[0] == IdOf(s[0]) && s[0] in s;
      RisingDels(s[1..], ids[1..], ids[0]);
    }
  }

  lemma {:induction false} RisingWrites(ps: seq<L.IdPair>, last: L.Word)
    requires forall i, j :: 0 <= i < j < |ps| ==> ps[i].prev < ps[j].prev
    requires forall i :: 0 <= i < |ps| ==> ps[i].prev <= ps[i].id < B62
    requires ps != [] ==> last <= ps[0].prev
    ensures L.RisingPairs(ps, last)
  {
    if ps != [] { RisingWrites(ps[1..], ps[0].prev); }
  }

  lemma {:induction false} RisingMade(bs: seq<L.NewBlock>, last: L.Word)
    requires forall i, j :: 0 <= i < j < |bs| ==> bs[i].id < bs[j].id
    requires forall i :: 0 <= i < |bs| ==> bs[i].id < B62 && bs[i].typ < B62 && bs[i].num < B62
    requires bs != [] ==> last <= bs[0].id
    ensures L.RisingNews(bs, last)
  {
    if bs != [] { RisingMade(bs[1..], bs[0].id); }
  }

  ghost predicate Small(v: Version) {
    |v| < B31 && forall b :: b in v ==> b.shade.typ < B62 && b.shade.num < B62
  }

  lemma DeltaSmall(v0: Version, v: Version)
    requires Descends(v0, v) && MaxId(v) < B62 && Small(v)
    ensures SmallPacket(Delta(v0, v))
    ensures forall w :: w in Delta(v0, v).writes ==> w.prev <= w.id
  {
    var d := Delta(v0, v);
    MaxIsMax(v0);
    MaxIsMax(v);
    forall w | w in d.writes ensures w.prev <= w.id < B62 && w.prev < B62 {
      var k :| 0 <= k < |d.writes| && d.writes[k] == w;
      var c := Changed(v0, v)[k];
      assert c in Changed(v0, v);
      Fares(v0, v, c);
    }
    forall n | n in d.news ensures n.id < B62 && n.typ < B62 && n.num < B62 {
      var i :| 0 <= i < |d.news| && d.news[i] == n;
      assert Fresh(v0, v)[i] in Fresh(v0, v);
    }
    forall x | x in d.dels ensures x < B62 {
      var i :| 0 <= i < |d.dels| && d.dels[i] == x;
      assert Gone(v0, v)[i] in Gone(v0, v);
    }
  }

  lemma DeltaSorted(v0: Version, v: Version)
    requires Descends(v0, v) && MaxId(v) < B62 && Small(v) && SmallPacket(Delta(v0, v))
    ensures L.RisingIds(DelsOut(Delta(v0, v)), 0)
    ensures L.RisingPairs(WritesOut(Delta(v0, v)), 0)
    ensures L.RisingNews(NewsOut(Delta(v0, v)), 0)
  {
    var d := Delta(v0, v);
    DeltaSmall(v0, v);
    FilterRising(v0, (c: Block) => IsGone(c, v), IdOf);
    FilterRising(v0, (c: Block) => IsChanged(c, v), IdOf);
    FilterRising(v, (b: Block) => IsHigh(b, v0) && b.vaddr !in Addrs(v0), IdOf);
    DelsSorted(Gone(v0, v), d);
    WritesSorted(Changed(v0, v), v, d);
    NewsSorted(Fresh(v0, v), d);
  }

  lemma DelsSorted(g: Version, d: Packet)
    requires Rising(g, IdOf) && SmallPacket(d) && d.dels == Map(g, IdOf)
    ensures L.RisingIds(DelsOut(d), 0)
  {
    forall b | b in g ensures IdOf(b) < B62 {
      var i :| 0 <= i < |g| && g[i] == b;
      assert d.dels[i] in d.dels;
    }
    RisingDels(g, DelsOut(d), 0);
  }

  lemma WritesSorted(ch: Version, v: Version, d: Packet)
    requires Rising(ch, IdOf) && SmallPacket(d) && d.writes == Map(ch, (c: Block) => WriteOf(c, v))
    requires forall w :: w in d.writes ==> w.prev <= w.id
    ensures L.RisingPairs(WritesOut(d), 0)
  {
    var ps := WritesOut(d);
    forall i | 0 <= i < |ps| ensures ps[i].prev == IdOf(ch[i]) && ps[i].prev <= ps[i].id < B62 {
      assert d.writes[i] in d.writes;
    }
    hide *;
    RisingWrites(ps, 0);
  }

  lemma NewsSorted(fr: Version, d: Packet)
    requires Rising(fr, IdOf) && SmallPacket(d) && d.news == Map(fr, ShadeOf)
    ensures L.RisingNews(NewsOut(d), 0)
  {
    var bs := NewsOut(d);
    forall i | 0 <= i < |bs| ensures bs[i].id == IdOf(fr[i]) && bs[i].id < B62 && bs[i].typ < B62 && bs[i].num < B62 {
      assert d.news[i] in d.news;
    }
    RisingMade(bs, 0);
  }

  // ---------- There and back ----------

  // A list that is empty is not sent; a bit of the head (HAS_DELS, HAS_NEWS) says whether it is.
  ghost function DelBytes(p: Packet): Option<seq<Byte>>
    requires SmallPacket(p)
  {
    if p.dels == [] then Some([]) else L.IdBytes(DelsOut(p))
  }

  ghost function MadeBytes(p: Packet): Option<seq<Byte>>
    requires SmallPacket(p)
  {
    if p.news == [] then Some([]) else L.NewBytes(NewsOut(p))
  }

  // The lists one after the other, and `tail` behind them.
  ghost function Sent(p: Packet, tail: seq<Byte>): Option<seq<Byte>>
    requires SmallPacket(p)
  {
    match (DelBytes(p), L.PairBytes(WritesOut(p)), MadeBytes(p))
    case (Some(a), Some(b), Some(c)) => Some(a + (b + (c + tail)))
    case _ => None
  }

  ghost function ReadDels(has: bool, s: seq<Byte>): Option<(seq<L.Word>, seq<Byte>)> {
    if has then L.ReadIds(s) else Some(([], s))
  }

  ghost function ReadMade(has: bool, s: seq<Byte>): Option<(seq<L.NewBlock>, seq<Byte>)> {
    if has then L.ReadNews(s) else Some(([], s))
  }

  // Reading the lists in turn and putting the contents back.
  ghost function Arrived(s: seq<Byte>, hasDels: bool, hasNews: bool, written: seq<seq<int>>, made: seq<seq<int>>)
    : Option<(Packet, seq<Byte>)>
  {
    match ReadDels(hasDels, s)
    case None => None
    case Some((dels, t)) =>
      match L.ReadPairs(t)
      case None => None
      case Some((pairs, u)) =>
        match ReadMade(hasNews, u)
        case None => None
        case Some((news, w)) =>
          if |pairs| == |written| && |news| == |made| then Some((Received(dels, pairs, news, written, made), w))
          else None
  }

  // What the other host makes of what this one sends.
  ghost function Delivered(p: Packet, tail: seq<Byte>): Option<(Packet, seq<Byte>)>
    requires SmallPacket(p)
  {
    match Sent(p, tail)
    case None => None
    case Some(s) => Arrived(s, p.dels != [], p.news != [], WrittenData(p), MadeData(p))
  }

  lemma OutIsIn(p: Packet)
    requires SmallPacket(p) && p.hasNewId
    ensures Received(DelsOut(p), WritesOut(p), NewsOut(p), WrittenData(p), MadeData(p)) == p
  {
    var r := Received(DelsOut(p), WritesOut(p), NewsOut(p), WrittenData(p), MadeData(p));
    assert r.dels == p.dels && r.writes == p.writes && r.news == p.news;
  }

  /**
    The delta between two versions of a chain whose ids, types and counts fit the
    numbers of a packet is packed, and arrives as it was sent.
   */
  lemma DeltaTravels(v0: Version, v: Version, tail: seq<Byte>)
    requires Descends(v0, v) && MaxId(v) < B62 && Small(v) && |v0| < B31
    ensures var d := Delta(v0, v);
            && SmallPacket(d)
            && Delivered(d, tail) == Some((d, tail))
  {
    var d := Delta(v0, v);
    DeltaSmall(v0, v);
    DeltaSorted(v0, v);
    DeltaShort(v0, v);
    assert SendReady(d);
    hide *;
    PacketTravels(d, tail);
  }

  ghost predicate SendReady(p: Packet) {
    && p.hasNewId && SmallPacket(p)
    && L.RisingIds(DelsOut(p), 0) && L.RisingPairs(WritesOut(p), 0) && L.RisingNews(NewsOut(p), 0)
    && |DelsOut(p)| < B31 && |WritesOut(p)| < B31 && |NewsOut(p)| < B31
  }

  lemma PacketTravels(p: Packet, tail: seq<Byte>)
    requires SendReady(p)
    ensures SmallPacket(p) && Delivered(p, tail) == Some((p, tail))
  {
    hide SmallPacket, Received, L.RisingIds, L.RisingPairs, L.RisingNews, L.IdBytes, L.PairBytes, L.NewBytes,
      L.ReadIds, L.ReadPairs, L.ReadNews;
    var a, b, c := DelsOut(p), WritesOut(p), NewsOut(p);
    L.SortedListsTravel(a, b, c, tail);
    var x, y, z := DelBytes(p).value, L.PairBytes(b).value, MadeBytes(p).value;
    L.IdListRoundTrip(a, y + (z + tail));
    L.PairListRoundTrip(b, z + tail);
    assert Sent(p, tail) == Some(x + (y + (z + tail)));
    assert [] + tail == tail && [] + (y + (z + tail)) == y + (z + tail);
    OutIsIn(p);
  }

  lemma DeltaShort(v0: Version, v: Version)
    requires Descends(v0, v) && |v0| < B31 && |v| < B31 && SmallPacket(Delta(v0, v))
    ensures var d := Delta(v0, v);
            d.hasNewId && |DelsOut(d)| < B31 && |WritesOut(d)| < B31 && |NewsOut(d)| < B31
  {
    PartsOfEarlier(v0, v);
    PartsOfLater(v0, v);
  }

  /** So a host that has a replica of the earlier version and receives the delta ends up with one of the later. */
  lemma SentDeltaCatchesUp(v0: Version, v: Version, tail: seq<Byte>, r0: Version, addrs: seq<nat>, r: Option<Version>)
    requires Descends(v0, v) && MaxId(v) < B62 && Small(v) && |v0| < B31 && Changed(v0, v) != []
    requires Replica(r0, v0) && r0 != [] && |addrs| == |Delta(v0, v).news|
    requires SmallPacket(Delta(v0, v))
    requires var got := Delivered(Delta(v0, v), tail);
             got.Some? ==> |addrs| == |got.value.0.news| && Merges(r0, got.value.0, addrs, r)
    ensures r.Some? && Replica(r.value, v)
  {
    DeltaTravels(v0, v, tail);
    hide Delivered, Merges, Delta, Replica, SmallPacket;
    DeltaCatchesUp(v0, v, r0, addrs, r);
  }
}
