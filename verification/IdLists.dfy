/**
  The delta-coded lists of an update packet (moon_runtime.c): deleted ids, pairs of
  previous and new id, and new blocks.  Differences and sums wrap as uint64_t does.
 */
module IdLists {
  import opened Options
  import opened Bytes
  import opened MoonNum

  type Word = n: int | 0 <= n < B64

  function Sub(a: Word, b: Word): Word { (a - b) % B64 }
  function Add(a: Word, b: Word): Word { (a + b) % B64 }

  lemma AddSub(a: Word, b: Word)
    ensures Sub(a, b) % B64 == Sub(a, b) && Add(b, Sub(a, b)) == a
  {
  }

  // An int count read from a 64-bit number keeps the low 32 bits, signed.
  function ToInt32(n: nat): int {
    var x := n % 0x1_0000_0000;
    if x >= B31 then x - 0x1_0000_0000 else x
  }

  // ---------- Runs of numbers ----------

  ghost function EncodeAll(ns: seq<nat>): Option<seq<Byte>> {
    if ns == [] then Some([])
    else
      match (Encode(ns[0]), EncodeAll(ns[1..]))
      case (Some(a), Some(b)) => Some(a + b)
      case _ => None
  }

  ghost function DecodeAll(k: nat, s: seq<Byte>): Option<(seq<nat>, seq<Byte>)> {
    if k == 0 then Some(([], s))
    else
      match Decode(s)
      case None => None
      case Some((n, t)) =>
        match DecodeAll(k - 1, t)
        case None => None
        case Some((ns, u)) => Some(([n] + ns, u))
  }

  lemma EncodesIff(n: nat)
    ensures Encode(n).Some? <==> n < B62
  {
  }

  lemma {:induction false} AllEncodes(ns: seq<nat>)
    ensures EncodeAll(ns).Some? <==> forall n :: n in ns ==> n < B62
  {
    hide Encode;
    if ns != [] {
      EncodesIff(ns[0]);
      AllEncodes(ns[1..]);
      assert ns[0] in ns;
      assert forall n :: n in ns[1..] ==> n in ns;
      assert forall n :: n in ns ==> n == ns[0] || n in ns[1..];
    }
  }

  lemma {:induction false} AllRoundTrip(ns: seq<nat>, tail: seq<Byte>)
    requires EncodeAll(ns).Some?
    ensures DecodeAll(|ns|, EncodeAll(ns).value + tail) == Some((ns, tail))
  {
    AllEncodes(ns);
    hide Encode, Decode;
    if ns == [] {
      assert [] + tail == tail;
    } else {
      AllRoundTrip(ns[1..], tail);
      assert ns[0] in ns;
      var a, b := Encode(ns[0]).value, EncodeAll(ns[1..]).value;
      RoundTrip(ns[0], b + tail);
      assert (a + b) + tail == a + (b + tail);
      assert ns == [ns[0]] + ns[1..];
    }
  }

  lemma {:induction false} EncodeConcat(a: seq<nat>, b: seq<nat>)
    ensures EncodeAll(a + b) ==
            match (EncodeAll(a), EncodeAll(b))
            case (Some(x), Some(y)) => Some(x + y)
            case _ => None
  {
    hide Encode;
    if a == [] {
      assert a + b == b;
      assert EncodeAll(b).Some? ==> [] + EncodeAll(b).value == EncodeAll(b).value;
    } else {
      assert (a + b)[1..] == a[1..] + b;
      EncodeConcat(a[1..], b);
      if EncodeAll(a).Some? && EncodeAll(b).Some? {
        var x, y, z := Encode(a[0]).value, EncodeAll(a[1..]).value, EncodeAll(b).value;
        assert x + (y + z) == (x + y) + z;
      }
    }
  }

  // ---------- What the lists say as runs of numbers ----------

  datatype IdPair = IdPair(prev: Word, id: Word)
  datatype NewBlock = NewBlock(typ: nat, num: nat, id: Word)

  ghost function IdNums(ids: seq<Word>, last: Word): seq<nat> {
    if ids == [] then [] else [Sub(ids[0], last)] + IdNums(ids[1..], ids[0])
  }

  ghost function PairNums(ps: seq<IdPair>, last: Word): seq<nat> {
    if ps == [] then []
    else [Sub(ps[0].prev, last), Sub(ps[0].id, ps[0].prev)] + PairNums(ps[1..], ps[0].prev)
  }

  ghost function NewNums(bs: seq<NewBlock>, last: Word): seq<nat> {
    if bs == [] then []
    else [bs[0].typ, bs[0].num, Sub(bs[0].id, last)] + NewNums(bs[1..], bs[0].id)
  }

  ghost function NumsIds(ns: seq<nat>, last: Word): seq<Word> {
    if ns == [] then []
    else
      var id := Add(last, ns[0] % B64);
      [id] + NumsIds(ns[1..], id)
  }

  ghost function NumsPairs(ns: seq<nat>, last: Word): seq<IdPair> {
    if |ns| < 2 then []
    else
      var prev := Add(last, ns[0] % B64);
      [IdPair(prev, Add(prev, ns[1] % B64))] + NumsPairs(ns[2..], prev)
  }

  ghost function NumsNews(ns: seq<nat>, last: Word): seq<NewBlock> {
    if |ns| < 3 then []
    else
      var id := Add(last, ns[2] % B64);
      [NewBlock(ns[0], ns[1], id)] + NumsNews(ns[3..], id)
  }

  // ---------- The lists as bytes ----------

  ghost function IdBytes(ids: seq<Word>): Option<seq<Byte>> { EncodeAll([|ids|] + IdNums(ids, 0)) }
  ghost function PairBytes(ps: seq<IdPair>): Option<seq<Byte>> { EncodeAll([|ps|] + PairNums(ps, 0)) }
  ghost function NewBytes(bs: seq<NewBlock>): Option<seq<Byte>> { EncodeAll([|bs|] + NewNums(bs, 0)) }

  // A list is its count, an int, and then that many rows of `width` numbers.
  ghost function ReadList(width: nat, s: seq<Byte>): Option<(seq<nat>, seq<Byte>)> {
    match Decode(s)
    case None => None
    case Some((c, t)) => DecodeAll(width * (if ToInt32(c) > 0 then ToInt32(c) else 0), t)
  }

  ghost function ReadIds(s: seq<Byte>): Option<(seq<Word>, seq<Byte>)> {
    match ReadList(1, s)
    case None => None
    case Some((ns, t)) => Some((NumsIds(ns, 0), t))
  }

  ghost function ReadPairs(s: seq<Byte>): Option<(seq<IdPair>, seq<Byte>)> {
    match ReadList(2, s)
    case None => None
    case Some((ns, t)) => Some((NumsPairs(ns, 0), t))
  }

  ghost function ReadNews(s: seq<Byte>): Option<(seq<NewBlock>, seq<Byte>)> {
    match ReadList(3, s)
    case None => None
    case Some((ns, t)) => Some((NumsNews(ns, 0), t))
  }

  lemma {:induction false} IdsBack(ids: seq<Word>, last: Word)
    ensures |IdNums(ids, last)| == |ids| && NumsIds(IdNums(ids, last), last) == ids
  {
    hide Add, Sub;
    if ids != [] {
      AddSub(ids[0], last);
      IdsBack(ids[1..], ids[0]);
      assert IdNums(ids, last)[1..] == IdNums(ids[1..], ids[0]);
    }
  }

  lemma {:induction false} PairsBack(ps: seq<IdPair>, last: Word)
    ensures |PairNums(ps, last)| == 2 * |ps| && NumsPairs(PairNums(ps, last), last) == ps
  {
    hide Add, Sub;
    if ps != [] {
      AddSub(ps[0].prev, last);
      AddSub(ps[0].id, ps[0].prev);
      PairsBack(ps[1..], ps[0].prev);
      assert PairNums(ps, last)[2..] == PairNums(ps[1..], ps[0].prev);
    }
  }

  lemma {:induction false} NewsBack(bs: seq<NewBlock>, last: Word)
    ensures |NewNums(bs, last)| == 3 * |bs| && NumsNews(NewNums(bs, last), last) == bs
  {
    hide Add, Sub;
    if bs != [] {
      AddSub(bs[0].id, last);
      NewsBack(bs[1..], bs[0].id);
      assert NewNums(bs, last)[3..] == NewNums(bs[1..], bs[0].id);
    }
  }

  // ---------- The packers and unpackers as the source runs them ----------

  // Append a number to what has been packed so far; None once one was refused.
  method Put(out: Option<seq<Byte>>, n: nat) returns (r: Option<seq<Byte>>)
    ensures r == (match (out, Encode(n))
                  case (Some(a), Some(b)) => Some(a + b)
                  case _ => None)
  {
    var e := Encode(n);
    if out.Some? && e.Some? {
      r := Some(out.value + e.value);
    } else {
      r := None;
    }
  }

  lemma EncodeOne(n: nat)
    ensures EncodeAll([n]) == Encode(n)
  {
    hide Encode;
    assert [n][1..] == [];
    assert EncodeAll([n][1..]) == Some([]);
    assert Encode(n).Some? ==> Encode(n).value + [] == Encode(n).value;
  }

  lemma EncodePush(ns: seq<nat>, n: nat)
    ensures EncodeAll(ns + [n]) == (match (EncodeAll(ns), Encode(n))
                                    case (Some(a), Some(b)) => Some(a + b)
                                    case _ => None)
  {
    EncodeOne(n);
    EncodeConcat(ns, [n]);
  }

  lemma {:induction false} IdNumsPush(ids: seq<Word>, i: nat, last: Word)
    requires i < |ids|
    ensures IdNums(ids[..i + 1], last) == IdNums(ids[..i], last) + [Sub(ids[i], if i == 0 then last else ids[i - 1])]
  {
    if i > 0 {
      IdNumsPush(ids[1..], i - 1, ids[0]);
      assert ids[..i + 1][1..] == ids[1..][..i] && ids[..i][1..] == ids[1..][..i - 1];
    }
  }

  // packet_del_data.
  method PackIds(ids: seq<Word>) returns (r: Option<seq<Byte>>)
    ensures r == IdBytes(ids)
  {
    hide Encode, EncodeAll, Sub, IdNums;
    var last: Word := 0;
    r := Put(Some([]), |ids|);
    StartPack(|ids|);
    IdNumsStart(ids);
    for i := 0 to |ids|
      invariant r == EncodeAll([|ids|] + IdNums(ids[..i], 0))
      invariant last == if i == 0 then 0 else ids[i - 1]
    {
      IdNumsPush(ids, i, 0);
      EncodePush([|ids|] + IdNums(ids[..i], 0), Sub(ids[i], last));
      assert [|ids|] + IdNums(ids[..i], 0) + [Sub(ids[i], last)] == [|ids|] + IdNums(ids[..i + 1], 0);
      r := Put(r, Sub(ids[i], last));
      last := ids[i];
    }
    assert ids[..|ids|] == ids;
  }

  lemma StartPack(n: nat)
    ensures (match Encode(n) case Some(b) => Some([] + b) case None => None) == EncodeAll([n])
  {
    EncodeOne(n);
    assert Encode(n).Some? ==> [] + Encode(n).value == Encode(n).value;
  }

  lemma IdNumsStart(ids: seq<Word>)
    ensures [|ids|] + IdNums(ids[..0], 0) == [|ids|]
  {
  }

  lemma {:induction false} PairNumsPush(ps: seq<IdPair>, i: nat, last: Word)
    requires i < |ps|
    ensures PairNums(ps[..i + 1], last) == PairNums(ps[..i], last)
                                           + [Sub(ps[i].prev, if i == 0 then last else ps[i - 1].prev), Sub(ps[i].id, ps[i].prev)]
  {
    if i > 0 {
      PairNumsPush(ps[1..], i - 1, ps[0].prev);
      assert ps[..i + 1][1..] == ps[1..][..i] && ps[..i][1..] == ps[1..][..i - 1];
    }
  }

  // packet_write_data_id.
  method PackPairs(ps: seq<IdPair>) returns (r: Option<seq<Byte>>)
    ensures r == PairBytes(ps)
  {
    hide Encode, EncodeAll, Sub, PairNums;
    var last: Word := 0;
    r := Put(Some([]), |ps|);
    StartPack(|ps|);
    PairNumsStart(ps);
    for i := 0 to |ps|
      invariant r == EncodeAll([|ps|] + PairNums(ps[..i], 0))
      invariant last == if i == 0 then 0 else ps[i - 1].prev
    {
      var a, b := Sub(ps[i].prev, last), Sub(ps[i].id, ps[i].prev);
      ghost var ns := [|ps|] + PairNums(ps[..i], 0);
      PairNumsPush(ps, i, 0);
      EncodePush(ns, a);
      EncodePush(ns + [a], b);
      assert ns + [a] + [b] == [|ps|] + PairNums(ps[..i + 1], 0);
      r := Put(r, a);
      r := Put(r, b);
      last := ps[i].prev;
    }
    assert ps[..|ps|] == ps;
  }

  lemma PairNumsStart(ps: seq<IdPair>)
    ensures [|ps|] + PairNums(ps[..0], 0) == [|ps|]
  {
  }

  lemma {:induction false} NewNumsPush(bs: seq<NewBlock>, i: nat, last: Word)
    requires i < |bs|
    ensures NewNums(bs[..i + 1], last) == NewNums(bs[..i], last)
                                          + [bs[i].typ, bs[i].num, Sub(bs[i].id, if i == 0 then last else bs[i - 1].id)]
  {
    if i > 0 {
      NewNumsPush(bs[1..], i - 1, bs[0].id);
      assert bs[..i + 1][1..] == bs[1..][..i] && bs[..i][1..] == bs[1..][..i - 1];
    }
  }

  // packet_new_data_id.
  method PackNews(bs: seq<NewBlock>) returns (r: Option<seq<Byte>>)
    ensures r == NewBytes(bs)
  {
    hide Encode, EncodeAll, Sub, NewNums;
    var last: Word := 0;
    r := Put(Some([]), |bs|);
    StartPack(|bs|);
    NewNumsStart(bs);
    for i := 0 to |bs|
      invariant r == EncodeAll([|bs|] + NewNums(bs[..i], 0))
      invariant last == if i == 0 then 0 else bs[i - 1].id
    {
      var a, b, c := bs[i].typ, bs[i].num, Sub(bs[i].id, last);
      ghost var ns := [|bs|] + NewNums(bs[..i], 0);
      NewNumsPush(bs, i, 0);
      EncodePush(ns, a);
      EncodePush(ns + [a], b);
      EncodePush(ns + [a] + [b], c);
      assert ns + [a] + [b] + [c] == [|bs|] + NewNums(bs[..i + 1], 0);
      r := Put(r, a);
      r := Put(r, b);
      r := Put(r, c);
      last := bs[i].id;
    }
    assert bs[..|bs|] == bs;
  }

  lemma NewNumsStart(bs: seq<NewBlock>)
    ensures [|bs|] + NewNums(bs[..0], 0) == [|bs|]
  {
  }

  // How far a reader has come: `got` of `total` numbers, with `rest` to go.
  ghost predicate Reading(total: nat, s: seq<Byte>, got: seq<nat>, rest: seq<Byte>) {
    && |got| <= total
    && DecodeAll(total, s) ==
       match DecodeAll(total - |got|, rest)
       case None => None
       case Some((ms, u)) => Some((got + ms, u))
  }

  lemma ReadStart(total: nat, s: seq<Byte>)
    ensures Reading(total, s, [], s)
  {
    assert DecodeAll(total, s).Some? ==> [] + DecodeAll(total, s).value.0 == DecodeAll(total, s).value.0;
  }

  lemma ReadStep(total: nat, s: seq<Byte>, got: seq<nat>, rest: seq<Byte>)
    requires Reading(total, s, got, rest) && |got| < total
    ensures Decode(rest).None? ==> DecodeAll(total, s) == None
    ensures Decode(rest).Some? ==> Reading(total, s, got + [Decode(rest).value.0], Decode(rest).value.1)
  {
    hide Decode;
    if Decode(rest).Some? {
      var (n, t) := Decode(rest).value;
      if DecodeAll(total - |got| - 1, t).Some? {
        var (ms, _) := DecodeAll(total - |got| - 1, t).value;
        assert got + ([n] + ms) == (got + [n]) + ms;
      }
    }
  }

  lemma ReadEnd(total: nat, s: seq<Byte>, got: seq<nat>, rest: seq<Byte>)
    requires Reading(total, s, got, rest) && |got| == total
    ensures DecodeAll(total, s) == Some((got, rest))
  {
    assert got + [] == got;
  }

  lemma {:induction false} NumsIdsPush(ns: seq<nat>, n: nat, last: Word)
    ensures |NumsIds(ns, last)| == |ns|
    ensures NumsIds(ns + [n], last) ==
            NumsIds(ns, last) + [Add(if ns == [] then last else NumsIds(ns, last)[|ns| - 1], n % B64)]
  {
    if ns == [] {
      assert ns + [n] == [n];
    } else {
      var id := Add(last, ns[0] % B64);
      NumsIdsPush(ns[1..], n, id);
      assert (ns + [n])[1..] == ns[1..] + [n];
    }
  }

  // unpack_del_data.
  method UnpackIds(s: seq<Byte>) returns (r: Option<(seq<Word>, seq<Byte>)>)
    ensures r == ReadIds(s)
  {
    var c := Decode(s);
    if c.None? {
      return None;
    }
    var num := ToInt32(c.value.0);
    var rest := c.value.1;
    hide Decode, DecodeAll, NumsIds, Reading, Add, ToInt32;
    ghost var total: nat, got: seq<nat> := if num > 0 then num else 0, [];
    var out: seq<Word> := [];
    var id: Word := 0;
    ReadStart(total, rest);
    NumsIdsStart();
    var i := 0;
    while i < num
      invariant 0 <= i && |got| == i <= total
      invariant Reading(total, c.value.1, got, rest)
      invariant out == NumsIds(got, 0) && |out| == |got| && id == if got == [] then 0 else out[|got| - 1]
    {
      ReadStep(total, c.value.1, got, rest);
      var d := Decode(rest);
      if d.None? {
        return None;
      }
      NumsIdsPush(got, d.value.0, 0);
      id := Add(id, d.value.0 % B64);
      out := out + [id];
      got, rest := got + [d.value.0], d.value.1;
      i := i + 1;
    }
    ReadEnd(total, c.value.1, got, rest);
    r := Some((out, rest));
  }

  lemma NumsIdsStart()
    ensures NumsIds([], 0) == []
  {
  }

  lemma {:induction false} NumsPairsPush(ns: seq<nat>, a: nat, b: nat, last: Word, k: nat)
    requires |ns| == 2 * k
    ensures |NumsPairs(ns, last)| == k
    ensures var prev := Add(if k == 0 then last else NumsPairs(ns, last)[k - 1].prev, a % B64);
            NumsPairs(ns + [a, b], last) == NumsPairs(ns, last) + [IdPair(prev, Add(prev, b % B64))]
  {
    if k == 0 {
      assert ns + [a, b] == [a, b] && [a, b][2..] == [];
      assert NumsPairs([a, b][2..], Add(last, a % B64)) == [];
    } else {
      NumsPairsPush(ns[2..], a, b, Add(last, ns[0] % B64), k - 1);
      assert (ns + [a, b])[2..] == ns[2..] + [a, b];
    }
  }

  // unpack_write_data_id.
  method UnpackPairs(s: seq<Byte>) returns (r: Option<(seq<IdPair>, seq<Byte>)>)
    ensures r == ReadPairs(s)
  {
    var c := Decode(s);
    if c.None? {
      return None;
    }
    var num := ToInt32(c.value.0);
    var rest := c.value.1;
    hide Decode, DecodeAll, NumsPairs, Reading, Add, ToInt32;
    ghost var total: nat, got: seq<nat> := 2 * (if num > 0 then num else 0), [];
    var out: seq<IdPair> := [];
    var id: Word := 0;
    ReadStart(total, rest);
    NumsPairsStart();
    var i := 0;
    while i < num
      invariant 0 <= i && |got| == 2 * i <= total
      invariant Reading(total, c.value.1, got, rest)
      invariant out == NumsPairs(got, 0) && |out| == i && id == if i == 0 then 0 else out[i - 1].prev
    {
      ReadStep(total, c.value.1, got, rest);
      var a := Decode(rest);
      if a.None? {
        return None;
      }
      ReadStep(total, c.value.1, got + [a.value.0], a.value.1);
      var b := Decode(a.value.1);
      if b.None? {
        return None;
      }
      NumsPairsPush(got, a.value.0, b.value.0, 0, i);
      id := Add(id, a.value.0 % B64);
      out := out + [IdPair(id, Add(id, b.value.0 % B64))];
      assert got + [a.value.0] + [b.value.0] == got + [a.value.0, b.value.0];
      got, rest := got + [a.value.0, b.value.0], b.value.1;
      i := i + 1;
    }
    ReadEnd(total, c.value.1, got, rest);
    r := Some((out, rest));
  }

  lemma NumsPairsStart()
    ensures NumsPairs([], 0) == []
  {
  }

  lemma {:induction false} NumsNewsPush(ns: seq<nat>, a: nat, b: nat, c: nat, last: Word, k: nat)
    requires |ns| == 3 * k
    ensures |NumsNews(ns, last)| == k
    ensures var id := Add(if k == 0 then last else NumsNews(ns, last)[k - 1].id, c % B64);
            NumsNews(ns + [a, b, c], last) == NumsNews(ns, last) + [NewBlock(a, b, id)]
  {
    if k == 0 {
      assert ns + [a, b, c] == [a, b, c] && [a, b, c][3..] == [];
      assert NumsNews([a, b, c][3..], Add(last, c % B64)) == [];
    } else {
      NumsNewsPush(ns[3..], a, b, c, Add(last, ns[2] % B64), k - 1);
      assert (ns + [a, b, c])[3..] == ns[3..] + [a, b, c];
    }
  }

  // unpack_new_data_id.
  method UnpackNews(s: seq<Byte>) returns (r: Option<(seq<NewBlock>, seq<Byte>)>)
    ensures r == ReadNews(s)
  {
    var n := Decode(s);
    if n.None? {
      return None;
    }
    var num := ToInt32(n.value.0);
    var rest := n.value.1;
    hide Decode, DecodeAll, NumsNews, Reading, Add, ToInt32;
    ghost var total: nat, got: seq<nat> := 3 * (if num > 0 then num else 0), [];
    var out: seq<NewBlock> := [];
    var id: Word := 0;
    ReadStart(total, rest);
    NumsNewsStart();
    var i := 0;
    while i < num
      invariant 0 <= i && |got| == 3 * i <= total
      invariant Reading(total, n.value.1, got, rest)
      invariant out == NumsNews(got, 0) && |out| == i && id == if i == 0 then 0 else out[i - 1].id
    {
      ReadStep(total, n.value.1, got, rest);
      var a := Decode(rest);
      if a.None? {
        return None;
      }
      ReadStep(total, n.value.1, got + [a.value.0], a.value.1);
      var b := Decode(a.value.1);
      if b.None? {
        return None;
      }
      ReadStep(total, n.value.1, got + [a.value.0] + [b.value.0], b.value.1);
      var c := Decode(b.value.1);
      if c.None? {
        return None;
      }
      NumsNewsPush(got, a.value.0, b.value.0, c.value.0, 0, i);
      id := Add(id, c.value.0 % B64);
      out := out + [NewBlock(a.value.0, b.value.0, id)];
      assert got + [a.value.0] + [b.value.0] + [c.value.0] == got + [a.value.0, b.value.0, c.value.0];
      got, rest := got + [a.value.0, b.value.0, c.value.0], c.value.1;
      i := i + 1;
    }
    ReadEnd(total, n.value.1, got, rest);
    r := Some((out, rest));
  }

  lemma NumsNewsStart()
    ensures NumsNews([], 0) == []
  {
  }

  // ---------- The lists come back ----------

  lemma ListBack(count: nat, width: nat, ns: seq<nat>, tail: seq<Byte>)
    requires count < B31 && |ns| == width * count && EncodeAll([count] + ns).Some?
    ensures ReadList(width, EncodeAll([count] + ns).value + tail) == Some((ns, tail))
  {
    hide Encode, EncodeAll, Decode, DecodeAll, ToInt32;
    AllRoundTrip([count] + ns, tail);
    var s := EncodeAll([count] + ns).value + tail;
    SmallCount(count);
    FirstNumber(|ns|, s);
    assert DecodeAll(1 + |ns|, s).value.0 == [count] + ns;
    Heads(Decode(s).value.0, DecodeAll(|ns|, Decode(s).value.1).value.0, count, ns);
  }

  lemma SmallCount(n: nat)
    requires n < B31
    ensures ToInt32(n) == n
  {
  }

  lemma Heads(a: nat, s: seq<nat>, b: nat, t: seq<nat>)
    requires [a] + s == [b] + t
    ensures a == b && s == t
  {
    assert ([a] + s)[0] == a && ([b] + t)[0] == b;
    assert ([a] + s)[1..] == s && ([b] + t)[1..] == t;
  }

  lemma FirstNumber(k: nat, s: seq<Byte>)
    requires DecodeAll(1 + k, s).Some?
    ensures Decode(s).Some? && DecodeAll(k, Decode(s).value.1).Some?
    ensures DecodeAll(1 + k, s).value.0 == [Decode(s).value.0] + DecodeAll(k, Decode(s).value.1).value.0
    ensures DecodeAll(1 + k, s).value.1 == DecodeAll(k, Decode(s).value.1).value.1
  {
  }

  // Whatever the packers manage to pack, the unpackers read back, and they stop
  // exactly where the list ends.
  lemma IdListRoundTrip(ids: seq<Word>, tail: seq<Byte>)
    requires |ids| < B31
    ensures IdBytes(ids).Some? ==> ReadIds(IdBytes(ids).value + tail) == Some((ids, tail))
  {
    hide EncodeAll, ReadList, IdNums, NumsIds;
    IdsBack(ids, 0);
    if IdBytes(ids).Some? { ListBack(|ids|, 1, IdNums(ids, 0), tail); }
  }

  lemma PairListRoundTrip(ps: seq<IdPair>, tail: seq<Byte>)
    requires |ps| < B31
    ensures PairBytes(ps).Some? ==> ReadPairs(PairBytes(ps).value + tail) == Some((ps, tail))
  {
    hide EncodeAll, ReadList, PairNums, NumsPairs;
    PairsBack(ps, 0);
    if PairBytes(ps).Some? { ListBack(|ps|, 2, PairNums(ps, 0), tail); }
  }

  lemma NewListRoundTrip(bs: seq<NewBlock>, tail: seq<Byte>)
    requires |bs| < B31
    ensures NewBytes(bs).Some? ==> ReadNews(NewBytes(bs).value + tail) == Some((bs, tail))
  {
    hide EncodeAll, ReadList, NewNums, NumsNews;
    NewsBack(bs, 0);
    if NewBytes(bs).Some? { ListBack(|bs|, 3, NewNums(bs, 0), tail); }
  }

  // ---------- When packing succeeds ----------

  // No step from one id to the next, counted as uint64_t, takes 62 bits, and no other number does.
  ghost predicate IdSteps(ids: seq<Word>, last: Word) {
    ids == [] || (Sub(ids[0], last) < B62 && IdSteps(ids[1..], ids[0]))
  }

  ghost predicate PairSteps(ps: seq<IdPair>, last: Word) {
    ps == [] ||
    (Sub(ps[0].prev, last) < B62 && Sub(ps[0].id, ps[0].prev) < B62 && PairSteps(ps[1..], ps[0].prev))
  }

  ghost predicate NewSteps(bs: seq<NewBlock>, last: Word) {
    bs == [] ||
    (bs[0].typ < B62 && bs[0].num < B62 && Sub(bs[0].id, last) < B62 && NewSteps(bs[1..], bs[0].id))
  }

  ghost predicate AllSmall(ns: seq<nat>) {
    forall n :: n in ns ==> n < B62
  }

  lemma AllSmallCons(n: nat, ns: seq<nat>)
    ensures AllSmall([n] + ns) <==> n < B62 && AllSmall(ns)
  {
    assert ([n] + ns)[0] in [n] + ns;
    assert forall m :: m in ns ==> m in [n] + ns;
  }

  lemma ListPacks(count: nat, ns: seq<nat>)
    requires count < B31
    ensures EncodeAll([count] + ns).Some? <==> AllSmall(ns)
  {
    AllEncodes([count] + ns);
    assert AllSmall([count] + ns) <==> EncodeAll([count] + ns).Some?;
    AllSmallCons(count, ns);
  }

  /** A list of ids packs if and only if its steps are small. */
  lemma IdListPacks(ids: seq<Word>)
    requires |ids| < B31
    ensures IdBytes(ids).Some? <==> IdSteps(ids, 0)
  {
    ListPacks(|ids|, IdNums(ids, 0));
    IdStepsAreNums(ids, 0);
  }

  lemma {:induction false} IdStepsAreNums(ids: seq<Word>, last: Word)
    ensures IdSteps(ids, last) <==> AllSmall(IdNums(ids, last))
  {
    if ids != [] {
      hide Sub, AllSmall;
      IdStepsAreNums(ids[1..], ids[0]);
      AllSmallCons(Sub(ids[0], last), IdNums(ids[1..], ids[0]));
    }
  }

  /** So does a list of rewritten ids. */
  lemma PairListPacks(ps: seq<IdPair>)
    requires |ps| < B31
    ensures PairBytes(ps).Some? <==> PairSteps(ps, 0)
  {
    ListPacks(|ps|, PairNums(ps, 0));
    PairStepsAreNums(ps, 0);
  }

  lemma {:induction false} PairStepsAreNums(ps: seq<IdPair>, last: Word)
    ensures PairSteps(ps, last) <==> AllSmall(PairNums(ps, last))
  {
    if ps != [] {
      hide Sub, AllSmall;
      var a, b, rest := Sub(ps[0].prev, last), Sub(ps[0].id, ps[0].prev), PairNums(ps[1..], ps[0].prev);
      PairStepsAreNums(ps[1..], ps[0].prev);
      assert [a, b] + rest == [a] + ([b] + rest);
      AllSmallCons(a, [b] + rest);
      AllSmallCons(b, rest);
    }
  }

  /** And a list of new blocks. */
  lemma NewListPacks(bs: seq<NewBlock>)
    requires |bs| < B31
    ensures NewBytes(bs).Some? <==> NewSteps(bs, 0)
  {
    ListPacks(|bs|, NewNums(bs, 0));
    NewStepsAreNums(bs, 0);
  }

  lemma {:induction false} NewStepsAreNums(bs: seq<NewBlock>, last: Word)
    ensures NewSteps(bs, last) <==> AllSmall(NewNums(bs, last))
  {
    if bs != [] {
      hide Sub, AllSmall;
      var a, b, c, rest := bs[0].typ, bs[0].num, Sub(bs[0].id, last), NewNums(bs[1..], bs[0].id);
      NewStepsAreNums(bs[1..], bs[0].id);
      assert [a, b, c] + rest == [a] + ([b] + ([c] + rest));
      AllSmallCons(a, [b] + ([c] + rest));
      AllSmallCons(b, [c] + rest);
      AllSmallCons(c, rest);
    }
  }

  // ---------- Sorted lists always pack ----------

  // Sorted, from `last` on, and below 2^62.
  ghost predicate RisingIds(ids: seq<Word>, last: Word) {
    ids == [] || (last <= ids[0] < B62 && RisingIds(ids[1..], ids[0]))
  }

  ghost predicate RisingPairs(ps: seq<IdPair>, last: Word) {
    ps == [] || (last <= ps[0].prev <= ps[0].id < B62 && RisingPairs(ps[1..], ps[0].prev))
  }

  ghost predicate RisingNews(bs: seq<NewBlock>, last: Word) {
    bs == [] ||
    (last <= bs[0].id < B62 && bs[0].typ < B62 && bs[0].num < B62 && RisingNews(bs[1..], bs[0].id))
  }

  lemma {:induction false} SortedIdsPack(ids: seq<Word>, last: Word)
    requires RisingIds(ids, last)
    ensures IdSteps(ids, last)
  {
    if ids != [] { SortedIdsPack(ids[1..], ids[0]); }
  }

  lemma {:induction false} SortedPairsPack(ps: seq<IdPair>, last: Word)
    requires RisingPairs(ps, last)
    ensures PairSteps(ps, last)
  {
    if ps != [] { SortedPairsPack(ps[1..], ps[0].prev); }
  }

  lemma {:induction false} SortedNewsPack(bs: seq<NewBlock>, last: Word)
    requires RisingNews(bs, last)
    ensures NewSteps(bs, last)
  {
    if bs != [] { SortedNewsPack(bs[1..], bs[0].id); }
  }

  /** Every sorted list of each kind is packed and read back, with the bytes that follow left alone. */
  lemma SortedListsTravel(ids: seq<Word>, ps: seq<IdPair>, bs: seq<NewBlock>, tail: seq<Byte>)
    requires |ids| < B31 && |ps| < B31 && |bs| < B31
    requires RisingIds(ids, 0) && RisingPairs(ps, 0) && RisingNews(bs, 0)
    ensures IdBytes(ids).Some? && ReadIds(IdBytes(ids).value + tail) == Some((ids, tail))
    ensures PairBytes(ps).Some? && ReadPairs(PairBytes(ps).value + tail) == Some((ps, tail))
    ensures NewBytes(bs).Some? && ReadNews(NewBytes(bs).value + tail) == Some((bs, tail))
  {
    hide IdBytes, PairBytes, NewBytes, ReadIds, ReadPairs, ReadNews, IdSteps, PairSteps, NewSteps, RisingIds, RisingPairs,
      RisingNews;
    SortedIdsPack(ids, 0);
    SortedPairsPack(ps, 0);
    SortedNewsPack(bs, 0);
    IdListPacks(ids);
    PairListPacks(ps);
    NewListPacks(bs);
    IdListRoundTrip(ids, tail);
    PairListRoundTrip(ps, tail);
    NewListRoundTrip(bs, tail);
  }
}
