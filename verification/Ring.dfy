/**
  The ring buffer of ring_buffer.c: a byte queue in a circular array.

  A call of ring_read or ring_write runs in rounds, each under the mutex; between
  rounds it waits and other calls run theirs.  `ReadRound` and `WriteRound` are one
  round each, so any sequence of them is a run of any number of readers and writers.
 */
module Ring {

  import opened Bytes

  // ---------- Positions in a circle of `n` ----------

  function Step(n: nat, p: nat, i: nat): nat
    requires p < n && i <= n
  {
    if p + i < n then p + i else p + i - n
  }

  // How many bytes lie from `cur` up to `end`.
  function Span(n: nat, cur: nat, end: nat): (k: nat)
    requires cur < n && end < n
    ensures k < n && Step(n, cur, k) == end
  {
    if cur <= end then end - cur else n - cur + end
  }

  // The `k` bytes from `p` on.
  function Window(b: seq<Byte>, p: nat, k: nat): (w: seq<Byte>)
    requires p < |b| && k <= |b|
    ensures |w| == k
  {
    seq(k, i requires 0 <= i < k => b[Step(|b|, p, i)])
  }

  // The `% length` of the source, on the sums it is used for.
  method Wrap(a: nat, n: nat) returns (w: nat)
    requires a < 2 * n
    ensures w == if a < n then a else a - n
  {
    w := a % n;
    if a >= n { ModOnce(n, a - n); }
  }

  // Moving a position on, round the end.
  method Advance(n: nat, p: nat, i: nat) returns (q: nat)
    requires p < n && i < n
    ensures q == Step(n, p, i)
  {
    q := Wrap(p + i, n);
  }

  lemma ModOnce(n: nat, r: nat)
    requires r < n
    ensures (n + r) % n == r
  {}

  lemma SpanStep(n: nat, cur: nat, end: nat, r: nat)
    requires cur < n && end < n
    ensures r <= Span(n, cur, end) ==> Span(n, Step(n, cur, r), end) == Span(n, cur, end) - r
    ensures Span(n, cur, end) + r < n ==> Span(n, cur, Step(n, end, r)) == Span(n, cur, end) + r
  {}

  // Taking bytes off the front leaves the others.
  lemma WindowTail(b: seq<Byte>, p: nat, k: nat, r: nat)
    requires p < |b| && r <= k < |b|
    ensures Window(b, p, r) == Window(b, p, k)[..r]
    ensures Window(b, Step(|b|, p, r), k - r) == Window(b, p, k)[r..]
  {}

  lemma TakeShifts(b: seq<Byte>, cur: nat, end: nat, r: nat)
    requires cur < |b| && end < |b| && r <= Span(|b|, cur, end)
    ensures var c := Step(|b|, cur, r);
            Window(b, cur, Span(|b|, cur, end)) == Window(b, cur, r) + Window(b, c, Span(|b|, c, end))
  {
    WindowTail(b, cur, Span(|b|, cur, end), r);
    SpanStep(|b|, cur, end, r);
    var w := Window(b, cur, Span(|b|, cur, end));
    assert w == w[..r] + w[r..];
  }

  // A window is one stretch of the array, or two when it wraps.
  lemma WindowSlices(b: seq<Byte>, p: nat, r: nat)
    requires p < |b| && r <= |b|
    ensures Window(b, p, r) == if p + r <= |b| then b[p..p + r] else b[p..] + b[..p + r - |b|]
  {}

  // `c` is `b` with `data` laid down from `end` on.
  ghost predicate LaidDown(b: seq<Byte>, c: seq<Byte>, end: nat, data: seq<Byte>)
    requires end < |b| && |data| < |b| == |c|
  {
    && Window(c, end, |data|) == data
    && (forall i :: 0 <= i < |b| - |data| ==>
                      c[Step(|b|, Step(|b|, end, |data|), i)] == b[Step(|b|, Step(|b|, end, |data|), i)])
  }

  lemma LaidOnce(b: seq<Byte>, c: seq<Byte>, end: nat, data: seq<Byte>)
    requires end + |data| <= |b| && |data| < |b| && end < |b|
    requires c == b[..end] + data + b[end + |data|..]
    ensures LaidDown(b, c, end, data)
  {
    WindowSlices(c, end, |data|);
  }

  lemma TailOfBoth(a: seq<Byte>, b: seq<Byte>, i: nat)
    requires i <= |a|
    ensures (a + b)[i..] == a[i..] + b
  {}

  lemma LaidTwice(b: seq<Byte>, c: seq<Byte>, end: nat, data: seq<Byte>)
    requires end < |b| < end + |data| && |data| < |b|
    requires c == data[|b| - end..] + b[end + |data| - |b|..end] + data[..|b| - end]
    ensures LaidDown(b, c, end, data)
  {
    WindowSlices(c, end, |data|);
    assert data == data[..|b| - end] + data[|b| - end..];
  }

  lemma WindowGrows(b: seq<Byte>, c: seq<Byte>, cur: nat, k: nat, data: seq<Byte>)
    requires cur < |b| == |c| && k + |data| < |b|
    requires LaidDown(b, c, Step(|b|, cur, k), data)
    ensures Window(c, cur, k + |data|) == Window(b, cur, k) + data
  {
    var n, r := |b|, |data|;
    var end := Step(n, cur, k);
    var w := Window(c, cur, k + r);
    forall i | 0 <= i < k ensures w[i] == Window(b, cur, k)[i] {
      var j := n - k - r + i;
      assert Step(n, Step(n, end, r), j) == Step(n, cur, i);
    }
    forall i | k <= i < k + r ensures w[i] == data[i - k] {
      assert Step(n, end, i - k) == Step(n, cur, i);
      assert Window(c, end, r)[i - k] == data[i - k];
    }
  }

  // How much one round moves when `can` bytes could be and `need` are wanted.
  function Amount(need: nat, can: nat, msg: bool): (r: nat)
    ensures r <= need && r <= can
    ensures msg ==> r == 0 || r == need
    ensures r == need <==> need <= can || need == 0
  {
    var r := if need > can then can else need;
    if msg && r < need then 0 else r
  }

  // A call under way: what it wants, its flags, and what it has moved so far.
  datatype Reader = Reader(want: nat, msg: bool, waitAll: bool, noWait: bool, got: seq<Byte>)
  datatype Writer = Writer(bytes: seq<Byte>, msg: bool, waitAll: bool, noWait: bool, done: nat)

  datatype Answer = Returns(n: int) | Waits

  // A message-mode call that waits has moved nothing yet.
  predicate ReaderOk(c: Reader) { |c.got| < c.want && (c.msg ==> c.got == []) }
  predicate WriterOk(c: Writer) { c.done < |c.bytes| && (c.msg ==> c.done == 0) }

  // A round of ring_read and its verdict, on the bytes stored: the call afterwards, what
  // is left, and whether it returns or waits.  `late` says its time is up after the round.
  function ReadResult(stored: seq<Byte>, closed: bool, c: Reader, late: bool): (Reader, seq<Byte>, Answer)
    requires ReaderOk(c)
  {
    var need := c.want - |c.got|;
    var r := Amount(need, |stored|, c.msg);
    var d := c.(got := c.got + stored[..r]);
    (d, stored[r..],
     if |stored| >= need then Returns(|d.got|)
     else if closed then Returns(if |d.got| > 0 then |d.got| else -1)
     else if (!c.waitAll && |d.got| > 0) || c.noWait || late then Returns(|d.got|)
     else Waits)
  }

  // A round of ring_write, likewise; `room` is what the ring can hold.
  function WriteResult(room: nat, stored: seq<Byte>, closed: bool, c: Writer, late: bool): (Writer, seq<Byte>, Answer)
    requires WriterOk(c) && |stored| <= room
  {
    if c.msg && room < |c.bytes| then (c, stored, Returns(0))
    else if closed then (c, stored, Returns(if c.done > 0 then c.done else -1))
    else
      var need, can := |c.bytes| - c.done, room - |stored|;
      var r := Amount(need, can, c.msg);
      var d := c.(done := c.done + r);
      (d, stored + c.bytes[c.done..c.done + r],
       if can >= need || c.noWait || (!c.waitAll && d.done > 0) || late then Returns(d.done) else Waits)
  }

  /**
    What a read is given in a round, and what becomes of it.  It gets the oldest bytes: as
    many as it wants, or, if there are fewer, all of them, or none in message mode.  It
    waits exactly when there were fewer, the ring is open, it may wait and is in time, and
    it has nothing yet or wants all; otherwise it returns how much it has, or -1 when it
    has nothing and the ring is closed.
   */
  lemma ReadVerdict(stored: seq<Byte>, closed: bool, c: Reader, late: bool)
    requires ReaderOk(c)
    ensures var need := c.want - |c.got|;
            var (d, rest, a) := ReadResult(stored, closed, c, late);
            && d == c.(got := d.got)
            && (|stored| >= need ==> d.got == c.got + stored[..need] && rest == stored[need..])
            && (|stored| < need ==> if c.msg then d.got == c.got && rest == stored else d.got == c.got + stored && rest == [])
            && (a.Waits? <==> |stored| < need && !closed && !c.noWait && !late && (c.waitAll || d.got == []))
            && (!a.Waits? ==> a == Returns(if |stored| < need && closed && d.got == [] then -1 else |d.got|))
  {
    assert stored[..0] == [] && stored[0..] == stored;
    assert stored[..|stored|] == stored && stored[|stored|..] == [];
    assert c.got + [] == c.got;
  }

  /**
    And a write: it puts all its bytes after those stored, or, if there is no room for
    them, as many as there is room for, or none in message mode or on a closed ring.  It
    waits exactly when there was too little room, the ring is open and a message fits it,
    it may wait and is in time, and it has put nothing yet or must put all.
   */
  lemma WriteVerdict(room: nat, stored: seq<Byte>, closed: bool, c: Writer, late: bool)
    requires WriterOk(c) && |stored| <= room
    ensures var need, can, long := |c.bytes| - c.done, room - |stored|, c.msg && room < |c.bytes|;
            var (d, all, a) := WriteResult(room, stored, closed, c, late);
            && c.done <= d.done <= |c.bytes| && d == c.(done := d.done) && all == stored + c.bytes[c.done..d.done]
            && (long || closed ==> d.done == c.done)
            && (!long && !closed ==> d.done == if can >= need then |c.bytes| else if c.msg then c.done else c.done + can)
            && (a.Waits? <==> !long && !closed && can < need && !c.noWait && !late && (c.waitAll || d.done == 0))
            && (!a.Waits? ==> a == Returns(if !long && closed && d.done == 0 then -1 else d.done))
  {
    assert c.bytes[c.done..c.done] == [] && stored + [] == stored;
  }

  class Buffer {
    const data: array<Byte>
    var cur: nat
    var end: nat
    var closed: bool
    // Everything that readers took and writers put, in order.
    ghost var taken: seq<Byte>
    ghost var put: seq<Byte>

    ghost predicate Placed()
      reads this
    {
      cur < data.Length && end < data.Length
    }

    ghost function Stored(): (w: seq<Byte>)
      requires Placed()
      reads this, data
      ensures |w| == Span(data.Length, cur, end) <= data.Length - 1
    {
      Window(data[..], cur, Span(data.Length, cur, end))
    }

    // Bytes read so far followed by bytes stored are the bytes written so far.
    ghost predicate Valid()
      reads this, data
    {
      Placed() && taken + Stored() == put
    }

    // ring_new
    constructor (capacity: nat)
      ensures Valid() && fresh(data) && data.Length == capacity + 1
      ensures Stored() == [] && put == [] && !closed
    {
      data := new Byte[capacity + 1](_ => 0);
      cur, end, closed := 0, 0, false;
      taken, put := [], [];
    }

    // memcpy into the buffer
    method CopyIn(at: nat, bytes: seq<Byte>)
      requires at + |bytes| <= data.Length
      modifies data
      ensures data[..] == old(data[..at]) + bytes + old(data[at + |bytes|..])
    {
      for i := 0 to |bytes|
        invariant data[at..at + i] == bytes[..i]
        invariant data[..at] == old(data[..at]) && data[at + i..] == old(data[at + i..])
      {
        data[at + i] := bytes[i];
        assert data[at..at + (i + 1)] == data[at..at + i] + [bytes[i]];
        assert data[at + i + 1..] == data[at + i..][1..];
        assert old(data[at + i + 1..]) == old(data[at + i..])[1..];
      }
      assert data[..] == data[..at] + data[at..at + |bytes|] + data[at + |bytes|..];
    }

    // The one or two memcpy calls of ring_read.
    method CopyOut(r: nat) returns (got: seq<Byte>)
      requires Placed() && r <= Span(data.Length, cur, end)
      ensures got == Window(data[..], cur, r)
    {
      var tmp := data.Length - cur;
      WindowSlices(data[..], cur, r);
      if end < cur && tmp < r {
        got := data[cur..] + data[..r - tmp];
      } else {
        got := data[cur..cur + r];
      }
    }

    method TakeOut(r: nat) returns (got: seq<Byte>)
      requires Valid() && 0 < r <= |Stored()|
      modifies this`cur, this`taken
      ensures Valid() && taken == old(taken) + got
      ensures |got| == r && old(Stored()) == got + Stored()
    {
      var n := data.Length;
      got := CopyOut(r);
      TakeShifts(data[..], cur, end, r);
      hide Step, Span, Window;
      cur := Advance(n, cur, r);
      taken := taken + got;
    }

    /** One round of ring_read: the oldest bytes, in order, and no other byte is disturbed. */
    method ReadRound(need: nat, msg: bool) returns (got: seq<Byte>, can: nat)
      requires Valid()
      modifies this`cur, this`taken
      ensures Valid() && put == old(put) && taken == old(taken) + got
      ensures can == |old(Stored())| && |got| == Amount(need, can, msg)
      ensures old(Stored()) == got + Stored()
    {
      hide Amount, Window;
      can := Wrap(data.Length - cur + end, data.Length);
      var r := Amount(need, can, msg);
      got := [];
      if r > 0 { got := TakeOut(r); }
    }

    // The two memcpy calls of ring_write when the bytes wrap.
    method CopyRound(head: seq<Byte>, tail: seq<Byte>)
      requires Placed() && end + |head| == data.Length && |tail| <= end
      modifies data
      ensures data[..] == tail + old(data[..])[|tail|..end] + head
    {
      ghost var b := data[..];
      CopyIn(end, head);
      assert data[..] == b[..end] + head;
      TailOfBoth(b[..end], head, |tail|);
      CopyIn(0, tail);
    }

    method LayDown(bytes: seq<Byte>)
      requires Placed() && 0 < |bytes| < data.Length - Span(data.Length, cur, end)
      modifies data
      ensures LaidDown(old(data[..]), data[..], end, bytes)
    {
      var tmp := data.Length - end;
      ghost var b := data[..];
      hide LaidDown;
      if end >= cur && tmp < |bytes| {
        CopyRound(bytes[..tmp], bytes[tmp..]);
        LaidTwice(b, data[..], end, bytes);
      } else {
        CopyIn(end, bytes);
        LaidOnce(b, data[..], end, bytes);
      }
    }

    method PutIn(bytes: seq<Byte>)
      requires Valid() && 0 < |bytes| < data.Length - |Stored()|
      modifies data, this`end, this`put
      ensures Valid() && put == old(put) + bytes
      ensures Stored() == old(Stored()) + bytes
    {
      var n, r := data.Length, |bytes|;
      ghost var b, k := data[..], Span(n, cur, end);
      LayDown(bytes);
      WindowGrows(b, data[..], cur, k, bytes);
      SpanStep(n, cur, end, r);
      hide Step, Span, Window;
      end := Advance(n, end, r);
      put := put + bytes;
    }

    /** One round of ring_write: a prefix of the bytes, after all that was there; all or none in message mode. */
    method WriteRound(bytes: seq<Byte>, msg: bool) returns (r: nat, can: nat)
      requires Valid()
      modifies data, this`end, this`put
      ensures Valid() && taken == old(taken)
      ensures can == data.Length - 1 - |old(Stored())| && r == Amount(|bytes|, can, msg)
      ensures Stored() == old(Stored()) + bytes[..r] && put == old(put) + bytes[..r]
    {
      hide Amount, Window;
      can := Wrap(data.Length - end + cur - 1, data.Length);
      r := Amount(|bytes|, can, msg);
      if r > 0 { PutIn(bytes[..r]); }
    }

    // ring_close
    method Close()
      requires Valid()
      modifies this`closed
      ensures Valid() && closed && Stored() == old(Stored())
    {
      closed := true;
    }

    /** A round of ring_read and its verdict; `late` says the call's time is up after it. */
    method ReadStep(c: Reader, late: bool) returns (c2: Reader, a: Answer)
      requires Valid() && ReaderOk(c)
      modifies this`cur, this`taken
      ensures Valid() && put == old(put)
      ensures (c2, Stored(), a) == ReadResult(old(Stored()), closed, c, late)
      ensures c.got <= c2.got && taken == old(taken) + c2.got[|c.got|..]
      ensures a.Waits? <==>
              |old(Stored())| < c.want - |c.got| && !closed && !c.noWait && !late && (c.waitAll || c2.got == [])
    {
      ReadVerdict(Stored(), closed, c, late);
      var need := c.want - |c.got|;
      var got, can := ReadRound(need, c.msg);
      hide Amount;
      c2 := c.(got := c.got + got);
      if can >= need { return c2, Returns(|c2.got|); }
      if closed { return c2, Returns(if |c2.got| > 0 then |c2.got| else -1); }
      if (!c.waitAll && |c2.got| > 0) || c.noWait || late { return c2, Returns(|c2.got|); }
      a := Waits;
    }

    /** A round of ring_write and its verdict. */
    method WriteStep(c: Writer, late: bool) returns (c2: Writer, a: Answer)
      requires Valid() && WriterOk(c)
      modifies data, this`end, this`put
      ensures Valid() && taken == old(taken)
      ensures (c2, Stored(), a) == WriteResult(data.Length - 1, old(Stored()), closed, c, late)
      ensures c.done <= c2.done <= |c.bytes| && put == old(put) + c.bytes[c.done..c2.done]
      ensures a.Waits? <==>
              && !closed && !(c.msg && data.Length - 1 < |c.bytes|)
              && data.Length - 1 - |old(Stored())| < |c.bytes| - c.done
              && !c.noWait && !late && (c.waitAll || c2.done == 0)
    {
      WriteVerdict(data.Length - 1, Stored(), closed, c, late);
      c2 := c;
      if c.msg && data.Length - 1 < |c.bytes| { return c2, Returns(0); }
      if closed { return c2, Returns(if c.done > 0 then c.done else -1); }
      var need := |c.bytes| - c.done;
      var r, can := WriteRound(c.bytes[c.done..], c.msg);
      hide Amount;
      c2 := c.(done := c.done + r);
      assert c.bytes[c.done..][..r] == c.bytes[c.done..c2.done];
      if can >= need { return c2, Returns(c2.done); }
      if c.noWait || (!c.waitAll && c2.done > 0) || late { return c2, Returns(c2.done); }
      a := Waits;
    }

    /** On a ring of messages of one size a message-mode write without waiting adds one whole, if there is room for it. */
    method PutMessage(m: seq<Byte>, ghost queue: seq<seq<Byte>>) returns (ok: bool)
      requires Valid() && |m| > 0 && Stored() == Flat(queue) && AllSized(queue, |m|)
      modifies data, this`end, this`put
      ensures Valid() && taken == old(taken)
      ensures ok <==> (|queue| + 1) * |m| <= data.Length - 1
      ensures Stored() == Flat(if ok then queue + [m] else queue)
    {
      FlatLength(queue, |m|);
      FlatAppend(queue, m);
      hide Flat;
      var r, can := WriteRound(m, true);
      ok := r == |m|;
      assert m[..|m|] == m && m[..0] == [];
    }

    /** And a message-mode read takes the oldest one whole, if there is one. */
    method TakeMessage(size: nat, ghost queue: seq<seq<Byte>>) returns (m: seq<Byte>)
      requires Valid() && size > 0 && Stored() == Flat(queue) && AllSized(queue, size)
      modifies this`cur, this`taken
      ensures Valid() && put == old(put)
      ensures queue == [] ==> m == [] && Stored() == []
      ensures queue != [] ==> m == queue[0] && Stored() == Flat(queue[1..])
    {
      var got, can := ReadRound(size, true);
      ReadsWhole(queue, size, got, Stored());
      m := got;
    }
  }

  // ---------- Messages of one size ----------

  ghost function Flat(messages: seq<seq<Byte>>): seq<Byte> {
    if messages == [] then [] else messages[0] + Flat(messages[1..])
  }

  lemma {:induction false} FlatAppend(messages: seq<seq<Byte>>, m: seq<Byte>)
    ensures Flat(messages + [m]) == Flat(messages) + m
  {
    if messages == [] {
      assert messages + [m] == [m];
    } else {
      assert (messages + [m])[1..] == messages[1..] + [m];
      FlatAppend(messages[1..], m);
    }
  }

  ghost predicate AllSized(messages: seq<seq<Byte>>, size: nat) { forall m :: m in messages ==> |m| == size }

  lemma {:induction false} FlatLength(messages: seq<seq<Byte>>, size: nat)
    requires AllSized(messages, size)
    ensures |Flat(messages)| == |messages| * size
  {
    if messages != [] {
      assert messages[0] in messages;
      FlatLength(messages[1..], size);
      OneMore(|messages[1..]|, size);
    }
  }

  lemma OneMore(n: nat, size: nat)
    ensures (n + 1) * size == n * size + size
  {}

  /** A message-mode round on a ring of equal-sized messages takes the oldest message whole, or nothing if there is none. */
  lemma ReadsWhole(messages: seq<seq<Byte>>, size: nat, got: seq<Byte>, rest: seq<Byte>)
    requires size > 0 && AllSized(messages, size)
    requires Flat(messages) == got + rest && |got| == Amount(size, |Flat(messages)|, true)
    ensures if messages == [] then got == [] && rest == [] else got == messages[0] && rest == Flat(messages[1..])
  {
    if messages != [] {
      assert |messages[0]| == size;
      var f := Flat(messages);
      assert got == f[..size] && rest == f[size..];
    }
  }
}
