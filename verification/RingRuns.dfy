/**
  Whole runs of a ring: any number of ring_read and ring_write calls, each going
  through its rounds and waits, in any order.

  The rounds are those of `Ring.Buffer.ReadStep` and `Ring.Buffer.WriteStep`.  A call
  that waits may be woken for another round, or may find that its time is up and
  return without one.
 */
module RingRuns {

  import opened Bytes
  import opened Ring

  type Cid = nat

  datatype Phase = Ready | Waiting | Back(n: int)
  datatype Call = Read(r: Reader, phase: Phase) | Write(w: Writer, phase: Phase)

  // Bytes that one call moved in one round.
  datatype Piece = Piece(who: Cid, bytes: seq<Byte>)

  datatype State = State(
    room: nat,
    stored: seq<Byte>,
    closed: bool,
    calls: map<Cid, Call>,
    took: seq<Piece>,
    gave: seq<Piece>)

  datatype Event =
    | Begins(who: Cid, call: Call)
    | Turns(who: Cid, late: bool)
    | TimesOut(who: Cid)
    | Closes

  // All the bytes of a log, and those of one call.
  ghost function All(log: seq<Piece>): seq<Byte> {
    if log == [] then [] else All(log[..|log| - 1]) + log[|log| - 1].bytes
  }

  ghost function Of(log: seq<Piece>, who: Cid): seq<Byte> {
    if log == [] then []
    else
      var last := log[|log| - 1];
      Of(log[..|log| - 1], who) + (if last.who == who then last.bytes else [])
  }

  lemma LogPush(log: seq<Piece>, x: Piece)
    ensures All(log + [x]) == All(log) + x.bytes
    ensures forall who :: Of(log + [x], who) == Of(log, who) + (if x.who == who then x.bytes else [])
  {
    assert (log + [x])[..|log|] == log;
  }

  // ---------- Steps ----------

  // A call as its caller makes it.
  predicate Fresh(call: Call) {
    match call
    case Read(r, phase) => phase.Ready? && r.got == []
    case Write(w, phase) => phase.Ready? && w.done == 0
  }

  // A call for no bytes returns at once.
  function Begun(call: Call): Call {
    match call
    case Read(r, _) => if r.want == 0 then Read(r, Back(0)) else call
    case Write(w, _) => if w.bytes == [] then Write(w, Back(0)) else call
  }

  function PhaseOf(a: Answer): Phase {
    match a
    case Waits => Waiting
    case Returns(n) => Back(n)
  }

  function ReadTurn(s: State, who: Cid, r: Reader, late: bool): State
    requires ReaderOk(r)
  {
    var (d, rest, a) := ReadResult(s.stored, s.closed, r, late);
    s.(stored := rest, calls := s.calls[who := Read(d, PhaseOf(a))],
    took := s.took + [Piece(who, if |r.got| <= |d.got| then d.got[|r.got|..] else [])])
  }

  function WriteTurn(s: State, who: Cid, w: Writer, late: bool): State
    requires WriterOk(w) && |s.stored| <= s.room
  {
    var (d, all, a) := WriteResult(s.room, s.stored, s.closed, w, late);
    s.(stored := all, calls := s.calls[who := Write(d, PhaseOf(a))],
    gave := s.gave + [Piece(who, if w.done <= d.done <= |w.bytes| then w.bytes[w.done..d.done] else [])])
  }

  // A wait that ends with ETIMEDOUT: the call returns what it has, without another round.
  function GivenUp(call: Call): Call {
    match call
    case Read(r, phase) => if phase.Waiting? then Read(r, Back(|r.got|)) else call
    case Write(w, phase) => if phase.Waiting? then Write(w, Back(w.done)) else call
  }

  // ---------- The invariant ----------

  ghost predicate ReadOk(s: State, who: Cid, r: Reader, phase: Phase) {
    && r.got == Of(s.took, who) && |r.got| <= r.want
    && (!phase.Back? ==> ReaderOk(r))
    && (phase.Back? ==> Settled(s, phase.n, |r.got|) && (r.msg ==> |r.got| == 0 || |r.got| == r.want))
  }

  ghost predicate WriteOk(s: State, who: Cid, w: Writer, phase: Phase) {
    && w.done <= |w.bytes| && w.bytes[..w.done] == Of(s.gave, who)
    && (!phase.Back? ==> WriterOk(w))
    && (phase.Back? ==> Settled(s, phase.n, w.done) && (w.msg ==> w.done == 0 || w.done == |w.bytes|))
  }

  // A call returns how much it moved, or -1 when it moved nothing and the ring is closed.
  predicate Settled(s: State, n: int, moved: nat) { n == moved || (n == -1 && moved == 0 && s.closed) }

  ghost predicate CallOk(s: State, who: Cid, call: Call) {
    match call
    case Read(r, phase) => ReadOk(s, who, r, phase)
    case Write(w, phase) => WriteOk(s, who, w, phase)
  }

  ghost predicate Inv(s: State) {
    && |s.stored| <= s.room
    && All(s.took) + s.stored == All(s.gave)
    && (forall who :: who in s.calls ==> CallOk(s, who, s.calls[who]))
    && (forall who :: who !in s.calls ==> Of(s.took, who) == [] && Of(s.gave, who) == [])
  }

  ghost function Next(s: State, e: Event): State
    requires Inv(s)
  {
    match e
    case Begins(who, call) => if who !in s.calls && Fresh(call) then s.(calls := s.calls[who := Begun(call)]) else s
    case Turns(who, late) =>
      if who !in s.calls || s.calls[who].phase.Back? then s
      else
        assert CallOk(s, who, s.calls[who]);
        (match s.calls[who]
         case Read(r, _) => ReadTurn(s, who, r, late)
         case Write(w, _) => WriteTurn(s, who, w, late))
    case TimesOut(who) => if who in s.calls then s.(calls := s.calls[who := GivenUp(s.calls[who])]) else s
    case Closes => s.(closed := true)
  }

  // ---------- What a round does to a call ----------

  lemma ReadFacts(stored: seq<Byte>, closed: bool, c: Reader, late: bool)
    requires ReaderOk(c)
    ensures var (d, rest, a) := ReadResult(stored, closed, c, late);
            && c.got <= d.got && d == c.(got := d.got) && |d.got| <= c.want
            && stored == d.got[|c.got|..] + rest
            && (a.Waits? || a.Returns?)
            && (a.Waits? ==> ReaderOk(d) && !closed && (if c.msg then |rest| < c.want else rest == []))
            && (a.Returns? ==> a.n == |d.got| || (a.n == -1 && closed && d.got == []))
            && (a.Returns? && c.msg ==> d.got == [] || |d.got| == c.want)
  {
    var r := Amount(c.want - |c.got|, |stored|, c.msg);
    assert stored == stored[..r] + stored[r..];
  }

  lemma WriteFacts(room: nat, stored: seq<Byte>, closed: bool, c: Writer, late: bool)
    requires WriterOk(c) && |stored| <= room
    ensures var (d, all, a) := WriteResult(room, stored, closed, c, late);
            && c.done <= d.done <= |c.bytes| && d == c.(done := d.done)
            && all == stored + c.bytes[c.done..d.done] && |all| <= room
            && (closed ==> all == stored)
            && (a.Waits? || a.Returns?)
            && (a.Waits? ==> WriterOk(d) && !closed && |all| + (if c.msg then |c.bytes| else 1) > room)
            && (a.Returns? ==> a.n == d.done || (a.n == -1 && closed && d.done == 0))
            && (a.Returns? && c.msg ==> d.done == 0 || d.done == |c.bytes|)
  {}

  // ---------- Every step keeps the invariant ----------

  // A call other than `who` is not touched by a turn of `who`.
  lemma OthersOk(s: State, s2: State, who: Cid, other: Cid)
    requires other != who && other in s.calls && CallOk(s, other, s.calls[other])
    requires Of(s2.took, other) == Of(s.took, other) && Of(s2.gave, other) == Of(s.gave, other)
    requires s.closed ==> s2.closed
    ensures CallOk(s2, other, s.calls[other])
  {}

  // Everything about a state in which only `who` has moved on, except what is stored.
  lemma OneMoved(s: State, s2: State, who: Cid, call: Call)
    requires Inv(s) && s2.calls == s.calls[who := call] && CallOk(s2, who, call)
    requires forall other :: other != who ==> Of(s2.took, other) == Of(s.took, other) && Of(s2.gave, other) == Of(s.gave, other)
    requires (s.closed ==> s2.closed) && |s2.stored| <= s2.room && All(s2.took) + s2.stored == All(s2.gave)
    ensures Inv(s2)
  {
    hide All, Of, CallOk;
    forall other | other in s2.calls ensures CallOk(s2, other, s2.calls[other]) {
      if other != who { OthersOk(s, s2, who, other); }
    }
  }

  lemma Regroup(a: seq<Byte>, b: seq<Byte>, c: seq<Byte>)
    ensures (a + b) + c == a + (b + c)
  {}

  lemma ReadTurnKeeps(s: State, who: Cid, late: bool)
    requires Inv(s) && who in s.calls && s.calls[who].Read? && !s.calls[who].phase.Back?
    ensures ReaderOk(s.calls[who].r) && Inv(ReadTurn(s, who, s.calls[who].r, late))
  {
    hide All, Of, ReadResult;
    var r := s.calls[who].r;
    assert CallOk(s, who, s.calls[who]);
    ReadFacts(s.stored, s.closed, r, late);
    var s2 := ReadTurn(s, who, r, late);
    var piece := Piece(who, s2.calls[who].r.got[|r.got|..]);
    LogPush(s.took, piece);
    Regroup(All(s.took), piece.bytes, s2.stored);
    assert s2.took == s.took + [piece];
    assert s2.calls[who].r.got == r.got + piece.bytes == Of(s2.took, who);
    assert ReadOk(s2, who, s2.calls[who].r, s2.calls[who].phase);
    OneMoved(s, s2, who, s2.calls[who]);
  }

  lemma WriteTurnKeeps(s: State, who: Cid, late: bool)
    requires Inv(s) && who in s.calls && s.calls[who].Write? && !s.calls[who].phase.Back?
    ensures WriterOk(s.calls[who].w) && Inv(WriteTurn(s, who, s.calls[who].w, late))
  {
    hide All, Of, WriteResult;
    var w := s.calls[who].w;
    assert CallOk(s, who, s.calls[who]);
    WriteFacts(s.room, s.stored, s.closed, w, late);
    var s2 := WriteTurn(s, who, w, late);
    var d := s2.calls[who].w;
    var piece := Piece(who, w.bytes[w.done..d.done]);
    LogPush(s.gave, piece);
    Regroup(All(s.took), s.stored, piece.bytes);
    assert s2.gave == s.gave + [piece];
    assert w.bytes[..w.done] + piece.bytes == w.bytes[..d.done] == Of(s2.gave, who);
    assert WriteOk(s2, who, d, s2.calls[who].phase);
    OneMoved(s, s2, who, s2.calls[who]);
  }

  lemma NextKeeps(s: State, e: Event)
    requires Inv(s)
    ensures Inv(Next(s, e))
  {
    match e
    case Begins(who, call) =>
      hide All, Of;
        if who !in s.calls && Fresh(call) { OneMoved(s, Next(s, e), who, Begun(call)); }
    case Turns(who, late) =>
      if who in s.calls && !s.calls[who].phase.Back? {
        if s.calls[who].Read? { ReadTurnKeeps(s, who, late); } else { WriteTurnKeeps(s, who, late); }
      }
    case TimesOut(who) =>
      hide All, Of;
        if who in s.calls {
          assert CallOk(s, who, s.calls[who]);
          OneMoved(s, Next(s, e), who, GivenUp(s.calls[who]));
        }
    case Closes =>
      hide All, Of;
  }

  // ---------- What each event does to its call, and that it does nothing else ----------

  /** A round of a call goes as its verdict says: the call waits or is back with the value returned. */
  lemma TurnTells(s: State, who: Cid, late: bool)
    requires Inv(s) && who in s.calls && !s.calls[who].phase.Back?
    ensures var s2 := Next(s, Turns(who, late));
            && who in s2.calls && s2 == s.(stored := s2.stored, calls := s.calls[who := s2.calls[who]], took := s2.took, gave := s2.gave)
            && match s.calls[who] {
                 case Read(r, _) =>
                   && ReaderOk(r) && s2.gave == s.gave && s2.calls[who].Read?
                   && var (d, rest, a) := ReadResult(s.stored, s.closed, r, late);
                   && s2.calls[who].r == d && s2.stored == rest
                   && |r.got| <= |d.got| && s2.took == s.took + [Piece(who, d.got[|r.got|..])]
                   && s2.calls[who].phase == if a.Waits? then Waiting else Back(a.n)
                 case Write(w, _) =>
                   && WriterOk(w) && s2.took == s.took && s2.calls[who].Write?
                   && var (d, all, a) := WriteResult(s.room, s.stored, s.closed, w, late);
                   && s2.calls[who].w == d && s2.stored == all
                   && w.done <= d.done <= |w.bytes| && s2.gave == s.gave + [Piece(who, w.bytes[w.done..d.done])]
                   && s2.calls[who].phase == if a.Waits? then Waiting else Back(a.n)
               }
  {
    hide All, Of, ReadResult, WriteResult;
    assert CallOk(s, who, s.calls[who]);
    match s.calls[who]
    case Read(r, _) => ReadFacts(s.stored, s.closed, r, late);
    case Write(w, _) => WriteFacts(s.room, s.stored, s.closed, w, late);
  }

  /** A call for no bytes is back at once with 0; one that is given up waiting is back with what it has. */
  lemma OtherEventsTell(s: State, who: Cid, call: Call)
    requires Inv(s)
    ensures who !in s.calls && Fresh(call) ==>
              var s2 := Next(s, Begins(who, call));
              && who in s2.calls && s2 == s.(calls := s.calls[who := s2.calls[who]])
              && s2.calls[who] == call.(phase := if (if call.Read? then call.r.want == 0 else call.w.bytes == []) then Back(0) else Ready)
    ensures who in s.calls ==>
              var s2 := Next(s, TimesOut(who));
              && s2 == s.(calls := s.calls[who := s2.calls[who]])
              && s2.calls[who] ==
                 if !s.calls[who].phase.Waiting? then s.calls[who]
                 else s.calls[who].(phase := Back(if s.calls[who].Read? then |s.calls[who].r.got| else s.calls[who].w.done))
    ensures Next(s, Closes) == s.(closed := true)
  {
    hide All, Of, Inv;
  }

  // ---------- Whole runs ----------

  ghost function Run(s: State, events: seq<Event>): State
    requires Inv(s)
    decreases events
  {
    if events == [] then s else NextKeeps(s, events[0]); Run(Next(s, events[0]), events[1..])
  }

  lemma {:induction false} RunKeeps(s: State, events: seq<Event>)
    requires Inv(s)
    ensures Inv(Run(s, events))
    decreases events
  {
    hide Inv, Next;
    if events != [] {
      NextKeeps(s, events[0]);
      RunKeeps(Next(s, events[0]), events[1..]);
    }
  }

  function Empty(room: nat): State { State(room, [], false, map[], [], []) }

  /**
    After any run of any number of readers and writers, timeouts and a close: the bytes
    taken, in order, followed by the bytes stored are the bytes given, in order; no more
    are stored than there is room for; every call has moved just the bytes its rounds
    moved; and a message-mode call that is back moved all of its bytes or none.
   */
  lemma EveryRun(room: nat, events: seq<Event>)
    ensures Inv(Empty(room))
    ensures var s := Run(Empty(room), events);
            && All(s.took) + s.stored == All(s.gave) && |s.stored| <= s.room
            && (forall c :: c in s.calls && s.calls[c].Read? ==>
                              var r := s.calls[c].r;
                              && r.got == Of(s.took, c) && |r.got| <= r.want
                              && (r.msg && s.calls[c].phase.Back? ==> r.got == [] || |r.got| == r.want))
            && (forall c :: c in s.calls && s.calls[c].Write? ==>
                              var w := s.calls[c].w;
                              && w.done <= |w.bytes| && w.bytes[..w.done] == Of(s.gave, c)
                              && (w.msg && s.calls[c].phase.Back? ==> w.done == 0 || w.done == |w.bytes|))
  {
    RunKeeps(Empty(room), events);
    hide Run, All, Of;
    var s := Run(Empty(room), events);
    forall c | c in s.calls ensures CallOk(s, c, s.calls[c]) {}
  }
}
