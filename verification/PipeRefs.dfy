/**
  The memory of a pipe: pipe_ref_inc and pipe_ref_dec of moon_pipe.c on top of the
  protocol of `Pipe`.

  `refs` has an entry for every reference, with the thread that holds it; `refNum` is
  the word itself.  A thread calls into a pipe, and passes a reference on, only while it
  holds one, and lets one go only between its calls.
 */
module PipeRefs {

  import opened Options
  import opened Crowd
  import P = Pipe

  type Ref = nat

  datatype State = State(pipe: P.State, refs: map<Ref, Tid>, refNum: int, frees: nat)

  datatype Event =
    | Step(t: Tid, op: P.Op, r: Ref)   // one step of a call; a successful get makes reference `r`
    | Share(t: Tid, u: Tid, r: Ref)    // `t` makes reference `r` and hands it to `u`
    | LetGo(r: Ref)

  ghost predicate Holds(s: State, t: Tid) { exists r :: r in s.refs && s.refs[r] == t }

  // After pipe_new2: the creator has the only reference.
  ghost predicate Init(s: State) {
    P.Init(s.pipe) && s.refNum == 1 && s.frees == 0 && exists r :: s.refs == map[r := s.pipe.creator]
  }

  function Gain(s: State, r: Ref, t: Tid): State { s.(refs := s.refs[r := t], refNum := s.refNum + 1) }

  ghost function Next(s: State, e: Event): State {
    match e
    case Step(t, op, r) =>
      if t !in s.pipe.threads || (s.pipe.threads[t].Idle? && !Holds(s, t)) then s
      else if s.pipe.threads[t].GTake? then
        if r in s.refs then s else Gain(s, r, t).(pipe := P.Next(s.pipe, t, op))
      else s.(pipe := P.Next(s.pipe, t, op))
    case Share(t, u, r) =>
      if Holds(s, t) && u in s.pipe.threads && r !in s.refs then Gain(s, r, u) else s
    case LetGo(r) =>
      if r in s.refs && s.refs[r] in s.pipe.threads && s.pipe.threads[s.refs[r]].Idle? then
        s.(refs := s.refs - {r}, refNum := s.refNum - 1, frees := s.frees + if s.refNum == 1 then 1 else 0)
      else s
  }

  ghost predicate Inv(s: State) {
    && P.Inv(s.pipe)
    && s.refNum == |s.refs|
    && s.frees == One(s.refs == map[])
    && (forall t :: t in s.pipe.threads && !s.pipe.threads[t].Idle? ==> Holds(s, t))
  }

  lemma Gained(s: State, r: Ref, t: Tid)
    requires r !in s.refs
    ensures |s.refs[r := t]| == |s.refs| + 1
    ensures forall u :: Holds(s, u) || u == t ==> Holds(Gain(s, r, t), u)
  {
    assert s.refs[r := t].Keys == s.refs.Keys + {r};
    assert |s.refs[r := t]| == |s.refs[r := t].Keys| && |s.refs| == |s.refs.Keys|;
    var s2 := Gain(s, r, t);
    assert r in s2.refs && s2.refs[r] == t;
    forall u | Holds(s, u) ensures Holds(s2, u) {
      var q :| q in s.refs && s.refs[q] == u;
      assert q in s2.refs && s2.refs[q] == u;
    }
  }

  lemma Lost(s: State, r: Ref)
    requires r in s.refs
    ensures |s.refs - {r}| == |s.refs| - 1
    ensures |s.refs| == 1 <==> s.refs - {r} == map[]
  {
    var m := s.refs - {r};
    assert m.Keys == s.refs.Keys - {r};
    assert |m| == |m.Keys| && |s.refs| == |s.refs.Keys|;
    assert |m| == 0 <==> m == map[];
  }

  // A step of one thread leaves the others where they are.
  lemma OthersStay(s: P.State, t: Tid, op: P.Op)
    requires t in s.threads
    ensures P.Next(s, t, op).threads.Keys == s.threads.Keys
    ensures forall u :: u in s.threads && u != t ==> P.Next(s, t, op).threads[u] == s.threads[u]
  {
    P.NextMoves(s, t, op);
    hide P.Next;
  }

  lemma StepKeeps(s: State, t: Tid, op: P.Op, r: Ref)
    requires Inv(s) && t in s.pipe.threads && Next(s, Step(t, op, r)) != s
    ensures Inv(Next(s, Step(t, op, r)))
  {
    hide P.Inv, P.Next;
    P.NextKeeps(s.pipe, t, op);
    OthersStay(s.pipe, t, op);
    var s2 := Next(s, Step(t, op, r));
    if s.pipe.threads[t].GTake? && r !in s.refs { Gained(s, r, t); }
    forall u | u in s2.pipe.threads && !s2.pipe.threads[u].Idle? ensures Holds(s2, u) {
      assert Holds(s, u);
      var q :| q in s.refs && s.refs[q] == u;
      assert q in s2.refs && s2.refs[q] == u;
    }
  }

  lemma ShareKeeps(s: State, t: Tid, u: Tid, r: Ref)
    requires Inv(s) && r !in s.refs && Holds(s, t)
    ensures Inv(Gain(s, r, u))
  {
    hide P.Inv;
    Gained(s, r, u);
  }

  lemma LetGoKeeps(s: State, r: Ref)
    requires Inv(s)
    ensures Inv(Next(s, LetGo(r)))
  {
    hide P.Inv;
    var s2 := Next(s, LetGo(r));
    if s2 != s {
      Lost(s, r);
      forall u | u in s2.pipe.threads && !s2.pipe.threads[u].Idle? ensures Holds(s2, u) {
        var q :| q in s.refs && s.refs[q] == u;
        assert q in s2.refs && s2.refs[q] == u;
      }
    }
  }

  lemma NextKeeps(s: State, e: Event)
    requires Inv(s)
    ensures Inv(Next(s, e))
  {
    hide Inv;
    if Next(s, e) != s {
      match e
      case Step(t, op, r) => StepKeeps(s, t, op, r);
      case Share(t, u, r) => ShareKeeps(s, t, u, r);
      case LetGo(r) => LetGoKeeps(s, r);
    }
  }

  /**
    References come from successful gets and from sharing, one at a time, and go one at a
    time; the memory goes with the last.
   */
  lemma RefsCount(s: State, e: Event)
    requires Inv(s)
    ensures var s2 := Next(s, e);
            && (e.Step? ==>
                  && s2.refNum - s.refNum == s2.pipe.taken - s.pipe.taken
                  && s2.refs == if s2.pipe.taken == s.pipe.taken then s.refs else s.refs[e.r := e.t])
            && (!e.Step? ==> s2.pipe == s.pipe)
            && (e.Share? && Holds(s, e.t) && e.u in s.pipe.threads && e.r !in s.refs ==> s2.refs == s.refs[e.r := e.u])
            && (e.LetGo? && e.r in s.refs && s.refs[e.r] in s.pipe.threads && s.pipe.threads[s.refs[e.r]].Idle? ==>
                  s2.refs == s.refs - {e.r} && s2.frees == One(s.refs.Keys == {e.r}))
  {
    hide P.Inv, P.Next, Holds;
    if e.Step? && e.t in s.pipe.threads { P.WhoCounts(s.pipe, e.t, e.op); }
    if e.LetGo? && e.r in s.refs { OnlyOne(s, e.r); }
  }

  lemma OnlyOne(s: State, r: Ref)
    requires r in s.refs
    ensures |s.refs| == 1 <==> s.refs.Keys == {r}
    ensures s.refs != map[]
  {
    Lost(s, r);
    assert (s.refs - {r}).Keys == s.refs.Keys - {r};
  }

  // ---------- Whole runs ----------

  ghost function Run(s: State, events: seq<Event>): State
    decreases events
  {
    if events == [] then s else Run(Next(s, events[0]), events[1..])
  }

  lemma {:induction false} RunKeeps(s: State, events: seq<Event>)
    requires Inv(s)
    ensures Inv(Run(s, events))
    decreases events
  {
    hide Inv, Next;
    if events != [] {
      NextKeeps(s, events[0]);
      RunKeeps(Next(s, events[0]), events[1..]);
    }
  }

  lemma InitHolds(s: State)
    requires Init(s)
    ensures Inv(s)
  {
    P.InitHolds(s.pipe);
    var r :| s.refs == map[r := s.pipe.creator];
    assert r in s.refs && s.refs[r] == s.pipe.creator;
    hide P.Inv;
  }

  /** Once the last reference is gone nothing happens to the pipe any more. */
  lemma FreedForGood(s: State, e: Event)
    requires Inv(s) && s.refs == map[]
    ensures Next(s, e) == s
  {
    hide P.Inv, P.Next;
    assert forall t :: !Holds(s, t);
  }

  /**
    pipe_seq.txt, lines 9 and 11, for every run: ref_num is the number of references; the
    memory is freed at most once, with the last of them; then no thread is inside a call
    or holds a use, the mutex has been destroyed exactly once if there was one, and the
    close has been told before, exactly once, if and only if an endpoint was closed.
   */
  lemma EveryRun(s0: State, events: seq<Event>)
    requires Init(s0)
    ensures var s := Run(s0, events);
            && s.refNum == |s.refs| && s.frees <= 1 && (s.frees == 1 <==> s.refs == map[])
            && (s.frees == 1 ==>
                  && (forall t :: t in s.pipe.threads ==> s.pipe.threads[t].Idle?)
                  && P.Users(s.pipe.status) == 0
                  && s.pipe.destroyed == One(s.pipe.twoWay)
                  && (|s.pipe.notified| == 1 <==> P.Closed(s.pipe.status)))
  {
    hide Run, P.Inv, P.Users, P.Closed;
    InitHolds(s0);
    RunKeeps(s0, events);
    var s := Run(s0, events);
    if s.frees == 1 {
      assert forall t :: !Holds(s, t);
      P.Quiet(s.pipe);
    }
  }
}
