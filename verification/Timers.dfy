/**
  The timer index of moon_timer.c as a state machine: the chains of timers that
  share an expiry id, keyed by that id, and the batch whose time is up.

  The tree of chain heads is a finite map from ids to chains here; AvlTree shows
  that the tree refines one.  Times are microseconds since the base time.
 */
module Timers {

  import opened Options
  import opened Lists
  import opened Crowd

  datatype Timer = Timer(
    id: int,
    processing: bool,
    stopped: bool,
    deleted: bool,
    repeat: int,
    time: nat,
    mark: int,       // mark_id, which the listener is told
    toldMark: int,   // prev_mark_id, the mark of the last time it was up
    released: nat)   // times the timer's pipe was closed and let go

  datatype State = State(timers: map<Tid, Timer>, chains: map<int, seq<Tid>>, batch: seq<Tid>)

  const Empty: State := State(map[], map[], [])

  // ---------- The invariant ----------

  // A timer that counts down; one without flags and with no repeats left has run out.
  predicate Armed(x: Timer) { !x.processing && !x.stopped && !x.deleted && x.repeat != 0 }
  predicate RunOut(x: Timer) { !x.processing && !x.stopped && !x.deleted && x.repeat == 0 }

  predicate InChain(s: State, k: int, t: Tid) { k in s.chains && t in s.chains[k] }

  predicate TimerOk(x: Timer) {
    && x.released == One(x.deleted && !x.processing)
    && (x.deleted && !x.processing ==> x.stopped)
  }

  // Each chain holds exactly the armed timers with its id.
  ghost predicate ChainInv(s: State) {
    && (forall k :: k in s.chains ==> s.chains[k] != [] && NoDup(s.chains[k]))
    && (forall k, t :: InChain(s, k, t) ==> t in s.timers && Armed(s.timers[t]) && s.timers[t].id == k)
    && (forall t :: t in s.timers && Armed(s.timers[t]) ==> InChain(s, s.timers[t].id, t))
  }

  ghost predicate BatchInv(s: State) {
    && NoDup(s.batch)
    && (forall t :: t in s.batch <==> t in s.timers && s.timers[t].processing)
  }

  ghost predicate ReleaseInv(s: State) { forall t :: t in s.timers ==> TimerOk(s.timers[t]) }

  ghost predicate Inv(s: State) { ChainInv(s) && BatchInv(s) && ReleaseInv(s) }

  // ---------- Moves ----------

  function Put(s: State, t: Tid, x: Timer): State { s.(timers := s.timers[t := x]) }

  // timer_leave_avl, on a timer in a chain.
  function Unchain(s: State, t: Tid): State
    requires t in s.timers && s.timers[t].id in s.chains
  {
    var k := s.timers[t].id;
    var rest := Cut(s.chains[k], t);
    Put(s, t, s.timers[t].(stopped := true))
    .(chains := if rest == [] then s.chains - {k} else s.chains[k := rest])
  }

  function Leave(s: State, t: Tid): State
    requires t in s.timers
  {
    if s.timers[t].stopped then s
    else if s.timers[t].id in s.chains then Unchain(s, t)
    else s
  }

  // A new member goes after the head of its chain, or heads a chain of its own.
  function Joined(chains: map<int, seq<Tid>>, k: int, t: Tid): map<int, seq<Tid>> {
    if k in chains && chains[k] != [] then chains[k := [chains[k][0], t] + chains[k][1..]]
    else chains[k := [t]]
  }

  // timer_join_avl.
  function Join(s: State, t: Tid, now: int): State
    requires t in s.timers
  {
    var x := s.timers[t];
    var k := now + x.time;
    Put(s, t, x.(id := k, stopped := false)).(chains := Joined(s.chains, k, t))
  }

  // ---------- The calls ----------

  function New(s: State, t: Tid, time: nat, repeat: int, mark: int, now: int): State {
    if time == 0 then s
    else
      var s1 := Put(s, t, Timer(0, false, repeat == 0, false, repeat, time, mark, 0, 0));
      if repeat != 0 then Join(s1, t, now) else s1
  }

  function Del(s: State, t: Tid): State
    requires t in s.timers
  {
    var x := s.timers[t];
    if x.deleted then s
    else if x.processing then Put(s, t, x.(deleted := true))
    else
      var s1 := Leave(s, t);
      if t in s1.timers then Put(s1, t, s1.timers[t].(deleted := true, released := x.released + 1)) else s1
  }

  function Set(s: State, t: Tid, time: nat, repeat: int, mark: int, now: int): State
    requires t in s.timers
  {
    var x := s.timers[t];
    if time == 0 || repeat == 0 || x.deleted then s
    else if x.processing then Put(s, t, x.(time := time, repeat := repeat, mark := mark, stopped := false))
    else
      var s1 := Leave(s, t);
      Join(Put(s1, t, x.(time := time, repeat := repeat, mark := mark, stopped := true)), t, now)
  }

  function Stop(s: State, t: Tid): State
    requires t in s.timers
  {
    var x := s.timers[t];
    if x.deleted || x.processing then Put(s, t, x.(stopped := true)) else Leave(s, t)
  }

  function Restart(s: State, t: Tid, now: int): State
    requires t in s.timers
  {
    var x := s.timers[t];
    if x.deleted || !x.stopped || x.repeat == 0 then s
    else if x.processing then Put(s, t, x.(stopped := false))
    else Join(s, t, now)
  }

  // ---------- The timer thread ----------

  function Begin(x: Timer): Timer {
    x.(processing := true, toldMark := x.mark, repeat := if x.repeat >= 0 then x.repeat - 1 else x.repeat)
  }

  function Begun(timers: map<Tid, Timer>, chain: seq<Tid>): map<Tid, Timer> {
    map t | t in timers :: if t in chain then Begin(timers[t]) else timers[t]
  }

  // The whole chain whose time is up leaves the tree as the batch.
  function Fire(s: State, k: int): State
    requires k in s.chains
  {
    State(Begun(s.timers, s.chains[k]), s.chains - {k}, s.chains[k])
  }

  // The timer's other endpoint is gone: it is to be deleted.
  function Lost(s: State, t: Tid): State
    requires t in s.timers
  {
    Put(s, t, s.timers[t].(deleted := true))
  }

  // The first of the batch is put back, run out, stopped or released.
  function Done(s: State, now: int): State
    requires s.batch != [] && s.batch[0] in s.timers
  {
    var t := s.batch[0];
    var x := s.timers[t].(processing := false);
    var s1 := s.(batch := s.batch[1..]);
    if !x.deleted && !x.stopped && x.repeat != 0 then Join(Put(s1, t, x), t, now)
    else if x.deleted then Put(s1, t, x.(stopped := true, released := x.released + 1))
    else Put(s1, t, x)
  }

  // ---------- Each of them keeps the invariant ----------

  // Away from timer `t` everything is as it was.
  ghost predicate Near(s: State, s2: State, t: Tid) {
    && (forall u :: u != t ==> (u in s2.timers <==> u in s.timers) && (u in s2.batch <==> u in s.batch))
    && (forall u :: u != t && u in s.timers ==> s2.timers[u] == s.timers[u])
    && (forall k, u :: u != t ==> (InChain(s2, k, u) <==> InChain(s, k, u)))
    && (forall k :: k in s2.chains ==> s2.chains[k] != [] && NoDup(s2.chains[k]))
    && NoDup(s2.batch)
  }

  ghost predicate Sound(s: State, t: Tid) {
    && (t in s.timers ==> TimerOk(s.timers[t]) && (Armed(s.timers[t]) ==> InChain(s, s.timers[t].id, t)))
    && (t in s.batch <==> t in s.timers && s.timers[t].processing)
    && (forall k :: InChain(s, k, t) ==> t in s.timers && Armed(s.timers[t]) && s.timers[t].id == k)
  }

  lemma At(s: State, t: Tid)
    requires Inv(s)
    ensures Sound(s, t)
  {}

  lemma LocalKeeps(s: State, s2: State, t: Tid)
    requires Inv(s) && Near(s, s2, t) && Sound(s2, t)
    ensures Inv(s2)
  {
    hide NoDup, InChain, Armed, TimerOk;
  }

  ghost predicate ChainsOk(s: State) {
    forall k :: k in s.chains ==> s.chains[k] != [] && NoDup(s.chains[k])
  }

  // Joining adds `t` to one chain and touches nothing else.
  lemma JoinChains(s: State, t: Tid, now: int)
    requires t in s.timers && ChainsOk(s) && forall k :: !InChain(s, k, t)
    ensures ChainsOk(Join(s, t, now))
    ensures forall k, u ::
              InChain(Join(s, t, now), k, u) <==> InChain(s, k, u) || (k == now + s.timers[t].time && u == t)
  {
    var k := now + s.timers[t].time;
    assert !InChain(s, k, t);
    if k in s.chains { InsertSecond(s.chains[k], t); }
  }

  lemma InsertSecond(c: seq<Tid>, t: Tid)
    requires c != [] && NoDup(c) && t !in c
    ensures NoDup([c[0], t] + c[1..])
    ensures forall u :: u in [c[0], t] + c[1..] <==> u in c || u == t
  {
    assert c == [c[0]] + c[1..];
  }

  lemma UnchainChains(s: State, t: Tid)
    requires t in s.timers && ChainsOk(s) && InChain(s, s.timers[t].id, t)
    ensures ChainsOk(Unchain(s, t))
    ensures forall k, u ::
              InChain(Unchain(s, t), k, u) <==> InChain(s, k, u) && !(k == s.timers[t].id && u == t)
  {
    var k := s.timers[t].id;
    CutMembers(s.chains[k], t);
  }

  // A join from any state whose only fault is that `t` is not yet in a chain.
  lemma JoinKeeps(s0: State, s: State, t: Tid, now: int)
    requires Inv(s0) && t in s.timers && Near(s0, s, t) && t !in s.batch
    requires forall k :: !InChain(s, k, t)
    requires Armed(s.timers[t].(stopped := false)) && s.timers[t].released == 0
    ensures Inv(Join(s, t, now))
  {
    JoinChains(s, t, now);
    var s2 := Join(s, t, now);
    hide Inv, NoDup, InChain;
    assert Near(s0, s2, t);
    LocalKeeps(s0, s2, t);
  }

  lemma NewKeeps(s: State, t: Tid, time: nat, repeat: int, mark: int, now: int)
    requires Inv(s) && t !in s.timers
    ensures Inv(New(s, t, time, repeat, mark, now))
  {
    if time != 0 {
      At(s, t);
      var s1 := Put(s, t, Timer(0, false, repeat == 0, false, repeat, time, mark, 0, 0));
      hide ChainInv, BatchInv, ReleaseInv, NoDup;
      PutNear(s, t, s1.timers[t]);
      if repeat != 0 { JoinKeeps(s, s1, t, now); } else { LocalKeeps(s, s1, t); }
    }
  }

  lemma PutNear(s: State, t: Tid, x: Timer)
    requires Inv(s)
    ensures Near(s, Put(s, t, x), t)
    ensures forall k, u :: InChain(Put(s, t, x), k, u) <==> InChain(s, k, u)
  {}

  lemma LeaveKeeps(s: State, t: Tid)
    requires Inv(s) && t in s.timers && !s.timers[t].processing && !s.timers[t].deleted && !RunOut(s.timers[t])
    ensures Inv(Leave(s, t)) && Leave(s, t).batch == s.batch
    ensures t in Leave(s, t).timers && Leave(s, t).timers[t] == s.timers[t].(stopped := true)
    ensures forall k :: !InChain(Leave(s, t), k, t)
    ensures Near(s, Leave(s, t), t)
  {
    At(s, t);
    PutNear(s, t, s.timers[t]);
    if !s.timers[t].stopped {
      UnchainChains(s, t);
      hide ChainInv, BatchInv, ReleaseInv, NoDup, InChain;
      LocalKeeps(s, Leave(s, t), t);
    } else {
      assert Near(s, s, t);
    }
  }

  lemma DelKeeps(s: State, t: Tid)
    requires Inv(s) && t in s.timers && !RunOut(s.timers[t])
    ensures Inv(Del(s, t))
  {
    At(s, t);
    var s2 := Del(s, t);
    var x := s.timers[t];
    if x.processing {
      PutNear(s, t, s2.timers[t]);
      LocalKeeps(s, s2, t);
    } else if !x.deleted {
      var s1 := Leave(s, t);
      LeaveKeeps(s, t);
      At(s1, t);
      hide ChainInv, BatchInv, ReleaseInv, NoDup, InChain, Leave;
      PutNear(s1, t, s2.timers[t]);
      LocalKeeps(s1, s2, t);
    }
  }

  lemma SetKeeps(s: State, t: Tid, time: nat, repeat: int, mark: int, now: int)
    requires Inv(s) && t in s.timers && !RunOut(s.timers[t])
    ensures Inv(Set(s, t, time, repeat, mark, now))
  {
    At(s, t);
    var x := s.timers[t];
    if time == 0 || repeat == 0 || x.deleted { return; }
    if x.processing {
      var s2 := Set(s, t, time, repeat, mark, now);
      PutNear(s, t, s2.timers[t]);
      LocalKeeps(s, s2, t);
    } else {
      var s1 := Leave(s, t);
      LeaveKeeps(s, t);
      At(s1, t);
      var y := x.(time := time, repeat := repeat, mark := mark, stopped := true);
      hide ChainInv, BatchInv, ReleaseInv, NoDup, InChain, Leave;
      PutNear(s1, t, y);
      JoinKeeps(s1, Put(s1, t, y), t, now);
    }
  }

  lemma StopKeeps(s: State, t: Tid)
    requires Inv(s) && t in s.timers && !RunOut(s.timers[t])
    ensures Inv(Stop(s, t))
  {
    At(s, t);
    var x := s.timers[t];
    if x.deleted || x.processing {
      PutNear(s, t, x.(stopped := true));
      hide ChainInv, BatchInv, ReleaseInv, NoDup, InChain, Leave;
      LocalKeeps(s, Stop(s, t), t);
    } else {
      LeaveKeeps(s, t);
    }
  }

  lemma RestartKeeps(s: State, t: Tid, now: int)
    requires Inv(s) && t in s.timers && !RunOut(s.timers[t])
    ensures Inv(Restart(s, t, now))
  {
    At(s, t);
    var x := s.timers[t];
    if x.deleted || !x.stopped || x.repeat == 0 { return; }
    PutNear(s, t, x.(stopped := false));
    PutNear(s, t, x);
    hide ChainInv, BatchInv, ReleaseInv, NoDup;
    if x.processing {
      LocalKeeps(s, Restart(s, t, now), t);
    } else {
      assert Put(s, t, x) == s;
      JoinKeeps(s, s, t, now);
    }
  }

  lemma LostKeeps(s: State, t: Tid)
    requires Inv(s) && t in s.batch
    ensures t in s.timers && Inv(Lost(s, t))
  {
    At(s, t);
    PutNear(s, t, s.timers[t].(deleted := true));
    hide ChainInv, BatchInv, ReleaseInv, NoDup, InChain, Leave;
    LocalKeeps(s, Lost(s, t), t);
  }

  // The first of the batch, no longer being processed: it alone has moved.
  lemma DoneStarts(s: State, x: Timer)
    requires Inv(s) && s.batch != []
    ensures var t := s.batch[0];
            var s1 := Put(s.(batch := s.batch[1..]), t, x);
            && t in s.timers && Near(s, s1, t) && t !in s1.batch && (forall k :: !InChain(s1, k, t))
            && TimerOk(s.timers[t]) && s.timers[t].processing
  {
    var t := s.batch[0];
    At(s, t);
    var s1 := Put(s.(batch := s.batch[1..]), t, x);
    assert s.batch == [t] + s.batch[1..] && t !in s.batch[1..];
    assert Near(s, s1, t) by { PutNear(s, t, x); }
    forall k ensures !InChain(s1, k, t) { assert InChain(s1, k, t) == InChain(s, k, t); }
  }

  lemma BatchLives(s: State)
    requires Inv(s) && s.batch != []
    ensures s.batch[0] in s.timers
  {}

  lemma DoneKeeps(s: State, now: int)
    requires Inv(s) && s.batch != []
    ensures s.batch[0] in s.timers && Inv(Done(s, now))
  {
    hide Inv, Near, InChain;
    var t := s.batch[0];
    assert t in s.timers by { BatchLives(s); }
    DoneStarts(s, s.timers[t].(processing := false));
    var x := s.timers[t].(processing := false);
    var s1 := Put(s.(batch := s.batch[1..]), t, x);
    var s2 := Done(s, now);
    if !x.deleted && !x.stopped && x.repeat != 0 {
      JoinKeeps(s, s1, t, now);
    } else {
      assert s2 == Put(s.(batch := s.batch[1..]), t, s2.timers[t]);
      DoneStarts(s, s2.timers[t]);
      LocalKeeps(s, s2, t);
    }
  }

  lemma FireKeeps(s: State, k: int)
    requires Inv(s) && k in s.chains && s.batch == []
    ensures Inv(Fire(s, k))
  {
    var s2 := Fire(s, k);
    forall t ensures t in s.chains[k] <==> InChain(s, k, t) {}
    forall t | InChain(s, k, t) ensures t in s.timers && s2.timers[t] == Begin(s.timers[t]) {}
    forall j, t ensures InChain(s2, j, t) <==> InChain(s, j, t) && j != k {}
    forall t | t in s.timers && !InChain(s, k, t) ensures s2.timers[t] == s.timers[t] {}
    hide InChain;
  }

  // The batch is put back timer by timer.
  ghost function Finish(s: State, now: int): State
    requires Inv(s)
    decreases |s.batch|
  {
    if s.batch == [] then s
    else
      DoneKeeps(s, now);
      Finish(Done(s, now), now)
  }

  lemma {:induction false} FinishKeeps(s: State, now: int)
    requires Inv(s)
    ensures Inv(Finish(s, now)) && Finish(s, now).batch == []
    decreases |s.batch|
  {
    hide Inv;
    if s.batch != [] {
      DoneKeeps(s, now);
      FinishKeeps(Done(s, now), now);
    }
  }

  // ---------- The earliest timer ----------

  // p_earliest_timer heads the chain with the least id.
  ghost predicate IsEarliest(s: State, e: Option<Tid>) {
    match e
    case None => s.chains == map[]
    case Some(t) =>
      && t in s.timers && s.timers[t].id in s.chains
      && s.chains[s.timers[t].id] != [] && s.chains[s.timers[t].id][0] == t
      && forall k :: k in s.chains ==> s.timers[t].id <= k
  }

  // Leaving a chain: only the earliest timer's own leaving calls for a new one.
  lemma LeaveEarliest(s: State, t: Tid, e: Option<Tid>)
    requires Inv(s) && IsEarliest(s, e) && t in s.timers && Armed(s.timers[t])
    ensures InChain(s, s.timers[t].id, t)
    ensures e != Some(t) ==> IsEarliest(Leave(s, t), e)
    ensures e == Some(t) && |s.chains[s.timers[t].id]| > 1 ==>
              IsEarliest(Leave(s, t), Some(s.chains[s.timers[t].id][1]))
    ensures s.chains[s.timers[t].id][0] != t ==> e != Some(t)
  {
    var k := s.timers[t].id;
    assert InChain(s, k, t);
    var chain := s.chains[k];
    CutMembers(chain, t);
    if e == Some(t) && |chain| > 1 {
      assert InChain(s, k, chain[1]);
      assert Cut(chain, t) == chain[1..];
    }
  }

  lemma JoinEarliest(s: State, t: Tid, now: int, e: Option<Tid>)
    requires t in s.timers && IsEarliest(s, e) && forall k :: !InChain(s, k, t)
    ensures var k := now + s.timers[t].time;
            var e2 := if e.None? || k < s.timers[e.value].id then Some(t) else e;
            IsEarliest(Join(s, t, now), e2)
  {
    var k := now + s.timers[t].time;
    if e.Some? { assert InChain(s, s.timers[e.value].id, e.value); }
  }

  // ---------- Whole runs ----------

  datatype Event =
    | Created(t: Tid, time: nat, repeat: int, mark: int, now: int)
    | Deleted(t: Tid)
    | Adjusted(t: Tid, time: nat, repeat: int, mark: int, now: int)
    | Stopped(t: Tid)
    | Restarted(t: Tid, now: int)
    | TimesUp(k: int, now: int)
    | OtherEndLost(t: Tid)
    | PutBack(now: int)

  // Calls are made on timers that exist and have not run out; one chain is processed at a time.
  ghost predicate Enabled(s: State, e: Event) {
    match e
    case Created(t, _, _, _, _) => t !in s.timers
    case TimesUp(k, now) => s.batch == [] && k in s.chains && k <= now && forall j :: j in s.chains ==> k <= j
    case OtherEndLost(t) => t in s.batch
    case PutBack(_) => true
    case _ => e.t in s.timers && !RunOut(s.timers[e.t])
  }

  ghost function Next(s: State, e: Event): State
    requires Inv(s) && Enabled(s, e)
  {
    match e
    case Created(t, time, repeat, mark, now) => New(s, t, time, repeat, mark, now)
    case Deleted(t) => Del(s, t)
    case Adjusted(t, time, repeat, mark, now) => Set(s, t, time, repeat, mark, now)
    case Stopped(t) => Stop(s, t)
    case Restarted(t, now) => Restart(s, t, now)
    case TimesUp(k, _) => Fire(s, k)
    case OtherEndLost(t) => Lost(s, t)
    case PutBack(now) => Finish(s, now)
  }

  lemma NextKeeps(s: State, e: Event)
    requires Inv(s) && Enabled(s, e)
    ensures Inv(Next(s, e))
  {
    hide Inv, New, Del, Set, Stop, Restart, Fire, Lost, Finish;
    match e
    case Created(t, time, repeat, mark, now) => NewKeeps(s, t, time, repeat, mark, now);
    case Deleted(t) => DelKeeps(s, t);
    case Adjusted(t, time, repeat, mark, now) => SetKeeps(s, t, time, repeat, mark, now);
    case Stopped(t) => StopKeeps(s, t);
    case Restarted(t, now) => RestartKeeps(s, t, now);
    case TimesUp(k, _) => FireKeeps(s, k);
    case OtherEndLost(t) => LostKeeps(s, t);
    case PutBack(now) => FinishKeeps(s, now);
  }

  ghost function Run(s: State, events: seq<Event>): State
    requires Inv(s)
    decreases events
  {
    if events == [] then s
    else if Enabled(s, events[0]) then NextKeeps(s, events[0]); Run(Next(s, events[0]), events[1..])
    else Run(s, events[1..])
  }

  lemma {:induction false} RunKeeps(s: State, events: seq<Event>)
    requires Inv(s)
    ensures Inv(Run(s, events))
    decreases events
  {
    hide Inv, Next;
    if events != [] {
      if Enabled(s, events[0]) {
        NextKeeps(s, events[0]);
        RunKeeps(Next(s, events[0]), events[1..]);
      } else {
        RunKeeps(s, events[1..]);
      }
    }
  }

  /**
    After any run: chains are not empty and hold distinct timers with the chain's id;
    a timer that is not stopped, deleted or being processed is in the chain of its id
    and in no other if and only if it has repeats left; a stopped, deleted or
    processed one is in none; a deleted timer has been released exactly once, unless
    it is still in the batch, and no other timer ever is.
   */
  lemma EveryRun(events: seq<Event>)
    ensures Inv(Empty)
    ensures var s := Run(Empty, events);
            && (forall k :: k in s.chains ==> s.chains[k] != [] && NoDup(s.chains[k]))
            && (forall k, t :: InChain(s, k, t) ==> t in s.timers)
            && (forall t :: t in s.timers ==>
                              var x := s.timers[t];
                              if x.processing || x.stopped || x.deleted then forall k :: !InChain(s, k, t)
                              else if x.repeat != 0 then forall k :: InChain(s, k, t) <==> k == x.id
                              else forall k :: !InChain(s, k, t))
            && (forall t :: t in s.timers ==> s.timers[t].released == One(s.timers[t].deleted && t !in s.batch))
  {
    RunKeeps(Empty, events);
    hide Run;
  }

  /** A one-shot timer that fired is in no chain though it is neither stopped nor deleted: it has run out. */
  lemma OneShotRunsOut(t: Tid, time: nat, mark: int, now: int, later: int)
    requires time > 0 && later >= now + time
    ensures var s := Run(Empty, [Created(t, time, 1, mark, now), TimesUp(now + time, later), PutBack(later)]);
            t in s.timers && RunOut(s.timers[t]) && forall k :: !InChain(s, k, t)
  {
    var e0, e1, e2 := Created(t, time, 1, mark, now), TimesUp(now + time, later), PutBack(later);
    var s1 := Next(Empty, e0);
    assert s1.chains == map[now + time := [t]];
    NextKeeps(Empty, e0);
    var s2 := Next(s1, e1);
    NextKeeps(s1, e1);
    assert s2.chains == map[] && s2.batch == [t];
    var s3 := Done(s2, later);
    DoneKeeps(s2, later);
    assert s3.batch == [] && Finish(s2, later) == s3;
    assert [e0, e1, e2][1..] == [e1, e2] && [e1, e2][1..] == [e2] && [e2][1..] == [];
    NextKeeps(s2, e2);
    assert Run(s3, []) == s3;
    assert Run(s2, [e2]) == s3;
    assert Run(s1, [e1, e2]) == s3;
  }
}
