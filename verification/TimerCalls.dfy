/**
  What each call of the timer index does to its timer, to the chains and to nothing
  else, said on the timer's fields and on the chains themselves.
 */
module TimerCalls {

  import opened Options
  import opened Lists
  import opened Crowd
  import opened Timers

  function ChainAt(s: State, k: int): seq<Tid> { if k in s.chains then s.chains[k] else [] }

  // A timer joins a chain behind its head, or as its only member.
  function Behind(chain: seq<Tid>, t: Tid): seq<Tid> {
    if chain == [] then [t] else [chain[0], t] + chain[1..]
  }

  // Timer `t` has gone from the chain it was in, if any, to chain `to`, if any; every chain is otherwise as it was.
  ghost predicate Moved(s: State, s2: State, t: Tid, to: Option<int>) {
    forall j :: ChainAt(s2, j) == var rest := Cut(ChainAt(s, j), t); if to == Some(j) then Behind(rest, t) else rest
  }

  // The other timers are as they were.
  ghost predicate OnlyTimer(s: State, s2: State, t: Tid) {
    t in s2.timers && s2.timers.Keys == s.timers.Keys + {t} && forall u :: u in s.timers && u != t ==> s2.timers[u] == s.timers[u]
  }

  // ---------- The moves ----------

  lemma InNone(s: State, t: Tid)
    requires forall k :: !InChain(s, k, t)
    ensures forall j :: Cut(ChainAt(s, j), t) == ChainAt(s, j)
  {
    forall j ensures Cut(ChainAt(s, j), t) == ChainAt(s, j) {
      assert !InChain(s, j, t);
      CutNothing(ChainAt(s, j), t);
    }
  }

  lemma LeaveTells(s: State, t: Tid)
    requires Inv(s) && t in s.timers && !s.timers[t].processing && !s.timers[t].deleted && !RunOut(s.timers[t])
    ensures var s2 := Leave(s, t);
            Moved(s, s2, t, None) && OnlyTimer(s, s2, t) && s2.timers[t] == s.timers[t].(stopped := true) && s2.batch == s.batch
  {
    At(s, t);
    var k := s.timers[t].id;
    forall j ensures ChainAt(Leave(s, t), j) == Cut(ChainAt(s, j), t) {
      if !InChain(s, j, t) { CutNothing(ChainAt(s, j), t); }
    }
  }

  lemma JoinTells(s: State, t: Tid, now: int)
    requires t in s.timers && ChainsOk(s) && forall k :: !InChain(s, k, t)
    ensures var s2, k := Join(s, t, now), now + s.timers[t].time;
            Moved(s, s2, t, Some(k)) && OnlyTimer(s, s2, t)
            && s2.timers[t] == s.timers[t].(id := k, stopped := false) && s2.batch == s.batch
  {
    InNone(s, t);
  }

  lemma MovedTwice(s: State, s1: State, s2: State, t: Tid, to: Option<int>)
    requires Moved(s, s1, t, None) && Moved(s1, s2, t, to) && forall k :: !InChain(s1, k, t)
    ensures Moved(s, s2, t, to)
  {
    InNone(s1, t);
    hide Cut, Behind;
  }

  lemma StaysPut(s: State, s2: State, t: Tid)
    requires s2.chains == s.chains && forall k :: !InChain(s, k, t)
    ensures Moved(s, s2, t, None)
  {
    InNone(s, t);
  }

  // ---------- The calls ----------

  /** timer_new: a timer that counts down from now, or a stopped one if it has no repeats. */
  lemma NewTells(s: State, t: Tid, time: nat, repeat: int, mark: int, now: int)
    requires Inv(s) && t !in s.timers
    ensures var s2 := New(s, t, time, repeat, mark, now);
            if time == 0 then s2 == s
            else
              && OnlyTimer(s, s2, t) && s2.batch == s.batch
              && var x := s2.timers[t];
              && x.time == time && x.repeat == repeat && x.mark == mark && x.released == 0
              && !x.processing && !x.deleted && x.stopped == (repeat == 0)
              && (repeat != 0 ==> x.id == now + time)
              && Moved(s, s2, t, if repeat == 0 then None else Some(now + time))
  {
    if time != 0 {
      At(s, t);
      var s1 := Put(s, t, Timer(0, false, repeat == 0, false, repeat, time, mark, 0, 0));
      assert forall k :: InChain(s1, k, t) == InChain(s, k, t);
      if repeat == 0 { StaysPut(s, s1, t); } else { JoinTells(s1, t, now); }
    }
  }

  /**
    timer_set: unless it is refused, the timer has the new time, number of repeats and mark
    and is not stopped; and if it is not being processed it counts down from now.
   */
  lemma SetTells(s: State, t: Tid, time: nat, repeat: int, mark: int, now: int)
    requires Inv(s) && t in s.timers && !RunOut(s.timers[t])
    ensures var s2, was := Set(s, t, time, repeat, mark, now), s.timers[t];
            if time == 0 || repeat == 0 || was.deleted then s2 == s
            else
              && OnlyTimer(s, s2, t) && s2.batch == s.batch
              && var x := s2.timers[t];
              && x.time == time && x.repeat == repeat && x.mark == mark && !x.stopped
              && x.processing == was.processing && !x.deleted && x.released == was.released && x.toldMark == was.toldMark
              && (!was.processing ==> x.id == now + time)
              && Moved(s, s2, t, if was.processing then None else Some(now + time))
  {
    At(s, t);
    var x := s.timers[t];
    if time == 0 || repeat == 0 || x.deleted {
    } else if x.processing {
      StaysPut(s, Set(s, t, time, repeat, mark, now), t);
    } else {
      LeaveKeeps(s, t);
      LeaveTells(s, t);
      hide Inv, Leave, Moved, Join, InChain;
      Rejoins(s, Leave(s, t), t, x.(time := time, repeat := repeat, mark := mark, stopped := true), now);
    }
  }

  // Out of its chain, with new values, into another.
  lemma Rejoins(s: State, s1: State, t: Tid, x: Timer, now: int)
    requires Moved(s, s1, t, None) && OnlyTimer(s, s1, t) && s1.batch == s.batch && Inv(s1)
    requires forall k :: !InChain(s1, k, t)
    ensures var s2 := Join(Put(s1, t, x), t, now);
            && Moved(s, s2, t, Some(now + x.time)) && OnlyTimer(s, s2, t) && s2.batch == s.batch
            && s2.timers[t] == x.(id := now + x.time, stopped := false)
  {
    hide Moved;
    var s2 := Put(s1, t, x);
    PutNear(s1, t, x);
    JoinTells(s2, t, now);
    assert Moved(s1, Join(s2, t, now), t, Some(now + x.time)) by { SameChains(s1, s2, Join(s2, t, now), t, Some(now + x.time)); }
    MovedTwice(s, s1, Join(s2, t, now), t, Some(now + x.time));
  }

  lemma SameChains(s: State, s1: State, s2: State, t: Tid, to: Option<int>)
    requires s.chains == s1.chains && Moved(s1, s2, t, to)
    ensures Moved(s, s2, t, to)
  {
    assert forall j :: ChainAt(s, j) == ChainAt(s1, j);
  }

  /** timer_stop: the timer is stopped; it is in no chain then, and keeps its time and repeats. */
  lemma StopTells(s: State, t: Tid)
    requires Inv(s) && t in s.timers && !RunOut(s.timers[t])
    ensures var s2 := Stop(s, t);
            && OnlyTimer(s, s2, t) && s2.batch == s.batch
            && s2.timers[t] == s.timers[t].(stopped := true)
            && Moved(s, s2, t, None)
  {
    At(s, t);
    if s.timers[t].deleted || s.timers[t].processing { StaysPut(s, Stop(s, t), t); } else { LeaveTells(s, t); }
  }

  /** timer_restart: a stopped timer with repeats left is stopped no more, and counts down from now unless it is being processed. */
  lemma RestartTells(s: State, t: Tid, now: int)
    requires Inv(s) && t in s.timers && !RunOut(s.timers[t])
    ensures var s2, was := Restart(s, t, now), s.timers[t];
            if was.deleted || !was.stopped || was.repeat == 0 then s2 == s
            else
              && OnlyTimer(s, s2, t) && s2.batch == s.batch
              && s2.timers[t] == was.(stopped := false, id := if was.processing then was.id else now + was.time)
              && Moved(s, s2, t, if was.processing then None else Some(now + was.time))
  {
    At(s, t);
    var x := s.timers[t];
    if x.deleted || !x.stopped || x.repeat == 0 {
    } else if x.processing {
      StaysPut(s, Restart(s, t, now), t);
    } else {
      JoinTells(s, t, now);
    }
  }

  /** timer_del: the timer is deleted and in no chain; it is released now, or by the put-back if it is being processed. */
  lemma DelTells(s: State, t: Tid)
    requires Inv(s) && t in s.timers && !RunOut(s.timers[t])
    ensures var s2, was := Del(s, t), s.timers[t];
            if was.deleted then s2 == s
            else
              && OnlyTimer(s, s2, t) && s2.batch == s.batch
              && s2.timers[t] == (if was.processing then was.(deleted := true)
                                  else was.(deleted := true, stopped := true, released := was.released + 1))
              && Moved(s, s2, t, None)
  {
    At(s, t);
    var x := s.timers[t];
    if x.deleted {
    } else if x.processing {
      StaysPut(s, Del(s, t), t);
    } else {
      LeaveTells(s, t);
    }
  }

  // ---------- The timer thread ----------

  /**
    The chain whose time is up is the batch and in the tree no more; each of its timers is
    being processed, is told its mark, and has one repeat less unless it repeats for ever.
   */
  lemma FireTells(s: State, k: int)
    requires Inv(s) && k in s.chains && s.batch == []
    ensures var s2 := Fire(s, k);
            && s2.batch == ChainAt(s, k) && s2.timers.Keys == s.timers.Keys
            && (forall j :: ChainAt(s2, j) == if j == k then [] else ChainAt(s, j))
            && (forall t :: t in s.timers && t !in s2.batch ==> s2.timers[t] == s.timers[t])
            && (forall t :: t in s2.batch ==>
                              && t in s.timers && s.timers[t].id == k && s.timers[t].repeat != 0
                              && s2.timers[t].processing && s2.timers[t].toldMark == s.timers[t].mark
                              && s2.timers[t].repeat == s.timers[t].repeat - (if s.timers[t].repeat > 0 then 1 else 0)
                              && s2.timers[t] == s.timers[t].(processing := true, toldMark := s.timers[t].mark, repeat := s2.timers[t].repeat))
  {
    forall t | t in s.chains[k] ensures t in s.timers && Armed(s.timers[t]) && s.timers[t].id == k { assert InChain(s, k, t); }
    hide Inv, NoDup;
  }

  /** A timer whose other endpoint is gone is marked deleted, and nothing else happens to it yet. */
  lemma LostTells(s: State, t: Tid)
    requires Inv(s) && t in s.batch
    ensures t in s.timers && var s2 := Lost(s, t);
                          && OnlyTimer(s, s2, t) && s2.timers[t] == s.timers[t].(deleted := true)
                          && s2.chains == s.chains && s2.batch == s.batch
  {
    At(s, t);
  }

  // How a timer of the batch is left by the put-back.
  ghost predicate Settled(was: Timer, x: Timer, now: int) {
    && !x.processing && x.deleted == was.deleted && x.repeat == was.repeat && x.time == was.time
    && x.mark == was.mark && x.toldMark == was.toldMark
    && x.stopped == (was.stopped || was.deleted)
    && x.released == was.released + One(was.deleted)
    && x.id == if GoesBack(was) then now + was.time else was.id
  }

  predicate GoesBack(was: Timer) { !was.deleted && !was.stopped && was.repeat != 0 }

  /** One timer of the batch counts down anew, or stays out: stopped, run out, or deleted and then released. */
  lemma DoneTells(s: State, now: int)
    requires Inv(s) && s.batch != []
    ensures s.batch[0] in s.timers && var t, s2 := s.batch[0], Done(s, now);
                                   var was := s.timers[t];
                                   && OnlyTimer(s, s2, t) && s2.batch == s.batch[1..]
                                   && Settled(was, s2.timers[t], now)
                                   && Moved(s, s2, t, if GoesBack(was) then Some(now + was.time) else None)
  {
    BatchLives(s);
    var t := s.batch[0];
    At(s, t);
    var x := s.timers[t].(processing := false);
    var s1 := Put(s.(batch := s.batch[1..]), t, x);
    DoneStarts(s, x);
    if GoesBack(x) { JoinTells(s1, t, now); } else { StaysPut(s, Done(s, now), t); }
  }

  /** And so it goes for every timer of the batch, all by the same clock; no other timer is touched. */
  lemma {:induction false} FinishTells(s: State, now: int)
    requires Inv(s)
    ensures var s2 := Finish(s, now);
            && s2.batch == [] && s2.timers.Keys == s.timers.Keys
            && (forall t :: t in s.timers && t !in s.batch ==> s2.timers[t] == s.timers[t])
            && (forall t :: t in s.batch ==> t in s.timers && Settled(s.timers[t], s2.timers[t], now))
    decreases |s.batch|
  {
    hide Inv, Settled, Moved;
    if s.batch != [] {
      DoneKeeps(s, now);
      DoneTells(s, now);
      FinishTells(Done(s, now), now);
      Distinct(s);
    }
  }

  lemma Distinct(s: State)
    requires Inv(s) && s.batch != []
    ensures s.batch[0] !in s.batch[1..]
  {}
}
