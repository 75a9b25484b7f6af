/** moon_timer.c's timer_runtime_s, updated in place under its mutex. */
module TimerIndex {

  import opened Options
  import opened Lists
  import opened Crowd
  import opened Timers
  import opened ChainHeads
  import AvlShape

  // The first timer of each chain.
  ghost function Firsts(chains: map<int, seq<Tid>>): map<int, Tid> {
    map k | k in chains :: if chains[k] != [] then chains[k][0] else 0
  }

  // A timer further down a chain, or in none, heads no chain.
  lemma NotFirst(s: State, t: Tid)
    requires ChainsOk(s) && forall k :: k in s.chains ==> s.chains[k][0] != t
    ensures t !in Firsts(s.chains).Values
  {
    forall k | k in Firsts(s.chains) ensures Firsts(s.chains)[k] != t {}
  }

  lemma SecondIsNotFirst(s: State, k: int)
    requires ChainInv(s) && k in s.chains && |s.chains[k]| > 1
    ensures s.chains[k][1] !in Firsts(s.chains).Values
  {
    var t := s.chains[k][1];
    assert InChain(s, k, t);
    forall j | j in s.chains ensures s.chains[j][0] != t { assert InChain(s, j, s.chains[j][0]); }
    NotFirst(s, t);
  }

  // A chain without its head.
  function Behead(chains: map<int, seq<Tid>>, k: int): map<int, seq<Tid>>
    requires k in chains && chains[k] != []
  {
    if |chains[k]| == 1 then chains - {k} else chains[k := chains[k][1..]]
  }

  lemma BeheadFirsts(chains: map<int, seq<Tid>>, k: int)
    requires k in chains && chains[k] != []
    ensures k in Firsts(chains) && Firsts(chains)[k] == chains[k][0]
    ensures Firsts(Behead(chains, k)) ==
            if |chains[k]| == 1 then Firsts(chains) - {k} else Firsts(chains)[k := chains[k][1]]
  {}

  // A timer in no chain heads none.
  lemma HeadsNone(s: State, t: Tid)
    requires ChainsOk(s) && Unchained(s, t)
    ensures t !in Firsts(s.chains).Values
  {
    forall k | k in s.chains ensures s.chains[k][0] != t { assert !InChain(s, k, t); }
    NotFirst(s, t);
  }

  lemma FirstIsEarliest(s: State, e: Option<Tid>)
    requires ChainInv(s)
    requires e.None? <==> Firsts(s.chains) == map[]
    requires e.Some? ==> exists k :: k in Firsts(s.chains) && Firsts(s.chains)[k] == e.value &&
                                     forall j :: j in Firsts(s.chains) ==> k <= j
    ensures IsEarliest(s, e)
  {
    assert Firsts(s.chains).Keys == s.chains.Keys;
    if e.Some? {
      var k :| k in Firsts(s.chains) && Firsts(s.chains)[k] == e.value && forall j :: j in Firsts(s.chains) ==> k <= j;
      assert InChain(s, k, e.value);
    } else {
      assert s.chains.Keys == {};
    }
  }

  lemma CutBehind(chains: map<int, seq<Tid>>, k: int, t: Tid)
    requires k in chains && chains[k] != [] && chains[k][0] != t
    ensures Cut(chains[k], t) != [] && Firsts(chains[k := Cut(chains[k], t)]) == Firsts(chains)
  {}

  lemma JoinedFirsts(chains: map<int, seq<Tid>>, k: int, t: Tid)
    requires forall j :: j in chains ==> chains[j] != []
    ensures Firsts(Joined(chains, k, t)) == if k in chains then Firsts(chains) else Firsts(chains)[k := t]
    ensures k in Firsts(chains) <==> k in chains
    ensures k in chains ==> Firsts(chains)[k] == chains[k][0]
  {}

  // Firsts of the chains without one of them.
  lemma DropFirsts(chains: map<int, seq<Tid>>, k: int)
    requires k in chains && chains[k] != []
    ensures k in Firsts(chains) && Firsts(chains)[k] == chains[k][0]
    ensures Firsts(chains - {k}) == Firsts(chains) - {k}
  {}

  // What timer_join_avl amounts to.
  lemma JoinReady(s: State, t: Tid, now: int, e: Option<Tid>)
    requires t in s.timers && ChainsOk(s) && IsEarliest(s, e) && Unchained(s, t)
    ensures t !in Firsts(s.chains).Values && (e.Some? ==> e.value in s.timers && e.value != t)
    ensures var k := now + s.timers[t].time;
            && Join(s, t, now) ==
               State(s.timers[t := s.timers[t].(stopped := false, id := k)], Joined(s.chains, k, t), s.batch)
            && IsEarliest(Join(s, t, now), if e.None? || k < s.timers[e.value].id then Some(t) else e)
  {
    JoinEarliest(s, t, now, e);
    HeadsNone(s, t);
    EarliestIn(s, e);
    if e.Some? { assert InChain(s, s.timers[e.value].id, e.value); }
  }

  lemma NotHead(chains: map<int, seq<Tid>>, k: int, t: Tid)
    requires k in chains && chains[k] != [] && t !in Firsts(chains).Values
    ensures chains[k][0] != t
  {
    assert Firsts(chains)[k] == chains[k][0];
  }

  ghost predicate Unchained(s: State, t: Tid) { forall k :: !InChain(s, k, t) }

  // ---------- Side conditions of the calls ----------

  lemma PutEarliest(s: State, t: Tid, x: Timer, e: Option<Tid>)
    requires IsEarliest(s, e) && t in s.timers && x.id == s.timers[t].id
    ensures IsEarliest(Put(s, t, x), e)
  {}

  lemma EarliestIn(s: State, e: Option<Tid>)
    requires IsEarliest(s, e)
    ensures e.Some? ==> e.value in s.timers
  {}

  lemma UnchainCases(s: State, t: Tid)
    requires Inv(s) && t in s.timers && InChain(s, s.timers[t].id, t) && !s.timers[t].stopped
    ensures var k := s.timers[t].id;
            var chain := s.chains[k];
            && chain != []
            && Leave(s, t).timers == s.timers[t := s.timers[t].(stopped := true)] && Leave(s, t).batch == s.batch
            && Leave(s, t).chains == if chain[0] == t then Behead(s.chains, k) else s.chains[k := Cut(chain, t)]
  {
    var k := s.timers[t].id;
    var chain := s.chains[k];
    CutMembers(chain, t);
  }

  lemma NewReady(s: State, t: Tid, x: Timer, e: Option<Tid>)
    requires Inv(s) && t !in s.timers && IsEarliest(s, e)
    ensures ChainsOk(Put(s, t, x)) && IsEarliest(Put(s, t, x), e) && Unchained(Put(s, t, x), t)
  {
    At(s, t);
    forall k ensures !InChain(Put(s, t, x), k, t) { assert !InChain(s, k, t); }
  }

  lemma PutChains(s: State, t: Tid, x: Timer)
    requires Inv(s) && Unchained(s, t)
    ensures ChainsOk(Put(s, t, x)) && Unchained(Put(s, t, x), t)
  {
    forall k ensures !InChain(Put(s, t, x), k, t) { assert !InChain(s, k, t); }
  }

  lemma StoppedInNone(s: State, t: Tid)
    requires Inv(s) && t in s.timers && s.timers[t].stopped
    ensures ChainsOk(s) && Unchained(s, t)
  {
    At(s, t);
  }

  lemma ChainLives(s: State, k: int)
    requires Inv(s) && k in s.chains
    ensures NoDup(s.chains[k]) && ChainInv(s) && forall t :: t in s.chains[k] ==> t in s.timers
    ensures ChainInv(Fire(s, k)) <== Inv(Fire(s, k))
  {
    forall t | t in s.chains[k] ensures t in s.timers { assert InChain(s, k, t); }
  }

  lemma DoneShortens(s: State, now: int)
    requires s.batch != [] && s.batch[0] in s.timers
    ensures |Done(s, now).batch| < |s.batch|
  {}

  lemma DoneReady(s: State, x: Timer, e: Option<Tid>)
    requires Inv(s) && s.batch != [] && s.batch[0] in s.timers && IsEarliest(s, e)
    ensures var s1 := Put(s, s.batch[0], x).(batch := s.batch[1..]);
            ChainsOk(s1) && IsEarliest(s1, e) && Unchained(s1, s.batch[0])
    ensures forall y: Timer :: IsEarliest(Put(s, s.batch[0], y).(batch := s.batch[1..]), e)
  {
    var t := s.batch[0];
    At(s, t);
    forall k ensures !InChain(s, k, t) {}
    var s1 := Put(s, t, x).(batch := s.batch[1..]);
    forall k ensures !InChain(s1, k, t) { assert !InChain(s, k, t); }
    if e.Some? { assert InChain(s, s.timers[e.value].id, e.value); }
  }

  class Index {
    var timers: map<Tid, Timer>
    var chains: map<int, seq<Tid>>   // the lists of timers with one id, by id, heads first
    const tree: HeadTree             // the tree of their heads
    var batch: seq<Tid>              // the chain timer_task has taken out
    var earliest: Option<Tid>

    // The nodes of the tree belong to the heads of the chains, under their ids.
    ghost predicate Headed()
      reads this, tree, tree.avl, AvlShape.Nodes(tree.avl.tree)
    {
      this !in tree.Repr() && tree.Valid() && tree.Heads() == Firsts(chains)
    }

    ghost function View(): State
      reads this
    {
      State(timers, chains, batch)
    }

    // What holds whenever the mutex is free.
    ghost predicate Valid()
      reads this, tree, tree.avl, AvlShape.Nodes(tree.avl.tree)
    {
      Inv(View()) && IsEarliest(View(), earliest) && Headed()
    }

    constructor ()
      ensures Valid() && View() == Empty && fresh(tree.Repr())
    {
      timers, chains, batch, earliest := map[], map[], [], None;
      tree := new HeadTree();
    }

    // The timer of avl_leftest_node heads the chain with the least id.
    method Leftest() returns (e: Option<Tid>)
      requires ChainInv(View()) && Headed()
      ensures IsEarliest(View(), e)
      ensures Headed() && tree.Repr() == old(tree.Repr())
    {
      hide HeadTree.Valid, HeadTree.Heads;
      e := tree.First();
      FirstIsEarliest(View(), e);
    }

    // New fields besides the tree, which already has the heads of the new chains.
    method Store(s: State, e: Option<Tid>)
      requires this !in tree.Repr() && tree.Valid() && tree.Heads() == Firsts(s.chains)
      modifies this
      ensures Headed() && tree.Repr() == old(tree.Repr()) && View() == s && earliest == e
    {
      hide Firsts, OwnedBy, HeadsOf;
      timers, chains, batch, earliest := s.timers, s.chains, s.batch, e;
    }

    // New fields besides the tree and the chains.
    method Update(ts: map<Tid, Timer>, b: seq<Tid>, e: Option<Tid>)
      requires Headed()
      modifies this
      ensures Headed() && tree.Repr() == old(tree.Repr())
      ensures View() == State(ts, old(chains), b) && earliest == e
    {
      Store(State(ts, chains, b), e);
    }

    // A field of one timer other than its id.
    method SetTimer(t: Tid, x: Timer)
      requires t in timers && x.id == timers[t].id && IsEarliest(View(), earliest) && Headed()
      modifies this
      ensures Headed() && tree.Repr() == old(tree.Repr())
      ensures View() == Put(old(View()), t, x) && earliest == old(earliest) && IsEarliest(View(), earliest)
    {
      PutEarliest(View(), t, x, earliest);
      hide Index.Headed, IsEarliest;
      Update(timers[t := x], batch, earliest);
    }

    // The head of a chain gives its place in the tree up, to the next timer if there is one.
    method GiveUpPlace(k: int)
      requires ChainInv(View()) && Headed() && k in chains
      modifies tree.Repr()
      ensures this !in tree.Repr() && tree.Valid() && fresh(tree.Repr() - old(tree.Repr()))
      ensures tree.Heads() == Firsts(Behead(chains, k))
      ensures View() == old(View()) && earliest == old(earliest)
    {
      var t := chains[k][0];
      BeheadFirsts(chains, k);
      hide HeadTree.Valid, HeadTree.Heads, Firsts, Behead;
      if |chains[k]| == 1 {
        tree.DropHead(k, t);
      } else {
        SecondIsNotFirst(View(), k);
        tree.HandOn(k, t, chains[k][1]);
      }
    }

    // The whole chain leaves the tree with its head.
    method DropChain(k: int)
      requires ChainInv(View()) && Headed() && k in chains
      modifies tree.Repr()
      ensures this !in tree.Repr() && tree.Valid() && fresh(tree.Repr() - old(tree.Repr()))
      ensures tree.Heads() == Firsts(chains - {k})
      ensures View() == old(View()) && earliest == old(earliest)
    {
      var t := chains[k][0];
      DropFirsts(chains, k);
      hide HeadTree.Valid, HeadTree.Heads, Firsts;
      tree.DropHead(k, t);
    }

    // A timer asks for a place in the tree: it gets one, or the head of its chain is there already.
    method AskPlace(k: int, t: Tid) returns (h: Tid)
      requires ChainsOk(View()) && Headed() && t !in Firsts(chains).Values
      modifies tree.Repr()
      ensures this !in tree.Repr() && tree.Valid() && fresh(tree.Repr() - old(tree.Repr()))
      ensures tree.Heads() == Firsts(Joined(chains, k, t))
      ensures h != t ==> k in chains && chains[k] != []
      ensures Joined(chains, k, t) == chains[k := if h == t then [t] else [h, t] + chains[k][1..]]
      ensures View() == old(View()) && earliest == old(earliest)
    {
      JoinedFirsts(chains, k, t);
      if k in chains { NotHead(chains, k, t); }
      hide HeadTree.Valid, HeadTree.Heads, Firsts;
      h := tree.AddHead(k, t);
    }

    // timer_leave_avl
    method LeaveAvl(t: Tid)
      requires Valid() && t in timers && !timers[t].processing && !timers[t].deleted && !RunOut(timers[t])
      modifies this, tree.Repr()
      ensures Valid() && t in old(timers) && View() == Leave(old(View()), t)
      ensures fresh(tree.Repr() - old(tree.Repr()))
    {
      LeaveKeeps(View(), t);
      if timers[t].stopped { return; }
      LeaveEarliest(View(), t, earliest);
      var k := timers[t].id;
      var chain := chains[k];
      UnchainCases(View(), t);
      hide BatchInv, ReleaseInv, IsEarliest, HeadTree.Valid, HeadTree.Heads, Firsts;
      var ts := timers[t := timers[t].(stopped := true)];
      if chain[0] != t {
        CutBehind(chains, k, t);
        Store(State(ts, chains[k := Cut(chain, t)], batch), earliest);
        return;
      }
      GiveUpPlace(k);
      var was := earliest;
      Store(State(ts, Behead(chains, k), batch), if was == Some(t) && |chain| > 1 then Some(chain[1]) else was);
      if was == Some(t) && |chain| == 1 {
        var e := Leftest();
        Update(timers, batch, e);
      }
    }

    // The body of timer_join_avl, for the id already computed.
    method JoinAt(t: Tid, k: int)
      requires t in timers && ChainsOk(View()) && Headed() && t !in Firsts(chains).Values
      requires earliest.Some? ==> earliest.value in timers
      modifies this, tree.Repr()
      ensures t in old(timers) && (old(earliest).Some? ==> old(earliest).value in old(timers))
      ensures View() == State(old(timers)[t := old(timers)[t].(stopped := false, id := k)], Joined(old(chains), k, t), old(batch))
      ensures earliest ==
              if old(earliest).None? || k < old(timers)[old(earliest).value].id then Some(t) else old(earliest)
      ensures Headed() && fresh(tree.Repr() - old(tree.Repr()))
    {
      hide HeadTree.Valid, HeadTree.Heads, Firsts, ChainsOk, Joined;
      var h := AskPlace(k, t);
      var cs := chains[k := if h == t then [t] else [h, t] + chains[k][1..]];
      var ts := timers[t := timers[t].(stopped := false, id := k)];
      Store(State(ts, cs, batch), if earliest.None? || k < timers[earliest.value].id then Some(t) else earliest);
    }

    // timer_join_avl
    method JoinAvl(t: Tid, now: int)
      requires t in timers && ChainsOk(View()) && IsEarliest(View(), earliest) && Headed()
      requires Unchained(View(), t)
      modifies this, tree.Repr()
      ensures t in old(timers) && View() == Join(old(View()), t, now) && IsEarliest(View(), earliest) && Headed()
      ensures fresh(tree.Repr() - old(tree.Repr()))
    {
      hide IsEarliest, Firsts, ChainsOk, Unchained, Joined, Join, Index.Headed;
      JoinReady(View(), t, now, earliest);
      JoinAt(t, now + timers[t].time);
    }

    method TimerNew(t: Tid, time: nat, repeat: int, mark: int, now: int) returns (ret: int)
      requires Valid() && t !in timers
      modifies this, tree.Repr()
      ensures Valid() && View() == New(old(View()), t, time, repeat, mark, now)
      ensures ret == if time == 0 then -1 else 0
      ensures fresh(tree.Repr() - old(tree.Repr()))
    {
      NewKeeps(View(), t, time, repeat, mark, now);
      if time == 0 { return -1; }
      var x := Timer(0, false, repeat == 0, false, repeat, time, mark, 0, 0);
      NewReady(View(), t, x, earliest);
      hide Inv, IsEarliest, Index.Headed, ChainsOk, Unchained, Join;
      Update(timers[t := x], batch, earliest);
      if repeat != 0 {
        label L:
        JoinAvl(t, now);
        forall o | o in tree.Repr() && o !in old(tree.Repr()) ensures fresh(o) {
          assert old(allocated(o)) ==> old@L(allocated(o));
        }
      }
      return 0;
    }

    method TimerDel(t: Tid)
      requires Valid() && t in timers && !RunOut(timers[t])
      modifies this, tree.Repr()
      ensures Valid() && t in old(timers) && View() == Del(old(View()), t)
      ensures fresh(tree.Repr() - old(tree.Repr()))
    {
      DelKeeps(View(), t);
      if timers[t].deleted { return; }
      hide Inv, IsEarliest, Index.Headed, Leave;
      if timers[t].processing {
        SetTimer(t, timers[t].(deleted := true));
      } else {
        LeaveKeeps(View(), t);
        LeaveAvl(t);
        SetTimer(t, timers[t].(deleted := true, released := timers[t].released + 1));
      }
    }

    method TimerSet(t: Tid, time: nat, repeat: int, mark: int, now: int) returns (ret: int)
      requires Valid() && t in timers && !RunOut(timers[t])
      modifies this, tree.Repr()
      ensures Valid() && t in old(timers) && View() == Set(old(View()), t, time, repeat, mark, now)
      ensures ret == if time == 0 || repeat == 0 || old(timers[t]).deleted then -1 else 0
      ensures fresh(tree.Repr() - old(tree.Repr()))
    {
      SetKeeps(View(), t, time, repeat, mark, now);
      if time == 0 || repeat == 0 || timers[t].deleted { return -1; }
      hide Inv, IsEarliest, Index.Headed, Leave, Join, ChainsOk, Unchained;
      if timers[t].processing {
        SetTimer(t, timers[t].(time := time, repeat := repeat, mark := mark, stopped := false));
      } else {
        LeaveKeeps(View(), t);
        LeaveAvl(t);
        PutChains(View(), t, timers[t].(time := time, repeat := repeat, mark := mark));
        SetTimer(t, timers[t].(time := time, repeat := repeat, mark := mark));
        label L:
        JoinAvl(t, now);
        forall o | o in tree.Repr() && o !in old(tree.Repr()) ensures fresh(o) {
          assert old(allocated(o)) ==> old@L(allocated(o));
        }
      }
      return 0;
    }

    method TimerStop(t: Tid)
      requires Valid() && t in timers && !RunOut(timers[t])
      modifies this, tree.Repr()
      ensures Valid() && t in old(timers) && View() == Stop(old(View()), t)
      ensures fresh(tree.Repr() - old(tree.Repr()))
    {
      StopKeeps(View(), t);
      hide Inv, IsEarliest, Index.Headed, Leave;
      if !timers[t].deleted && !timers[t].processing {
        LeaveAvl(t);
      } else {
        SetTimer(t, timers[t].(stopped := true));
      }
    }

    method TimerRestart(t: Tid, now: int) returns (ret: int)
      requires Valid() && t in timers && !RunOut(timers[t])
      modifies this, tree.Repr()
      ensures Valid() && t in old(timers) && View() == Restart(old(View()), t, now)
      ensures var x := old(timers[t]); ret == if x.deleted || !x.stopped || x.repeat == 0 then -1 else 0
      ensures fresh(tree.Repr() - old(tree.Repr()))
    {
      RestartKeeps(View(), t, now);
      if timers[t].deleted || !timers[t].stopped || timers[t].repeat == 0 { return -1; }
      StoppedInNone(View(), t);
      hide Inv, IsEarliest, Index.Headed, Join, ChainsOk, Unchained;
      if timers[t].processing {
        SetTimer(t, timers[t].(stopped := false));
      } else {
        JoinAvl(t, now);
      }
      return 0;
    }

    // The first half of timer_task's round: the earliest chain becomes the batch if its time is up.
    method TimesUp(now: int) returns (up: bool)
      requires Valid() && batch == []
      modifies this, tree.Repr()
      ensures Valid()
      ensures up == exists k :: k in old(chains) && k <= now
      ensures !up ==> View() == old(View())
      ensures up ==> exists k :: k in old(chains) && k <= now && (forall j :: j in old(chains) ==> k <= j) &&
                                 View() == Fire(old(View()), k)
      ensures fresh(tree.Repr() - old(tree.Repr()))
    {
      if earliest.None? || timers[earliest.value].id > now { return false; }
      var k := timers[earliest.value].id;
      FireKeeps(View(), k);
      ChainLives(View(), k);
      hide Inv, IsEarliest, Index.Headed, HeadTree.Valid, HeadTree.Heads, Firsts, BatchInv, ReleaseInv;
      AvlShape.OnHeap(tree.avl.tree);
      var ts := Mark(timers, chains[k]);
      label L:
      DropChain(k);
      forall o | o in tree.Repr() && o !in old(tree.Repr()) ensures fresh(o) {
        assert old(allocated(o)) ==> old@L(allocated(o));
      }
      Store(State(ts, chains - {k}, chains[k]), earliest);
      var e := Leftest();
      Update(timers, batch, e);
      return true;
    }

    // Every timer of the chain is marked, in turn.
    static method Mark(ts: map<Tid, Timer>, chain: seq<Tid>) returns (r: map<Tid, Timer>)
      requires NoDup(chain) && forall t :: t in chain ==> t in ts
      ensures r == Begun(ts, chain)
    {
      r := ts;
      var i := 0;
      while i < |chain|
        invariant 0 <= i <= |chain|
        invariant r == Begun(ts, chain[..i])
      {
        var t := chain[i];
        assert t !in chain[..i];
        r := r[t := Begin(r[t])];
        assert chain[..i + 1] == chain[..i] + [t];
        i := i + 1;
      }
      assert chain[..i] == chain;
    }

    method OtherEndLost(t: Tid)
      requires Valid() && t in batch
      modifies this
      ensures Valid() && t in old(timers) && View() == Lost(old(View()), t)
    {
      LostKeeps(View(), t);
      hide Inv, IsEarliest, Index.Headed;
      SetTimer(t, timers[t].(deleted := true));
    }

    // The second half: every timer of the batch is put back, left out or released.
    method PutBack(now: int)
      requires Valid()
      modifies this, tree.Repr()
      ensures Valid() && View() == Timers.Finish(old(View()), now)
      ensures batch == []
      ensures fresh(tree.Repr() - old(tree.Repr()))
    {
      FinishKeeps(View(), now);
      hide IsEarliest, Index.Headed, ChainInv, BatchInv, ReleaseInv, Done;
      while batch != []
        invariant Valid() && fresh(tree.Repr() - old(tree.Repr()))
        invariant Finish(View(), now) == Finish(old(View()), now)
        decreases |batch|
      {
        DoneKeeps(View(), now);
        DoneShortens(View(), now);
        label L:
        PutBackOne(now);
        forall o | o in tree.Repr() && o !in old(tree.Repr()) ensures fresh(o) {
          assert old(allocated(o)) ==> old@L(allocated(o));
        }
      }
      var e := Leftest();
      Update(timers, batch, e);
    }

    method PutBackOne(now: int)
      requires Valid() && batch != [] && batch[0] in timers
      modifies this, tree.Repr()
      ensures old(batch[0]) in old(timers) && View() == Done(old(View()), now) && IsEarliest(View(), earliest) && Headed()
      ensures fresh(tree.Repr() - old(tree.Repr()))
    {
      var t := batch[0];
      var x := timers[t].(processing := false);
      DoneReady(View(), x, earliest);
      hide Inv, IsEarliest, Index.Headed, ChainsOk, Unchained, Join;
      if !x.deleted && !x.stopped && x.repeat != 0 {
        Update(timers[t := x], batch[1..], earliest);
        label L:
        JoinAvl(t, now);
        forall o | o in tree.Repr() && o !in old(tree.Repr()) ensures fresh(o) {
          assert old(allocated(o)) ==> old@L(allocated(o));
        }
      } else if x.deleted {
        Update(timers[t := x.(stopped := true, released := x.released + 1)], batch[1..], earliest);
      } else {
        Update(timers[t := x], batch[1..], earliest);
      }
    }

    // One event, as the call that it stands for.
    method Do(e: Event)
      requires Valid() && Enabled(View(), e)
      modifies this, tree.Repr()
      ensures Valid() && View() == Next(old(View()), e)
      ensures fresh(tree.Repr() - old(tree.Repr()))
    {
      hide Inv, IsEarliest, Index.Headed, New, Set, Del, Stop, Restart, Fire, Lost, Finish;
      match e
      case Created(t, time, repeat, mark, now) => var _ := TimerNew(t, time, repeat, mark, now);
      case Deleted(t) => TimerDel(t);
      case Adjusted(t, time, repeat, mark, now) => var _ := TimerSet(t, time, repeat, mark, now);
      case Stopped(t) => TimerStop(t);
      case Restarted(t, now) => var _ := TimerRestart(t, now);
      case TimesUp(k, now) => var _ := TimesUp(now);
      case OtherEndLost(t) => OtherEndLost(t);
      case PutBack(now) => PutBack(now);
    }
  }

  // Every event can take place when its turn comes.
  ghost predicate Playable(s: State, events: seq<Event>)
    requires Inv(s)
    decreases events
  {
    events != [] ==> Enabled(s, events[0]) && (NextKeeps(s, events[0]); Playable(Next(s, events[0]), events[1..]))
  }

  /** An index put through any calls is where the run of their events says. */
  method Replay(events: seq<Event>) returns (x: Index)
    requires Inv(Empty) && Playable(Empty, events)
    ensures fresh(x) && x.Valid() && x.View() == Run(Empty, events)
  {
    hide Inv, Next, Enabled, IsEarliest, Index.Headed;
    x := new Index();
    var i := 0;
    while i < |events|
      invariant 0 <= i <= |events| && fresh(x) && fresh(x.tree.Repr()) && x.Valid()
      invariant Playable(x.View(), events[i..]) && Run(x.View(), events[i..]) == Run(Empty, events)
    {
      assert events[i..][1..] == events[i + 1..];
      label L:
      x.Do(events[i]);
      forall o | o in x.tree.Repr() ensures fresh(o) {
        assert o in old@L(x.tree.Repr()) || (old(allocated(o)) ==> old@L(allocated(o)));
      }
      i := i + 1;
    }
  }
}
