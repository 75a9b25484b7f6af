/**
  What each call of `Pipe` does while the other threads stand still.

  From every reachable state, and from wherever the thread is in its call, the call
  ends, unless it has to lock a mutex that is held; and where it ends is known
  beforehand.  Every step keeps what is foretold and comes nearer to it.
 */
module PipeAlone {

  import opened Options
  import opened Crowd
  import opened Pipe

  // `n` steps of thread `t`, and of no other.
  function Alone(s: State, t: Tid, op: Op, n: nat): State
    requires t in s.threads
    decreases n
  {
    if n == 0 then s else
    NextMoves(s, t, op);
    Alone(Next(s, t, op), t, op, n - 1)
  }

  // The endpoint that did not close.
  function Survivor(w: int): Point { if ClosedBits(w) == PointBit(0) / 2 then 1 else 0 }

  // ---------- pipe_get_other_point_ref ----------

  // The call has a reference to take: the pipe is ready and open, or it has passed the tests.
  function Takes(s: State, pc: Pc): nat {
    if pc.GTake? then 1 else if pc.GRel? || pc.Notify? || pc.Idle? then 0 else One(Ready(s.status) && !Closed(s.status))
  }

  // Whom the call tells of the close, by letting go of the last use.
  function Tells(s: State, pc: Pc): seq<Point> {
    if pc.Notify? || (HoldsUse(pc) && Closed(s.status) && Users(s.status) == 1) then [Survivor(s.status)] else []
  }

  function Uses(pc: Pc): int { if HoldsUse(pc) then UNIT else 0 }

  function Waits(pc: Pc): int { if Is(Waiting, pc) then UNIT else 0 }

  // What is left once the call has returned.
  function AfterGet(s: State, t: Tid): State
    requires t in s.threads
  {
    var pc := s.threads[t];
    s.(threads := s.threads[t := Idle],
    taken := s.taken + Takes(s, pc),
    status := s.status - Uses(pc),
    notified := s.notified + Tells(s, pc),
    mutexWord := s.mutexWord - Waits(pc),
    lock := if pc.GUnlock? then None else s.lock,
    destroyed := s.destroyed + One(pc.GDestroy? || (Is(Waiting, pc) && s.mutexWord == SHUT + UNIT)))
  }

  // The call has to lock the mutex first.
  predicate MustLock(s: State, pc: Pc) {
    match pc
    case GLock(_) => true
    case GMLoad(_) => s.mutexWord % 16 != SHUT
    case GMCas(_, _) => s.mutexWord % 16 != SHUT
    case GTest(_) => s.mutexWord % 16 != SHUT && !Ready(s.status)
    case GLoad(_) => s.mutexWord % 16 != SHUT && !Ready(s.status) && !Closed(s.status)
    case GCas(_, _) => s.mutexWord % 16 != SHUT && !Ready(s.status) && !Closed(s.status)
    case _ => false
  }

  predicate Getting(pc: Pc) { InGet(pc) || pc.Notify? || pc.Idle? }

  predicate Free(s: State, pc: Pc) { MustLock(s, pc) ==> s.lock.None? }

  function GetLeft(s: State, pc: Pc): nat {
    match pc
    case GCas(_, tmp) => if s.status == tmp then 14 else 16
    case GLoad(_) => 15
    case GTest(_) => 13
    case GMCas(_, tmp) => if s.mutexWord == tmp then 10 else 12
    case GMLoad(_) => 11
    case GLock(_) => 9
    case GUnlock(_) => 8
    case GMDec(_) => 7
    case GDestroy(_) => 6
    case GReady(_) => 5
    case GClosed(_) => 4
    case GTake(_) => 3
    case GRel(_) => 2
    case Notify(_, _) => 1
    case _ => 0
  }

  // The step keeps what is foretold and comes nearer to it.
  ghost predicate Nears(s: State, t: Tid, s2: State) {
    && t in s.threads && t in s2.threads
    && Getting(s2.threads[t]) && Free(s2, s2.threads[t])
    && AfterGet(s2, t) == AfterGet(s, t)
    && GetLeft(s2, s2.threads[t]) < GetLeft(s, s.threads[t])
  }

  lemma GoTwice(s: State, t: Tid, pc: Pc)
    requires t in s.threads
    ensures Go(s, t, pc).threads[t := Idle] == s.threads[t := Idle]
  {}

  lemma StepsGet(s: State, t: Tid, op: Op)
    requires t in s.threads && InGet(s.threads[t])
    ensures Next(s, t, op) == StepGet(s, t, s.threads[t])
  {
    hide StepGet;
  }

  lemma SameWords(s: State, t: Tid, pc: Pc)
    ensures var s2 := Go(s, t, pc);
            && Takes(s2, pc) == Takes(s, pc) && Tells(s2, pc) == Tells(s, pc)
            && Free(s2, pc) == Free(s, pc) && GetLeft(s2, pc) == GetLeft(s, pc)
  {}

  // The step only moves the thread on.
  lemma MoveNears(s: State, t: Tid, pc: Pc)
    requires t in s.threads && !s.threads[t].GUnlock? && !pc.GUnlock?
    requires Getting(pc) && Free(s, pc) && GetLeft(s, pc) < GetLeft(s, s.threads[t])
    requires var was := s.threads[t];
             && Takes(s, pc) == Takes(s, was) && Tells(s, pc) == Tells(s, was)
             && HoldsUse(pc) == HoldsUse(was)
             && Is(Waiting, pc) == Is(Waiting, was) && pc.GDestroy? == was.GDestroy?
    ensures Nears(s, t, Go(s, t, pc))
  {
    hide HoldsUse, Is, Free, Getting, GetLeft, Tells, Takes, Ready, ClosedBits, Users;
    GoTwice(s, t, pc);
    SameWords(s, t, pc);
  }

  lemma LoadNears(s: State, t: Tid)
    requires Inv(s) && t in s.threads && s.threads[t].GLoad?
    requires Free(s, s.threads[t])
    ensures Nears(s, t, StepGet(s, t, s.threads[t]))
  {
    hide Inv, Users, Ready, ClosedBits, Nears;
    MoveNears(s, t, if Closed(s.status) then Idle else GCas(s.threads[t].i, s.status));
  }

  lemma AcquireNears(s: State, t: Tid)
    requires t in s.threads && s.threads[t].GCas? && s.threads[t].tmp == s.status && !Closed(s.status)
    requires Free(s, s.threads[t])
    ensures Nears(s, t, StepGet(s, t, s.threads[t]))
  {
    hide Users, Ready, ClosedBits;
    GoTwice(s, t, GTest(s.threads[t].i));
    WordUp(s.status);
  }

  lemma EnterNears(s: State, t: Tid)
    requires Inv(s) && t in s.threads && s.threads[t].GCas?
    requires Free(s, s.threads[t])
    ensures Nears(s, t, StepGet(s, t, s.threads[t]))
  {
    hide UseInv, MutexInv, ReadyInv, Users, Ready, ClosedBits, InitFits, Nears;
    var pc := s.threads[t];
    assert Fits(s, t, pc);
    if s.status != pc.tmp {
      MoveNears(s, t, GLoad(pc.i));
    } else {
      AcquireNears(s, t);
    }
  }

  lemma TestNears(s: State, t: Tid)
    requires Inv(s) && t in s.threads && s.threads[t].GTest?
    requires Free(s, s.threads[t])
    ensures Nears(s, t, StepGet(s, t, s.threads[t]))
  {
    hide Inv, Users, Ready, ClosedBits, Nears;
    MoveNears(s, t, StepGet(s, t, s.threads[t]).threads[t]);
  }

  lemma RetestNears(s: State, t: Tid)
    requires Inv(s) && t in s.threads && (s.threads[t].GReady? || s.threads[t].GClosed?)
    ensures Nears(s, t, StepGet(s, t, s.threads[t]))
  {
    hide UseInv, MutexInv, ReadyInv, Users, Ready, ClosedBits, Nears, InitFits;
    assert Fits(s, t, s.threads[t]);
    MoveNears(s, t, StepGet(s, t, s.threads[t]).threads[t]);
  }

  lemma TakeNears(s: State, t: Tid)
    requires t in s.threads && s.threads[t].GTake?
    ensures Nears(s, t, StepGet(s, t, s.threads[t]))
  {
    hide Users, Ready, ClosedBits;
    GoTwice(s, t, GRel(s.threads[t].i));
  }

  lemma MutexLoadNears(s: State, t: Tid)
    requires t in s.threads && s.threads[t].GMLoad?
    requires Free(s, s.threads[t])
    ensures Nears(s, t, StepGet(s, t, s.threads[t]))
  {
    hide Users, Ready, ClosedBits, Nears;
    MoveNears(s, t, StepGet(s, t, s.threads[t]).threads[t]);
  }

  lemma MutexRefNears(s: State, t: Tid)
    requires Inv(s) && t in s.threads && s.threads[t].GMCas?
    requires Free(s, s.threads[t])
    ensures Nears(s, t, StepGet(s, t, s.threads[t]))
  {
    hide UseInv, MutexInv, ReadyInv, Users, Ready, ClosedBits, InitFits;
    var pc := s.threads[t];
    assert Fits(s, t, pc);
    if s.mutexWord != pc.tmp {
      MoveNears(s, t, GMLoad(pc.i));
    } else {
      GoTwice(s, t, GLock(pc.i));
    }
  }

  lemma LockNears(s: State, t: Tid)
    requires t in s.threads && (s.threads[t].GLock? || s.threads[t].GUnlock?)
    requires Free(s, s.threads[t])
    ensures Nears(s, t, StepGet(s, t, s.threads[t]))
  {
    hide Users, Ready, ClosedBits;
    GoTwice(s, t, StepGet(s, t, s.threads[t]).threads[t]);
  }

  lemma MutexDecNears(s: State, t: Tid)
    requires t in s.threads && s.threads[t].GMDec?
    ensures Nears(s, t, StepGet(s, t, s.threads[t]))
  {
    hide Users, Ready, ClosedBits;
    GoTwice(s, t, StepGet(s, t, s.threads[t]).threads[t]);
  }

  lemma DestroyNears(s: State, t: Tid)
    requires t in s.threads && s.threads[t].GDestroy?
    ensures Nears(s, t, StepGet(s, t, s.threads[t]))
  {
    hide Users, Ready, ClosedBits;
    GoTwice(s, t, StepGet(s, t, s.threads[t]).threads[t]);
  }

  lemma LastUse(s: State, t: Tid)
    requires Inv(s) && t in s.threads && HoldsUse(s.threads[t])
    ensures ClosedBits(s.status - UNIT) == ClosedBits(s.status)
    ensures s.status - UNIT < UNIT <==> Users(s.status) == 1
    ensures Ready(s.status - UNIT) == Ready(s.status)
  {
    hide MutexInv, ReadyInv, ThreadsInv, Pipe.Count, Users, Ready, ClosedBits, HoldsUse;
    HasOne(s.threads, Using, t);
    WordUp(s.status - UNIT);
    WordParts(s.status - UNIT);
  }

  lemma ReleaseNears(s: State, t: Tid)
    requires Inv(s) && t in s.threads && s.threads[t].GRel?
    ensures Nears(s, t, StepGet(s, t, s.threads[t]))
  {
    hide Inv, Users, Ready, ClosedBits;
    LastUse(s, t);
    GoTwice(s, t, StepGet(s, t, s.threads[t]).threads[t]);
  }

  lemma NotifyNears(s: State, t: Tid, op: Op)
    requires Inv(s) && t in s.threads && s.threads[t].Notify?
    ensures Nears(s, t, Next(s, t, op))
  {
    hide MutexInv, ReadyInv, Pipe.Count, Users, Ready, ClosedBits, StepClose, StepInit, StepGet;
    var s2 := Next(s, t, op);
    assert Fits(s, t, s.threads[t]);
    GoTwice(s, t, s2.threads[t]);
    WordParts(s.status);
  }

  lemma GetNears(s: State, t: Tid, op: Op)
    requires Inv(s) && t in s.threads && InGet(s.threads[t]) && Free(s, s.threads[t])
    ensures Nears(s, t, Next(s, t, op))
  {
    hide Inv, Free, Next, Nears, StepGet;
    StepsGet(s, t, op);
    var pc := s.threads[t];
    match pc
    case GLoad(_) => LoadNears(s, t);
    case GCas(_, _) => EnterNears(s, t);
    case GTake(_) => TakeNears(s, t);
    case GMLoad(_) => MutexLoadNears(s, t);
    case GMCas(_, _) => MutexRefNears(s, t);
    case GLock(_) => LockNears(s, t);
    case GUnlock(_) => LockNears(s, t);
    case GMDec(_) => MutexDecNears(s, t);
    case GDestroy(_) => DestroyNears(s, t);
    case GRel(_) => ReleaseNears(s, t);
    case GTest(_) => TestNears(s, t);
    case _ => RetestNears(s, t);
  }

  lemma {:induction false} GetRuns(s: State, t: Tid, op: Op) returns (n: nat)
    requires Inv(s) && t in s.threads && Getting(s.threads[t]) && Free(s, s.threads[t])
    ensures n <= GetLeft(s, s.threads[t]) && Alone(s, t, op, n) == AfterGet(s, t)
    decreases GetLeft(s, s.threads[t])
  {
    hide Inv, Free, Next;
    if s.threads[t].Idle? {
      n := 0;
      IdleIsAfter(s, t);
    } else {
      var pc := s.threads[t];
      NextKeeps(s, t, op);
      if pc.Notify? {
        NotifyNears(s, t, op);
      } else {
        GetNears(s, t, op);
      }
      hide AfterGet, GetLeft;
      n := GetRuns(Next(s, t, op), t, op);
      n := n + 1;
    }
  }

  lemma IdleIsAfter(s: State, t: Tid)
    requires t in s.threads && s.threads[t].Idle?
    ensures AfterGet(s, t) == s
  {
    assert s.threads[t := Idle] == s.threads;
  }

  lemma {:induction false} AloneThen(s: State, t: Tid, op: Op, m: nat, n: nat)
    requires t in s.threads
    ensures OnlyMoves(s.threads, Alone(s, t, op, m).threads, t)
    ensures Alone(s, t, op, m + n) == Alone(Alone(s, t, op, m), t, op, n)
    decreases m
  {
    hide Next;
    NextMoves(s, t, op);
    if m != 0 { AloneThen(Next(s, t, op), t, op, m - 1, n); }
  }

  lemma {:induction false} AloneKeeps(s: State, t: Tid, op: Op, n: nat)
    requires Inv(s) && t in s.threads
    ensures OnlyMoves(s.threads, Alone(s, t, op, n).threads, t) && Inv(Alone(s, t, op, n))
    decreases n
  {
    hide Next, Inv;
    if n != 0 {
      NextMoves(s, t, op);
      NextKeeps(s, t, op);
      AloneKeeps(Next(s, t, op), t, op, n - 1);
    }
  }

  /**
    A get ends, wherever it is and whatever it has read before, and takes its reference
    exactly when the pipe is ready and open; only a held mutex can keep it waiting.
   */
  lemma GetEnds(s: State, t: Tid, op: Op) returns (n: nat)
    requires Inv(s) && t in s.threads && InGet(s.threads[t]) && !s.threads[t].GTake? && !s.threads[t].GRel?
    requires Free(s, s.threads[t])
    ensures n <= 16
    ensures var s2 := Alone(s, t, op, n);
            && s2.threads == s.threads[t := Idle]
            && s2.taken == s.taken + (if Ready(s.status) && !Closed(s.status) then 1 else 0)
            && s2.status == s.status - Uses(s.threads[t])
            && s2.notified == s.notified + Tells(s, s.threads[t])
  {
    hide Inv, Free, Alone, Users, Ready, ClosedBits, Tells;
    n := GetRuns(s, t, op);
  }

  /** A whole get takes one reference of a ready and open pipe; else it leaves the pipe as it was. */
  lemma GetTakes(s: State, t: Tid, i: Point) returns (n: nat)
    requires Inv(s) && t in s.threads && s.threads[t].Idle?
    requires Ready(s.status) || Closed(s.status) || s.mutexWord % 16 == SHUT || s.lock.None?
    ensures Alone(s, t, GetRef(i), n) == if Ready(s.status) && !Closed(s.status) then s.(taken := s.taken + 1) else s
  {
    hide Inv, Users, Ready, ClosedBits;
    NextKeeps(s, t, GetRef(i));
    n := GetRuns(Next(s, t, GetRef(i)), t, GetRef(i));
    n := n + 1;
    assert s.threads[t := GLoad(i)][t := Idle] == s.threads;
  }

  /** While init_done still holds the mutex of a two-way pipe, a get waits for it with a use of the pipe. */
  lemma GetAwaits(s: State, t: Tid, i: Point, k: nat)
    requires Inv(s) && t in s.threads && s.threads[t].Idle?
    requires !Ready(s.status) && !Closed(s.status) && s.mutexWord % 16 != SHUT && s.lock.Some?
    ensures Alone(s, t, GetRef(i), 6 + k) ==
            s.(threads := s.threads[t := GLock(i)], status := s.status + UNIT, mutexWord := s.mutexWord + UNIT)
  {
    hide Inv, Users, ClosedBits, Ready, Next;
    var op := GetRef(i);
    Enters(s, t, i);
    WordUp(s.status);
    var s1 := s.(threads := s.threads[t := GTest(i)], status := s.status + UNIT);
    QueuesUp(s1, t, i, op);
    var s2 := s.(threads := s.threads[t := GLock(i)], status := s.status + UNIT, mutexWord := s.mutexWord + UNIT);
    assert s1.threads[t := GLock(i)] == s2.threads;
    Held(s2, t, op, k);
    AloneThen(s1, t, op, 3, k);
    AloneThen(s, t, op, 3, 3 + k);
  }

  lemma Enters(s: State, t: Tid, i: Point)
    requires t in s.threads && s.threads[t].Idle? && !Closed(s.status)
    ensures Alone(s, t, GetRef(i), 3) == s.(threads := s.threads[t := GTest(i)], status := s.status + UNIT)
  {
    hide ClosedBits;
    var op := GetRef(i);
    var s1 := Next(s, t, op);
    var s2 := Next(s1, t, op);
    var s3 := Next(s2, t, op);
    assert s3.threads == s.threads[t := GTest(i)];
    assert Alone(s2, t, op, 1) == s3;
    assert Alone(s1, t, op, 2) == s3;
  }

  lemma QueuesUp(s: State, t: Tid, i: Point, op: Op)
    requires t in s.threads && s.threads[t] == GTest(i) && !Ready(s.status) && s.mutexWord % 16 != SHUT
    ensures Alone(s, t, op, 3) == s.(threads := s.threads[t := GLock(i)], mutexWord := s.mutexWord + UNIT)
  {
    var s1 := Next(s, t, op);
    var s2 := Next(s1, t, op);
    var s3 := Next(s2, t, op);
    assert s3.threads == s.threads[t := GLock(i)];
    assert Alone(s2, t, op, 1) == s3;
    assert Alone(s1, t, op, 2) == s3;
  }

  lemma {:induction false} Held(s: State, t: Tid, op: Op, k: nat)
    requires t in s.threads && s.threads[t].GLock? && s.lock.Some?
    ensures Alone(s, t, op, k) == s
    decreases k
  {
    if k != 0 { Held(s, t, op, k - 1); }
  }

  // ---------- pipe_close ----------

  predicate Shutting(pc: Pc) { pc.CLoad? || pc.CCas? || pc.CNotify? }

  function AfterShut(s: State, t: Tid): State
    requires t in s.threads && Shutting(s.threads[t])
  {
    var pc := s.threads[t];
    var wins := !pc.CNotify? && !Closed(s.status);
    s.(threads := s.threads[t := AfterClose(pc.i, pc.init)],
    status := if wins then s.status + PointBit(pc.i) else s.status,
    notified := s.notified + if pc.CNotify? || (wins && s.status < UNIT) then [Other(pc.i)] else [])
  }

  function CloseLeft(s: State, pc: Pc): nat {
    if pc.CCas? then (if pc.tmp == s.status then 2 else 4) else if pc.CLoad? then 3 else 1
  }

  // The close is over, or it has come nearer to what is foretold.
  ghost predicate ShutNears(s: State, t: Tid, s2: State)
    requires t in s.threads && Shutting(s.threads[t])
  {
    && t in s2.threads
    && (if Shutting(s2.threads[t]) then
          AfterShut(s2, t) == AfterShut(s, t) && CloseLeft(s2, s2.threads[t]) < CloseLeft(s, s.threads[t])
        else s2 == AfterShut(s, t))
  }

  lemma StepsClose(s: State, t: Tid, op: Op)
    requires t in s.threads && Shutting(s.threads[t])
    ensures Next(s, t, op) == StepClose(s, t, s.threads[t])
  {
    hide StepClose;
  }

  lemma ShutTwice(s: State, t: Tid, pc: Pc, end: Pc)
    requires t in s.threads
    ensures Go(s, t, pc).threads[t := end] == s.threads[t := end]
  {}

  lemma CloseLoadNears(s: State, t: Tid)
    requires t in s.threads && s.threads[t].CLoad?
    ensures ShutNears(s, t, StepClose(s, t, s.threads[t]))
  {
    hide Users, Ready, ClosedBits;
    var pc := s.threads[t];
    ShutTwice(s, t, CCas(pc.i, s.status, pc.init), AfterClose(pc.i, pc.init));
  }

  lemma CloseRetryNears(s: State, t: Tid)
    requires t in s.threads && s.threads[t].CCas? && s.threads[t].tmp != s.status
    ensures ShutNears(s, t, StepClose(s, t, s.threads[t]))
  {
    hide Users, Ready, ClosedBits;
    var pc := s.threads[t];
    ShutTwice(s, t, CLoad(pc.i, pc.init), AfterClose(pc.i, pc.init));
  }

  lemma CloseSetNears(s: State, t: Tid)
    requires t in s.threads && s.threads[t].CCas? && s.threads[t].tmp == s.status && !Closed(s.status)
    ensures ShutNears(s, t, StepClose(s, t, s.threads[t]))
  {
    hide Users, Ready, ClosedBits;
    var pc := s.threads[t];
    ShutTwice(s, t, CNotify(pc.i, pc.init), AfterClose(pc.i, pc.init));
  }

  lemma CloseNears(s: State, t: Tid)
    requires Inv(s) && t in s.threads && Shutting(s.threads[t])
    ensures ShutNears(s, t, StepClose(s, t, s.threads[t]))
  {
    hide UseInv, MutexInv, ReadyInv, Users, Ready, ClosedBits, InitFits;
    var pc := s.threads[t];
    assert Fits(s, t, pc);
    hide ShutNears, Is;
    if pc.CLoad? {
      CloseLoadNears(s, t);
    } else if pc.CNotify? {
      TellNears(s, t);
    } else if pc.tmp == s.status {
      CloseSetNears(s, t);
    } else {
      CloseRetryNears(s, t);
    }
  }

  lemma TellNears(s: State, t: Tid)
    requires t in s.threads && s.threads[t].CNotify?
    ensures ShutNears(s, t, StepClose(s, t, s.threads[t]))
  {
    hide Users, Ready, ClosedBits;
  }

  lemma {:induction false} CloseRuns(s: State, t: Tid, op: Op) returns (n: nat)
    requires Inv(s) && t in s.threads && Shutting(s.threads[t])
    ensures 1 <= n <= CloseLeft(s, s.threads[t]) && Alone(s, t, op, n) == AfterShut(s, t)
    decreases CloseLeft(s, s.threads[t])
  {
    hide Inv, Next, StepClose;
    NextKeeps(s, t, op);
    StepsClose(s, t, op);
    CloseNears(s, t);
    hide AfterShut, CloseLeft;
    n := 0;
    var s2 := Next(s, t, op);
    if Shutting(s2.threads[t]) { n := CloseRuns(s2, t, op); }
    n := n + 1;
  }

  lemma NobodyUses(s: State)
    requires Inv(s)
    ensures Users(s.status) == 0 <==> s.status < UNIT
  {
    hide ThreadsInv, MutexInv, ReadyInv, Users, ClosedBits, Pipe.Count;
    WordParts(s.status);
  }

  /**
    A close sets the bit of its endpoint and no other field of the word, and tells the other
    endpoint if nobody uses the pipe; on a closed pipe it does nothing.
   */
  lemma CloseShuts(s: State, t: Tid, i: Point) returns (n: nat)
    requires Inv(s) && t in s.threads && s.threads[t].Idle?
    ensures var s2 := Alone(s, t, Close(i), n);
            if Closed(s.status) then s2 == s
            else
              && s2 == s.(status := s2.status, notified := s2.notified)
              && ClosedBits(s2.status) == PointBit(i) / 2
              && Users(s2.status) == Users(s.status) && Ready(s2.status) == Ready(s.status)
              && s2.notified == s.notified + (if Users(s.status) == 0 then [Other(i)] else [])
  {
    hide Inv, Users, Ready, ClosedBits;
    NextKeeps(s, t, Close(i));
    n := CloseRuns(Next(s, t, Close(i)), t, Close(i));
    n := n + 1;
    assert s.threads[t := CLoad(i, false)][t := Idle] == s.threads;
    if !Closed(s.status) { WordClose(s.status, i); }
    NobodyUses(s);
  }

  // ---------- pipe_init_done ----------

  predicate Ending(pc: Pc) { IsInit(pc) && !pc.ICreated? }

  predicate SetsReady(s: State, pc: Pc) { pc.ILoad? || pc.ICas? || (pc.IReady? && !Ready(s.status)) }

  predicate Unlocks(s: State, pc: Pc) {
    s.twoWay && (pc.IReady? || pc.ILoad? || pc.ICas? || pc.IMutex? || pc.IUnlock?)
  }

  predicate ShutsMutex(s: State, pc: Pc) { Unlocks(s, pc) || pc.IMLoad? || pc.IMCas? }

  function AfterInit(s: State, t: Tid): State
    requires t in s.threads && Ending(s.threads[t])
  {
    var pc := s.threads[t];
    s.(threads := s.threads[t := Idle],
    status := (if SetsReady(s, pc) then WithReady(s.status) else s.status) - UNIT,
    readySet := s.readySet || SetsReady(s, pc),
                notified := s.notified + Tells(s, pc),
                lock := if Unlocks(s, pc) then None else s.lock,
                unlocked := s.unlocked || Unlocks(s, pc),
                            mutexWord := if ShutsMutex(s, pc) then s.mutexWord / 16 * 16 + SHUT else s.mutexWord,
                            destroyed := s.destroyed + One(pc.IDestroy? || (ShutsMutex(s, pc) && s.mutexWord < UNIT)),
                            initOver := true)
  }

  function InitLeft(s: State, pc: Pc): nat {
    match pc
    case IReady(_) => 10
    case ICas(_, tmp) => if s.status == tmp then 8 else 10
    case ILoad(_) => 9
    case IMutex(_) => 7
    case IUnlock(_) => 6
    case IMCas(_, tmp) => if s.mutexWord == tmp then 4 else 6
    case IMLoad(_) => 5
    case IDestroy(_) => 3
    case IRel(_) => 2
    case _ => 0
  }

  ghost predicate InitNears(s: State, t: Tid, s2: State)
    requires t in s.threads && Ending(s.threads[t])
  {
    && t in s2.threads
    && (if Ending(s2.threads[t]) then
          AfterInit(s2, t) == AfterInit(s, t) && InitLeft(s2, s2.threads[t]) < InitLeft(s, s.threads[t])
        else (s2.threads[t].Idle? || s2.threads[t].Notify?) && AfterGet(s2, t) == AfterInit(s, t))
  }

  lemma StepsInit(s: State, t: Tid, op: Op)
    requires t in s.threads && IsInit(s.threads[t])
    ensures Next(s, t, op) == StepInit(s, t, s.threads[t], op)
  {
    hide StepInit;
  }

  lemma ReadyNears(s: State, t: Tid, op: Op)
    requires Inv(s) && t in s.threads && (s.threads[t].IReady? || s.threads[t].ILoad?)
    ensures InitNears(s, t, StepInit(s, t, s.threads[t], op))
  {
    hide Inv, Users, Ready, ClosedBits;
    GoTwice(s, t, StepInit(s, t, s.threads[t], op).threads[t]);
  }

  lemma SetNears(s: State, t: Tid, op: Op)
    requires t in s.threads && s.threads[t].ICas? && s.threads[t].tmp == s.status
    ensures InitNears(s, t, StepInit(s, t, s.threads[t], op))
  {
    hide Users, Ready, ClosedBits, WithReady;
    GoTwice(s, t, StepInit(s, t, s.threads[t], op).threads[t]);
    WordReady(s.status);
  }

  lemma SetRetryNears(s: State, t: Tid, op: Op)
    requires t in s.threads && s.threads[t].ICas? && s.threads[t].tmp != s.status
    ensures InitNears(s, t, StepInit(s, t, s.threads[t], op))
  {
    hide Users, Ready, ClosedBits, WithReady;
    GoTwice(s, t, StepInit(s, t, s.threads[t], op).threads[t]);
  }

  lemma MutexKind(s: State, t: Tid)
    requires Inv(s) && t in s.threads && (s.threads[t].IMutex? || s.threads[t].IUnlock?)
    ensures Ready(s.mutexWord) == !s.twoWay && (s.threads[t].IUnlock? ==> s.twoWay)
  {
    hide UseInv, ReadyInv, Users, ClosedBits;
    assert Fits(s, t, s.threads[t]);
  }

  lemma UnlockNears(s: State, t: Tid, op: Op)
    requires Inv(s) && t in s.threads && (s.threads[t].IMutex? || s.threads[t].IUnlock?)
    ensures InitNears(s, t, StepInit(s, t, s.threads[t], op))
  {
    hide Inv, Users, ClosedBits, Ready, WithReady;
    MutexKind(s, t);
    GoTwice(s, t, StepInit(s, t, s.threads[t], op).threads[t]);
  }

  lemma MutexOpen(s: State, t: Tid)
    requires Inv(s) && t in s.threads && s.threads[t].IMLoad?
    ensures s.mutexWord % 16 == 0
  {
    hide UseInv, MutexInv, ReadyInv, Users, Ready, ClosedBits;
    assert Fits(s, t, s.threads[t]);
  }

  lemma ShutLoadNears(s: State, t: Tid, op: Op)
    requires t in s.threads && s.threads[t].IMLoad? && s.mutexWord % 16 == 0
    ensures InitNears(s, t, StepInit(s, t, s.threads[t], op))
  {
    hide Users, Ready, ClosedBits, WithReady;
    GoTwice(s, t, StepInit(s, t, s.threads[t], op).threads[t]);
  }

  lemma ShutSetNears(s: State, t: Tid, op: Op)
    requires t in s.threads && s.threads[t].IMCas? && s.mutexWord == s.threads[t].tmp
    ensures InitNears(s, t, StepInit(s, t, s.threads[t], op))
  {
    hide Users, Ready, ClosedBits, WithReady, Closed;
    GoTwice(s, t, StepInit(s, t, s.threads[t], op).threads[t]);
  }

  lemma ShutRetryNears(s: State, t: Tid, op: Op)
    requires t in s.threads && s.threads[t].IMCas? && s.mutexWord != s.threads[t].tmp
    ensures InitNears(s, t, StepInit(s, t, s.threads[t], op))
  {
    hide Users, Ready, ClosedBits, WithReady, Closed;
    GoTwice(s, t, IMLoad(s.threads[t].i));
  }

  lemma ShutDestroyNears(s: State, t: Tid, op: Op)
    requires t in s.threads && s.threads[t].IDestroy?
    ensures InitNears(s, t, StepInit(s, t, s.threads[t], op))
  {
    hide Users, Ready, ClosedBits, WithReady;
    GoTwice(s, t, StepInit(s, t, s.threads[t], op).threads[t]);
  }

  lemma DropNears(s: State, t: Tid, op: Op)
    requires Inv(s) && t in s.threads && s.threads[t].IRel?
    ensures InitNears(s, t, StepInit(s, t, s.threads[t], op))
  {
    hide Inv, Users, Ready, ClosedBits;
    LastUse(s, t);
    GoTwice(s, t, StepInit(s, t, s.threads[t], op).threads[t]);
  }

  lemma InitStepNears(s: State, t: Tid, op: Op)
    requires Inv(s) && t in s.threads && Ending(s.threads[t])
    ensures InitNears(s, t, Next(s, t, op))
  {
    hide Inv, Next, StepInit, InitNears;
    StepsInit(s, t, op);
    var pc := s.threads[t];
    match pc
    case IReady(_) => ReadyNears(s, t, op);
    case ILoad(_) => ReadyNears(s, t, op);
    case ICas(_, tmp) => if s.status == tmp { SetNears(s, t, op); } else { SetRetryNears(s, t, op); }
    case IMutex(_) => UnlockNears(s, t, op);
    case IUnlock(_) => UnlockNears(s, t, op);
    case IMLoad(_) => MutexOpen(s, t); ShutLoadNears(s, t, op);
    case IMCas(_, tmp) => if s.mutexWord == tmp { ShutSetNears(s, t, op); } else { ShutRetryNears(s, t, op); }
    case IDestroy(_) => ShutDestroyNears(s, t, op);
    case _ => DropNears(s, t, op);
  }

  lemma {:induction false} InitRuns(s: State, t: Tid, op: Op) returns (n: nat)
    requires Inv(s) && t in s.threads && Ending(s.threads[t])
    ensures n <= InitLeft(s, s.threads[t]) && Alone(s, t, op, n) == AfterInit(s, t)
    decreases InitLeft(s, s.threads[t])
  {
    hide Inv, Next, AfterInit, AfterGet, HoldsUse;
    NextKeeps(s, t, op);
    InitStepNears(s, t, op);
    var s2 := Next(s, t, op);
    if Ending(s2.threads[t]) { n := InitRuns(s2, t, op); } else { n := GetRuns(s2, t, op); }
    n := n + 1;
  }

  // What pipe_init_done leaves, whether it succeeds or not.
  ghost predicate Settled(s: State, s2: State) {
    && s.creator in s.threads && s2.threads == s.threads[s.creator := Idle]
    && s2.creator == s.creator && s2.twoWay == s.twoWay && s2.taken == s.taken
    && s2.initOver && Users(s2.status) == Users(s.status) - 1
    && (s.twoWay ==> s2.unlocked && s2.lock.None? && s2.mutexWord == s.mutexWord + SHUT)
    && s2.destroyed == s.destroyed + One(s.twoWay && s.mutexWord < UNIT)
    && s2.notified == s.notified + (if Closed(s2.status) && Users(s2.status) == 0 then [Survivor(s2.status)] else [])
  }

  lemma CreatorAt(s: State)
    requires Inv(s) && s.creator in s.threads && InInit(s.threads[s.creator]) && !s.threads[s.creator].IRel?
    requires Ending(s.threads[s.creator]) ==> s.threads[s.creator].IReady? || s.threads[s.creator].IMutex?
    ensures !s.initOver && (s.twoWay ==> s.mutexWord % 16 == 0)
    ensures Ready(s.status) <==> s.readySet || !s.twoWay
    ensures UNIT <= s.status
  {
    hide Users, Ready, ClosedBits, Pipe.Count;
    var t := s.creator;
    assert Fits(s, t, s.threads[t]);
    HasOne(s.threads, Using, t);
    WordParts(s.status);
  }

  lemma SettledBy(s: State)
    requires Inv(s) && s.creator in s.threads
    requires s.threads[s.creator].IReady? || s.threads[s.creator].IMutex?
    ensures Settled(s, AfterInit(s, s.creator))
  {
    hide Inv, Users, Ready, ClosedBits, WithReady;
    var t := s.creator;
    var w := if SetsReady(s, s.threads[t]) then WithReady(s.status) else s.status;
    CreatorAt(s);
    WordReady(s.status);
    WordUp(w - UNIT);
  }

  /** A successful init_done sets READY, lets the mutex go for good and drops the creator's use. */
  lemma InitReadies(s: State, i: Point) returns (n: nat)
    requires Inv(s) && s.creator in s.threads && s.threads[s.creator].ICreated?
    ensures var s2 := Alone(s, s.creator, InitDone(i, false), n);
            && Settled(s, s2)
            && Ready(s2.status) && ClosedBits(s2.status) == ClosedBits(s.status)
  {
    hide Users, Ready, ClosedBits, WithReady, Settled, Inv;
    var t, op := s.creator, InitDone(i, false);
    var s1 := Next(s, t, op);
    NextKeeps(s, t, op);
    SettledBy(s1);
    SettledEarlier(s, s1, AfterInit(s1, t));
    n := InitRuns(s1, t, op);
    n := n + 1;
    WordReady(s.status);
    WordUp((if Ready(s.status) then s.status else WithReady(s.status)) - UNIT);
  }

  lemma SettledEarlier(s: State, s1: State, s2: State)
    requires Settled(s1, s2) && s.creator in s.threads && s.creator in s1.threads
    requires s1 == Go(s, s.creator, s1.threads[s.creator]).(status := s1.status) && Users(s1.status) == Users(s.status)
    ensures Settled(s, s2)
  {
    hide Users, ClosedBits;
    GoTwice(s, s.creator, s1.threads[s.creator]);
  }

  // The pipe_close of a failed init_done; the creator's own use keeps it from telling anybody.
  lemma FailShuts(s: State, i: Point) returns (m: nat, w: int)
    requires Inv(s) && s.creator in s.threads && s.threads[s.creator].ICreated?
    ensures Alone(s, s.creator, InitDone(i, true), m) == Go(s, s.creator, IMutex(i)).(status := w)
    ensures Users(w) == Users(s.status) && Ready(w) == Ready(s.status)
    ensures ClosedBits(w) == if Closed(s.status) then ClosedBits(s.status) else PointBit(i) / 2
  {
    hide Users, Ready, ClosedBits, Inv, PointBit, Next;
    var t, op := s.creator, InitDone(i, true);
    var s1 := Go(s, t, CLoad(i, true));
    assert Next(s, t, op) == s1 by { StartsClose(s, i); }
    NextKeeps(s, t, op);
    m := CloseRuns(s1, t, op);
    CreatorAt(s1);
    GoTwice(s, t, CLoad(i, true));
    if !Closed(s.status) { WordClose(s.status, i); }
    w := AfterShut(s1, t).status;
    m := m + 1;
  }

  lemma StartsClose(s: State, i: Point)
    requires s.creator in s.threads && s.threads[s.creator].ICreated?
    ensures Next(s, s.creator, InitDone(i, true)) == Go(s, s.creator, CLoad(i, true))
  {}

  /** A failed init_done closes an open pipe at its endpoint, and otherwise ends in the same way. */
  lemma InitCloses(s: State, i: Point) returns (n: nat)
    requires Inv(s) && s.creator in s.threads && s.threads[s.creator].ICreated?
    ensures var s2 := Alone(s, s.creator, InitDone(i, true), n);
            && Settled(s, s2)
            && Ready(s2.status) == Ready(s.status)
            && ClosedBits(s2.status) == if Closed(s.status) then ClosedBits(s.status) else PointBit(i) / 2
  {
    hide Users, Ready, ClosedBits, Settled, Inv, PointBit, Alone, Unlocks, ShutsMutex, Tells;
    var t, op := s.creator, InitDone(i, true);
    var m, w := FailShuts(s, i);
    AloneKeeps(s, t, op, m);
    var s3 := Go(s, t, IMutex(i)).(status := w);
    SettledBy(s3);
    SettledEarlier(s, s3, AfterInit(s3, t));
    n := InitRuns(s3, t, op);
    AloneThen(s, t, op, m, n);
    n := m + n;
    WordUp(w - UNIT);
  }

  /**
    A get that waits on the mutex of a two-way pipe is let through by init_done: when the
    creator ends a successful one and the waiter goes on, it takes its reference.
   */
  lemma WaiterGetsThrough(s: State, t: Tid, op: Op, i: Point) returns (n: nat, k: nat)
    requires Inv(s) && t in s.threads && s.threads[t].GLock? && !Closed(s.status)
    requires s.creator in s.threads && s.threads[s.creator].ICreated?
    ensures var s1 := Alone(s, s.creator, InitDone(i, false), n);
            t in s1.threads && Alone(s1, t, op, k).taken == s.taken + 1
            && Alone(s1, t, op, k).threads == s.threads[s.creator := Idle][t := Idle]
  {
    hide Users, Ready, ClosedBits, Inv, Alone;
    n := InitReadies(s, i);
    AloneKeeps(s, s.creator, InitDone(i, false), n);
    TwoWayAt(s, t);
    k := GetEnds(Alone(s, s.creator, InitDone(i, false), n), t, op);
  }

  lemma TwoWayAt(s: State, t: Tid)
    requires Inv(s) && t in s.threads && s.threads[t].GLock?
    ensures s.twoWay
  {
    hide UseInv, MutexInv, ReadyInv, Users, Ready, ClosedBits;
    assert Fits(s, t, s.threads[t]);
  }
}
