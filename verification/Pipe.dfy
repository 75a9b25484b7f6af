/**
  The lifetime protocol of moon_pipe.c.

  Any number of threads run pipe_get_other_point_ref and pipe_close on either
  endpoint while the creator runs pipe_init_done; every load, compare-and-swap,
  atomic subtraction and mutex operation is one step, so a run is any
  interleaving of them.  `status` is the status word itself: four state bits and,
  above them, the number of users.
 */
module Pipe {

  import opened Options
  import opened Crowd

  type Point = i: int | i == 0 || i == 1

  // ---------- The status word ----------

  const READY: int := 1
  const UNIT: int := 16
  const SHUT: int := 15   // STATUS_CLOSED, for the mutex word

  function Users(w: int): int { w / 16 }
  predicate Ready(w: int) { w % 2 == 1 }
  function ClosedBits(w: int): int { w / 2 % 4 }
  predicate Closed(w: int) { ClosedBits(w) != 0 }
  function PointBit(i: Point): int { if i == 0 then 2 else 4 }
  function Other(i: Point): Point { 1 - i }

  function WithReady(w: int): int { if Ready(w) then w else w + 1 }

  // ---------- What a thread is about to do ----------

  datatype Pc =
    | Idle
      // pipe_get_other_point_ref on endpoint i
    | GLoad(i: Point) | GCas(i: Point, tmp: int)
    | GTest(i: Point)
    | GMLoad(i: Point) | GMCas(i: Point, tmp: int)
    | GLock(i: Point) | GUnlock(i: Point) | GMDec(i: Point) | GDestroy(i: Point)
    | GReady(i: Point) | GClosed(i: Point) | GTake(i: Point) | GRel(i: Point)
      // pipe_close on endpoint i, possibly from inside pipe_init_done
    | CLoad(i: Point, init: bool) | CCas(i: Point, tmp: int, init: bool) | CNotify(i: Point, init: bool)
      // pipe_init_done on endpoint i
    | ICreated | IReady(i: Point) | ILoad(i: Point) | ICas(i: Point, tmp: int)
    | IMutex(i: Point) | IUnlock(i: Point) | IMLoad(i: Point) | IMCas(i: Point, tmp: int)
    | IDestroy(i: Point) | IRel(i: Point)
      // the tail of pipe_useing_ref_dec when it took the last user away
    | Notify(i: Point, word: int)

  datatype Op = GetRef(p: Point) | Close(p: Point) | InitDone(p: Point, fail: bool)

  datatype State = State(
    creator: Tid,
    twoWay: bool,
    status: int,
    mutexWord: int,
    lock: Option<Tid>,      // who holds pipe_mutex
    threads: map<Tid, Pc>,
    // What has been observed so far.
    readySet: bool,         // a successful init_done has set READY
    unlocked: bool,         // init_done has released the init mutex
    initOver: bool,         // init_done has dropped the creator's use
    notified: seq<Point>,   // endpoints whose listener was told of the close
    destroyed: nat,         // times the init mutex was destroyed
    taken: nat)             // successful get_other_point_ref calls

  // After pipe_new2, or pipe_new, which sets the PIPE_ALLOC bit besides: the creator holds a
  // use and, on a two-way pipe, the mutex.
  ghost predicate Init(s: State) {
    && s.creator in s.threads
    && (forall t :: t in s.threads ==> s.threads[t] == if t == s.creator then ICreated else Idle)
    && (s.status == 16 + (if s.twoWay then 0 else 1) || s.status == 24 + (if s.twoWay then 0 else 1))
    && s.mutexWord == (if s.twoWay then 0 else 1)
    && s.lock == (if s.twoWay then Some(s.creator) else None)
    && !s.readySet && !s.unlocked && !s.initOver
    && s.notified == [] && s.destroyed == 0 && s.taken == 0
  }

  function Go(s: State, t: Tid, pc: Pc): State { s.(threads := s.threads[t := pc]) }

  // The atomic subtraction of pipe_useing_ref_dec, and where it leads.
  function Release(s: State, t: Tid, i: Point): State {
    var w := s.status - UNIT;
    Go(s, t, if w < UNIT && Closed(w) then Notify(i, w) else Idle).(status := w)
  }

  function AfterClose(i: Point, init: bool): Pc { if init then IMutex(i) else Idle }

  function StepGet(s: State, t: Tid, pc: Pc): State {
    match pc
    case GLoad(i) => Go(s, t, if Closed(s.status) then Idle else GCas(i, s.status))
    case GCas(i, tmp) =>
      if s.status == tmp then Go(s, t, GTest(i)).(status := tmp + UNIT) else Go(s, t, GLoad(i))
    case GTest(i) => Go(s, t, if Ready(s.status) then GReady(i) else GMLoad(i))
    case GMLoad(i) => Go(s, t, if s.mutexWord % 16 == SHUT then GReady(i) else GMCas(i, s.mutexWord))
    case GMCas(i, tmp) =>
      if s.mutexWord == tmp then Go(s, t, GLock(i)).(mutexWord := tmp + UNIT) else Go(s, t, GMLoad(i))
    case GLock(i) => if s.lock.None? then Go(s, t, GUnlock(i)).(lock := Some(t)) else s
    case GUnlock(i) => Go(s, t, GMDec(i)).(lock := None)
    case GMDec(i) =>
      var w := s.mutexWord - UNIT;
      Go(s, t, if w == SHUT then GDestroy(i) else GReady(i)).(mutexWord := w)
    case GDestroy(i) => Go(s, t, GReady(i)).(destroyed := s.destroyed + 1)
    case GReady(i) => Go(s, t, if Ready(s.status) then GClosed(i) else GRel(i))
    case GClosed(i) => Go(s, t, if Closed(s.status) then GRel(i) else GTake(i))
    case GTake(i) => Go(s, t, GRel(i)).(taken := s.taken + 1)
    case GRel(i) => Release(s, t, i)
    case _ => s
  }

  function StepClose(s: State, t: Tid, pc: Pc): State {
    match pc
    case CLoad(i, init) =>
      Go(s, t, if Closed(s.status) then AfterClose(i, init) else CCas(i, s.status, init))
    case CCas(i, tmp, init) =>
      if s.status == tmp then
        Go(s, t, if tmp < UNIT then CNotify(i, init) else AfterClose(i, init)).(status := tmp + PointBit(i))
      else Go(s, t, CLoad(i, init))
    case CNotify(i, init) =>
      Go(s, t, AfterClose(i, init)).(notified := s.notified + [Other(i)])
    case _ => s
  }

  function StepInit(s: State, t: Tid, pc: Pc, op: Op): State {
    match pc
    case ICreated =>
      if op.InitDone? then Go(s, t, if op.fail then CLoad(op.p, true) else IReady(op.p)) else s
    case IReady(i) => Go(s, t, if Ready(s.status) then IMutex(i) else ILoad(i))
    case ILoad(i) => Go(s, t, ICas(i, s.status))
    case ICas(i, tmp) =>
      if s.status == tmp then Go(s, t, IMutex(i)).(status := WithReady(tmp), readySet := true) else Go(s, t, ILoad(i))
    case IMutex(i) => Go(s, t, if Ready(s.mutexWord) then IRel(i) else IUnlock(i))
    case IUnlock(i) => Go(s, t, IMLoad(i)).(lock := None, unlocked := true)
    case IMLoad(i) => Go(s, t, if s.mutexWord % 16 == SHUT then IRel(i) else IMCas(i, s.mutexWord))
    case IMCas(i, tmp) =>
      if s.mutexWord == tmp then
        Go(s, t, if tmp < UNIT then IDestroy(i) else IRel(i)).(mutexWord := tmp / 16 * 16 + SHUT)
      else Go(s, t, IMLoad(i))
    case IDestroy(i) => Go(s, t, IRel(i)).(destroyed := s.destroyed + 1)
    case IRel(i) => Release(s, t, i).(initOver := true)
    case _ => s
  }

  // The listener told is the one of the endpoint that did not close.
  function StepNotify(s: State, t: Tid, i: Point, word: int): State {
    var told :=
      if ClosedBits(word) == PointBit(i) / 2 then [Other(i)]
      else if ClosedBits(word) == PointBit(Other(i)) / 2 then [i]
      else [];
    Go(s, t, Idle).(notified := s.notified + told)
  }

  // One atomic operation of thread `t`; an idle thread starts `op`.
  function Next(s: State, t: Tid, op: Op): State
    requires t in s.threads
  {
    var pc := s.threads[t];
    match pc
    case Idle =>
      (match op
       case GetRef(i) => Go(s, t, GLoad(i))
       case Close(i) => Go(s, t, CLoad(i, false))
       case InitDone(_, _) => s)
    case Notify(i, word) => StepNotify(s, t, i, word)
    case CLoad(_, _) => StepClose(s, t, pc)
    case CCas(_, _, _) => StepClose(s, t, pc)
    case CNotify(_, _) => StepClose(s, t, pc)
    case _ => if IsInit(pc) then StepInit(s, t, pc, op) else StepGet(s, t, pc)
  }

  predicate IsInit(pc: Pc) {
    match pc
    case ICreated => true
    case IReady(_) => true
    case ILoad(_) => true
    case ICas(_, _) => true
    case IMutex(_) => true
    case IUnlock(_) => true
    case IMLoad(_) => true
    case IMCas(_, _) => true
    case IDestroy(_) => true
    case IRel(_) => true
    case _ => false
  }

  // ---------- Classes of threads, and how many there are ----------

  datatype Class = Using | Telling | Waiting | Destroying

  // Is a thread here one that holds a use of the pipe, has taken on the close
  // notification, holds a reference to the mutex, has taken on destroying it?
  predicate Is(c: Class, pc: Pc) {
    match c
    case Using => HoldsUse(pc)
    case Telling => pc.Notify? || pc.CNotify?
    case Waiting => pc.GLock? || pc.GUnlock? || pc.GMDec?
    case Destroying => pc.GDestroy? || pc.IDestroy?
  }

  // Inside pipe_init_done, the pipe_close it may call included.
  predicate InInit(pc: Pc) {
    IsInit(pc) || (pc.CLoad? && pc.init) || (pc.CCas? && pc.init) || (pc.CNotify? && pc.init)
  }

  predicate HoldsUse(pc: Pc) {
    InInit(pc) || (InGet(pc) && !pc.GLoad? && !pc.GCas?)
  }

  predicate InGet(pc: Pc) {
    !IsInit(pc) && !pc.Idle? && !pc.Notify? && !pc.CLoad? && !pc.CCas? && !pc.CNotify?
  }

  // Past the test of READY, on the way to or from the mutex.
  predicate AtMutex(pc: Pc) {
    pc.GMLoad? || pc.GMCas? || pc.GLock? || pc.GUnlock? || pc.GMDec? || pc.GDestroy?
  }

  ghost function Count(m: map<Tid, Pc>, c: Class): nat { Crowd.Count(m, (pc: Pc) => Is(c, pc)) }

  lemma HasOne(m: map<Tid, Pc>, c: Class, t: Tid)
    requires t in m && Is(c, m[t])
    ensures Count(m, c) >= 1
  {
    OneCounts(m, t, (pc: Pc) => Is(c, pc));
  }

  // ---------- The invariant ----------

  // What the place of one thread says about the shared words.
  ghost predicate Fits(s: State, t: Tid, pc: Pc) {
    && (InInit(pc) <==> t == s.creator && !s.initOver)
    && (pc.GCas? || pc.CCas? ==> !Closed(pc.tmp))
    && (pc.CNotify? ==> ClosedBits(s.status) == PointBit(pc.i) / 2)
    && (pc.Notify? ==> ClosedBits(pc.word) == ClosedBits(s.status) != 0)
    && (AtMutex(pc) ==> s.twoWay)
    && (pc.GMCas? || pc.IMCas? ==> pc.tmp % 16 != SHUT)
    && (pc.GUnlock? ==> s.unlocked && s.lock == Some(t))
    && (pc.GClosed? || pc.GTake? ==> Ready(s.status))
    && InitFits(s, pc)
  }

  // How far pipe_init_done has come.
  ghost predicate InitFits(s: State, pc: Pc) {
    && (InInit(pc) && !pc.IMLoad? && !pc.IMCas? && !pc.IDestroy? && !pc.IRel? ==> !s.unlocked)
    && (pc.IUnlock? || pc.IMLoad? || pc.IMCas? || pc.IDestroy? ==> s.twoWay)
    && (pc.IMLoad? || pc.IMCas? || pc.IDestroy? ==> s.unlocked)
    && (pc.IMLoad? || pc.IMCas? ==> s.mutexWord % 16 == 0)
    && (pc.IDestroy? || pc.IRel? ==> MutexShut(s))
    && (InInit(pc) && !pc.IDestroy? && !pc.IRel? && s.twoWay ==> s.mutexWord % 16 == 0)
    && (pc.ILoad? || pc.ICas? ==> s.twoWay)
  }

  predicate MutexShut(s: State) { s.twoWay ==> s.mutexWord % 16 == SHUT }

  ghost predicate UseInv(s: State) {
    && 0 <= s.status
    && Users(s.status) == Count(s.threads, Using)
    && ClosedBits(s.status) != 3
    && |s.notified| + Count(s.threads, Telling) == One(Closed(s.status) && Users(s.status) == 0)
    && (forall k :: 0 <= k < |s.notified| ==> ClosedBits(s.status) == PointBit(Other(s.notified[k])) / 2)
  }

  ghost predicate MutexInv(s: State) {
    && 0 <= s.mutexWord
    && (s.twoWay ==> s.mutexWord % 16 == 0 || (s.mutexWord % 16 == SHUT && s.unlocked))
    && (!s.twoWay ==> s.mutexWord == 1 && s.lock.None? && !s.unlocked)
    && (if s.twoWay then s.mutexWord / 16 else 0) == Count(s.threads, Waiting)
    && s.destroyed + Count(s.threads, Destroying) == One(s.mutexWord == SHUT)
    && (s.twoWay && !s.unlocked ==> s.lock == Some(s.creator))
    && (s.unlocked && s.lock.Some? ==> s.lock.value in s.threads && s.threads[s.lock.value].GUnlock?)
  }

  ghost predicate ReadyInv(s: State) {
    && (Ready(s.status) <==> s.readySet || !s.twoWay)
    && (s.taken > 0 ==> Ready(s.status))
    && (s.initOver ==> MutexShut(s))
  }

  ghost predicate ThreadsInv(s: State) {
    && s.creator in s.threads
    && (forall t :: t in s.threads ==> Fits(s, t, s.threads[t]))
  }

  ghost predicate Inv(s: State) { ThreadsInv(s) && UseInv(s) && MutexInv(s) && ReadyInv(s) }

  // ---------- Words ----------

  lemma Halve(h: int, b: int)
    requires 0 <= b < 2
    ensures (2 * h + b) / 2 == h && (2 * h + b) % 2 == b
  {}

  lemma Quarter(h: int, b: int)
    requires 0 <= b < 4
    ensures (4 * h + b) % 4 == b
  {}

  lemma Sixteenth(h: int, b: int)
    requires 0 <= b < 16
    ensures (16 * h + b) / 16 == h
  {}

  // A word is its users and its three lower fields.
  function Word(users: int, alloc: int, closed: int, ready: int): int {
    16 * users + 8 * alloc + 2 * closed + ready
  }

  lemma WordFields(users: int, alloc: int, closed: int, ready: int)
    requires 0 <= alloc < 2 && 0 <= closed < 4 && 0 <= ready < 2
    ensures var w := Word(users, alloc, closed, ready);
            Users(w) == users && ClosedBits(w) == closed && Ready(w) == (ready == 1)
  {
    var w := Word(users, alloc, closed, ready);
    Sixteenth(users, 8 * alloc + 2 * closed + ready);
    var h := 8 * users + 4 * alloc + closed;
    assert w == 2 * h + ready;
    Halve(h, ready);
    Quarter(2 * users + alloc, closed);
    assert h == 4 * (2 * users + alloc) + closed;
  }

  lemma WordIsFields(w: int) returns (alloc: int, ready: int)
    ensures 0 <= alloc < 2 && 0 <= ClosedBits(w) < 4 && 0 <= ready < 2
    ensures Ready(w) == (ready == 1)
    ensures w == Word(Users(w), alloc, ClosedBits(w), ready)
  {
    ready := w % 2;
    var h := w / 2;
    var q := h / 4;
    alloc := q % 2;
    assert w == 2 * h + w % 2;
    assert h == 4 * q + h % 4;
    assert q == 2 * (q / 2) + alloc;
    assert w == 16 * (q / 2) + (8 * alloc + 2 * (h % 4) + w % 2);
    Sixteenth(q / 2, 8 * alloc + 2 * (h % 4) + w % 2);
  }

  lemma WordUp(w: int)
    ensures Users(w + UNIT) == Users(w) + 1
    ensures Ready(w + UNIT) == Ready(w) && ClosedBits(w + UNIT) == ClosedBits(w)
  {
    hide Users, ClosedBits, Ready;
    var alloc, ready := WordIsFields(w);
    var u, c := Users(w), ClosedBits(w);
    assert w + UNIT == Word(u + 1, alloc, c, ready);
    WordFields(u + 1, alloc, c, ready);
  }

  lemma WordParts(w: int)
    ensures 0 <= ClosedBits(w) < 4
    ensures 0 <= w <==> 0 <= Users(w)
    ensures 0 <= w < UNIT <==> Users(w) == 0
  {
    hide Users, ClosedBits, Ready;
    var _, _ := WordIsFields(w);
  }

  lemma BitIsEven(i: Point)
    ensures PointBit(i) == 2 * (PointBit(i) / 2) && 0 < PointBit(i) / 2 < 3
  {}

  lemma WordClose(w: int, i: Point)
    requires !Closed(w)
    ensures Users(w + PointBit(i)) == Users(w)
    ensures Ready(w + PointBit(i)) == Ready(w) && ClosedBits(w + PointBit(i)) == PointBit(i) / 2
  {
    hide Users, ClosedBits, PointBit, Ready;
    var alloc, ready := WordIsFields(w);
    var bit := PointBit(i) / 2;
    assert PointBit(i) == 2 * bit && 0 < bit < 3 by { BitIsEven(i); }
    var u := Users(w);
    assert w + PointBit(i) == Word(u, alloc, bit, ready);
    WordFields(u, alloc, bit, ready);
  }

  lemma WordReady(w: int)
    ensures Users(WithReady(w)) == Users(w)
    ensures Ready(WithReady(w)) && ClosedBits(WithReady(w)) == ClosedBits(w)
    ensures w <= WithReady(w)
  {
    hide Users, ClosedBits, Ready;
    var alloc, ready := WordIsFields(w);
    var u, c := Users(w), ClosedBits(w);
    assert WithReady(w) == Word(u, alloc, c, 1);
    WordFields(u, alloc, c, 1);
  }

  // ---------- Every step keeps it ----------

  lemma Counted(s: State, s2: State, t: Tid, pc: Pc)
    requires t in s.threads && s2.threads == s.threads[t := pc]
    ensures forall c :: Count(s2.threads, c) == Count(s.threads, c) - One(Is(c, s.threads[t])) + One(Is(c, pc))
  {
    hide Is, Crowd.Count, One;
    forall c ensures Count(s2.threads, c) == Count(s.threads, c) - One(Is(c, s.threads[t])) + One(Is(c, pc)) {
      CountStep(s.threads, t, pc, (p: Pc) => Is(c, p));
    }
  }

  // What thread `t` may do to the shared words without upsetting another thread.
  ghost predicate Mild(s: State, s2: State, t: Tid) {
    && s2.creator == s.creator && s2.twoWay == s.twoWay
    && (Ready(s.status) ==> Ready(s2.status))
    && (ClosedBits(s2.status) == ClosedBits(s.status) || Count(s.threads, Telling) == 0)
    && (t != s.creator ==>
          s2.unlocked == s.unlocked && s2.initOver == s.initOver && s2.mutexWord % 16 == s.mutexWord % 16)
    && (s.initOver ==> s2.initOver)
    && (s.unlocked ==> s2.unlocked)
    && (s2.lock == s.lock || s.lock == None || s.lock == Some(t) || !s.unlocked)
  }

  lemma OthersFit(s: State, s2: State, t: Tid, u: Tid)
    requires ThreadsInv(s) && t in s.threads && u in s.threads && u != t
    requires Mild(s, s2, t)
    ensures Fits(s2, u, s.threads[u])
  {
    hide Count, Ready, ClosedBits, HoldsUse;
    var pc := s.threads[u];
    assert Fits(s, u, pc);
    assert Fits(s, t, s.threads[t]);
    if pc.Notify? || pc.CNotify? {
      assert Is(Telling, pc);
      HasOne(s.threads, Telling, u);
    }
  }

  lemma AllFit(s: State, s2: State, t: Tid, pc: Pc)
    requires ThreadsInv(s) && t in s.threads
    requires s2.threads == s.threads[t := pc]
    requires Mild(s, s2, t) && Fits(s2, t, pc)
    ensures ThreadsInv(s2)
  {
    hide Fits;
    forall u | u in s2.threads ensures Fits(s2, u, s2.threads[u]) {
      if u != t { OthersFit(s, s2, t, u); }
    }
  }

  lemma FitsAt(s: State, t: Tid)
    requires ThreadsInv(s) && t in s.threads
    ensures Fits(s, t, s.threads[t]) && s.creator in s.threads
  {}

  lemma GLockKeeps(s: State, t: Tid, op: Op)
    requires Inv(s) && t in s.threads
    requires s.threads[t].GLock?
    ensures Inv(Next(s, t, op))
  {
    hide ThreadsInv, Count, Users, Ready, ClosedBits, WithReady, UNIT, StepInit, StepClose, StepNotify;
    var s2 := Next(s, t, op);
    FitsAt(s, t);
    Counted(s, s2, t, s2.threads[t]);
    if s2 == s { return; }
    AllFit(s, s2, t, s2.threads[t]);
  }

  lemma GUnlockKeeps(s: State, t: Tid, op: Op)
    requires Inv(s) && t in s.threads
    requires s.threads[t].GUnlock?
    ensures Inv(Next(s, t, op))
  {
    hide ThreadsInv, Count, Users, Ready, ClosedBits, WithReady, UNIT, StepInit, StepClose, StepNotify;
    var s2 := Next(s, t, op);
    FitsAt(s, t);
    Counted(s, s2, t, s2.threads[t]);
    AllFit(s, s2, t, s2.threads[t]);
  }

  lemma GMDecKeeps(s: State, t: Tid, op: Op)
    requires Inv(s) && t in s.threads
    requires s.threads[t].GMDec?
    ensures Inv(Next(s, t, op))
  {
    hide ThreadsInv, Count, Users, Ready, ClosedBits, WithReady, StepInit, StepClose, StepNotify;
    var s2 := Next(s, t, op);
    FitsAt(s, t);
    Counted(s, s2, t, s2.threads[t]);
    HasOne(s.threads, Waiting, t);
    AllFit(s, s2, t, s2.threads[t]);
  }

  lemma GDestroyKeeps(s: State, t: Tid, op: Op)
    requires Inv(s) && t in s.threads
    requires s.threads[t].GDestroy?
    ensures Inv(Next(s, t, op))
  {
    hide ThreadsInv, Count, Users, Ready, ClosedBits, WithReady, UNIT, StepInit, StepClose, StepNotify;
    var s2 := Next(s, t, op);
    FitsAt(s, t);
    Counted(s, s2, t, s2.threads[t]);
    AllFit(s, s2, t, s2.threads[t]);
  }

  lemma GTakeKeeps(s: State, t: Tid, op: Op)
    requires Inv(s) && t in s.threads
    requires s.threads[t].GTake?
    ensures Inv(Next(s, t, op))
  {
    hide ThreadsInv, Count, Users, Ready, ClosedBits, WithReady, UNIT, StepInit, StepClose, StepNotify;
    var s2 := Next(s, t, op);
    FitsAt(s, t);
    Counted(s, s2, t, s2.threads[t]);
    AllFit(s, s2, t, s2.threads[t]);
  }

  lemma GRelKeeps(s: State, t: Tid, op: Op)
    requires Inv(s) && t in s.threads
    requires s.threads[t].GRel?
    ensures Inv(Next(s, t, op))
  {
    hide ThreadsInv, Count, Users, Ready, ClosedBits, WithReady, UNIT, StepInit, StepClose, StepNotify;
    var s2 := Next(s, t, op);
    FitsAt(s, t);
    Counted(s, s2, t, s2.threads[t]);
    WordUp(s2.status);
    WordParts(s2.status);
    WordParts(s.status);
    HasOne(s.threads, Using, t);
    AllFit(s, s2, t, s2.threads[t]);
  }

  lemma IRelKeeps(s: State, t: Tid, op: Op)
    requires Inv(s) && t in s.threads
    requires s.threads[t].IRel?
    ensures Inv(Next(s, t, op))
  {
    hide ThreadsInv, Count, Users, Ready, ClosedBits, WithReady, UNIT, StepGet, StepClose, StepNotify;
    var s2 := Next(s, t, op);
    FitsAt(s, t);
    Counted(s, s2, t, s2.threads[t]);
    WordUp(s2.status);
    WordParts(s2.status);
    WordParts(s.status);
    HasOne(s.threads, Using, t);
    AllFit(s, s2, t, s2.threads[t]);
  }

  lemma CloseKeeps(s: State, t: Tid, op: Op)
    requires Inv(s) && t in s.threads
    requires s.threads[t].CCas? && s.threads[t].tmp == s.status
    ensures Inv(Next(s, t, op))
  {
    hide ThreadsInv, Count, Users, Ready, ClosedBits, WithReady, UNIT, StepGet, StepInit, StepNotify;
    var s2 := Next(s, t, op);
    FitsAt(s, t);
    Counted(s, s2, t, s2.threads[t]);
    WordClose(s.status, s.threads[t].i);
    WordParts(s.status);
    WordParts(s2.status);
    AllFit(s, s2, t, s2.threads[t]);
  }

  lemma CNotifyKeeps(s: State, t: Tid, op: Op)
    requires Inv(s) && t in s.threads
    requires s.threads[t].CNotify?
    ensures Inv(Next(s, t, op))
  {
    hide ThreadsInv, Count, Users, Ready, ClosedBits, WithReady, UNIT, StepGet, StepInit, StepNotify;
    var s2 := Next(s, t, op);
    FitsAt(s, t);
    Counted(s, s2, t, s2.threads[t]);
    HasOne(s.threads, Telling, t);
    AllFit(s, s2, t, s2.threads[t]);
  }

  lemma NotifyKeeps(s: State, t: Tid, op: Op)
    requires Inv(s) && t in s.threads
    requires s.threads[t].Notify?
    ensures Inv(Next(s, t, op))
  {
    hide ThreadsInv, Count, Users, Ready, ClosedBits, WithReady, UNIT, StepGet, StepClose, StepInit;
    var s2 := Next(s, t, op);
    FitsAt(s, t);
    Counted(s, s2, t, s2.threads[t]);
    HasOne(s.threads, Telling, t);
    WordParts(s.status);
    AllFit(s, s2, t, s2.threads[t]);
  }

  lemma IUnlockKeeps(s: State, t: Tid, op: Op)
    requires Inv(s) && t in s.threads
    requires var pc := s.threads[t]; pc.IUnlock?
    ensures Inv(Next(s, t, op))
  {
    hide ThreadsInv, Count, Users, Ready, ClosedBits, WithReady, UNIT, StepGet, StepClose, StepNotify;
    var s2 := Next(s, t, op);
    FitsAt(s, t);
    Counted(s, s2, t, s2.threads[t]);
    AllFit(s, s2, t, s2.threads[t]);
  }

  lemma IDestroyKeeps(s: State, t: Tid, op: Op)
    requires Inv(s) && t in s.threads
    requires var pc := s.threads[t]; pc.IDestroy?
    ensures Inv(Next(s, t, op))
  {
    hide ThreadsInv, Count, Users, Ready, ClosedBits, WithReady, UNIT, StepGet, StepClose, StepNotify;
    var s2 := Next(s, t, op);
    FitsAt(s, t);
    Counted(s, s2, t, s2.threads[t]);
    AllFit(s, s2, t, s2.threads[t]);
  }

  lemma AcquireKeeps(s: State, t: Tid, op: Op)
    requires Inv(s) && t in s.threads
    requires s.threads[t].GCas? && s.threads[t].tmp == s.status
    ensures Inv(Next(s, t, op))
  {
    hide ThreadsInv, Count, Users, Ready, ClosedBits, WithReady, StepInit, StepClose, StepNotify;
    var s2 := Next(s, t, op);
    FitsAt(s, t);
    Counted(s, s2, t, s2.threads[t]);
    WordUp(s.status);
    WordParts(s.status);
    AllFit(s, s2, t, s2.threads[t]);
  }

  lemma MutexRefKeeps(s: State, t: Tid, op: Op)
    requires Inv(s) && t in s.threads
    requires s.threads[t].GMCas? && s.threads[t].tmp == s.mutexWord
    ensures Inv(Next(s, t, op))
  {
    hide ThreadsInv, Count, Users, Ready, ClosedBits, WithReady, StepInit, StepClose, StepNotify;
    var s2 := Next(s, t, op);
    FitsAt(s, t);
    Counted(s, s2, t, s2.threads[t]);
    AllFit(s, s2, t, s2.threads[t]);
  }

  lemma MutexShutKeeps(s: State, t: Tid, op: Op)
    requires Inv(s) && t in s.threads
    requires s.threads[t].IMCas? && s.threads[t].tmp == s.mutexWord
    ensures Inv(Next(s, t, op))
  {
    hide ThreadsInv, Count, Users, Ready, ClosedBits, WithReady, StepGet, StepClose, StepNotify;
    var s2 := Next(s, t, op);
    FitsAt(s, t);
    Counted(s, s2, t, s2.threads[t]);
    AllFit(s, s2, t, s2.threads[t]);
  }

  lemma ReadyKeeps(s: State, t: Tid, op: Op)
    requires Inv(s) && t in s.threads
    requires s.threads[t].ICas? && s.threads[t].tmp == s.status
    ensures Inv(Next(s, t, op))
  {
    hide ThreadsInv, Count, Users, Ready, ClosedBits, WithReady, UNIT, StepGet, StepClose, StepNotify;
    var s2 := Next(s, t, op);
    FitsAt(s, t);
    Counted(s, s2, t, s2.threads[t]);
    WordReady(s.status);
    WordParts(s2.status);
    WordParts(s.status);
    AllFit(s, s2, t, s2.threads[t]);
  }

  // A step that only moves the thread on, within its classes.
  lemma MoveKeeps(s: State, t: Tid, pc: Pc)
    requires Inv(s) && t in s.threads
    requires Fits(s, t, pc) && !s.threads[t].GUnlock?
    requires forall c :: Is(c, pc) == Is(c, s.threads[t])
    ensures Inv(Go(s, t, pc))
  {
    hide Count, Is, Users, Ready, ClosedBits, Fits;
    var s2 := Go(s, t, pc);
    Counted(s, s2, t, pc);
    assert Fits(s2, t, pc) by { SameFit(s, t, pc); }
    AllFit(s, s2, t, pc);
  }

  lemma SameFit(s: State, t: Tid, pc: Pc)
    requires Fits(s, t, pc)
    ensures Fits(Go(s, t, pc), t, pc)
  {}

  // The steps that only read a word, or fail to swap it.
  predicate Retries(s: State, pc: Pc) {
    || ((pc.GCas? || pc.CCas? || pc.ICas?) && pc.tmp != s.status)
    || ((pc.GMCas? || pc.IMCas?) && pc.tmp != s.mutexWord)
  }

  predicate LooksGet(pc: Pc) { pc.GLoad? || pc.GTest? || pc.GMLoad? }
  predicate LooksTake(pc: Pc) { pc.GReady? || pc.GClosed? }
  predicate LooksStatus(pc: Pc) { pc.CLoad? || pc.IReady? || pc.ILoad? }
  predicate LooksMutex(pc: Pc) { pc.IMutex? || pc.IMLoad? }

  // The step only moves the thread on, to a place that fits.
  ghost predicate Moves(s: State, t: Tid, op: Op)
    requires t in s.threads
  {
    var pc := s.threads[t];
    var s2 := Next(s, t, op);
    t in s2.threads && s2 == Go(s, t, s2.threads[t]) && Fits(s, t, s2.threads[t]) && !pc.GUnlock? &&
    forall c :: Is(c, s2.threads[t]) == Is(c, pc)
  }

  lemma RetryGetMoves(s: State, t: Tid, op: Op)
    requires t in s.threads && Fits(s, t, s.threads[t]) && Retries(s, s.threads[t]) && InGet(s.threads[t])
    ensures Moves(s, t, op)
  {
    hide Ready, ClosedBits, MutexShut, StepInit, StepClose, StepNotify;
  }

  lemma RetryElseMoves(s: State, t: Tid, op: Op)
    requires t in s.threads && Fits(s, t, s.threads[t]) && Retries(s, s.threads[t]) && !InGet(s.threads[t])
    ensures Moves(s, t, op)
  {
    hide Ready, ClosedBits, MutexShut, StepGet, StepNotify;
  }

  lemma LookGetMoves(s: State, t: Tid, op: Op)
    requires t in s.threads && Fits(s, t, s.threads[t]) && ReadyInv(s) && LooksGet(s.threads[t])
    ensures Moves(s, t, op)
  {
    hide ClosedBits, MutexShut, StepInit, StepClose, StepNotify;
  }

  lemma LookTakeMoves(s: State, t: Tid, op: Op)
    requires t in s.threads && Fits(s, t, s.threads[t]) && ReadyInv(s) && LooksTake(s.threads[t])
    ensures Moves(s, t, op)
  {
    hide ClosedBits, MutexShut, StepInit, StepClose, StepNotify;
  }

  lemma LookCloseMoves(s: State, t: Tid, op: Op)
    requires t in s.threads && Fits(s, t, s.threads[t]) && ReadyInv(s) && MutexInv(s) && s.threads[t].CLoad?
    ensures Moves(s, t, op)
  {
    hide ClosedBits, Count, Users, StepGet, StepInit, StepNotify;
  }

  lemma LookStatusMoves(s: State, t: Tid, op: Op)
    requires t in s.threads && Fits(s, t, s.threads[t]) && ReadyInv(s) && MutexInv(s) && LooksStatus(s.threads[t]) && !s.threads[t].CLoad?
    ensures Moves(s, t, op)
  {
    hide ClosedBits, Count, Users, StepGet, StepClose, StepNotify;
  }

  lemma LookMutexMoves(s: State, t: Tid, op: Op)
    requires t in s.threads && Fits(s, t, s.threads[t]) && ReadyInv(s) && MutexInv(s) && LooksMutex(s.threads[t])
    ensures Moves(s, t, op)
  {
    hide ClosedBits, Count, Users, StepGet, StepClose, StepNotify;
  }

  lemma StartMoves(s: State, t: Tid, op: Op)
    requires t in s.threads && Fits(s, t, s.threads[t]) && (s.threads[t].Idle? || s.threads[t].ICreated?)
    ensures Moves(s, t, op)
  {
    hide Ready, ClosedBits, MutexShut;
  }

  lemma MovesKeep(s: State, t: Tid, op: Op)
    requires Inv(s) && t in s.threads && Moves(s, t, op)
    ensures Inv(Next(s, t, op))
  {
    hide Inv, Next, Is, Fits;
    MoveKeeps(s, t, Next(s, t, op).threads[t]);
  }

  lemma NextKeeps(s: State, t: Tid, op: Op)
    requires Inv(s) && t in s.threads
    ensures Inv(Next(s, t, op))
  {
    hide Fits, Next, UseInv, MutexInv, ReadyInv, Moves;
    var pc := s.threads[t];
    if Retries(s, pc) {
      if InGet(pc) { RetryGetMoves(s, t, op); } else { RetryElseMoves(s, t, op); }
      MovesKeep(s, t, op);
      return;
    }
    match pc
    case Idle => StartMoves(s, t, op); MovesKeep(s, t, op);
    case ICreated => StartMoves(s, t, op); MovesKeep(s, t, op);
    case GCas(_, _) => AcquireKeeps(s, t, op);
    case GMCas(_, _) => MutexRefKeeps(s, t, op);
    case GLock(_) => GLockKeeps(s, t, op);
    case GUnlock(_) => GUnlockKeeps(s, t, op);
    case GMDec(_) => GMDecKeeps(s, t, op);
    case GDestroy(_) => GDestroyKeeps(s, t, op);
    case GTake(_) => GTakeKeeps(s, t, op);
    case GRel(_) => GRelKeeps(s, t, op);
    case CCas(_, _, _) => CloseKeeps(s, t, op);
    case CNotify(_, _) => CNotifyKeeps(s, t, op);
    case Notify(_, _) => NotifyKeeps(s, t, op);
    case ICas(_, _) => ReadyKeeps(s, t, op);
    case IUnlock(_) => IUnlockKeeps(s, t, op);
    case IMCas(_, _) => MutexShutKeeps(s, t, op);
    case IDestroy(_) => IDestroyKeeps(s, t, op);
    case IRel(_) => IRelKeeps(s, t, op);
    case _ =>
      if LooksGet(pc) {
        LookGetMoves(s, t, op);
      } else if LooksTake(pc) {
        LookTakeMoves(s, t, op);
      } else if pc.CLoad? {
        LookCloseMoves(s, t, op);
      } else if LooksStatus(pc) {
        LookStatusMoves(s, t, op);
      } else {
        LookMutexMoves(s, t, op);
      }
      MovesKeep(s, t, op);
  }

  // ---------- Whole runs ----------

  datatype Move = Move(t: Tid, op: Op)

  // Every interleaving: a schedule names the thread of each step.
  function Run(s: State, schedule: seq<Move>): State
    decreases schedule
  {
    if schedule == [] then s
    else
      var m := schedule[0];
      Run(if m.t in s.threads then Next(s, m.t, m.op) else s, schedule[1..])
  }

  lemma InitHolds(s: State)
    requires Init(s)
    ensures Inv(s)
  {
    forall c ensures Count(s.threads, c) == One(c == Using) {
      assert Members(s.threads, (pc: Pc) => Is(c, pc)) == if c == Using then {s.creator} else {};
    }
  }

  lemma {:induction false} RunKeeps(s: State, schedule: seq<Move>)
    requires Inv(s)
    ensures Inv(Run(s, schedule))
    decreases schedule
  {
    hide Inv, Next;
    if schedule != [] {
      var m := schedule[0];
      if m.t in s.threads { NextKeeps(s, m.t, m.op); }
      RunKeeps(if m.t in s.threads then Next(s, m.t, m.op) else s, schedule[1..]);
    }
  }

  // A step cannot change who closed, and once closed no acquire goes through.
  ghost predicate StaysClosed(s: State, s2: State) {
    ClosedBits(s2.status) == ClosedBits(s.status) && Users(s2.status) <= Users(s.status)
  }

  lemma GetStaysClosed(s: State, t: Tid, op: Op)
    requires t in s.threads && Fits(s, t, s.threads[t]) && Closed(s.status) && InGet(s.threads[t])
    ensures StaysClosed(s, Next(s, t, op))
  {
    hide Users, ClosedBits, UNIT, InitFits, Is;
    WordUp(s.status - UNIT);
  }

  lemma InitStaysClosed(s: State, t: Tid, op: Op)
    requires t in s.threads && Closed(s.status) && IsInit(s.threads[t])
    ensures StaysClosed(s, Next(s, t, op))
  {
    hide Users, ClosedBits, UNIT, Is;
    WordUp(s.status - UNIT);
    WordReady(s.status);
  }

  lemma ClosedStep(s: State, t: Tid, op: Op)
    requires Inv(s) && t in s.threads && Closed(s.status)
    ensures StaysClosed(s, Next(s, t, op))
  {
    hide Users, ClosedBits, UNIT, InitFits, UseInv, MutexInv, ReadyInv;
    var pc := s.threads[t];
    assert Fits(s, t, pc);
    if InGet(pc) {
      GetStaysClosed(s, t, op);
    } else if IsInit(pc) {
      InitStaysClosed(s, t, op);
    }
  }

  /** At most one endpoint's close wins, for good, and no acquire succeeds after it. */
  lemma {:induction false} FirstCloseWins(s: State, schedule: seq<Move>)
    requires Inv(s) && Closed(s.status)
    ensures ClosedBits(Run(s, schedule).status) == ClosedBits(s.status)
    ensures Users(Run(s, schedule).status) <= Users(s.status)
    decreases schedule
  {
    hide Inv, Next, ClosedBits, Users;
    if schedule != [] {
      var m := schedule[0];
      if m.t in s.threads { NextKeeps(s, m.t, m.op); ClosedStep(s, m.t, m.op); }
      FirstCloseWins(if m.t in s.threads then Next(s, m.t, m.op) else s, schedule[1..]);
    }
  }

  // The counts of references taken and mutexes destroyed.
  ghost predicate Counts(s: State, pc: Pc, s2: State) {
    && s2.taken == s.taken + One(pc.GTake?)
    && s2.destroyed == s.destroyed + One(pc.GDestroy? || pc.IDestroy?)
  }

  lemma GetCounts(s: State, t: Tid, pc: Pc)
    requires InGet(pc)
    ensures Counts(s, pc, StepGet(s, t, pc))
  {
    hide Ready, ClosedBits, UNIT;
  }

  lemma InitCounts(s: State, t: Tid, pc: Pc, op: Op)
    requires IsInit(pc)
    ensures Counts(s, pc, StepInit(s, t, pc, op))
  {
    hide Ready, ClosedBits, UNIT;
  }

  lemma WhoCounts(s: State, t: Tid, op: Op)
    requires t in s.threads
    ensures Counts(s, s.threads[t], Next(s, t, op))
  {
    hide StepGet, StepInit, Ready, ClosedBits, UNIT;
    var pc := s.threads[t];
    if InGet(pc) {
      GetCounts(s, t, pc);
    } else if IsInit(pc) {
      InitCounts(s, t, pc, op);
    }
  }

  /** pipe_get_other_point_ref takes a reference only once READY is set, by init_done if two-way. */
  lemma TakesWhenReady(s: State, t: Tid, op: Op)
    requires Inv(s) && t in s.threads && Next(s, t, op).taken != s.taken
    ensures Next(s, t, op).taken == s.taken + 1
    ensures Ready(s.status) && (s.twoWay ==> s.readySet) && HoldsUse(s.threads[t])
  {
    hide UseInv, MutexInv, Next, Ready;
    WhoCounts(s, t, op);
    assert Fits(s, t, s.threads[t]);
  }

  /** The mutex goes once, after init_done let it go, with no waiter left. */
  lemma DestroysWhenFree(s: State, t: Tid, op: Op)
    requires Inv(s) && t in s.threads && Next(s, t, op).destroyed != s.destroyed
    ensures s.destroyed == 0 && Next(s, t, op).destroyed == 1
    ensures s.twoWay && s.unlocked && s.lock.None?
    ensures forall u :: u in s.threads ==> !Is(Waiting, s.threads[u])
  {
    hide Count, UseInv, ReadyInv, Next;
    WhoCounts(s, t, op);
    assert Fits(s, t, s.threads[t]);
    HasOne(s.threads, Destroying, t);
    forall u | u in s.threads ensures !Is(Waiting, s.threads[u]) {
      if Is(Waiting, s.threads[u]) { HasOne(s.threads, Waiting, u); }
    }
  }

  // A waiter is only ever held up by init_done or by a thread about to unlock.
  lemma WaitsForOneWhoMoves(s: State, t: Tid)
    requires Inv(s) && t in s.threads && s.threads[t].GLock? && s.lock.Some?
    ensures s.lock.value in s.threads
    ensures var h := s.threads[s.lock.value];
            h.GUnlock? || (s.lock.value == s.creator && InInit(h) && !s.unlocked)
  {
    hide Count, Users, ClosedBits, UseInv;
    assert Fits(s, t, s.threads[t]);
    assert Fits(s, s.creator, s.threads[s.creator]);
    if !s.unlocked && s.initOver { assert false; }
  }

  lemma NotifiedOnce(s: State)
    requires Inv(s)
    ensures |s.notified| <= 1
    ensures s.notified != [] ==>
              && s.initOver && Closed(s.status)
              && (forall t :: t in s.threads ==> !HoldsUse(s.threads[t]))
              && ClosedBits(s.status) == PointBit(Other(s.notified[0])) / 2
  {
    hide Count, Users, ClosedBits, MutexInv, ReadyInv, HoldsUse;
    if s.notified != [] {
      forall t | t in s.threads ensures !HoldsUse(s.threads[t]) {
        if HoldsUse(s.threads[t]) { HasOne(s.threads, Using, t); }
      }
      InitOver(s);
    }
  }

  lemma InitOver(s: State)
    requires ThreadsInv(s) && !HoldsUse(s.threads[s.creator])
    ensures s.initOver
  {
    assert Fits(s, s.creator, s.threads[s.creator]);
  }

  // When every thread has finished, nothing is still owed.
  lemma Quiet(s: State)
    requires Inv(s) && forall t :: t in s.threads ==> s.threads[t].Idle?
    ensures |s.notified| == One(Closed(s.status)) && s.destroyed == One(s.twoWay)
    ensures Users(s.status) == 0
  {
    forall c ensures Count(s.threads, c) == 0 {
      NoneCounts(s.threads, (pc: Pc) => Is(c, pc));
    }
    hide Count, ClosedBits;
    InitOver(s);
  }

  /**
    pipe_seq.txt, lines 3 to 8 and 10, for every schedule of every pipe: the close notification is given
    at most once, to the endpoint that did not close, with no user left and init_done
    over; references are taken only after a successful init_done; the mutex is
    destroyed at most once; and a pipe all of whose threads are done has told its
    close exactly once if it is closed, and destroyed its mutex exactly once if it had one.
   */
  lemma EveryRun(s0: State, schedule: seq<Move>)
    requires Init(s0)
    ensures var s := Run(s0, schedule);
            && |s.notified| <= 1
            && (s.notified != [] ==> s.initOver && ClosedBits(s.status) == PointBit(Other(s.notified[0])) / 2)
            && (s.notified != [] ==> forall t :: t in s.threads ==> !HoldsUse(s.threads[t]))
            && (s.taken > 0 && s.twoWay ==> s.readySet)
            && s.destroyed <= 1
            && (s.destroyed == 1 ==> s.unlocked && forall t :: t in s.threads ==> !Is(Waiting, s.threads[t]))
            && ((forall t :: t in s.threads ==> s.threads[t].Idle?) ==>
                  |s.notified| == One(Closed(s.status)) && s.destroyed == One(s.twoWay))
  {
    hide Run, HoldsUse, ClosedBits, UseInv, Count, Users;
    InitHolds(s0);
    RunKeeps(s0, schedule);
    var s := Run(s0, schedule);
    NotifiedOnce(s);
    if s.destroyed == 1 {
      forall t | t in s.threads ensures !Is(Waiting, s.threads[t]) {
        if Is(Waiting, s.threads[t]) { HasOne(s.threads, Waiting, t); }
      }
    }
    if forall t :: t in s.threads ==> s.threads[t].Idle? { Quiet(s); }
  }

  // ---------- A step is one thread's ----------

  ghost predicate OnlyMoves(m: map<Tid, Pc>, m2: map<Tid, Pc>, t: Tid) {
    m2.Keys == m.Keys && forall u :: u in m && u != t ==> m2[u] == m[u]
  }

  lemma GoMoves(s: State, t: Tid)
    requires t in s.threads
    ensures forall pc :: OnlyMoves(s.threads, Go(s, t, pc).threads, t)
    ensures OnlyMoves(s.threads, s.threads, t)
  {}

  lemma GetMoves(s: State, t: Tid, pc: Pc)
    requires t in s.threads
    ensures OnlyMoves(s.threads, StepGet(s, t, pc).threads, t)
  {
    hide Go, OnlyMoves, Ready, ClosedBits, UNIT;
    GoMoves(s, t);
  }

  lemma InitMoves(s: State, t: Tid, pc: Pc, op: Op)
    requires t in s.threads
    ensures OnlyMoves(s.threads, StepInit(s, t, pc, op).threads, t)
  {
    hide Go, OnlyMoves, Ready, ClosedBits, UNIT, WithReady;
    GoMoves(s, t);
  }

  lemma CloseMoves(s: State, t: Tid, pc: Pc)
    requires t in s.threads
    ensures OnlyMoves(s.threads, StepClose(s, t, pc).threads, t)
  {
    hide Go, OnlyMoves, ClosedBits, UNIT, AfterClose, PointBit;
    GoMoves(s, t);
  }

  lemma NextMoves(s: State, t: Tid, op: Op)
    requires t in s.threads
    ensures OnlyMoves(s.threads, Next(s, t, op).threads, t)
  {
    hide Go, OnlyMoves, StepGet, StepInit, StepClose, ClosedBits;
    var pc := s.threads[t];
    GoMoves(s, t);
    GetMoves(s, t, pc);
    InitMoves(s, t, pc, op);
    CloseMoves(s, t, pc);
  }
}
