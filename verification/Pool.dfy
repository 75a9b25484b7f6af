/**
  The thread pool of moon_pthread_pool.c: callers of put_task and worker threads
  around one ring.

  Every critical section on process_mutex, every round of a ring call and every
  thread creation is one step, so a run is any interleaving of them.  The ring is its
  stored bytes, and a task is the bytes of a process_task_s: callers write it and
  workers read it as `Ring.WriteResult` and `Ring.ReadResult` say.  A worker's read
  may time out whatever the ring holds.  Thread creation succeeds.
 */
module Pool {

  import opened Bytes
  import opened Crowd
  import opened Ring

  type Task = seq<Byte>

  datatype Pc =
    | Unborn | Gone
      // a worker: in ring_read, running a task, about to decide whether to quit
    | Reading | Running(task: Task) | TimedOut
      // a caller: outside, with a thread to create, with a task to write, with a refused task
    | Outside | Creating(task: Task) | Writing(task: Task) | Refused

  datatype Op = Put(task: Task) | Child(u: Tid) | TimeOut | Go

  datatype State = State(
    processMax: nat,
    idleMax: nat,
    size: nat,             // of a task, in bytes
    processNum: int,
    taskNum: int,
    stored: seq<Byte>,     // in the ring
    threads: map<Tid, Pc>,
    // What has happened so far.
    accepted: seq<Task>,   // by put_task, in order
    dequeued: seq<Task>)   // by workers, in order

  // get_pthreadpool_instance makes the ring for ten tasks per thread.
  function Room(processMax: nat, size: nat): nat { processMax * 10 * size }

  predicate Works(pc: Pc) { pc.Reading? || pc.Running? || pc.TimedOut? || pc.Creating? }
  predicate Busy(pc: Pc) { pc.Running? || pc.Creating? || pc.Writing? || pc.Refused? }

  ghost function Workers(s: State): nat { Count(s.threads, Works) }

  // After process_pool_start.
  ghost predicate Init(s: State) {
    && 1 <= s.idleMax <= s.processMax && s.size > 0
    && s.processNum == s.idleMax == Workers(s)
    && s.taskNum == 0 && s.stored == [] && s.accepted == [] && s.dequeued == []
    && (forall t :: t in s.threads ==> s.threads[t].Reading? || s.threads[t].Unborn? || s.threads[t].Outside?)
  }

  function At(s: State, t: Tid, pc: Pc): State { s.(threads := s.threads[t := pc]) }

  // One round of ring_write with RING_NOWAIT | RING_MSGMODE.
  function WriteTask(s: State, t: Tid, task: Task): State {
    if task == [] || |s.stored| > Room(s.processMax, s.size) then At(s, t, Refused)
    else
      var (w, all, a) := WriteResult(Room(s.processMax, s.size), s.stored, false, Writer(task, true, false, true, 0), false);
      if a == Returns(s.size) then At(s, t, Outside).(stored := all, accepted := s.accepted + [task])
      else At(s, t, Refused).(stored := all)
  }

  // One round of ring_read with RING_MSGMODE | RING_TIMEOUT.
  function ReadTask(s: State, t: Tid): State {
    if s.size == 0 then s
    else
      var (r, rest, a) := ReadResult(s.stored, false, Reader(s.size, true, false, false, []), false);
      if a == Returns(s.size) then At(s, t, Running(r.got)).(stored := rest, dequeued := s.dequeued + [r.got])
      else s.(stored := rest)
  }

  // One step of thread `t`; with nothing to do it stays where it is.
  function Next(s: State, t: Tid, op: Op): State
    requires t in s.threads
  {
    match s.threads[t]
    case Outside =>
      if !op.Put? || |op.task| != s.size then s
      else if s.processNum < s.taskNum + 1 && s.processNum < s.processMax then
        At(s, t, Creating(op.task)).(taskNum := s.taskNum + 1, processNum := s.processNum + 1)
      else At(s, t, Writing(op.task)).(taskNum := s.taskNum + 1)
    case Creating(task) =>
      if op.Child? && op.u in s.threads && s.threads[op.u].Unborn? then At(At(s, t, Writing(task)), op.u, Reading)
      else s
    case Writing(task) => WriteTask(s, t, task)
    case Refused => At(s, t, Outside).(taskNum := s.taskNum - 1)
    case Reading => if op.TimeOut? then At(s, t, TimedOut) else ReadTask(s, t)
    case Running(_) => At(s, t, Reading).(taskNum := s.taskNum - 1)
    case TimedOut =>
      if s.processNum > s.taskNum + s.idleMax then At(s, t, Gone).(processNum := s.processNum - 1)
      else At(s, t, Reading)
    case Unborn => s
    case Gone => s
  }

  // ---------- The invariant ----------

  // The tasks accepted and not yet dequeued.
  ghost function Queue(s: State): seq<Task>
    requires |s.dequeued| <= |s.accepted|
  {
    s.accepted[|s.dequeued|..]
  }

  // Workers have taken the first tasks accepted, whole and in order, and the ring holds the bytes of the others.
  ghost predicate QueueInv(s: State) {
    && s.size > 0 && |s.dequeued| <= |s.accepted|
    && s.dequeued == s.accepted[..|s.dequeued|]
    && AllSized(s.accepted, s.size)
    && s.stored == Flat(Queue(s)) && |s.stored| <= Room(s.processMax, s.size)
    && (forall t :: t in s.threads && (s.threads[t].Writing? || s.threads[t].Creating?) ==> |s.threads[t].task| == s.size)
  }

  ghost predicate CountInv(s: State) {
    && 1 <= s.idleMax <= s.processMax
    && s.processNum == Workers(s)
    && s.taskNum == |s.accepted| - |s.dequeued| + Count(s.threads, Busy)
    && s.idleMax <= s.processNum <= s.processMax
    && (s.taskNum <= s.processNum || s.processNum == s.processMax)
  }

  ghost predicate Inv(s: State) { QueueInv(s) && CountInv(s) }

  lemma Counted(s: State, s2: State, t: Tid, pc: Pc)
    requires t in s.threads && s2.threads == s.threads[t := pc]
    ensures Count(s2.threads, Works) == Count(s.threads, Works) - One(Works(s.threads[t])) + One(Works(pc))
    ensures Count(s2.threads, Busy) == Count(s.threads, Busy) - One(Busy(s.threads[t])) + One(Busy(pc))
  {
    CountStep(s.threads, t, pc, Works);
    CountStep(s.threads, t, pc, Busy);
  }

  // ---------- What the ring calls do ----------

  /** put_task's write goes through, whole, if and only if fewer than ten tasks per thread are queued. */
  lemma WriteTaskIs(s: State, t: Tid, task: Task)
    requires QueueInv(s) && |task| == s.size
    ensures var s2 := WriteTask(s, t, task);
            if |Queue(s)| < s.processMax * 10
            then s2 == At(s, t, Outside).(stored := s.stored + task, accepted := s.accepted + [task])
            else s2 == At(s, t, Refused)
    ensures |Queue(s)| < s.processMax * 10 ==> |s.stored| + |task| <= Room(s.processMax, s.size)
  {
    QueueFits(s);
    hide Room, QueueInv, Queue;
    assert task[0..|task|] == task && task[0..0] == [];
    assert s.stored + [] == s.stored;
  }

  lemma QueueFits(s: State)
    requires QueueInv(s)
    ensures |Queue(s)| < s.processMax * 10 <==> |s.stored| + s.size <= Room(s.processMax, s.size)
    ensures |s.stored| <= Room(s.processMax, s.size) && s.size > 0
  {
    FlatLength(Queue(s), s.size);
    RoomFor(|Queue(s)|, s.size, s.processMax * 10);
  }

  lemma RoomFor(n: nat, size: nat, cap: nat)
    requires size > 0
    ensures n < cap <==> n * size + size <= cap * size
  {
    if n < cap {
      assert cap == (n + 1) + (cap - n - 1);
      assert cap * size == (n + 1) * size + (cap - n - 1) * size;
    } else {
      assert n * size == cap * size + (n - cap) * size;
    }
  }

  /** A worker's read takes the oldest queued task, whole, or nothing if there is none. */
  lemma ReadTaskIs(s: State, t: Tid)
    requires QueueInv(s)
    ensures var s2 := ReadTask(s, t);
            if Queue(s) == [] then s2 == s
            else s2 == At(s, t, Running(Queue(s)[0])).(stored := Flat(Queue(s)[1..]), dequeued := s.dequeued + [Queue(s)[0]])
  {
    var n := Amount(s.size, |s.stored|, true);
    assert s.stored == s.stored[..n] + s.stored[n..];
    ReadsWhole(Queue(s), s.size, s.stored[..n], s.stored[n..]);
    assert [] + s.stored[..n] == s.stored[..n];
    FlatLength(Queue(s), s.size);
    if Queue(s) != [] { assert Queue(s)[0] in Queue(s) && Queue(s)[0] in s.accepted; }
    hide Flat;
  }

  // ---------- Every step keeps the invariant ----------

  lemma PutQueue(s: State, s2: State, task: Task)
    requires QueueInv(s) && |task| == s.size && |s.stored| + |task| <= Room(s.processMax, s.size)
    requires s2.size == s.size && s2.processMax == s.processMax && s2.dequeued == s.dequeued
    requires s2.accepted == s.accepted + [task] && s2.stored == s.stored + task
    requires forall t :: t in s2.threads && (s2.threads[t].Writing? || s2.threads[t].Creating?) ==> |s2.threads[t].task| == s2.size
    ensures QueueInv(s2)
  {
    assert Queue(s2) == Queue(s) + [task];
    FlatAppend(Queue(s), task);
    hide Flat, Room;
  }

  lemma TakeQueue(s: State, s2: State)
    requires QueueInv(s) && Queue(s) != []
    requires s2.size == s.size && s2.processMax == s.processMax && s2.accepted == s.accepted
    requires s2.dequeued == s.dequeued + [Queue(s)[0]] && s2.stored == Flat(Queue(s)[1..])
    requires forall t :: t in s2.threads && (s2.threads[t].Writing? || s2.threads[t].Creating?) ==> |s2.threads[t].task| == s2.size
    ensures QueueInv(s2)
  {
    assert Queue(s2) == Queue(s)[1..];
    assert s.stored == Queue(s)[0] + s2.stored;
    hide Flat, Room;
  }

  lemma WriterKeeps(s: State, t: Tid, op: Op)
    requires Inv(s) && t in s.threads && s.threads[t].Writing?
    ensures Inv(Next(s, t, op))
  {
    var task := s.threads[t].task;
    var s2 := Next(s, t, op);
    WriteTaskIs(s, t, task);
    Counted(s, s2, t, s2.threads[t]);
    if |Queue(s)| < s.processMax * 10 { PutQueue(s, s2, task); }
    hide Count, Flat, Room, WriteTask;
  }

  lemma ReaderKeeps(s: State, t: Tid, op: Op)
    requires Inv(s) && t in s.threads && s.threads[t].Reading? && !op.TimeOut?
    ensures Inv(Next(s, t, op))
  {
    var s2 := Next(s, t, op);
    ReadTaskIs(s, t);
    if Queue(s) != [] {
      Counted(s, s2, t, s2.threads[t]);
      TakeQueue(s, s2);
    }
    hide Count, Flat, Room, ReadTask;
  }

  lemma CreatorKeeps(s: State, t: Tid, op: Op)
    requires Inv(s) && t in s.threads && s.threads[t].Creating?
    ensures Inv(Next(s, t, op))
  {
    hide Count, Flat, Room;
    var s2 := Next(s, t, op);
    if s2 != s {
      var s1 := At(s, t, Writing(s.threads[t].task));
      Counted(s, s1, t, s1.threads[t]);
      Counted(s1, s2, op.u, Reading);
    }
  }

  // The steps that leave the ring alone.
  lemma OtherKeeps(s: State, t: Tid, op: Op)
    requires Inv(s) && t in s.threads
    requires var pc := s.threads[t]; !pc.Writing? && !pc.Creating? && (pc.Reading? ==> op.TimeOut?)
    ensures Inv(Next(s, t, op))
  {
    hide Count, Flat, Room;
    var s2 := Next(s, t, op);
    if s2 != s { Counted(s, s2, t, s2.threads[t]); }
  }

  lemma NextKeeps(s: State, t: Tid, op: Op)
    requires Inv(s) && t in s.threads
    ensures Inv(Next(s, t, op))
  {
    hide Inv, Next;
    match s.threads[t]
    case Creating(_) => CreatorKeeps(s, t, op);
    case Writing(_) => WriterKeeps(s, t, op);
    case Reading => if op.TimeOut? { OtherKeeps(s, t, op); } else { ReaderKeeps(s, t, op); }
    case _ => OtherKeeps(s, t, op);
  }

  // ---------- What each call does by itself ----------

  /**
    A whole put_task: a thread is created exactly when all are taken and process_max is not
    reached; its task is queued, last, exactly when fewer than ten per thread are, and
    otherwise it is not counted either.
   */
  lemma PutAlone(s: State, t: Tid, task: Task, u: Tid, op: Op)
    requires Inv(s) && t in s.threads && s.threads[t].Outside? && |task| == s.size
    requires u in s.threads && s.threads[u].Unborn?
    ensures var more := s.processNum <= s.taskNum && s.processNum < s.processMax;
            var room := |Queue(s)| < s.processMax * 10;
            var s1 := Next(s, t, Put(task));
            var s2 := if more then Next(s1, t, Child(u)) else s1;
            t in s2.threads && var s3 := Next(s2, t, op);
                            t in s3.threads && var s4 := if room then s3 else Next(s3, t, op);
                                            && s4 == s.(threads := if more then s.threads[u := Reading] else s.threads,
                                                     processNum := s.processNum + One(more),
                                                     taskNum := s.taskNum + One(room),
                                                     stored := s.stored + (if room then task else []),
                                                     accepted := s.accepted + (if room then [task] else []))
  {
    hide Room, Next, Count, Flat, CountInv, Queue, QueueInv;
    var more := s.processNum <= s.taskNum && s.processNum < s.processMax;
    CountsTask(s, t, task, u);
    var s1 := Next(s, t, Put(task));
    var s2 := if more then Next(s1, t, Child(u)) else s1;
    SameQueue(s, s2, task);
    WriteAlone(s2, t, task, op);
    assert (if more then s.threads[u := Reading] else s.threads)[t := Outside] ==
           if more then s.threads[u := Reading] else s.threads;
  }

  lemma WriteAlone(s: State, t: Tid, task: Task, op: Op)
    requires QueueInv(s) && t in s.threads && s.threads[t] == Writing(task) && |task| == s.size
    ensures var s3 := Next(s, t, op);
            t in s3.threads &&
            if |Queue(s)| < s.processMax * 10
            then s3 == At(s, t, Outside).(stored := s.stored + task, accepted := s.accepted + [task])
            else Next(s3, t, op) == At(s, t, Outside).(taskNum := s.taskNum - 1)
  {
    WriteTaskIs(s, t, task);
    hide Room, WriteTask, Count, Flat, Queue;
    assert s.threads[t := Refused][t := Outside] == s.threads[t := Outside];
  }

  // Up to the write: task_num counts one more, and a thread is made if all are taken.
  lemma CountsTask(s: State, t: Tid, task: Task, u: Tid)
    requires t in s.threads && s.threads[t].Outside? && |task| == s.size
    requires u in s.threads && s.threads[u].Unborn?
    ensures t in Next(s, t, Put(task)).threads
    ensures var more := s.processNum <= s.taskNum && s.processNum < s.processMax;
            var threads: map<Tid, Pc> := if more then s.threads[u := Reading] else s.threads;
            var s1 := Next(s, t, Put(task));
            (if more then Next(s1, t, Child(u)) else s1) ==
            s.(threads := threads[t := Writing(task)], taskNum := s.taskNum + 1, processNum := s.processNum + One(more))
  {
    hide Count, Room;
    assert s.threads[t := Creating(task)][t := Writing(task)][u := Reading] == s.threads[u := Reading][t := Writing(task)];
  }

  lemma SameQueue(s: State, s2: State, task: Task)
    requires QueueInv(s) && |task| == s.size
    requires s2.size == s.size && s2.processMax == s.processMax && s2.stored == s.stored
    requires s2.accepted == s.accepted && s2.dequeued == s.dequeued
    requires forall t :: t in s2.threads ==> (t in s.threads && s2.threads[t] == s.threads[t]) || s2.threads[t].Reading? || s2.threads[t] == Writing(task)
    ensures QueueInv(s2) && Queue(s2) == Queue(s)
  {
    hide Flat, Room;
  }

  /** A worker takes the oldest task, runs it and counts it off. */
  lemma ServeAlone(s: State, t: Tid, op: Op)
    requires Inv(s) && t in s.threads && s.threads[t].Reading? && Queue(s) != []
    ensures var s1 := Next(s, t, Go);
            t in s1.threads && s1.threads[t] == Running(Queue(s)[0])
            && Next(s1, t, op) ==
               s.(dequeued := s.dequeued + [Queue(s)[0]], stored := Flat(Queue(s)[1..]), taskNum := s.taskNum - 1)
  {
    hide ReadTask, Count, Flat, Room;
    ReadTaskIs(s, t);
    assert s.threads[t := Running(Queue(s)[0])][t := Reading] == s.threads;
  }

  /** A worker whose read has timed out ends if and only if process_num exceeds task_num + idle_max. */
  lemma TimeOutAlone(s: State, t: Tid, op: Op)
    requires t in s.threads && s.threads[t].Reading?
    ensures var s1 := Next(s, t, TimeOut);
            t in s1.threads
            && Next(s1, t, op) ==
               if s.processNum > s.taskNum + s.idleMax
               then s.(threads := s.threads[t := Gone], processNum := s.processNum - 1)
               else s
  {
    assert s.threads[t := TimedOut][t := Reading] == s.threads;
    assert s.threads[t := TimedOut][t := Gone] == s.threads[t := Gone];
  }

  // ---------- Whole runs ----------

  datatype Move = Move(t: Tid, op: Op)

  function Run(s: State, schedule: seq<Move>): State
    decreases schedule
  {
    if schedule == [] then s
    else
      var m := schedule[0];
      Run(if m.t in s.threads then Next(s, m.t, m.op) else s, schedule[1..])
  }

  lemma SameLimits(s: State, t: Tid, op: Op)
    requires t in s.threads
    ensures Next(s, t, op).idleMax == s.idleMax && Next(s, t, op).processMax == s.processMax
  {}

  lemma {:induction false} RunKeeps(s: State, schedule: seq<Move>)
    requires Inv(s)
    ensures Inv(Run(s, schedule))
    ensures Run(s, schedule).idleMax == s.idleMax && Run(s, schedule).processMax == s.processMax
    decreases schedule
  {
    hide Inv, Next;
    if schedule != [] {
      var m := schedule[0];
      if m.t in s.threads { NextKeeps(s, m.t, m.op); SameLimits(s, m.t, m.op); }
      RunKeeps(if m.t in s.threads then Next(s, m.t, m.op) else s, schedule[1..]);
    }
  }

  function Min(a: int, b: int): int { if a < b then a else b }

  /**
    In every run process_num stays between min(task_num, process_max) and process_max, and
    never falls below idle_max; the tasks dequeued are the first ones accepted, whole and in order, and the ring holds
    the bytes of the others and nothing else; and while one is queued there is a worker or
    one being created.
   */
  lemma EveryRun(s0: State, schedule: seq<Move>)
    requires Init(s0)
    ensures var s := Run(s0, schedule);
            && Min(s.taskNum, s0.processMax) <= s.processNum <= s0.processMax
            && s0.idleMax <= s.processNum
            && |s.dequeued| <= |s.accepted| && s.dequeued == s.accepted[..|s.dequeued|]
            && s.stored == Flat(s.accepted[|s.dequeued|..])
            && (s.stored != [] ==> exists t :: t in s.threads && Works(s.threads[t]))
            && s.processNum == Workers(s)
            && s.taskNum == |s.accepted| - |s.dequeued| + Count(s.threads, Busy)
  {
    NoneCounts(s0.threads, Busy);
    assert Inv(s0);
    RunKeeps(s0, schedule);
    var s := Run(s0, schedule);
    hide Run, Next;
    if |s.dequeued| == |s.accepted| { assert Queue(s) == []; }
    if forall t :: t in s.threads ==> !Works(s.threads[t]) { NoneCounts(s.threads, Works); }
  }
}
