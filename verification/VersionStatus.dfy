/**
  The life of a version: set_version_status_old, inc_version_user_num and
  dec_version_user_num of moon_runtime.c.

  Any number of threads share the status word of one version.  Each load and each
  compare-and-swap is a step of its own, so a run is any interleaving of them.  A
  thread that wants a second use while it holds one is two threads here.
 */
module VersionStatus {

  import opened Crowd

  const OLD: int := 1
  const CLOSED: int := 15
  const UNIT: int := 16

  function State4(w: int): int { w % 16 }
  function Users(w: int): int { w / 16 }

  datatype Pc =
    | Idle
    | IncLoad | IncCas(tmp: int)
    | Held
    | DecLoad | DecCas(tmp: int)
    | OldLoad | OldCas(tmp: int)
    | Close     // about to run version_close_func

  datatype Op = Use | Retire

  datatype Version = Version(status: int, threads: map<Tid, Pc>, retired: bool, closes: nat)

  ghost predicate Init(v: Version) {
    v.status == 0 && !v.retired && v.closes == 0 && forall t :: t in v.threads ==> v.threads[t] == Idle
  }

  function Go(v: Version, t: Tid, pc: Pc): Version { v.(threads := v.threads[t := pc]) }

  function Swap(v: Version, t: Tid, tmp: int, w: int, won: Pc, lost: Pc): Version {
    if v.status == tmp then Go(v, t, won).(status := w) else Go(v, t, lost)
  }

  // One atomic operation of thread `t`; an idle thread starts `op`, a holder its release.
  function Next(v: Version, t: Tid, op: Op): Version
    requires t in v.threads
  {
    match v.threads[t]
    case Idle => Go(v, t, if op.Use? then IncLoad else OldLoad)
    case IncLoad => Go(v, t, if State4(v.status) == CLOSED then Idle else IncCas(v.status))
    case IncCas(tmp) => Swap(v, t, tmp, tmp + UNIT, Held, IncLoad)
    case Held => Go(v, t, DecLoad)
    case DecLoad => Go(v, t, DecCas(v.status))
    case DecCas(tmp) =>
      if tmp == OLD + UNIT then Swap(v, t, tmp, CLOSED, Close, DecLoad)
      else Swap(v, t, tmp, tmp - UNIT, if tmp == CLOSED + UNIT then Close else Idle, DecLoad)
    case OldLoad => Go(v, t, if State4(v.status) == 0 then OldCas(v.status) else Idle)
    case OldCas(tmp) =>
      var v2 :=
        if tmp == 0 then Swap(v, t, tmp, CLOSED, Close, OldLoad)
        else Swap(v, t, tmp, tmp + OLD, Idle, OldLoad);
      v2.(retired := v.retired || v.status == tmp)
    case Close => Go(v, t, Idle).(closes := v.closes + 1)
  }

  // ---------- The invariant ----------

  predicate Holds(pc: Pc) { pc.Held? || pc.DecLoad? || pc.DecCas? }
  predicate Closes(pc: Pc) { pc.Close? }

  ghost function Holders(v: Version): nat { Count(v.threads, Holds) }
  ghost function Closers(v: Version): nat { Count(v.threads, Closes) }

  predicate Fits(pc: Pc) {
    && (pc.IncCas? ==> State4(pc.tmp) != CLOSED)
    && (pc.OldCas? ==> State4(pc.tmp) == 0)
  }

  ghost predicate Inv(v: Version) {
    && (forall t :: t in v.threads ==> Fits(v.threads[t]))
    && 0 <= v.status
    && (State4(v.status) == 0 || State4(v.status) == OLD || v.status == CLOSED)
    && Users(v.status) == Holders(v)
    && (State4(v.status) == OLD ==> Users(v.status) > 0)
    && (v.retired <==> State4(v.status) != 0)
    && v.closes + Closers(v) == One(v.status == CLOSED)
  }

  lemma Counted(v: Version, v2: Version, t: Tid, pc: Pc)
    requires t in v.threads && v2.threads == v.threads[t := pc]
    ensures Holders(v2) == Holders(v) - One(Holds(v.threads[t])) + One(Holds(pc))
    ensures Closers(v2) == Closers(v) - One(Closes(v.threads[t])) + One(Closes(pc))
  {
    CountStep(v.threads, t, pc, Holds);
    CountStep(v.threads, t, pc, Closes);
  }

  lemma DecKeeps(v: Version, t: Tid, op: Op)
    requires Inv(v) && t in v.threads
    requires v.threads[t].DecCas?
    ensures Inv(Next(v, t, op))
  {
    hide Holders, Closers;
    var v2 := Next(v, t, op);
    Counted(v, v2, t, v2.threads[t]);
    assert Fits(v.threads[t]);
    OneCounts(v.threads, t, Holds);
  }

  lemma RetireKeeps(v: Version, t: Tid, op: Op)
    requires Inv(v) && t in v.threads
    requires v.threads[t].OldCas?
    ensures Inv(Next(v, t, op))
  {
    hide Holders, Closers;
    var v2 := Next(v, t, op);
    Counted(v, v2, t, v2.threads[t]);
    assert Fits(v.threads[t]);
  }

  lemma OtherKeeps(v: Version, t: Tid, op: Op)
    requires Inv(v) && t in v.threads
    requires !v.threads[t].DecCas? && !v.threads[t].OldCas?
    ensures Inv(Next(v, t, op))
  {
    hide Holders, Closers;
    var v2 := Next(v, t, op);
    Counted(v, v2, t, v2.threads[t]);
    assert Fits(v.threads[t]);
  }

  lemma NextKeeps(v: Version, t: Tid, op: Op)
    requires Inv(v) && t in v.threads
    ensures Inv(Next(v, t, op))
  {
    hide Inv, Next;
    match v.threads[t]
    case DecCas(_) => DecKeeps(v, t, op);
    case OldCas(_) => RetireKeeps(v, t, op);
    case _ => OtherKeeps(v, t, op);
  }

  // ---------- What each call does by itself ----------

  // `n` steps of thread `t`, and of no other.
  function Alone(v: Version, t: Tid, op: Op, n: nat): (v2: Version)
    requires t in v.threads
    ensures t in v2.threads
    decreases n
  {
    if n == 0 then v else Alone(Next(v, t, op), t, op, n - 1)
  }

  // The thread is in inc_version_user_num, dec_version_user_num or set_version_status_old.
  predicate Busy(pc: Pc) { !pc.Idle? && !pc.Held? }

  // What the call leaves, wherever it is and whatever it has read before.
  function After(v: Version, t: Tid): Version
    requires t in v.threads
  {
    match v.threads[t]
    case IncLoad => Used(v, t)
    case IncCas(_) => Used(v, t)
    case DecLoad => Dropped(v, t)
    case DecCas(_) => Dropped(v, t)
    case OldLoad => Retired(v, t)
    case OldCas(_) => Retired(v, t)
    case Close => Closed(v, t)
    case _ => v
  }

  function Used(v: Version, t: Tid): Version {
    if v.status == CLOSED then Go(v, t, Idle) else Go(v, t, Held).(status := v.status + UNIT)
  }

  function Closed(v: Version, t: Tid): Version { Go(v, t, Idle).(closes := v.closes + 1) }

  function Dropped(v: Version, t: Tid): Version {
    if v.status == OLD + UNIT then Closed(v, t).(status := CLOSED) else Go(v, t, Idle).(status := v.status - UNIT)
  }

  function Retired(v: Version, t: Tid): Version {
    if v.status == 0 then Closed(v, t).(status := CLOSED, retired := true)
    else if State4(v.status) == 0 then Go(v, t, Idle).(status := v.status + OLD, retired := true)
    else Go(v, t, Idle)
  }

  function Left(v: Version, pc: Pc): nat {
    match pc
    case IncLoad => 3
    case DecLoad => 3
    case OldLoad => 3
    case IncCas(tmp) => if tmp == v.status then 2 else 4
    case DecCas(tmp) => if tmp == v.status then 2 else 4
    case OldCas(tmp) => if tmp == v.status then 2 else 4
    case Close => 1
    case _ => 0
  }

  // The step keeps what is foretold and comes nearer to it.
  ghost predicate Nears(v: Version, t: Tid, v2: Version)
    requires t in v.threads
  {
    t in v2.threads && After(v2, t) == After(v, t) && Left(v2, v2.threads[t]) < Left(v, v.threads[t])
  }

  lemma GoTwice(v: Version, t: Tid, pc: Pc, end: Pc)
    requires t in v.threads
    ensures Go(v, t, pc).threads[t := end] == v.threads[t := end]
  {}

  lemma IncNears(v: Version, t: Tid, op: Op)
    requires Inv(v) && t in v.threads && (v.threads[t].IncLoad? || v.threads[t].IncCas?)
    ensures Nears(v, t, Next(v, t, op))
  {
    hide Holders, Closers;
    assert Fits(v.threads[t]);
    var pc := Next(v, t, op).threads[t];
    GoTwice(v, t, pc, Idle);
    GoTwice(v, t, pc, Held);
  }

  lemma DecNears(v: Version, t: Tid, op: Op)
    requires Inv(v) && t in v.threads && (v.threads[t].DecLoad? || v.threads[t].DecCas?)
    ensures Nears(v, t, Next(v, t, op))
  {
    NotClosed(v, t);
    hide Inv;
    GoTwice(v, t, Next(v, t, op).threads[t], Idle);
  }

  lemma OldNears(v: Version, t: Tid, op: Op)
    requires Inv(v) && t in v.threads && (v.threads[t].OldLoad? || v.threads[t].OldCas?)
    ensures Nears(v, t, Next(v, t, op))
  {
    hide Holders, Closers;
    assert Fits(v.threads[t]);
    GoTwice(v, t, Next(v, t, op).threads[t], Idle);
  }

  // A version held by somebody is not closed.
  lemma NotClosed(v: Version, t: Tid)
    requires Inv(v) && t in v.threads && Holds(v.threads[t])
    ensures State4(v.status) != CLOSED && UNIT <= v.status
  {
    hide Closers;
    OneCounts(v.threads, t, Holds);
  }

  lemma {:induction false} CallRuns(v: Version, t: Tid, op: Op) returns (n: nat)
    requires Inv(v) && t in v.threads && Busy(v.threads[t])
    ensures n <= Left(v, v.threads[t]) && Alone(v, t, op, n) == After(v, t)
    decreases Left(v, v.threads[t])
  {
    hide Inv;
    NextKeeps(v, t, op);
    var pc := v.threads[t];
    if pc.IncLoad? || pc.IncCas? {
      IncNears(v, t, op);
    } else if pc.DecLoad? || pc.DecCas? {
      DecNears(v, t, op);
    } else if !pc.Close? {
      OldNears(v, t, op);
    }
    hide Next;
    n := 0;
    if Busy(Next(v, t, op).threads[t]) { n := CallRuns(Next(v, t, op), t, op); }
    n := n + 1;
  }

  /** inc_version_user_num gets a use of every version that is not closed, a retired one included. */
  lemma IncEnds(v: Version, t: Tid) returns (n: nat)
    requires Inv(v) && t in v.threads && v.threads[t].Idle?
    ensures Alone(v, t, Use, n) ==
            if State4(v.status) == CLOSED then v else v.(threads := v.threads[t := Held], status := v.status + UNIT)
    ensures State4(v.status + UNIT) == State4(v.status) && Users(v.status + UNIT) == Users(v.status) + 1
  {
    hide Holders, Closers, Next;
    Starts(v, t, Use);
    n := CallRuns(Next(v, t, Use), t, Use);
    n := n + 1;
    assert v.threads[t := IncLoad][t := Idle] == v.threads;
    assert v.threads[t := IncLoad][t := Held] == v.threads[t := Held];
  }

  lemma Starts(v: Version, t: Tid, op: Op)
    requires Inv(v) && t in v.threads && v.threads[t].Idle?
    ensures Next(v, t, op) == Go(v, t, if op.Use? then IncLoad else OldLoad) && Inv(Next(v, t, op))
  {
    NextKeeps(v, t, op);
    hide Inv;
  }

  /** dec_version_user_num drops the use, and closes the version if it was the last of a retired one. */
  lemma DecEnds(v: Version, t: Tid, op: Op) returns (n: nat)
    requires Inv(v) && t in v.threads && v.threads[t].Held?
    ensures var v2 := Alone(v, t, op, n);
            && v2.threads == v.threads[t := Idle] && v2.retired == v.retired
            && Users(v2.status) == Users(v.status) - 1
            && (if v.retired && Users(v.status) == 1 then v2.status == CLOSED && v2.closes == v.closes + 1
                else State4(v2.status) == State4(v.status) && v2.closes == v.closes)
  {
    NotClosed(v, t);
    hide Holders, Closers, Next;
    NextKeeps(v, t, op);
    Releases(v, t, op);
    n := CallRuns(Next(v, t, op), t, op);
    n := n + 1;
    assert v.threads[t := DecLoad][t := Idle] == v.threads[t := Idle];
  }

  lemma Releases(v: Version, t: Tid, op: Op)
    requires t in v.threads && v.threads[t].Held?
    ensures Next(v, t, op) == Go(v, t, DecLoad)
  {}

  /** set_version_status_old retires a normal version, and closes it if nobody holds it. */
  lemma OldEnds(v: Version, t: Tid) returns (n: nat)
    requires Inv(v) && t in v.threads && v.threads[t].Idle?
    ensures var v2 := Alone(v, t, Retire, n);
            && v2.threads == v.threads && v2.retired && Users(v2.status) == Users(v.status)
            && (if v.retired then v2.status == v.status && v2.closes == v.closes
                else if Users(v.status) == 0 then v2.status == CLOSED && v2.closes == v.closes + 1
                else State4(v2.status) == OLD && v2.closes == v.closes)
  {
    hide Holders, Closers, Next;
    Starts(v, t, Retire);
    n := CallRuns(Next(v, t, Retire), t, Retire);
    n := n + 1;
    assert v.threads[t := OldLoad][t := Idle] == v.threads;
  }

  // ---------- Whole runs ----------

  datatype Move = Move(t: Tid, op: Op)

  function Run(v: Version, schedule: seq<Move>): Version
    decreases schedule
  {
    if schedule == [] then v
    else
      var m := schedule[0];
      Run(if m.t in v.threads then Next(v, m.t, m.op) else v, schedule[1..])
  }

  lemma InitHolds(v: Version)
    requires Init(v)
    ensures Inv(v)
  {
    NoneCounts(v.threads, Holds);
    NoneCounts(v.threads, Closes);
  }

  lemma {:induction false} RunKeeps(v: Version, schedule: seq<Move>)
    requires Inv(v)
    ensures Inv(Run(v, schedule))
    decreases schedule
  {
    hide Inv, Next;
    if schedule != [] {
      var m := schedule[0];
      if m.t in v.threads { NextKeeps(v, m.t, m.op); }
      RunKeeps(if m.t in v.threads then Next(v, m.t, m.op) else v, schedule[1..]);
    }
  }

  /** version_close_func runs only on a retired version no thread holds, and not twice. */
  lemma ClosesOnce(v: Version, t: Tid, op: Op)
    requires Inv(v) && t in v.threads && Next(v, t, op).closes != v.closes
    ensures v.closes == 0 && Next(v, t, op).closes == 1
    ensures v.retired && forall u :: u in v.threads ==> !Holds(v.threads[u])
  {
    hide Holders;
    OneCounts(v.threads, t, Closes);
    NoHolder(v);
  }

  lemma NoHolder(v: Version)
    requires Inv(v) && v.status == CLOSED
    ensures forall u :: u in v.threads ==> !Holds(v.threads[u])
  {
    hide Closers;
    forall u | u in v.threads ensures !Holds(v.threads[u]) {
      if Holds(v.threads[u]) { OneCounts(v.threads, u, Holds); }
    }
  }

  // Once closed a version stays so: inc_version_user_num fails from then on.
  lemma {:induction false} StaysClosed(v: Version, schedule: seq<Move>)
    requires Inv(v) && v.status == CLOSED
    ensures Run(v, schedule).status == CLOSED
    decreases schedule
  {
    hide Holders, Closers;
    if schedule != [] {
      var m := schedule[0];
      if m.t in v.threads {
        NoHolder(v);
        assert Fits(v.threads[m.t]);
        NextKeeps(v, m.t, m.op);
      }
      StaysClosed(if m.t in v.threads then Next(v, m.t, m.op) else v, schedule[1..]);
    }
  }

  /**
    For every interleaving: the close function has run at most once, and if it has,
    the version is retired and nobody holds it; an old version is held; and when all
    calls have returned it has run exactly once if the version was retired.
   */
  lemma EveryRun(v0: Version, schedule: seq<Move>)
    requires Init(v0)
    ensures var v := Run(v0, schedule);
            && v.closes <= 1
            && (v.closes == 1 ==> v.retired && forall t :: t in v.threads ==> !Holds(v.threads[t]))
            && (State4(v.status) == OLD ==> exists t :: t in v.threads && Holds(v.threads[t]))
            && (v.status == CLOSED ==> forall t :: t in v.threads ==> !Holds(v.threads[t]))
            && ((forall t :: t in v.threads ==> v.threads[t].Idle?) ==> v.closes == One(v.retired))
  {
    hide Run;
    InitHolds(v0);
    RunKeeps(v0, schedule);
    var v := Run(v0, schedule);
    if v.status == CLOSED { NoHolder(v); }
    if forall t :: t in v.threads ==> !Holds(v.threads[t]) { NoneCounts(v.threads, Holds); }
    if forall t :: t in v.threads ==> v.threads[t].Idle? { NoneCounts(v.threads, Closes); }
  }
}
