/**
  The DNS cache of moon_dns.c as a state machine: what each critical section does
  to the domains, the name table, the list of cached domains (oldest first) and
  the waiting queries.

  A domain is known by an allocation number and a query by its pipe.  `owed` is
  how many answers the resolver has still to give for a domain: two from the
  moment a lookup is started, whether or not the resolver has been told yet.
  Times are microseconds.
 */
module Dns {

  import opened Options
  import opened Lists

  type Did = nat
  type Qid = nat

  datatype Addr = Addr(family: int, bytes: seq<nat>)
  datatype Addrs = Addrs(elems: seq<Addr>, tv: int)

  const QUERYING: int := 1
  const QUERY1: int := 2
  const QUERY2: int := 3
  const NEW_QUERYING: int := 4
  const NEW_QUERY1: int := 5
  const CACHE: nat := 1024
  const TIMEOUT: int := 3600 * 1000000

  datatype Domain = Domain(
    name: string,
    status: int,
    addrs: Option<Addrs>,
    first: Option<Addrs>,   // p_new_addrs, the first of the two answers
    queries: seq<Qid>)

  // `refs` is the references held on the pipe, `left` how often the query left a list, `told` what it was given then.
  datatype Query = Query(status: int, domain: Did, refs: int, left: nat, told: Option<Addrs>)

  datatype State = State(
    domains: map<Did, Domain>,
    table: map<string, Did>,
    lru: seq<Did>,
    domainNum: int,
    queries: map<Qid, Query>,
    owed: map<Did, nat>,
    clock: int)

  const Empty: State := State(map[], map[], [], 0, map[], map[], 0)

  // ---------- The invariant ----------

  function Owes(status: int): nat {
    if status == QUERYING || status == NEW_QUERYING then 2
    else if status == QUERY1 || status == NEW_QUERY1 then 1
    else 0
  }

  function Stamp(s: State, d: Did): int {
    if d in s.domains && s.domains[d].addrs.Some? then s.domains[d].addrs.value.tv else 0
  }

  // What a status says about a domain's own fields.
  ghost predicate DomainOk(m: Domain) {
    && 1 <= m.status <= 5
    && (m.status >= QUERY2 ==> m.addrs.Some?)
    && (m.status != QUERY1 && m.status != NEW_QUERY1 ==> m.first.None?)
    && (m.status == QUERY2 ==> m.queries == [])
    && NoDup(m.queries)
  }

  ghost predicate DomainsInv(s: State) { forall d :: d in s.domains ==> DomainOk(s.domains[d]) }

  // The status fixes the answers outstanding, and none is outstanding for a freed domain.
  ghost predicate OwedInv(s: State) {
    && (forall d :: d in s.domains ==> d in s.owed && s.owed[d] == Owes(s.domains[d].status))
    && (forall d :: d in s.owed && d !in s.domains ==> s.owed[d] == 0)
  }

  ghost predicate TableInv(s: State) {
    && (forall d :: d in s.domains ==> s.domains[d].name in s.table && s.table[s.domains[d].name] == d)
    && (forall n :: n in s.table ==> s.table[n] in s.domains && s.domains[s.table[n]].name == n)
  }

  // The list holds exactly the domains with addresses to offer, oldest first.
  ghost predicate LruInv(s: State) {
    && NoDup(s.lru)
    && s.domainNum == |s.lru|
    && (forall d :: d in s.lru <==> d in s.domains && s.domains[d].status >= QUERY2)
  }

  ghost predicate StampInv(s: State) {
    && Sorted(s.lru, d => Stamp(s, d))
    && (forall d :: d in s.lru ==> Stamp(s, d) <= s.clock)
  }

  function Waiting(s: State, d: Did): seq<Qid> { if d in s.domains then s.domains[d].queries else [] }

  // A query waits at most once, in the list of its own domain, and holds its pipe as long as it waits.
  ghost predicate QueryInv(s: State) {
    && (forall q :: q in s.queries ==> QueryOk(s, q, s.queries[q]))
    && (forall d, q :: q in Waiting(s, d) ==> WaitsAt(s, d, q))
  }

  predicate WaitsAt(s: State, d: Did, q: Qid) {
    q in s.queries && s.queries[q].status == 0 && s.queries[q].domain == d
  }

  ghost predicate QueryOk(s: State, q: Qid, w: Query) {
    && (w.status == 0 || w.status == 1)
    && w.refs == 1 - w.status
    && w.left == w.status
    && (w.status == 0 ==> w.told.None? && q in Waiting(s, w.domain))
  }

  ghost predicate Inv(s: State) {
    DomainsInv(s) && OwedInv(s) && TableInv(s) && LruInv(s) && StampInv(s) && QueryInv(s)
  }

  // ---------- The moves the critical sections are made of ----------

  function Put(s: State, d: Did, m: Domain): State { s.(domains := s.domains[d := m]) }

  // hash_search on a new name: a domain in its first lookup.
  function Create(s: State, d: Did, name: string): State {
    Put(s, d, Domain(name, QUERYING, None, None, []))
    .(table := s.table[name := d], owed := s.owed[d := 2])
  }

  // A new lookup for a domain whose addresses stay in use meanwhile.
  function Start(s: State, d: Did): State
    requires d in s.domains
  {
    Put(s, d, s.domains[d].(status := NEW_QUERYING)).(owed := s.owed[d := 2])
  }

  // Out of the list, because of an eviction, an expiry, a cleared cache or an update.
  function Detach(s: State, d: Did): State
    requires d in s.domains
  {
    var m := s.domains[d];
    Put(s, d, m.(status := m.status - QUERY2)).(lru := Cut(s.lru, d), domainNum := s.domainNum - 1)
  }

  function Enqueue(s: State, d: Did, q: Qid): State
    requires d in s.domains
  {
    var m := s.domains[d];
    Put(s, d, m.(queries := [q] + m.queries)).(queries := s.queries[q := Query(0, d, 1, 0, None)])
  }

  function Leave(w: Query, told: Option<Addrs>): Query {
    w.(status := 1, refs := w.refs - 1, left := w.left + 1, told := told)
  }

  // Out of the list of waiting queries: cancel_query.
  function Dequeue(s: State, q: Qid): State
    requires q in s.queries && s.queries[q].domain in s.domains
  {
    var d := s.queries[q].domain;
    var m := s.domains[d];
    Put(s, d, m.(queries := Cut(m.queries, q))).(queries := s.queries[q := Leave(s.queries[q], None)])
  }

  // The first answer of two.
  function First(s: State, d: Did, a: Option<Addrs>): State
    requires d in s.domains
  {
    var m := s.domains[d];
    Put(s, d, m.(status := m.status + 1, first := a)).(owed := s.owed[d := 1])
  }

  // merge_addrs: the first answer, then the second, stamped with the present time.
  function Merge(first: Option<Addrs>, second: Option<Addrs>, now: int): Option<Addrs> {
    match (first, second)
    case (None, None) => None
    case (Some(a), None) => Some(a.(tv := now))
    case (None, Some(b)) => Some(b.(tv := now))
    case (Some(a), Some(b)) => Some(Addrs(a.elems + b.elems, now))
  }

  function Released(queries: map<Qid, Query>, gone: seq<Qid>, told: Option<Addrs>): map<Qid, Query> {
    map q | q in queries :: if q in gone then Leave(queries[q], told) else queries[q]
  }

  // The second answer, with addresses: cached, and every waiting query told.
  function Finish(s: State, d: Did, a: Addrs, now: int): State
    requires d in s.domains
  {
    var m := s.domains[d];
    Put(s, d, m.(status := QUERY2, addrs := Some(a), first := None, queries := []))
    .(lru := s.lru + [d], domainNum := s.domainNum + 1, owed := s.owed[d := 0],
    queries := Released(s.queries, m.queries, Some(a)), clock := now)
  }

  // The second answer, without any: the domain goes.
  function Fail(s: State, d: Did): State
    requires d in s.domains
  {
    var m := s.domains[d];
    s.(domains := s.domains - {d}, table := s.table - {m.name}, owed := s.owed[d := 0],
    queries := Released(s.queries, m.queries, None))
  }

  function Free(s: State, d: Did): State
    requires d in s.domains
  {
    s.(domains := s.domains - {d}, table := s.table - {s.domains[d].name},
    lru := Cut(s.lru, d), domainNum := s.domainNum - 1)
  }

  // Taking a domain off the list to make room or because it is too old.
  function Drop(s: State, d: Did): State
    requires d in s.domains
  {
    if s.domains[d].status == QUERY2 then Free(s, d) else Detach(s, d)
  }

  // ---------- Each of them keeps the invariant ----------

  // Away from domain `d` everything is as it was.
  ghost predicate Near(s: State, s2: State, d: Did) {
    && (forall e :: e != d ==> (e in s2.domains <==> e in s.domains) && (e in s2.lru <==> e in s.lru))
    && (forall e :: e != d ==> (e in s2.owed <==> e in s.owed))
    && (forall e :: e != d && e in s.domains ==> s2.domains[e] == s.domains[e])
    && (forall e :: e != d && e in s.owed ==> s2.owed[e] == s.owed[e])
  }

  // The invariant's demands on `d` alone.
  ghost predicate Sound(s: State, d: Did) {
    if d in s.domains then
      var m := s.domains[d];
      DomainOk(m) && d in s.owed && s.owed[d] == Owes(m.status) && (d in s.lru <==> m.status >= QUERY2)
    else
      (d in s.owed ==> s.owed[d] == 0) && d !in s.lru
  }

  lemma At(s: State, d: Did)
    requires Inv(s)
    ensures Sound(s, d)
    ensures d in s.domains ==> s.domains[d].name in s.table && s.table[s.domains[d].name] == d
  {}

  lemma LocalKeeps(s: State, s2: State, d: Did)
    requires DomainsInv(s) && OwedInv(s) && LruInv(s)
    requires Near(s, s2, d) && Sound(s2, d)
    requires NoDup(s2.lru) && s2.domainNum == |s2.lru|
    ensures DomainsInv(s2) && OwedInv(s2) && LruInv(s2)
  {
    hide NoDup, DomainOk, Owes;
    assert DomainsInv(s2) && OwedInv(s2);
  }

  // The table: kept, with a new name for `d`, or without its name.
  lemma TableKeeps(s: State, s2: State, d: Did)
    requires TableInv(s) && Near(s, s2, d)
    requires d in s.domains && d in s2.domains && s2.domains[d].name == s.domains[d].name && s2.table == s.table
    ensures TableInv(s2)
  {}

  lemma TableGrows(s: State, s2: State, d: Did)
    requires TableInv(s) && Near(s, s2, d)
    requires d !in s.domains && d in s2.domains && s2.domains[d].name !in s.table
    requires s2.table == s.table[s2.domains[d].name := d]
    ensures TableInv(s2)
  {}

  lemma TableShrinks(s: State, s2: State, d: Did)
    requires TableInv(s) && Near(s, s2, d)
    requires d in s.domains && d !in s2.domains && s2.table == s.table - {s.domains[d].name}
    ensures TableInv(s2)
  {}

  lemma QueriesKeep(s: State, s2: State, d: Did)
    requires QueryInv(s) && Near(s, s2, d)
    requires s2.queries == s.queries && Waiting(s2, d) == Waiting(s, d)
    ensures QueryInv(s2)
  {
    assert forall e :: Waiting(s2, e) == Waiting(s, e);
    hide Near, Waiting;
  }

  lemma QueriesReleased(s: State, s2: State, d: Did, told: Option<Addrs>)
    requires QueryInv(s) && Near(s, s2, d)
    requires s2.queries == Released(s.queries, Waiting(s, d), told) && Waiting(s2, d) == []
    ensures QueryInv(s2)
  {
    assert forall e :: e != d ==> Waiting(s2, e) == Waiting(s, e);
    hide Near, Waiting;
    forall e, q | q in Waiting(s2, e) ensures WaitsAt(s2, e, q) { assert WaitsAt(s, e, q); }
  }

  // Stamps follow the addresses.
  lemma SameStamps(s: State, s2: State, d: Did)
    requires LruInv(s) && StampInv(s) && s2.clock >= s.clock
    requires s2.lru == s.lru || s2.lru == Cut(s.lru, d)
    requires forall e :: e in s2.lru ==> Stamp(s2, e) == Stamp(s, e)
    ensures StampInv(s2)
  {
    CutMembers(s.lru, d);
    CutSorted(s.lru, d, e => Stamp(s, e));
    assert Sorted(s2.lru, e => Stamp(s, e));
    forall i, j | 0 <= i < j < |s2.lru| ensures Stamp(s2, s2.lru[i]) <= Stamp(s2, s2.lru[j]) {
      assert s2.lru[i] in s2.lru && s2.lru[j] in s2.lru;
    }
  }

  lemma CreateKeeps(s: State, d: Did, name: string)
    requires Inv(s) && d !in s.owed && name !in s.table
    ensures Inv(Create(s, d, name))
  {
    hide DomainsInv, OwedInv, TableInv, QueryInv, StampInv;
    var s2 := Create(s, d, name);
    At(s, d);
    LocalKeeps(s, s2, d);
    TableGrows(s, s2, d);
    QueriesKeep(s, s2, d);
    SameStamps(s, s2, d);
  }

  lemma StartKeeps(s: State, d: Did)
    requires Inv(s) && d in s.domains && s.domains[d].status == QUERY2
    ensures Inv(Start(s, d))
  {
    hide DomainsInv, OwedInv, TableInv, QueryInv, StampInv;
    var s2 := Start(s, d);
    At(s, d);
    LocalKeeps(s, s2, d);
    TableKeeps(s, s2, d);
    QueriesKeep(s, s2, d);
    SameStamps(s, s2, d);
  }

  lemma DetachKeeps(s: State, d: Did)
    requires Inv(s) && d in s.domains && s.domains[d].status > QUERY2
    ensures Inv(Detach(s, d))
  {
    hide DomainsInv, OwedInv, TableInv, QueryInv, StampInv;
    var s2 := Detach(s, d);
    At(s, d);
    CutMembers(s.lru, d);
    LocalKeeps(s, s2, d);
    TableKeeps(s, s2, d);
    QueriesKeep(s, s2, d);
    SameStamps(s, s2, d);
  }

  lemma FirstKeeps(s: State, d: Did, a: Option<Addrs>)
    requires Inv(s) && d in s.domains && s.owed[d] == 2
    ensures Inv(First(s, d, a))
  {
    hide DomainsInv, OwedInv, TableInv, QueryInv, StampInv;
    var s2 := First(s, d, a);
    At(s, d);
    LocalKeeps(s, s2, d);
    TableKeeps(s, s2, d);
    QueriesKeep(s, s2, d);
    SameStamps(s, s2, d);
  }

  lemma FreeKeeps(s: State, d: Did)
    requires Inv(s) && d in s.domains && s.domains[d].status == QUERY2
    ensures Inv(Free(s, d))
  {
    hide DomainsInv, OwedInv, TableInv, QueryInv, StampInv;
    var s2 := Free(s, d);
    At(s, d);
    CutMembers(s.lru, d);
    LocalKeeps(s, s2, d);
    TableShrinks(s, s2, d);
    QueriesKeep(s, s2, d);
    SameStamps(s, s2, d);
  }

  lemma FailKeeps(s: State, d: Did)
    requires Inv(s) && d in s.domains && s.domains[d].status == QUERY1
    ensures Inv(Fail(s, d))
  {
    hide DomainsInv, OwedInv, TableInv, QueryInv, StampInv;
    var s2 := Fail(s, d);
    At(s, d);
    LocalKeeps(s, s2, d);
    TableShrinks(s, s2, d);
    QueriesReleased(s, s2, d, None);
    SameStamps(s, s2, d);
  }

  lemma QueryJoins(s: State, s2: State, d: Did, q: Qid)
    requires QueryInv(s) && Near(s, s2, d)
    requires q !in s.queries && s2.queries == s.queries[q := Query(0, d, 1, 0, None)]
    requires Waiting(s2, d) == [q] + Waiting(s, d)
    ensures QueryInv(s2)
  {
    assert forall e :: e != d ==> Waiting(s2, e) == Waiting(s, e);
    hide Near, Waiting;
    forall e, r | r in Waiting(s2, e) ensures WaitsAt(s2, e, r) {
      if e != d || r != q { assert WaitsAt(s, e, r); }
    }
  }

  lemma QueryLeaves(s: State, s2: State, d: Did, q: Qid)
    requires QueryInv(s) && Near(s, s2, d) && WaitsAt(s, d, q)
    requires s2.queries == s.queries[q := Leave(s.queries[q], None)]
    requires forall r :: r in Waiting(s2, d) <==> r in Waiting(s, d) && r != q
    ensures QueryInv(s2)
  {
    assert forall e :: e != d ==> Waiting(s2, e) == Waiting(s, e);
    hide Near, Waiting;
    forall e, r | r in Waiting(s2, e) ensures WaitsAt(s2, e, r) { assert WaitsAt(s, e, r); }
  }

  lemma EnqueueKeeps(s: State, d: Did, q: Qid)
    requires Inv(s) && d in s.domains && s.domains[d].status != QUERY2 && q !in s.queries
    ensures Inv(Enqueue(s, d, q))
  {
    assert q !in Waiting(s, d);
    AppendNoDup(s.domains[d].queries, q);
    hide DomainsInv, OwedInv, TableInv, QueryInv, StampInv;
    var s2 := Enqueue(s, d, q);
    At(s, d);
    LocalKeeps(s, s2, d);
    TableKeeps(s, s2, d);
    QueryJoins(s, s2, d, q);
    SameStamps(s, s2, d);
  }

  lemma DequeueKeeps(s: State, d: Did, q: Qid)
    requires Inv(s) && d in s.domains && WaitsAt(s, d, q)
    ensures Inv(Dequeue(s, q))
  {
    hide DomainsInv, OwedInv, TableInv, QueryInv, StampInv;
    var s2 := Dequeue(s, q);
    At(s, d);
    CutMembers(s.domains[d].queries, q);
    LocalKeeps(s, s2, d);
    TableKeeps(s, s2, d);
    QueryLeaves(s, s2, d, q);
    SameStamps(s, s2, d);
  }

  lemma FinishStamps(s: State, d: Did, a: Addrs, now: int)
    requires LruInv(s) && StampInv(s) && d in s.domains && d !in s.lru && a.tv == now >= s.clock
    ensures StampInv(Finish(s, d, a, now))
  {
    var s2 := Finish(s, d, a, now);
    forall e | e in s.lru ensures Stamp(s2, e) == Stamp(s, e) {}
    forall i, j | 0 <= i < j < |s2.lru| ensures Stamp(s2, s2.lru[i]) <= Stamp(s2, s2.lru[j]) {
      assert s.lru[i] in s.lru;
      if j < |s.lru| { assert s.lru[j] in s.lru; }
    }
  }

  lemma FinishKeeps(s: State, d: Did, a: Addrs, now: int)
    requires Inv(s) && d in s.domains && s.domains[d].status == QUERY1 && a.tv == now >= s.clock
    ensures Inv(Finish(s, d, a, now))
  {
    hide DomainsInv, OwedInv, TableInv, QueryInv, StampInv;
    var s2 := Finish(s, d, a, now);
    At(s, d);
    AppendNoDup(s.lru, d);
    LocalKeeps(s, s2, d);
    TableKeeps(s, s2, d);
    QueriesReleased(s, s2, d, Some(a));
    FinishStamps(s, d, a, now);
  }

  lemma DropKeeps(s: State, d: Did)
    requires Inv(s) && d in s.lru
    ensures d in s.domains && Inv(Drop(s, d))
    ensures Drop(s, d).lru == Cut(s.lru, d) && Drop(s, d).clock == s.clock
  {
    At(s, d);
    if s.domains[d].status == QUERY2 { FreeKeeps(s, d); } else { DetachKeeps(s, d); }
  }

  // ---------- The critical sections ----------

  datatype Outcome = Refused | Hit(addrs: Addrs) | Queued(start: bool)

  // Are the cached addresses no newer than the time the caller gives?
  predicate Stale(s: State, d: Did, tv: Option<int>) { tv.None? || Stamp(s, d) <= tv.value }

  function Restarted(s: State, d: Did): State
    requires d in s.domains
  {
    if s.domains[d].status == QUERY2 then Start(s, d) else s
  }

  // Does moon_getaddrinfo wait for a lookup, rather than use the addresses there are?
  predicate Joins(s: State, d: Did, clear: bool, bypass: bool, tv: Option<int>)
    requires d in s.domains
  {
    s.domains[d].status < QUERY2 || ((clear || bypass) && Stale(s, d, tv))
  }

  function Decided(s: State, d: Did, clear: bool, bypass: bool, tv: Option<int>): State
    requires d in s.domains
  {
    if s.domains[d].status < QUERY2 || !Stale(s, d, tv) then s
    else if clear then Detach(Restarted(s, d), d)
    else if bypass then Restarted(s, d)
    else s
  }

  // moon_getaddrinfo on a name; `room` says whether a new domain could be allocated, as `id`.
  function Ask(s: State, q: Qid, name: string, clear: bool, bypass: bool, tv: Option<int>, id: Did, room: bool)
    : (State, Outcome)
    requires TableInv(s)
  {
    if name !in s.table then
      if room then (Enqueue(Create(s, id, name), id, q), Queued(true)) else (s, Refused)
    else
      var d := s.table[name];
      var m := s.domains[d];
      if Joins(s, d, clear, bypass, tv) then
        (Enqueue(Decided(s, d, clear, bypass, tv), d, q), Queued(m.status == QUERY2))
      else if m.addrs.Some? then (s, Hit(m.addrs.value))
      else (s, Refused)
  }

  // cancel_query.
  function Cancel(s: State, q: Qid): State {
    if q in s.queries && s.queries[q].status == 0 && s.queries[q].domain in s.domains then Dequeue(s, q) else s
  }

  // domain_callback.
  function Respond(s: State, d: Did, got: Option<Addrs>, now: int): State
    requires d in s.domains
  {
    var m := s.domains[d];
    if m.status == QUERYING || m.status == NEW_QUERYING then First(s, d, got)
    else
      var s1 := if m.status == NEW_QUERY1 then Detach(s, d) else s;
      match Merge(m.first, got, now)
      case None => Fail(s1, d)
      case Some(a) => Evict(Finish(s1, d, a, now))
  }

  // A refresh ends as the first lookup of a domain just taken off the list does.
  lemma RespondCases(s: State, d: Did, got: Option<Addrs>, now: int)
    requires d in s.domains
    ensures s.domains[d].status == NEW_QUERY1 ==>
              && d in Detach(s, d).domains && Detach(s, d).domains[d].status == QUERY1 && Detach(s, d).clock == s.clock
              && Respond(s, d, got, now) == Respond(Detach(s, d), d, got, now)
    ensures s.domains[d].status == QUERYING || s.domains[d].status == NEW_QUERYING ==>
              Respond(s, d, got, now) == First(s, d, got)
  {
    hide Evict;
  }

  function Evict(s: State): State {
    if s.domainNum > CACHE && s.lru != [] && s.lru[0] in s.domains then Drop(s, s.lru[0]) else s
  }

  // The sweep of dns_task, which stops at the first entry that is not too old.
  ghost function Sweep(s: State, limit: int): State
    requires Inv(s)
    decreases |s.lru|
  {
    if s.lru != [] && Stamp(s, s.lru[0]) <= limit then
      DropKeeps(s, s.lru[0]);
      CutMembers(s.lru, s.lru[0]);
      Sweep(Drop(s, s.lru[0]), limit)
    else s
  }

  ghost predicate CacheInv(s: State) { Inv(s) && |s.lru| <= CACHE }

  // A domain that a request waits for is in a lookup, and the list is no longer than before.
  lemma DecidedKeeps(s: State, d: Did, clear: bool, bypass: bool, tv: Option<int>)
    requires CacheInv(s) && d in s.domains && Joins(s, d, clear, bypass, tv)
    ensures var s2 := Decided(s, d, clear, bypass, tv);
            CacheInv(s2) && d in s2.domains && s2.domains[d].status != QUERY2 && s2.queries == s.queries
  {
    At(s, d);
    if s.domains[d].status >= QUERY2 {
      RestartedKeeps(s, d);
      hide CacheInv, Restarted;
      DetachCaches(Restarted(s, d), d);
    }
  }

  lemma RestartedKeeps(s: State, d: Did)
    requires CacheInv(s) && d in s.domains && s.domains[d].status >= QUERY2
    ensures var s2 := Restarted(s, d);
            CacheInv(s2) && d in s2.domains && s2.domains[d].status > QUERY2 && s2.queries == s.queries
  {
    if s.domains[d].status == QUERY2 { StartKeeps(s, d); }
    hide Inv;
  }

  lemma AskNewKeeps(s: State, q: Qid, name: string, id: Did)
    requires CacheInv(s) && q !in s.queries && id !in s.owed && name !in s.table
    ensures CacheInv(Enqueue(Create(s, id, name), id, q))
  {
    CreateKeeps(s, id, name);
    hide Inv;
    EnqueueKeeps(Create(s, id, name), id, q);
  }

  lemma AskOldKeeps(s: State, q: Qid, d: Did, clear: bool, bypass: bool, tv: Option<int>)
    requires CacheInv(s) && q !in s.queries && d in s.domains && Joins(s, d, clear, bypass, tv)
    ensures d in Decided(s, d, clear, bypass, tv).domains
    ensures CacheInv(Enqueue(Decided(s, d, clear, bypass, tv), d, q))
  {
    DecidedKeeps(s, d, clear, bypass, tv);
    hide Inv, Decided;
    EnqueueKeeps(Decided(s, d, clear, bypass, tv), d, q);
  }

  lemma AskKeeps(s: State, q: Qid, name: string, clear: bool, bypass: bool, tv: Option<int>, id: Did, room: bool)
    requires CacheInv(s) && q !in s.queries && id !in s.owed
    ensures CacheInv(Ask(s, q, name, clear, bypass, tv, id, room).0)
  {
    if name !in s.table {
      AskNewKeeps(s, q, name, id);
    } else {
      var d := s.table[name];
      if Joins(s, d, clear, bypass, tv) { AskOldKeeps(s, q, d, clear, bypass, tv); }
    }
    hide CacheInv, Joins, Decided, Enqueue, Create;
  }

  // The domains other than `d` are the same.
  ghost predicate OthersSame(s: State, s2: State, d: Did) {
    forall e :: e != d ==> (e in s2.domains <==> e in s.domains) && (e in s.domains ==> s2.domains[e] == s.domains[e])
  }

  predicate SameAnswers(m: Domain, m2: Domain) { m2.name == m.name && m2.addrs == m.addrs && m2.first == m.first }

  // Is the request answered from the cache: the name listed, and its addresses good enough?
  ghost predicate Answered(s: State, name: string, clear: bool, bypass: bool, tv: Option<int>)
    requires TableInv(s)
  {
    && name in s.table && s.table[name] in s.lru
    && !((clear || bypass) && (tv.None? || Stamp(s, s.table[name]) <= tv.value))
  }

  /** A request is answered at once if and only if the cache has the name with addresses that are good enough. */
  lemma AskAnswers(s: State, q: Qid, name: string, clear: bool, bypass: bool, tv: Option<int>, id: Did, room: bool)
    requires CacheInv(s)
    ensures var (s2, out) := Ask(s, q, name, clear, bypass, tv, id, room);
            && (out.Hit? <==> Answered(s, name, clear, bypass, tv))
            && (out.Hit? ==> s2 == s && s.domains[s.table[name]].addrs == Some(out.addrs))
            && (out.Refused? <==> name !in s.table && !room)
            && (out.Refused? ==> s2 == s)
  {
    if name in s.table { At(s, s.table[name]); }
  }

  /**
    A request that is not answered waits at the domain of its name, which is owed an
    answer; it starts a lookup if and only if none is under way there; and it takes the
    domain off the list if and only if the cache is to be cleared of it.
   */
  lemma AskWaits(s: State, q: Qid, name: string, clear: bool, bypass: bool, tv: Option<int>, id: Did, room: bool)
    requires CacheInv(s) && q !in s.queries && id !in s.owed
    requires Ask(s, q, name, clear, bypass, tv, id, room).1.Queued?
    ensures var (s2, out) := Ask(s, q, name, clear, bypass, tv, id, room);
            && name in s2.table
            && var d := s2.table[name];
            && d == (if name in s.table then s.table[name] else id)
            && Waiting(s2, d) == [q] + Waiting(s, d) && s2.queries == s.queries[q := Query(0, d, 1, 0, None)]
            && (forall e :: e != d ==> Waiting(s2, e) == Waiting(s, e))
            && (out.start <==> d !in s.owed || s.owed[d] == 0)
            && d in s2.owed && s2.owed[d] > 0 && s2.owed == (if out.start then s.owed[d := 2] else s.owed)
            && s2.lru == (if clear && d in s.lru then Cut(s.lru, d) else s.lru)
  {
    if name in s.table {
      AskOldWaits(s, q, s.table[name], clear, bypass, tv);
    } else {
      At(s, id);
      hide DomainsInv, OwedInv, TableInv, LruInv, StampInv, QueryInv;
    }
  }

  lemma AskOldWaits(s: State, q: Qid, d: Did, clear: bool, bypass: bool, tv: Option<int>)
    requires CacheInv(s) && d in s.domains && Joins(s, d, clear, bypass, tv)
    ensures var s1 := Decided(s, d, clear, bypass, tv);
            && d in s1.domains && s1.table == s.table && s1.queries == s.queries
            && (forall e :: Waiting(s1, e) == Waiting(s, e))
            && d in s.owed && (s.owed[d] == 0 <==> s.domains[d].status == QUERY2)
            && s1.owed == (if s.owed[d] == 0 then s.owed[d := 2] else s.owed)
            && s1.lru == (if clear && d in s.lru then Cut(s.lru, d) else s.lru)
  {
    hide DomainsInv, OwedInv, TableInv, LruInv, StampInv, QueryInv, NoDup, Cut;
    At(s, d);
  }

  /** A request keeps the other domains, and the addresses and the first answer that its own domain has. */
  lemma AskSpares(s: State, q: Qid, name: string, clear: bool, bypass: bool, tv: Option<int>, id: Did, room: bool)
    requires CacheInv(s) && id !in s.owed
    ensures var (s2, out) := Ask(s, q, name, clear, bypass, tv, id, room);
            out.Queued? ==>
              && name in s2.table
              && var d := s2.table[name];
              && OthersSame(s, s2, d) && s2.table == s.table[name := d]
              && d in s2.domains && s2.domains[d].name == name
              && (if d in s.domains then SameAnswers(s.domains[d], s2.domains[d])
                  else s2.domains[d].addrs.None? && s2.domains[d].first.None?)
  {
    if name in s.table {
      assert s.table[name := s.table[name]] == s.table;
      DecidedSpares(s, s.table[name], clear, bypass, tv);
      EnqueueSpares(Decided(s, s.table[name], clear, bypass, tv), s.table[name], q);
      hide Decided, Joins, CacheInv, Enqueue;
    } else {
      At(s, id);
      hide CacheInv;
      NewSpares(s, q, name, id);
      hide Create, Enqueue, OthersSame;
    }
  }

  lemma EnqueueSpares(s: State, d: Did, q: Qid)
    requires d in s.domains
    ensures var s2 := Enqueue(s, d, q);
            && d in s2.domains && OthersSame(s, s2, d) && SameAnswers(s.domains[d], s2.domains[d]) && s2.table == s.table
  {}

  lemma NewSpares(s: State, q: Qid, name: string, id: Did)
    ensures var s2 := Enqueue(Create(s, id, name), id, q);
            && s2.table == s.table[name := id] && OthersSame(s, s2, id)
            && id in s2.domains && s2.domains[id] == Domain(name, QUERYING, None, None, [q])
  {
    assert [q] + [] == [q];
  }

  lemma DecidedSpares(s: State, d: Did, clear: bool, bypass: bool, tv: Option<int>)
    requires d in s.domains
    ensures var s1 := Decided(s, d, clear, bypass, tv);
            && d in s1.domains && s1.table == s.table
            && OthersSame(s, s1, d) && SameAnswers(s.domains[d], s1.domains[d])
  {
    hide Cut, Stale;
  }

  lemma DetachCaches(s: State, d: Did)
    requires CacheInv(s) && d in s.domains && s.domains[d].status > QUERY2
    ensures CacheInv(Detach(s, d))
  {
    DetachKeeps(s, d);
    CutMembers(s.lru, d);
  }

  lemma CancelKeeps(s: State, q: Qid)
    requires CacheInv(s)
    ensures CacheInv(Cancel(s, q))
  {
    if Cancel(s, q) != s { DequeueKeeps(s, s.queries[q].domain, q); }
  }

  /** After a cancel the query waits nowhere and has let go of its pipe; nothing else has changed. */
  lemma CancelTells(s: State, q: Qid)
    requires CacheInv(s)
    ensures var s2 := Cancel(s, q);
            && (forall d :: q !in Waiting(s2, d))
            && (forall d, r :: r != q ==> (r in Waiting(s2, d) <==> r in Waiting(s, d)))
            && s2.owed == s.owed && s2.lru == s.lru && s2.table == s.table && s2.domains.Keys == s.domains.Keys
            && (forall d :: d in s.domains ==> s2.domains[d].(queries := []) == s.domains[d].(queries := []))
            && s2.queries == (if q in s.queries && s.queries[q].status == 0
                              then s.queries[q := Query(1, s.queries[q].domain, 0, 1, None)] else s.queries)
  {
    hide DomainsInv, OwedInv, TableInv, LruInv, StampInv, QueryInv, Dequeue, Waiting, NoDup, Owes;
    WaitsInOne(s, q);
    if q in s.queries && s.queries[q].status == 0 {
      At(s, s.queries[q].domain);
      DequeueTells(s, s.queries[q].domain, q);
    }
  }

  lemma WaitsInOne(s: State, q: Qid)
    requires QueryInv(s)
    ensures forall d :: q in Waiting(s, d) ==> q in s.queries && s.queries[q].status == 0 && s.queries[q].domain == d
    ensures q in s.queries && s.queries[q].status == 0 ==>
              s.queries[q].domain in s.domains && Leave(s.queries[q], None) == Query(1, s.queries[q].domain, 0, 1, None)
  {
    forall d | q in Waiting(s, d) ensures WaitsAt(s, d, q) {}
    if q in s.queries && s.queries[q].status == 0 { assert QueryOk(s, q, s.queries[q]); }
  }

  lemma DequeueTells(s: State, d: Did, q: Qid)
    requires d in s.domains && q in s.queries && s.queries[q].domain == d && NoDup(s.domains[d].queries)
    ensures var s2 := Dequeue(s, q);
            && (forall r :: r in Waiting(s2, d) <==> r in Waiting(s, d) && r != q)
            && (forall e :: e != d ==> Waiting(s2, e) == Waiting(s, e))
            && s2.owed == s.owed && s2.lru == s.lru && s2.table == s.table && s2.domains.Keys == s.domains.Keys
            && (forall e :: e in s.domains ==> s2.domains[e].(queries := []) == s.domains[e].(queries := []))
            && s2.queries == s.queries[q := Leave(s.queries[q], None)]
  {
    CutMembers(s.domains[d].queries, q);
    hide NoDup, Cut;
  }

  lemma RespondKeeps(s: State, d: Did, got: Option<Addrs>, now: int)
    requires CacheInv(s) && d in s.domains && s.owed[d] > 0 && now >= s.clock
    ensures CacheInv(Respond(s, d, got, now))
  {
    At(s, d);
    var m := s.domains[d];
    if m.status == QUERYING || m.status == NEW_QUERYING {
      FirstKeeps(s, d, got);
    } else {
      var s1 := if m.status == NEW_QUERY1 then Detach(s, d) else s;
      if m.status == NEW_QUERY1 { DetachKeeps(s, d); }
      CutMembers(s.lru, d);
      match Merge(m.first, got, now)
      case None => FailKeeps(s1, d);
      case Some(a) =>
        FinishKeeps(s1, d, a, now);
        EvictKeeps(Finish(s1, d, a, now));
    }
  }

  lemma EvictKeeps(s: State)
    requires Inv(s) && |s.lru| <= CACHE + 1
    ensures CacheInv(Evict(s))
  {
    if s.lru != [] {
      DropKeeps(s, s.lru[0]);
      CutMembers(s.lru, s.lru[0]);
    }
  }

  /** After a sweep no entry is too old, although it stopped at the first that was not. */
  lemma {:induction false} SweepKeeps(s: State, limit: int)
    requires Inv(s)
    ensures Inv(Sweep(s, limit)) && |Sweep(s, limit).lru| <= |s.lru|
    ensures forall d :: d in Sweep(s, limit).lru ==> limit < Stamp(Sweep(s, limit), d)
    decreases |s.lru|
  {
    if s.lru != [] && Stamp(s, s.lru[0]) <= limit {
      DropKeeps(s, s.lru[0]);
      CutMembers(s.lru, s.lru[0]);
      SweepKeeps(Drop(s, s.lru[0]), limit);
    } else {
      forall d | d in s.lru ensures limit < Stamp(s, d) {
        var i :| 0 <= i < |s.lru| && s.lru[i] == d;
      }
    }
  }

  // Entries newer than the limit stay as they are, and so does every domain off the list;
  // of a domain in a lookup only the status may change.
  ghost predicate Spares(s: State, s2: State, limit: int) {
    && (forall d :: d in s.lru && limit < Stamp(s, d) ==> d in s2.lru && Stamp(s2, d) == Stamp(s, d))
    && (forall d :: d in s.domains && (d !in s.lru || limit < Stamp(s, d)) ==>
                      d in s2.domains && s2.domains[d] == s.domains[d])
    && (forall d :: d in s2.domains ==> d in s.domains && s2.domains[d].(status := 0) == s.domains[d].(status := 0))
    && (forall d :: d in s.domains && s.domains[d].status != QUERY2 ==> d in s2.domains && s2.domains[d].status != QUERY2)
    && s2.queries == s.queries && s2.owed == s.owed
  }

  /** A sweep spares every entry newer than the limit, and every query and answer outstanding. */
  lemma {:induction false} SweepSpares(s: State, limit: int)
    requires Inv(s)
    ensures Spares(s, Sweep(s, limit), limit)
    decreases |s.lru|
  {
    hide Inv, Drop, Spares;
    if s.lru != [] && Stamp(s, s.lru[0]) <= limit {
      var e := s.lru[0];
      DropKeeps(s, e);
      CutShortens(s, e);
      DropSpares(s, e, limit);
      SweepSpares(Drop(s, e), limit);
      SparesTwice(s, Drop(s, e), Sweep(Drop(s, e), limit), limit);
    } else {
      SparesSelf(s, limit);
    }
  }

  lemma CutShortens(s: State, e: Did)
    requires Inv(s) && e in s.lru
    ensures |Cut(s.lru, e)| < |s.lru|
  {
    CutMembers(s.lru, e);
  }

  lemma SparesSelf(s: State, limit: int)
    ensures Spares(s, s, limit)
  {}

  // Dropping an old entry only ever takes that one off the list.
  lemma DropSpares(s: State, e: Did, limit: int)
    requires Inv(s) && e in s.lru && Stamp(s, e) <= limit
    ensures e in s.domains && Spares(s, Drop(s, e), limit)
    ensures forall d :: d in s.domains && d !in s.lru ==> d !in Drop(s, e).lru
  {
    At(s, e);
    CutMembers(s.lru, e);
    DropShape(s, e);
    hide *;
    DropSparesOthers(s, Drop(s, e), e, limit);
  }

  lemma DropShape(s: State, e: Did)
    requires e in s.domains
    ensures var s2 := Drop(s, e);
            && (forall d :: d != e ==> (d in s2.domains <==> d in s.domains))
            && (forall d :: d != e && d in s.domains ==> s2.domains[d] == s.domains[d])
            && (e in s2.domains ==> s2.domains[e].(status := 0) == s.domains[e].(status := 0))
            && (s.domains[e].status != QUERY2 ==> e in s2.domains && s2.domains[e].status == s.domains[e].status - QUERY2)
            && s2.lru == Cut(s.lru, e) && s2.queries == s.queries && s2.owed == s.owed
  {
    hide Cut;
  }

  lemma DropSparesOthers(s: State, s2: State, e: Did, limit: int)
    requires e in s.domains && e in s.lru && Stamp(s, e) <= limit
    requires forall d :: d != e ==> (d in s2.domains <==> d in s.domains)
    requires forall d :: d != e && d in s.domains ==> s2.domains[d] == s.domains[d]
    requires e in s2.domains ==> s2.domains[e].(status := 0) == s.domains[e].(status := 0)
    requires s.domains[e].status != QUERY2 ==> e in s2.domains && s2.domains[e].status != QUERY2
    requires forall d :: d in s2.lru <==> d in s.lru && d != e
    requires s2.queries == s.queries && s2.owed == s.owed
    ensures Spares(s, s2, limit)
    ensures forall d :: d in s.domains && d !in s.lru ==> d !in s2.lru
  {}

  lemma SparesTwice(s: State, s1: State, s2: State, limit: int)
    requires Spares(s, s1, limit) && Spares(s1, s2, limit)
    requires forall d :: d in s.domains && d !in s.lru ==> d !in s1.lru
    ensures Spares(s, s2, limit)
  {
    hide Waiting;
  }

  /**
    The second answer tells every waiting query of the domain, and no other query, what the
    domain has then.
   */
  lemma RespondTells(s: State, d: Did, got: Option<Addrs>, now: int)
    requires CacheInv(s) && d in s.domains && s.owed[d] == 1 && now >= s.clock
    ensures var s2 := Respond(s, d, got, now);
            && s2.queries.Keys == s.queries.Keys
            && (forall q :: q in s.queries && q !in Waiting(s, d) ==> s2.queries[q] == s.queries[q])
            && (forall q :: q in s.queries && q in Waiting(s, d) ==>
                              s2.queries[q] == Query(1, d, 0, 1, if d in s2.domains then s2.domains[d].addrs else None))
            && s2.owed == s.owed[d := 0]
  {
    At(s, d);
    WaitingOnes(s, d);
    CachesMerged(s, d, got, now);
    hide DomainsInv, OwedInv, TableInv, LruInv, StampInv, QueryInv, Evict, Merge, Elems;
    forall x ensures Evict(x).queries == x.queries && Evict(x).owed == x.owed { EvictOnlyDomains(x); }
  }

  lemma WaitingOnes(s: State, d: Did)
    requires QueryInv(s)
    ensures forall q :: q in Waiting(s, d) ==> q in s.queries && s.queries[q] == Query(0, d, 1, 0, None)
  {
    forall q | q in Waiting(s, d) ensures q in s.queries && s.queries[q] == Query(0, d, 1, 0, None) {
      assert WaitsAt(s, d, q) && QueryOk(s, q, s.queries[q]);
    }
  }

  lemma EvictOnlyDomains(s: State)
    ensures Evict(s).queries == s.queries && Evict(s).owed == s.owed
  {}

  lemma CachesMerged(s: State, d: Did, got: Option<Addrs>, now: int)
    requires CacheInv(s) && d in s.domains && s.owed[d] == 1 && now >= s.clock
    ensures var s2, m := Respond(s, d, got, now), s.domains[d];
            var a := Merge(m.first, got, now);
            if a.None? then d !in s2.domains && m.name !in s2.table
            else
              && d in s2.domains && s2.domains[d].name == m.name && s2.domains[d].addrs == a
              && s2.lru != [] && s2.lru[|s2.lru| - 1] == d
  {
    hide DomainsInv, OwedInv, TableInv, StampInv, QueryInv, Evict, NoDup, Cut;
    At(s, d);
    var m := s.domains[d];
    CutMembers(s.lru, d);
    if Merge(m.first, got, now).Some? {
      var s1 := if m.status == NEW_QUERY1 then Detach(s, d) else s;
      var s2 := Finish(s1, d, Merge(m.first, got, now).value, now);
      AppendNoDup(s1.lru, d);
      EvictsAnother(s2, d);
    }
  }

  function Elems(a: Option<Addrs>): seq<Addr> { if a.Some? then a.value.elems else [] }

  /**
    It caches the domain, as the newest in the list, with the addresses of the first answer
    followed by those of the second, or frees it if neither had any.
   */
  lemma RespondCaches(s: State, d: Did, got: Option<Addrs>, now: int)
    requires CacheInv(s) && d in s.domains && s.owed[d] == 1 && now >= s.clock
    ensures var s2, m := Respond(s, d, got, now), s.domains[d];
            if m.first.None? && got.None? then d !in s2.domains && m.name !in s2.table
            else
              && d in s2.domains && s2.domains[d].name == m.name && s2.domains[d].addrs.Some?
              && s2.domains[d].addrs.value.elems == Elems(m.first) + Elems(got)
              && s2.domains[d].addrs.value.tv == now
              && s2.lru != [] && s2.lru[|s2.lru| - 1] == d
  {
    CachesMerged(s, d, got, now);
  }

  // The list without the domain that is answered.
  function Rest(s: State, d: Did): seq<Did> { if d in s.lru then Cut(s.lru, d) else s.lru }

  // The oldest of the others has to go if the answer is cached beside 1024 of them.
  predicate Oldest(s: State, d: Did, got: Option<Addrs>, e: Did)
    requires d in s.domains
  {
    (s.domains[d].first.Some? || got.Some?) && |Rest(s, d)| == CACHE && Rest(s, d)[0] == e
  }

  /**
    Of the other domains exactly the oldest on the list leaves it, and only if there are
    more than 1024 now: freed, or, if it is in a lookup, kept with what it has.
   */
  lemma RespondEvicts(s: State, d: Did, got: Option<Addrs>, now: int)
    requires CacheInv(s) && d in s.domains && s.owed[d] == 1 && now >= s.clock
    ensures var s2 := Respond(s, d, got, now);
            && (forall e :: e != d ==> (e in s2.domains <==> e in s.domains && !(Oldest(s, d, got, e) && s.domains[e].status == QUERY2)))
            && (forall e :: e != d && e in s2.domains ==>
                              if Oldest(s, d, got, e) then e !in s2.lru && s2.domains[e].(status := 0) == s.domains[e].(status := 0)
                              else s2.domains[e] == s.domains[e])
            && (forall e :: e != d ==> (e in s2.lru <==> e in s.lru && !Oldest(s, d, got, e)))
  {
    hide Inv, Cut, NoDup, Evict, Respond, Merge;
    if s.domains[d].first.None? && got.None? {
      FailShape(s, d, got, now);
    } else {
      var s1 := FinishShape(s, d, got, now);
      EvictShape(s1);
    }
  }

  lemma RestMembers(s: State, d: Did)
    requires Inv(s)
    ensures |Rest(s, d)| == |s.lru| - (if d in s.lru then 1 else 0) && NoDup(Rest(s, d))
    ensures forall e :: e in Rest(s, d) <==> e in s.lru && e != d
  {
    CutMembers(s.lru, d);
  }

  // The domain off the list, as the second answer finds it or leaves it.
  lemma OffList(s: State, d: Did) returns (s1: State)
    requires CacheInv(s) && d in s.domains && s.owed[d] == 1
    ensures s1 == if s.domains[d].status == NEW_QUERY1 then Detach(s, d) else s
    ensures s.domains[d].status == QUERY1 || s.domains[d].status == NEW_QUERY1
    ensures OthersSame(s, s1, d) && s1.lru == Rest(s, d) && s1.domainNum == |s1.lru| <= CACHE && NoDup(s1.lru)
    ensures d in s1.domains && forall e :: e in s1.lru ==> e in s1.domains
    ensures forall e :: e in Rest(s, d) <==> e in s.lru && e != d
  {
    At(s, d);
    RestMembers(s, d);
    hide DomainsInv, OwedInv, TableInv, StampInv, QueryInv, Cut, NoDup;
    s1 := if s.domains[d].status == NEW_QUERY1 then Detach(s, d) else s;
  }

  lemma FailShape(s: State, d: Did, got: Option<Addrs>, now: int)
    requires CacheInv(s) && d in s.domains && s.owed[d] == 1 && s.domains[d].first.None? && got.None?
    ensures var s2 := Respond(s, d, got, now); OthersSame(s, s2, d) && s2.lru == Rest(s, d)
    ensures forall e :: e in Rest(s, d) <==> e in s.lru && e != d
  {
    hide Inv, Cut, NoDup, Evict, Detach, Rest, Finish;
    var s1 := OffList(s, d);
  }

  // The second answer up to the eviction.
  lemma FinishShape(s: State, d: Did, got: Option<Addrs>, now: int) returns (s1: State)
    requires CacheInv(s) && d in s.domains && s.owed[d] == 1 && (s.domains[d].first.Some? || got.Some?)
    ensures Respond(s, d, got, now) == Evict(s1)
    ensures OthersSame(s, s1, d) && s1.lru == Rest(s, d) + [d] && s1.domainNum == |s1.lru| && NoDup(s1.lru)
    ensures |Rest(s, d)| <= CACHE && forall e :: e in Rest(s, d) <==> e in s.lru && e != d
    ensures d in s1.domains && forall e :: e in s1.lru ==> e in s1.domains
  {
    hide Inv, Cut, NoDup, Evict, Detach, Rest, Fail;
    var s0 := OffList(s, d);
    AppendNoDup(s0.lru, d);
    s1 := Finish(s0, d, Merge(s.domains[d].first, got, now).value, now);
  }

  lemma EvictShape(s: State)
    requires NoDup(s.lru) && s.domainNum == |s.lru| && forall e :: e in s.lru ==> e in s.domains
    ensures var s2 := Evict(s);
            if |s.lru| <= CACHE then s2 == s
            else
              var e := s.lru[0];
              && OthersSame(s, s2, e) && (forall x :: x in s2.lru <==> x in s.lru && x != e)
              && (e in s2.domains <==> s.domains[e].status != QUERY2)
              && (e in s2.domains ==> s2.domains[e].(status := 0) == s.domains[e].(status := 0))
  {
    if s.lru != [] {
      var e := s.lru[0];
      CutMembers(s.lru, e);
      hide NoDup, Cut;
      DropShape(s, e);
    }
  }

  lemma EvictsAnother(s: State, d: Did)
    requires NoDup(s.lru) && s.domainNum == |s.lru| && d in s.domains
    requires s.lru != [] && s.lru[|s.lru| - 1] == d
    ensures var s2 := Evict(s);
            d in s2.domains && s2.domains[d] == s.domains[d] && s2.lru != [] && s2.lru[|s2.lru| - 1] == d
  {
    hide NoDup, Drop;
    if s.domainNum > CACHE {
      var e := s.lru[0];
      assert e != d && Cut(s.lru, e) == s.lru[1..] by { assert NoDup(s.lru); FirstNotLast(s.lru); }
      if e in s.domains { DropsOne(s, e, d); }
    }
  }

  lemma FirstNotLast(s: seq<Did>)
    requires NoDup(s) && |s| > 1
    ensures s[0] != s[|s| - 1] && Cut(s, s[0]) == s[1..]
  {}

  lemma DropsOne(s: State, e: Did, d: Did)
    requires e in s.domains && d in s.domains && e != d
    ensures d in Drop(s, e).domains && Drop(s, e).domains[d] == s.domains[d]
    ensures Drop(s, e).lru == Cut(s.lru, e)
  {}

  // ---------- Whole runs ----------

  datatype Event =
    | Request(q: Qid, name: string, clear: bool, bypass: bool, tv: Option<int>, id: Did, room: bool)
    | Cancelled(q: Qid)
    | Answer(d: Did, got: Option<Addrs>, now: int)
    | Expiry(now: int)

  // A pipe asks once, a new domain gets a new number, only owed answers come, and time does not go back.
  predicate Enabled(s: State, e: Event) {
    match e
    case Request(q, _, _, _, _, id, _) => q !in s.queries && id !in s.owed
    case Cancelled(_) => true
    case Answer(d, _, now) => d in s.owed && s.owed[d] > 0 && now >= s.clock
    case Expiry(_) => true
  }

  ghost function Next(s: State, e: Event): State
    requires CacheInv(s) && Enabled(s, e)
  {
    match e
    case Request(q, name, clear, bypass, tv, id, room) => Ask(s, q, name, clear, bypass, tv, id, room).0
    case Cancelled(q) => Cancel(s, q)
    case Answer(d, got, now) => Respond(s, d, got, now)
    case Expiry(now) => Sweep(s, now - TIMEOUT)
  }

  lemma NextKeeps(s: State, e: Event)
    requires CacheInv(s) && Enabled(s, e)
    ensures CacheInv(Next(s, e))
  {
    if e.Answer? { At(s, e.d); }
    hide Ask, Cancel, Respond, Sweep, Inv;
    match e
    case Request(q, name, clear, bypass, tv, id, room) => AskKeeps(s, q, name, clear, bypass, tv, id, room);
    case Cancelled(q) => CancelKeeps(s, q);
    case Answer(d, got, now) => RespondKeeps(s, d, got, now);
    case Expiry(now) => SweepKeeps(s, now - TIMEOUT);
  }

  ghost function Run(s: State, events: seq<Event>): State
    requires CacheInv(s)
    decreases events
  {
    if events == [] then s
    else if Enabled(s, events[0]) then NextKeeps(s, events[0]); Run(Next(s, events[0]), events[1..])
    else Run(s, events[1..])
  }

  lemma {:induction false} RunKeeps(s: State, events: seq<Event>)
    requires CacheInv(s)
    ensures CacheInv(Run(s, events))
    decreases events
  {
    hide CacheInv, Next;
    if events != [] {
      if Enabled(s, events[0]) {
        NextKeeps(s, events[0]);
        RunKeeps(Next(s, events[0]), events[1..]);
      } else {
        RunKeeps(s, events[1..]);
      }
    }
  }

  /**
    After any run from the empty cache: the status fixes the answers outstanding, the
    list holds the domains with status QUERY2 and up and nothing else, in order of
    their stamps and at most 1024 of them; a freed domain is owed no answer; a waiting
    query is in the list of a live domain that is still owed one, holding its pipe,
    and a query that stopped waiting left once and let go of the pipe once.
   */
  lemma EveryRun(events: seq<Event>)
    ensures CacheInv(Empty)
    ensures var s := Run(Empty, events);
            && (forall d :: d in s.domains ==>
                              var st := s.domains[d].status;
                              && 1 <= st <= 5 && d in s.owed && s.owed[d] == Owes(st)
                              && (st >= QUERY2 <==> d in s.lru) && (st >= QUERY2 ==> s.domains[d].addrs.Some?))
            && (forall d :: d in s.owed && s.owed[d] > 0 ==> d in s.domains)
            && s.domainNum == |s.lru| <= CACHE
            && Sorted(s.lru, d => Stamp(s, d))
            && (forall q :: q in s.queries && s.queries[q].status == 0 ==>
                              var d := s.queries[q].domain;
                              q in Waiting(s, d) && d in s.owed && s.owed[d] > 0 && s.queries[q].refs == 1 && s.queries[q].left == 0)
            && (forall q :: q in s.queries && s.queries[q].status != 0 ==>
                              s.queries[q].refs == 0 && s.queries[q].left == 1 && forall d :: q !in Waiting(s, d))
  {
    RunKeeps(Empty, events);
    var s := Run(Empty, events);
    forall q | q in s.queries && s.queries[q].status == 0
      ensures var d := s.queries[q].domain; q in Waiting(s, d) && d in s.owed && s.owed[d] > 0
    {
      assert QueryOk(s, q, s.queries[q]);
      At(s, s.queries[q].domain);
    }
    forall q, d | q in Waiting(s, d) ensures WaitsAt(s, d, q) {}
    hide Run;
  }
}
