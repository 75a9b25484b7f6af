/** moon_dns.c's dns_private_s: the critical sections of the DNS cache, run in place. */
module DnsCache {

  import opened Options
  import opened Lists
  import opened Dns

  class Cache {
    var domains: map<Did, Domain>
    var table: map<string, Did>
    var lru: seq<Did>
    var domainNum: int
    var queries: map<Qid, Query>
    ghost var owed: map<Did, nat>
    ghost var clock: int

    ghost function View(): State
      reads this
    {
      State(domains, table, lru, domainNum, queries, owed, clock)
    }

    ghost predicate Valid()
      reads this
    {
      CacheInv(View())
    }

    constructor ()
      ensures Valid() && View() == Empty
    {
      domains, table, lru, domainNum, queries := map[], map[], [], 0, map[];
      owed, clock := map[], 0;
    }

    // Taking a domain out of the list, and freeing it if nothing is under way for it.
    method DropFirst()
      requires Inv(View()) && lru != []
      modifies this
      ensures old(lru[0]) in old(domains) && View() == Drop(old(View()), old(lru[0]))
    {
      var d := lru[0];
      At(View(), d);
      assert Cut(lru, d) == lru[1..];
      hide *;
      lru := lru[1..];
      domainNum := domainNum - 1;
      if domains[d].status == QUERY2 {
        table := table - {domains[d].name};
        domains := domains - {d};
      } else {
        domains := domains[d := domains[d].(status := domains[d].status - QUERY2)];
      }
    }

    // DNS_FLAG_CLEAR_CACHE: off the list, and into a new lookup unless one is under way.
    method Clear(d: Did) returns (isNew: bool)
      requires d in domains
      modifies this
      ensures d in old(domains) && isNew == (old(domains[d].status) == QUERY2)
      ensures View() == Detach(Restarted(old(View()), d), d)
    {
      var m := domains[d];
      isNew := m.status == QUERY2;
      domains := domains[d := m.(status := m.status - QUERY2 + if isNew then 1 else 0)];
      lru := Cut(lru, d);
      domainNum := domainNum - 1;
      if isNew { owed := owed[d := 2]; }
    }

    // DNS_FLAG_DONT_USE_CHACHE: a new lookup unless one is under way.
    method Bypass(d: Did) returns (isNew: bool)
      requires d in domains
      modifies this
      ensures d in old(domains) && isNew == (old(domains[d].status) == QUERY2)
      ensures View() == Restarted(old(View()), d)
    {
      var m := domains[d];
      isNew := m.status == QUERY2;
      domains := domains[d := m.(status := m.status + if isNew then 1 else 0)];
      if isNew { owed := owed[d := 2]; }
    }

    // The switch of moon_getaddrinfo on a domain that was in the table.
    method Decide(d: Did, clear: bool, bypass: bool, tv: Option<int>) returns (add: bool, isNew: bool)
      requires Sound(View(), d) && d in domains
      modifies this
      ensures d in domains && d in old(domains) && View() == Decided(old(View()), d, clear, bypass, tv)
      ensures add == Joins(old(View()), d, clear, bypass, tv)
      ensures isNew == (add && old(domains[d].status) == QUERY2)
    {
      var m := domains[d];
      add, isNew := true, false;
      hide NoDup;
      if m.status == QUERYING || m.status == QUERY1 {
      } else if clear && (tv.None? || m.addrs.value.tv <= tv.value) {
        isNew := Clear(d);
      } else if bypass && (tv.None? || m.addrs.value.tv <= tv.value) {
        isNew := Bypass(d);
      } else {
        add := false;
      }
    }

    // hash_search on a new name, which starts the domain's first lookup.
    method AddDomain(name: string, id: Did)
      modifies this
      ensures View() == Create(old(View()), id, name)
    {
      table := table[name := id];
      domains := domains[id := Domain(name, QUERYING, None, None, [])];
      owed := owed[id := 2];
    }

    method AddQuery(d: Did, q: Qid)
      requires d in domains
      modifies this
      ensures d in old(domains) && View() == Enqueue(old(View()), d, q)
    {
      domains := domains[d := domains[d].(queries := [q] + domains[d].queries)];
      queries := queries[q := Query(0, d, 1, 0, None)];
    }

    method GetAddrInfo(q: Qid, name: string, clear: bool, bypass: bool, tv: Option<int>, id: Did, room: bool)
      returns (outcome: Outcome)
      requires Valid() && q !in queries && id !in owed
      modifies this
      ensures Valid()
      ensures (View(), outcome) == Ask(old(View()), q, name, clear, bypass, tv, id, room)
      ensures outcome.Hit? <==> Answered(old(View()), name, clear, bypass, tv)
    {
      AskKeeps(View(), q, name, clear, bypass, tv, id, room);
      AskAnswers(View(), q, name, clear, bypass, tv, id, room);
      if name in table { At(View(), table[name]); }
      hide CacheInv, Create, Enqueue, Decided, Joins, Answered;
      if name !in table {
        if !room { return Refused; }
        AddDomain(name, id);
        AddQuery(id, q);
        return Queued(true);
      }
      var d := table[name];
      outcome := if domains[d].addrs.Some? then Hit(domains[d].addrs.value) else Refused;
      var add, isNew := Decide(d, clear, bypass, tv);
      if add {
        AddQuery(d, q);
        outcome := Queued(isNew);
      }
    }

    method CancelQuery(q: Qid)
      requires Valid()
      modifies this
      ensures Valid()
      ensures View() == Cancel(old(View()), q)
    {
      CancelKeeps(View(), q);
      if q in queries && queries[q].status == 0 {
        var d := queries[q].domain;
        domains := domains[d := domains[d].(queries := Cut(domains[d].queries, q))];
        queries := queries[q := Leave(queries[q], None)];
      }
    }

    // Every waiting query is marked as out of the list, told of `told`, and its pipe let go.
    method Tell(gone: seq<Qid>, told: Option<Addrs>)
      requires NoDup(gone) && forall q :: q in gone ==> q in queries
      modifies this`queries
      ensures queries == Released(old(queries), gone, told)
    {
      var i := 0;
      while i < |gone|
        invariant 0 <= i <= |gone|
        invariant queries == Released(old(queries), gone[..i], told)
      {
        var q := gone[i];
        assert q !in gone[..i];
        queries := queries[q := Leave(queries[q], told)];
        assert gone[..i + 1] == gone[..i] + [q];
        i := i + 1;
      }
      assert gone[..i] == gone;
    }

    method FirstAnswer(d: Did, got: Option<Addrs>)
      requires d in domains
      modifies this
      ensures d in old(domains) && View() == First(old(View()), d, got)
    {
      domains := domains[d := domains[d].(status := domains[d].status + 1, first := got)];
      owed := owed[d := 1];
    }

    // Out of the list for an update, which then goes on as a first lookup does.
    method LeaveList(d: Did)
      requires d in domains && domains[d].status == NEW_QUERY1
      modifies this
      ensures d in old(domains) && View() == Detach(old(View()), d)
    {
      lru := Cut(lru, d);
      domainNum := domainNum - 1;
      domains := domains[d := domains[d].(status := QUERY1)];
    }

    method DomainCallback(d: Did, got: Option<Addrs>, now: int)
      requires Valid() && d in owed && owed[d] > 0 && now >= clock
      modifies this
      ensures d in old(domains) && View() == Respond(old(View()), d, got, now)
      ensures Valid()
    {
      ghost var was := View();
      At(was, d);
      RespondKeeps(was, d, got, now);
      RespondCases(was, d, got, now);
      hide Respond, First, Detach, CacheInv;
      match domains[d].status {
        case 1 => FirstAnswer(d, got);
        case 4 => FirstAnswer(d, got);
        case 5 =>
          DetachCaches(was, d);
          LeaveList(d);
          SecondAnswer(d, got, now);
        case _ => SecondAnswer(d, got, now);
      }
    }

    method Settle(d: Did, a: Addrs, now: int)
      requires d in domains && NoDup(domains[d].queries) && forall q :: q in domains[d].queries ==> q in queries
      modifies this
      ensures d in old(domains) && View() == Finish(old(View()), d, a, now)
    {
      var m := domains[d];
      Tell(m.queries, Some(a));
      domains := domains[d := Domain(m.name, QUERY2, Some(a), None, [])];
      lru := lru + [d];
      domainNum := domainNum + 1;
      owed, clock := owed[d := 0], now;
    }

    method GiveUp(d: Did)
      requires d in domains && NoDup(domains[d].queries) && forall q :: q in domains[d].queries ==> q in queries
      modifies this
      ensures d in old(domains) && View() == Fail(old(View()), d)
    {
      var m := domains[d];
      Tell(m.queries, None);
      table := table - {m.name};
      domains := domains - {d};
      owed := owed[d := 0];
    }

    // The case DOMAIN_QUERY1 of domain_callback.
    method SecondAnswer(d: Did, got: Option<Addrs>, now: int)
      requires Valid() && d in domains && domains[d].status == QUERY1 && now >= clock
      modifies this
      ensures d in old(domains) && View() == Respond(old(View()), d, got, now)
    {
      ghost var was := View();
      var addrs := Merge(domains[d].first, got, now);
      At(was, d);
      forall q | q in domains[d].queries ensures q in queries { assert q in Waiting(was, d); }
      if addrs.Some? { FinishKeeps(was, d, addrs.value, now); }
      hide DomainsInv, OwedInv, TableInv, LruInv, StampInv, QueryInv, Inv, Drop;
      if addrs.Some? {
        Settle(d, addrs.value, now);
        if domainNum > CACHE { DropFirst(); }
      } else {
        GiveUp(d);
      }
    }

    /** The expiry sweep leaves no entry older than the timeout in the list. */
    method ExpirySweep(now: int)
      requires Valid()
      modifies this
      ensures Valid()
      ensures View() == Dns.Sweep(old(View()), now - TIMEOUT)
      ensures forall d :: d in lru ==> now - TIMEOUT < Stamp(View(), d)
    {
      ghost var limit := now - TIMEOUT;
      SweepKeeps(View(), limit);
      while lru != [] && domains[lru[0]].addrs.value.tv <= now - TIMEOUT
        invariant Inv(View()) && (lru != [] ==> lru[0] in domains && domains[lru[0]].addrs.Some?)
        invariant Sweep(View(), limit) == Sweep(old(View()), limit)
        decreases |lru|
      {
        ghost var d := lru[0];
        DropKeeps(View(), d);
        CutMembers(lru, d);
        DropFirst();
        if lru != [] { At(View(), lru[0]); }
      }
    }

    // One event, as the call that it stands for.
    method Do(e: Event)
      requires Valid() && Enabled(View(), e)
      modifies this
      ensures Valid() && View() == Next(old(View()), e)
    {
      hide CacheInv, Respond, Sweep, Cancel, Ask;
      match e
      case Request(q, name, clear, bypass, tv, id, room) => var _ := GetAddrInfo(q, name, clear, bypass, tv, id, room);
      case Cancelled(q) => CancelQuery(q);
      case Answer(d, got, now) => DomainCallback(d, got, now);
      case Expiry(now) => ExpirySweep(now);
    }
  }

  // Every event can take place when its turn comes.
  ghost predicate Playable(s: State, events: seq<Event>)
    requires CacheInv(s)
    decreases events
  {
    events != [] ==> Enabled(s, events[0]) && (NextKeeps(s, events[0]); Playable(Next(s, events[0]), events[1..]))
  }

  /** A cache put through any calls is where the run of their events says. */
  method Replay(events: seq<Event>) returns (c: Cache)
    requires CacheInv(Empty) && Playable(Empty, events)
    ensures fresh(c) && c.Valid() && c.View() == Run(Empty, events)
  {
    hide CacheInv, Next, Enabled;
    c := new Cache();
    var i := 0;
    while i < |events|
      invariant 0 <= i <= |events| && fresh(c) && c.Valid()
      invariant Playable(c.View(), events[i..]) && Run(c.View(), events[i..]) == Run(Empty, events)
    {
      assert events[i..][1..] == events[i + 1..];
      c.Do(events[i]);
      i := i + 1;
    }
  }
}
