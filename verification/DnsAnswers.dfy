/**
  The two answers of a lookup, whatever happens to the cache between them: the first is
  kept until the second comes, and then the domain has the addresses of both.
 */
module DnsAnswers {

  import opened Options
  import opened Lists
  import opened Dns

  /** The first answer is kept beside the addresses there are, which stay in use; no query is told yet. */
  lemma FirstAnswerKept(s: State, d: Did, got: Option<Addrs>, now: int)
    requires CacheInv(s) && d in s.domains && s.owed[d] == 2
    ensures var s2 := Respond(s, d, got, now);
            && d in s2.domains && s2.domains[d].first == got
            && s2.domains[d].name == s.domains[d].name && s2.domains[d].addrs == s.domains[d].addrs
            && s2.domains[d].queries == s.domains[d].queries
            && OthersSame(s, s2, d) && s2.owed == s.owed[d := 1]
            && s2.table == s.table && s2.lru == s.lru && s2.queries == s.queries
  {
    At(s, d);
    hide CacheInv;
  }

  // The first answer has come, the second has not.
  ghost predicate Between(s: State, d: Did, first: Option<Addrs>) {
    d in s.domains && d in s.owed && s.owed[d] == 1 && s.domains[d].first == first
  }

  lemma BetweenStatus(s: State, d: Did, first: Option<Addrs>)
    requires Inv(s) && Between(s, d, first)
    ensures s.domains[d].status == QUERY1 || s.domains[d].status == NEW_QUERY1
    ensures s.domains[d].name in s.table && s.table[s.domains[d].name] == d
  {
    At(s, d);
  }

  lemma HasTable(s: State)
    requires CacheInv(s)
    ensures TableInv(s)
  {}

  lemma RequestBetween(s: State, d: Did, first: Option<Addrs>, e: Event)
    requires CacheInv(s) && Enabled(s, e) && e.Request? && Between(s, d, first)
    ensures Between(Next(s, e), d, first)
  {
    HasTable(s);
    hide CacheInv, Ask, Waiting, Cut, Answered;
    AskAnswers(s, e.q, e.name, e.clear, e.bypass, e.tv, e.id, e.room);
    AskSpares(s, e.q, e.name, e.clear, e.bypass, e.tv, e.id, e.room);
    if Ask(s, e.q, e.name, e.clear, e.bypass, e.tv, e.id, e.room).1.Queued? {
      AskWaits(s, e.q, e.name, e.clear, e.bypass, e.tv, e.id, e.room);
    }
  }

  lemma CancelBetween(s: State, d: Did, first: Option<Addrs>, q: Qid)
    requires CacheInv(s) && Between(s, d, first)
    ensures Between(Cancel(s, q), d, first)
  {
    CancelTells(s, q);
    hide CacheInv, Cancel, Waiting;
  }

  lemma AnswerBetween(s: State, d: Did, first: Option<Addrs>, e: Did, got: Option<Addrs>, now: int)
    requires CacheInv(s) && Between(s, d, first) && e != d && e in s.owed && s.owed[e] > 0 && now >= s.clock
    ensures e in s.domains && Between(Respond(s, e, got, now), d, first)
  {
    BetweenStatus(s, d, first);
    At(s, e);
    if s.owed[e] == 2 {
      FirstAnswerKept(s, e, got, now);
    } else {
      RespondEvicts(s, e, got, now);
      RespondTells(s, e, got, now);
    }
    hide CacheInv, Respond, Waiting, Oldest;
  }

  lemma SweepBetween(s: State, d: Did, first: Option<Addrs>, limit: int)
    requires CacheInv(s) && Between(s, d, first)
    ensures Between(Sweep(s, limit), d, first)
  {
    BetweenStatus(s, d, first);
    SweepSpares(s, limit);
    hide CacheInv, Sweep, Stamp;
  }

  /** Nothing but the second answer touches what the first one brought. */
  lemma NextBetween(s: State, d: Did, first: Option<Addrs>, e: Event)
    requires CacheInv(s) && Enabled(s, e) && Between(s, d, first) && !(e.Answer? && e.d == d)
    ensures Between(Next(s, e), d, first)
  {
    hide CacheInv, Respond, Sweep, Cancel, Ask, Between;
    match e
    case Request(_, _, _, _, _, _, _) => RequestBetween(s, d, first, e);
    case Cancelled(q) => CancelBetween(s, d, first, q);
    case Answer(x, got, now) => AnswerBetween(s, d, first, x, got, now);
    case Expiry(now) => SweepBetween(s, d, first, now - TIMEOUT);
  }

  lemma {:induction false} RunBetween(s: State, d: Did, first: Option<Addrs>, events: seq<Event>)
    requires CacheInv(s) && Between(s, d, first)
    requires forall e :: e in events ==> !(e.Answer? && e.d == d)
    ensures Between(Run(s, events), d, first)
    decreases events
  {
    hide CacheInv, Next, Between, Enabled;
    if events != [] {
      if Enabled(s, events[0]) {
        NextKeeps(s, events[0]);
        NextBetween(s, d, first, events[0]);
        RunBetween(Next(s, events[0]), d, first, events[1..]);
      } else {
        RunBetween(s, d, first, events[1..]);
      }
    }
  }

  /**
    A lookup caches what its two answers brought, the first followed by the second,
    whatever else happens between them; it frees the domain if they brought nothing.
   */
  lemma TwoAnswers(s: State, d: Did, a: Option<Addrs>, b: Option<Addrs>, events: seq<Event>, now1: int, now2: int)
    requires CacheInv(s) && d in s.owed && s.owed[d] == 2 && now1 >= s.clock
    requires forall e :: e in events ==> !(e.Answer? && e.d == d)
    ensures CacheInv(Next(s, Answer(d, a, now1)))
    ensures var s2 := Run(Next(s, Answer(d, a, now1)), events);
            CacheInv(s2) && (now2 >= s2.clock ==> Enabled(s2, Answer(d, b, now2)))
            && (now2 >= s2.clock ==>
                  var s3 := Next(s2, Answer(d, b, now2));
                  if a.None? && b.None? then d !in s3.domains
                  else d in s3.domains && s3.domains[d].addrs == Some(Addrs(Elems(a) + Elems(b), now2)))
  {
    At(s, d);
    NextKeeps(s, Answer(d, a, now1));
    FirstAnswerKept(s, d, a, now1);
    hide CacheInv, Run, Respond;
    var s1 := Next(s, Answer(d, a, now1));
    RunKeeps(s1, events);
    RunBetween(s1, d, a, events);
    var s2 := Run(s1, events);
    if now2 >= s2.clock { RespondCaches(s2, d, b, now2); }
  }
}
