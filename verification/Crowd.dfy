/**
  Threads of a protocol, each at some place, and how many of them are at a place
  of one kind.
 */
module Crowd {

  type Tid = nat

  function One(b: bool): nat { if b then 1 else 0 }

  ghost function Members<P>(m: map<Tid, P>, at: P -> bool): set<Tid> { set t | t in m && at(m[t]) }

  ghost function Count<P>(m: map<Tid, P>, at: P -> bool): nat { |Members(m, at)| }

  // Moving one thread changes a count by what that thread was and is.
  lemma CountStep<P>(m: map<Tid, P>, t: Tid, p: P, at: P -> bool)
    requires t in m
    ensures Count(m[t := p], at) == Count(m, at) - One(at(m[t])) + One(at(p))
  {
    hide One, Members;
    SameOthers(m, t, p, at);
    WithAndWithout(Members(m, at), t);
    WithAndWithout(Members(m[t := p], at), t);
  }

  lemma SameOthers<P>(m: map<Tid, P>, t: Tid, p: P, at: P -> bool)
    requires t in m
    ensures Members(m, at) - {t} == Members(m[t := p], at) - {t}
    ensures t in Members(m, at) <==> at(m[t])
    ensures t in Members(m[t := p], at) <==> at(p)
  {}

  lemma WithAndWithout(a: set<Tid>, t: Tid)
    ensures |a| == |a - {t}| + One(t in a)
  {
    assert a == (a - {t}) + (if t in a then {t} else {});
  }

  lemma OneCounts<P>(m: map<Tid, P>, t: Tid, at: P -> bool)
    requires t in m && at(m[t])
    ensures Count(m, at) >= 1
  {
    assert t in Members(m, at);
  }

  lemma NoneCounts<P>(m: map<Tid, P>, at: P -> bool)
    requires forall t :: t in m ==> !at(m[t])
    ensures Count(m, at) == 0
  {
    assert Members(m, at) == {};
  }
}
