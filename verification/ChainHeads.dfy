/**
  The tree of timers of moon_timer.c: each of its nodes belongs to the timer that
  heads the chain of an expiry id.  It is the tree of moon_avltree.c, and a timer's
  node is fresh and zeroed whenever it enters it.
 */
module ChainHeads {

  import opened Options
  import opened Crowd
  import opened AvlShape
  import opened AvlTree

  // Every entry of the tree is the node of some timer.
  ghost predicate OwnedBy(m: map<int, Node>, owner: map<Node, Tid>, nodes: map<Tid, Node>) {
    forall k :: k in m ==> m[k] in owner && owner[m[k]] in nodes && nodes[owner[m[k]]] == m[k]
  }

  ghost function HeadsOf(m: map<int, Node>, owner: map<Node, Tid>): map<int, Tid> {
    map k | k in m :: if m[k] in owner then owner[m[k]] else 0
  }

  // A node `x` of timer `t` comes in under `k`, where it may take another one's place.
  lemma HeadsGain(m: map<int, Node>, owner: map<Node, Tid>, nodes: map<Tid, Node>, k: int, x: Node, t: Tid)
    requires OwnedBy(m, owner, nodes) && t !in HeadsOf(m, owner).Values && forall j :: j in m ==> m[j] != x
    ensures OwnedBy(m[k := x], owner[x := t], nodes[t := x])
    ensures HeadsOf(m[k := x], owner[x := t]) == HeadsOf(m, owner)[k := t]
  {
    forall j | j in m ensures owner[m[j]] != t { assert HeadsOf(m, owner)[j] == owner[m[j]]; }
    HeadsOfGain(m, owner, k, x, t);
    hide HeadsOf;
  }

  lemma HeadsOfGain(m: map<int, Node>, owner: map<Node, Tid>, k: int, x: Node, t: Tid)
    requires forall j :: j in m ==> m[j] != x
    ensures HeadsOf(m[k := x], owner[x := t]) == HeadsOf(m, owner)[k := t]
  {
    var a, b := HeadsOf(m[k := x], owner[x := t]), HeadsOf(m, owner)[k := t];
    assert a.Keys == b.Keys;
    forall j | j in a ensures a[j] == b[j] {
      if j != k { assert m[k := x][j] == m[j]; }
    }
  }

  lemma HeadsKeys(m: map<int, Node>, owner: map<Node, Tid>)
    ensures HeadsOf(m, owner).Keys == m.Keys
  {}

  lemma HeadsLose(m: map<int, Node>, owner: map<Node, Tid>, nodes: map<Tid, Node>, k: int)
    requires OwnedBy(m, owner, nodes)
    ensures OwnedBy(m - {k}, owner, nodes) && HeadsOf(m - {k}, owner) == HeadsOf(m, owner) - {k}
  {}

  class HeadTree {
    const avl: AvlMap
    var owner: map<Node, Tid>   // list_to_data: the timer a node is part of
    var nodes: map<Tid, Node>   // data_to_list: the node of a timer in the tree

    ghost function Repr(): set<object>
      reads this, avl
    {
      {this, avl} + Nodes(avl.tree)
    }

    ghost predicate Valid()
      reads this, avl, Nodes(avl.tree)
    {
      avl.Valid() && OwnedBy(avl.Entries(), owner, nodes)
    }

    // Which timer heads the chain of each id.
    ghost function Heads(): map<int, Tid>
      reads this, avl
    {
      HeadsOf(avl.Entries(), owner)
    }

    constructor ()
      ensures Valid() && Heads() == map[] && fresh(Repr())
    {
      EmptyMap();
      avl := new AvlMap();
      owner, nodes := map[], map[];
    }

    lemma NodeOfHead(k: int)
      requires Valid() && k in Heads()
      ensures Heads()[k] in nodes && nodes[Heads()[k]] in Nodes(avl.tree) && nodes[Heads()[k]].key == k
      ensures k in avl.Entries() && avl.Entries()[k] == nodes[Heads()[k]]
    {
      avl.EntriesAreNodes();
    }

    // avl_add2 on the node of timer `t`: the timer that heads the chain of `k` afterwards.
    method AddHead(k: int, t: Tid) returns (h: Tid)
      requires Valid() && t !in Heads().Values
      modifies Repr()
      ensures Valid() && fresh(Repr() - old(Repr()))
      ensures Heads() == if k in old(Heads()) then old(Heads()) else old(Heads())[k := t]
      ensures k in Heads() && h == Heads()[k]
    {
      hide MapOf, Inorder, AvlMap.Shaped, OwnedBy, HeadsOf;
      avl.EntriesAreNodes();
      OnHeap(avl.tree);
      ghost var m := avl.Entries();
      HeadsKeys(m, owner);
      var x := new Node(k);
      var e, _ := avl.Add(x);
      if e == x {
        HeadsGain(m, owner, nodes, k, x, t);
        owner := owner[x := t];
        nodes := nodes[t := x];
      }
      HeadOf(avl.Entries(), owner, nodes, k);
      h := owner[e];
    }

    // avl_del2 on the node of a head.
    method DropHead(k: int, t: Tid)
      requires Valid() && k in Heads() && Heads()[k] == t
      modifies Repr()
      ensures Valid() && fresh(Repr() - old(Repr()))
      ensures Heads() == old(Heads()) - {k}
    {
      NodeOfHead(k);
      hide MapOf, Inorder, AvlMap.Shaped, OwnedBy, HeadsOf;
      HeadsLose(avl.Entries(), owner, nodes, k);
      OnHeap(avl.tree);
      var _ := avl.Delete(nodes[t]);
    }

    method Exchanged(x: Node, y: Node)
      requires avl.Valid() && y in Nodes(avl.tree) && x !in Nodes(avl.tree) && x.key == y.key
      modifies avl, Nodes(avl.tree), x
      ensures avl.Valid() && Nodes(avl.tree) == old(Nodes(avl.tree)) - {y} + {x}
      ensures avl.Entries() == old(avl.Entries())[x.key := x]
    {
      var _ := avl.Replace(x, y);
    }

    // avl_replace2: the next timer of the chain takes the head's place in the tree.
    method HandOn(k: int, t: Tid, next: Tid)
      requires Valid() && k in Heads() && Heads()[k] == t && next !in Heads().Values
      modifies Repr()
      ensures Valid() && fresh(Repr() - old(Repr()))
      ensures Heads() == old(Heads())[k := next]
    {
      hide MapOf, Inorder, AvlMap.Shaped, OwnedBy, HeadsOf, Between, Ascending;
      NodeOfHead(k);
      avl.EntriesAreNodes();
      OnHeap(avl.tree);
      ghost var m := avl.Entries();
      var x := new Node(k);
      Exchanged(x, nodes[t]);
      HeadsGain(m, owner, nodes, k, x, next);
      owner := owner[x := next];
      nodes := nodes[next := x];
    }

    // avl_leftest_node.
    method First() returns (h: Option<Tid>)
      requires Valid()
      ensures Valid() && Heads() == old(Heads()) && Repr() == old(Repr())
      ensures h.None? <==> Heads() == map[]
      ensures h.Some? ==> exists k :: k in Heads() && Heads()[k] == h.value && forall j :: j in Heads() ==> k <= j
    {
      hide MapOf, Inorder, AvlMap.Shaped;
      OnHeap(avl.tree);
      var e := avl.Leftest();
      if e == null { return None; }
      assert e.key in Heads();
      return Some(owner[e]);
    }
  }

  lemma HeadOf(m: map<int, Node>, owner: map<Node, Tid>, nodes: map<Tid, Node>, k: int)
    requires OwnedBy(m, owner, nodes) && k in m
    ensures m[k] in owner && k in HeadsOf(m, owner) && HeadsOf(m, owner)[k] == owner[m[k]]
    ensures HeadsOf(m, owner).Keys == m.Keys
  {}
}
