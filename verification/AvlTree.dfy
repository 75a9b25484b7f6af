/**
  moon_avltree.c over real nodes: search, insertion, deletion and replacement,
  each proved to leave the heap spelling a well-formed AVL tree.
 */
module AvlTree {
  import opened AvlShape

  ghost predicate Ascending(s: seq<Node>) {
    forall i, j :: 0 <= i < j < |s| ==> s[i].key < s[j].key
  }

  ghost predicate AllBelow(s: seq<Node>, k: int) {
    forall i :: 0 <= i < |s| ==> s[i].key < k
  }

  ghost predicate AllAbove(s: seq<Node>, k: int) {
    forall i :: 0 <= i < |s| ==> s[i].key > k
  }

  // The entry with the greatest key not above `probe`, or none.
  ghost predicate IsFloor(s: seq<Node>, probe: int, e: Node?) {
    if e == null then AllAbove(s, probe)
    else e in s && e.key <= probe && forall n :: n in s && n.key <= probe ==> n.key <= e.key
  }

  ghost function Last(s: seq<Node>): Node? {
    if s == [] then null else s[|s| - 1]
  }

  lemma AscendingSplit(a: seq<Node>, x: Node, b: seq<Node>)
    requires Ascending(a + [x] + b)
    ensures AllBelow(a, x.key) && AllAbove(b, x.key)
  {
    var s := a + [x] + b;
    assert s[|a|] == x;
    assert forall i :: 0 <= i < |a| ==> a[i] == s[i];
    assert forall i :: 0 <= i < |b| ==> b[i] == s[|a| + 1 + i];
  }

  lemma AscendingJoin(a: seq<Node>, x: Node, b: seq<Node>)
    requires Ascending(a + b) && AllBelow(a, x.key) && AllAbove(b, x.key)
    ensures Ascending(a + [x] + b)
  {
    var s, u := a + [x] + b, a + b;
    assert forall i :: 0 <= i < |a| ==> s[i] == u[i] == a[i];
    assert forall i :: |a| < i < |s| ==> s[i] == u[i - 1] == b[i - 1 - |a|];
  }

  // A probe between `a` and `b` finds the last entry of `a`.
  lemma FloorBetween(a: seq<Node>, b: seq<Node>, probe: int)
    requires Ascending(a + b) && AllBelow(a, probe) && AllAbove(b, probe)
    ensures IsFloor(a + b, probe, Last(a))
  {
    var s := a + b;
    assert forall i :: 0 <= i < |a| ==> s[i] == a[i];
    assert forall i :: |a| <= i < |s| ==> s[i] == b[i - |a|];
    if a != [] {
      assert s[|a| - 1] == Last(a);
    }
  }

  ghost function Without(s: seq<Node>, i: nat): seq<Node>
    requires i < |s|
  {
    s[..i] + s[i + 1..]
  }

  lemma AscendingWithout(s: seq<Node>, i: nat)
    requires Ascending(s) && i < |s|
    ensures Ascending(Without(s, i)) && s[i] !in Without(s, i)
  {
    var u := Without(s, i);
    assert forall k :: 0 <= k < |u| ==> u[k] == if k < i then s[k] else s[k + 1];
  }

  lemma WithoutAt(s: seq<Node>, i: nat)
    requires i < |s|
    ensures |Without(s, i)| == |s| - 1
    ensures forall k :: 0 <= k < |s| - 1 ==> Without(s, i)[k] == if k < i then s[k] else s[k + 1]
  {
  }

  lemma KeysTell(s: seq<Node>, i: nat, j: nat)
    requires Ascending(s) && i < |s| && j < |s| && s[i] == s[j]
    ensures i == j
  {
  }

  // How a deletion of `z` reads on the order: `d`, at `pd`, is the leaf that is
  // unlinked; the marked nodes between it and `z`, at `pz`, each give their place
  // to the next one.
  ghost predicate Handover(order: seq<Node>, rest: seq<Node>, z: Node, d: Node, mark1: Node?, mark2: Node?,
                           pz: nat, pd: nat)
  {
    && pz < |order| && pd < |order| && order[pz] == z && order[pd] == d && rest == Without(order, pd)
    && if mark1 == null then mark2 == null && pd == pz
       else
         && mark1 == z
         && if mark2 == null then pd == pz + 1 || pz == pd + 1
            else
              || (pd == pz + 2 && order[pz + 1] == mark2)
              || (pz == pd + 2 && order[pd + 1] == mark2)
  }

  lemma HandoverRest(order: seq<Node>, rest: seq<Node>, z: Node, d: Node, mark1: Node?, mark2: Node?, pz: nat, pd: nat)
    requires Ascending(order) && Handover(order, rest, z, d, mark1, mark2, pz, pd)
    ensures d !in rest && Ascending(rest)
    ensures mark1 != null ==> z in rest && d != z
    ensures mark2 != null ==> mark2 in rest && mark2 != d && mark2 != z
  {
    AscendingWithout(order, pd);
    WithoutAt(order, pd);
    if mark1 != null {
      assert rest[if pz < pd then pz else pz - 1] == z;
      if mark2 != null {
        assert rest[if pz < pd then pz + 1 else pd] == mark2;
      }
    }
  }

  lemma HandoverOne(order: seq<Node>, rest: seq<Node>, z: Node, d: Node, pz: nat, pd: nat, i: nat)
    requires Ascending(order) && Handover(order, rest, z, d, z, null, pz, pd)
    requires i < |rest| && rest[i] == z
    ensures rest[i := d] == Without(order, pz)
  {
    WithoutAt(order, pd);
    WithoutAt(order, pz);
    KeysTell(order, pz, if i < pd then i else i + 1);
  }

  lemma HandoverTwo(order: seq<Node>, rest: seq<Node>, z: Node, d: Node, y: Node, pz: nat, pd: nat, i: nat, j: nat)
    requires Ascending(order) && Handover(order, rest, z, d, z, y, pz, pd)
    requires i < |rest| && rest[i] == y && j < |rest| && rest[i := d][j] == z
    ensures rest[i := d][j := y] == Without(order, pz)
  {
    WithoutAt(order, pd);
    WithoutAt(order, pz);
    KeysTell(order, if pz < pd then pz + 1 else pd + 1, if i < pd then i else i + 1);
    assert i != j;
    KeysTell(order, pz, if j < pd then j else j + 1);
  }

  // ---------- The finite map a tree stands for ----------

  // `m` is the finite map an ascending order stands for.
  ghost predicate Represents(s: seq<Node>, m: map<int, Node>) {
    && (forall n :: n in s ==> n.key in m && m[n.key] == n)
    && (forall k :: k in m ==> m[k] in s && m[k].key == k)
  }

  ghost function Under(s: seq<Node>, k: int): (n: Node)
    requires k in KeySet(s)
    ensures n in s && n.key == k
  {
    var n :| n in s && n.key == k;
    n
  }

  ghost function MapOf(s: seq<Node>): map<int, Node> {
    map k | k in KeySet(s) :: Under(s, k)
  }

  lemma MapRepresents(s: seq<Node>)
    requires Ascending(s)
    ensures Represents(s, MapOf(s))
  {
    forall n | n in s ensures n.key in KeySet(s) && Under(s, n.key) == n { OneUnder(s, Under(s, n.key), n); }
  }

  lemma MapHas(s: seq<Node>, n: Node)
    requires Ascending(s) && n in s
    ensures n.key in MapOf(s) && MapOf(s)[n.key] == n
  {
    MapRepresents(s);
  }

  lemma OneUnder(s: seq<Node>, m: Node, n: Node)
    requires Ascending(s) && m in s && n in s && m.key == n.key
    ensures m == n
  {
    var i :| 0 <= i < |s| && s[i] == m;
    var j :| 0 <= j < |s| && s[j] == n;
  }

  // An order stands for one map only.
  lemma RepresentsOne(s: seq<Node>, m: map<int, Node>)
    requires Ascending(s) && Represents(s, m)
    ensures m == MapOf(s)
  {
    MapRepresents(s);
    assert forall k :: k in m ==> m[k] in s && m[k].key == k;
    assert m.Keys == MapOf(s).Keys;
  }

  lemma InsertedMembers(s: seq<Node>, x: Node, at: nat)
    requires at <= |s|
    ensures forall n :: n in s[..at] + [x] + s[at..] <==> n == x || n in s
  {
    assert s == s[..at] + s[at..];
  }

  lemma RemovedMembers(s: seq<Node>, at: nat)
    requires at < |s| && Ascending(s)
    ensures forall n :: n in Without(s, at) <==> n in s && n != s[at]
  {
    assert s == s[..at] + [s[at]] + s[at + 1..];
    AscendingWithout(s, at);
  }

  lemma AddedEntry(s: seq<Node>, x: Node, at: nat)
    requires at <= |s| && Ascending(s) && Ascending(s[..at] + [x] + s[at..])
    ensures x.key !in MapOf(s) && MapOf(s[..at] + [x] + s[at..]) == MapOf(s)[x.key := x]
  {
    var u := s[..at] + [x] + s[at..];
    MapRepresents(s);
    InsertedMembers(s, x, at);
    AscendingSplit(s[..at], x, s[at..]);
    forall n | n in s ensures n.key != x.key {
      var i :| 0 <= i < |s| && s[i] == n;
      if i < at {
        assert s[..at][i] == n;
      } else {
        assert s[at..][i - at] == n;
      }
    }
    hide MapOf;
    RepresentsOne(u, MapOf(s)[x.key := x]);
  }

  lemma RemovedEntry(s: seq<Node>, at: nat)
    requires Ascending(s) && at < |s| && Ascending(Without(s, at))
    ensures s[at].key in MapOf(s) && MapOf(s)[s[at].key] == s[at]
    ensures MapOf(Without(s, at)) == MapOf(s) - {s[at].key}
  {
    MapRepresents(s);
    RemovedMembers(s, at);
    hide MapOf;
    assert s[at] in s;
    RepresentsOne(Without(s, at), MapOf(s) - {s[at].key});
  }

  lemma ExchangedEntry(s: seq<Node>, x: Node, at: nat)
    requires Ascending(s) && at < |s| && x.key == s[at].key
    ensures Ascending(s[at := x]) && MapOf(s[at := x]) == MapOf(s)[x.key := x]
  {
    MapRepresents(s);
    var u := s[at := x];
    assert s[at] in s;
    forall n | n in u && n != x ensures n in s && n.key != x.key {
      var i :| 0 <= i < |u| && u[i] == n;
    }
    forall n | n in s && n != s[at] ensures n in u {
      var i :| 0 <= i < |s| && s[i] == n;
      assert u[i] == n;
    }
    assert u[at] == x;
    hide MapOf;
    RepresentsOne(u, MapOf(s)[x.key := x]);
  }

  // A node with another key may take a place if and only if the key lies between the neighbours'.
  ghost predicate Between(s: seq<Node>, at: nat, key: int)
    requires at < |s|
  {
    (at > 0 ==> s[at - 1].key < key) && (at + 1 < |s| ==> key < s[at + 1].key)
  }

  lemma ExchangeFits(s: seq<Node>, x: Node, at: nat)
    requires Ascending(s) && at < |s|
    ensures Ascending(s[at := x]) <==> Between(s, at, x.key)
  {
    var u := s[at := x];
    if Ascending(u) {
      if at > 0 { assert u[at - 1].key < u[at].key; }
      if at + 1 < |s| { assert u[at].key < u[at + 1].key; }
    }
    if Between(s, at, x.key) {
      forall i, j | 0 <= i < j < |u| ensures u[i].key < u[j].key {
        if j == at && i < at - 1 { assert s[i].key < s[at - 1].key; }
        if i == at && j > at + 1 { assert s[at + 1].key < s[j].key; }
      }
    }
  }

  // The greatest key up to a probe, and the least key, of a finite map.
  ghost predicate MapFloor(m: map<int, Node>, probe: int, e: Node?) {
    if e == null then forall k :: k in m ==> probe < k
    else e.key in m && m[e.key] == e && e.key <= probe && forall k :: k in m && k <= probe ==> k <= e.key
  }

  ghost predicate MapLeast(m: map<int, Node>, e: Node?) {
    if e == null then m == map[] else e.key in m && m[e.key] == e && forall k :: k in m ==> e.key <= k
  }

  lemma FloorOfMap(s: seq<Node>, probe: int, e: Node?)
    requires Ascending(s) && IsFloor(s, probe, e)
    ensures MapFloor(MapOf(s), probe, e)
  {
    MapRepresents(s);
    forall k | k in MapOf(s) ensures MapOf(s)[k] in s && MapOf(s)[k].key == k {}
    hide MapOf;
    if e == null {
      forall k | k in MapOf(s) ensures probe < k {
        var i :| 0 <= i < |s| && s[i] == MapOf(s)[k];
      }
    }
  }

  lemma LeastOfMap(s: seq<Node>)
    requires Ascending(s)
    ensures MapLeast(MapOf(s), if s == [] then null else s[0])
  {
    MapRepresents(s);
    hide MapOf;
    if s != [] {
      assert s[0] in s;
      forall k | k in MapOf(s) ensures s[0].key <= k {
        var i :| 0 <= i < |s| && s[i] == MapOf(s)[k];
      }
    } else {
      assert MapOf(s) == map[];
    }
  }

  ghost function KeySet(s: seq<Node>): set<int> {
    set n | n in s :: n.key
  }

  lemma {:induction false} KeyCount(s: seq<Node>)
    requires Ascending(s)
    ensures |KeySet(s)| == |s|
  {
    if s != [] {
      var k, u := |s| - 1, s[..|s| - 1];
      KeyCount(u);
      assert s == u + [s[k]];
      forall n | n in u ensures n.key != s[k].key {
        var i :| 0 <= i < |u| && u[i] == n;
      }
      assert KeySet(s) == KeySet(u) + {s[k].key};
    }
  }

  // A probe's search has come down `c` to `t`: everything left behind on the way
  // lies on the right side of the probe.
  ghost predicate Narrowed(c: Path, t: Tree, order: seq<Node>, probe: int) {
    && Whole(c, t) == order && Ascending(order)
    && AllBelow(Before(c), probe) && AllAbove(After(c), probe)
  }

  lemma NarrowLeft(c: Path, t: Tree, order: seq<Node>, probe: int)
    requires Narrowed(c, t, order, probe) && t.Branch? && t.n.key > probe
    ensures Narrowed(InLeft(t.n, t.bal, t.r, c), t.l, order, probe)
  {
    AroundRoot(c, t, order);
    WholeBelow(c, t);
    var R, A := Inorder(t.r), After(c);
    var s := [t.n] + R + A;
    assert forall i :: 1 <= i < |s| ==> s[i] == (R + A)[i - 1];
  }

  lemma NarrowRight(c: Path, t: Tree, order: seq<Node>, probe: int)
    requires Narrowed(c, t, order, probe) && t.Branch? && t.n.key < probe
    ensures Narrowed(InRight(t.n, t.bal, t.l, c), t.r, order, probe)
  {
    AroundRoot(c, t, order);
    WholeBelow(c, t);
    var L, B := Inorder(t.l), Before(c);
    var s := B + L + [t.n];
    assert forall i :: 0 <= i < |s| - 1 ==> s[i] == (B + L)[i];
  }

  // Around the root of `t`, an ascending order splits.
  lemma AroundRoot(c: Path, t: Tree, order: seq<Node>)
    requires t.Branch? && Whole(c, t) == order && Ascending(order)
    ensures AllBelow(Before(c) + Inorder(t.l), t.n.key)
    ensures AllAbove(Inorder(t.r) + After(c), t.n.key)
    ensures order == (Before(c) + Inorder(t.l)) + [t.n] + (Inorder(t.r) + After(c))
  {
    var a, b := Before(c) + Inorder(t.l), Inorder(t.r) + After(c);
    assert Inorder(t) == Inorder(t.l) + [t.n] + Inorder(t.r);
    assert order == a + [t.n] + b;
    AscendingSplit(a, t.n, b);
  }

  lemma FoundIsFloor(c: Path, t: Tree, order: seq<Node>, probe: int)
    requires Narrowed(c, t, order, probe) && t.Branch? && t.n.key == probe
    ensures IsFloor(order, probe, t.n)
  {
    AroundRoot(c, t, order);
    assert order[|Before(c) + Inorder(t.l)|] == t.n;
  }

  class AvlMap {
    var root: Node?
    ghost var tree: Tree

    // Links, parents and balances are those of an AVL tree.
    ghost predicate Shaped()
      reads this, Nodes(tree)
    {
      At(Top, tree, root) && Balanced(tree) && Solid(tree, null)
    }

    ghost predicate Valid()
      reads this, Nodes(tree)
    {
      Shaped() && Ascending(Inorder(tree))
    }

    // The entries as a finite map from keys to nodes.
    ghost function Entries(): map<int, Node>
      reads this
    {
      MapOf(Inorder(tree))
    }

    constructor ()
      ensures Valid() && tree == Leaf
    {
      root, tree := null, Leaf;
    }

    // SET_LR: hang a subtree below `n` and point it back.
    method AttachLeft(n: Node, child: Node?, ghost t: Tree, ghost was: Node?)
      requires child == Root(t) && Linked(t, was) && n !in Nodes(t)
      modifies n`left, Nodes(t)`parent
      ensures n.left == child && Linked(t, n)
    {
      n.left := child;
      if n.left != null {
        n.left.parent := n;
      }
    }

    method AttachRight(n: Node, child: Node?, ghost t: Tree, ghost was: Node?)
      requires child == Root(t) && Linked(t, was) && n !in Nodes(t)
      modifies n`right, Nodes(t)`parent
      ensures n.right == child && Linked(t, n)
    {
      n.right := child;
      if n.right != null {
        n.right.parent := n;
      }
    }

    // SET_PARENT: `n` takes the place `other` has under its parent.
    method TakePlace(n: Node, other: Node, ghost c: Path)
      requires other.parent == Holder(c) && PathLinked(c, other, root)
      requires n !in PathNodes(c) && other !in PathNodes(c)
      modifies this`root, n`parent, PathNodes(c)`left, PathNodes(c)`right
      ensures n.parent == Holder(c) && PathLinked(c, n, root)
    {
      n.parent := other.parent;
      if n.parent == null {
        root := n;
      } else if n.parent.left == other {
        n.parent.left := n;
      } else {
        n.parent.right := n;
      }
    }

    // avl_balance moves subtrees first and then seats the nodes and stores the
    // new balances; the seating touches only the nodes themselves.
    method SeatSingle(p: Node, axis: Node, side: int)
      requires p != axis && (side == 1 || side == -1)
      modifies p`parent, p`balance, axis`left, axis`right, axis`balance
      ensures p.parent == axis
      ensures axis.left == (if side == 1 then p else old(axis.left))
      ensures axis.right == (if side == 1 then old(axis.right) else p)
      ensures p.balance == (if old(axis.balance) == 0 then side else 0)
      ensures axis.balance == (if old(axis.balance) == 0 then -side else 0)
    {
      if side == 1 {
        axis.left := p;
      } else {
        axis.right := p;
      }
      p.parent := axis;
      if axis.balance == 0 {
        p.balance := side;
        axis.balance := -side;
      } else {
        axis.balance := 0;
        p.balance := 0;
      }
    }

    method TurnLeft(p: Node, axis: Node, ghost c: Path, ghost l: Tree, ghost rl: Tree, ghost rr: Tree)
      requires p.parent == Holder(c) && PathLinked(c, p, root)
      requires p.right == axis && axis.left == Root(rl)
      requires Linked(l, p) && Linked(rl, axis) && Linked(rr, axis)
      requires p != axis && {p, axis} !! Nodes(l) !! Nodes(rl) !! Nodes(rr) !! PathNodes(c)
      modifies this`root, p, axis, Nodes(rl)`parent, PathNodes(c)`left, PathNodes(c)`right
      ensures Linked(l, p) && Linked(rl, p) && Linked(rr, axis) && PathLinked(c, axis, root)
      ensures p.left == old(p.left) && p.right == Root(rl) && p.parent == axis
      ensures axis.left == p && axis.right == old(axis.right) && axis.parent == Holder(c)
      ensures p.balance == (if old(axis.balance) == 0 then 1 else 0)
      ensures axis.balance == (if old(axis.balance) == 0 then -1 else 0)
    {
      hide *;
      OnHeap(l); OnHeap(rl); OnHeap(rr); PathOnHeap(c);
      AttachRight(p, axis.left, rl, axis);
      TakePlace(axis, p, c);
      SeatSingle(p, axis, 1);
    }

    method TurnRight(p: Node, axis: Node, ghost c: Path, ghost ll: Tree, ghost lr: Tree, ghost r: Tree)
      requires p.parent == Holder(c) && PathLinked(c, p, root)
      requires p.left == axis && axis.right == Root(lr)
      requires Linked(r, p) && Linked(ll, axis) && Linked(lr, axis)
      requires p != axis && {p, axis} !! Nodes(r) !! Nodes(ll) !! Nodes(lr) !! PathNodes(c)
      modifies this`root, p, axis, Nodes(lr)`parent, PathNodes(c)`left, PathNodes(c)`right
      ensures Linked(r, p) && Linked(lr, p) && Linked(ll, axis) && PathLinked(c, axis, root)
      ensures p.right == old(p.right) && p.left == Root(lr) && p.parent == axis
      ensures axis.right == p && axis.left == old(axis.left) && axis.parent == Holder(c)
      ensures p.balance == (if old(axis.balance) == 0 then -1 else 0)
      ensures axis.balance == (if old(axis.balance) == 0 then 1 else 0)
    {
      hide *;
      OnHeap(r); OnHeap(ll); OnHeap(lr); PathOnHeap(c);
      AttachLeft(p, axis.right, lr, axis);
      TakePlace(axis, p, c);
      SeatSingle(p, axis, -1);
    }

    // After a double rotation `a` sits on the left of the axis and `b` on its right.
    method SeatDouble(a: Node, axis: Node, b: Node)
      requires a != axis && b != axis && a != b
      modifies a`parent, a`balance, b`parent, b`balance, axis`left, axis`right, axis`balance
      ensures axis.left == a && axis.right == b && a.parent == axis && b.parent == axis
      ensures axis.balance == 0
      ensures a.balance == (if old(axis.balance) == 1 then -1 else 0)
      ensures b.balance == (if old(axis.balance) == -1 then 1 else 0)
    {
      axis.left := a;
      a.parent := axis;
      axis.right := b;
      b.parent := axis;
      a.balance := 0;
      b.balance := 0;
      if axis.balance == 1 {
        a.balance := -1;
      } else if axis.balance == -1 {
        b.balance := 1;
      }
      axis.balance := 0;
    }

    method HandOver(a: Node, axis: Node, b: Node, ghost al: Tree, ghost ar: Tree)
      requires axis.left == Root(al) && axis.right == Root(ar)
      requires Linked(al, axis) && Linked(ar, axis)
      requires a != axis && b != axis && a != b && {a, b, axis} !! Nodes(al) !! Nodes(ar)
      modifies a`right, b`left, Nodes(al)`parent, Nodes(ar)`parent
      ensures Linked(al, a) && Linked(ar, b) && a.right == Root(al) && b.left == Root(ar)
    {
      hide *;
      OnHeap(al); OnHeap(ar);
      AttachRight(a, axis.left, al, axis);
      AttachLeft(b, axis.right, ar, axis);
    }

    // `top` is the node the path leads to: the left one when its right side was
    // heavy, the right one when its left side was.
    method TurnDouble(a: Node, axis: Node, b: Node, top: Node, ghost c: Path,
                      ghost la: Tree, ghost al: Tree, ghost ar: Tree, ghost rb: Tree)
      requires top == a || top == b
      requires top.parent == Holder(c) && PathLinked(c, top, root)
      requires axis.left == Root(al) && axis.right == Root(ar)
      requires Linked(la, a) && Linked(al, axis) && Linked(ar, axis) && Linked(rb, b)
      requires a != axis && b != axis && a != b
      requires {a, b, axis} !! Nodes(la) !! Nodes(al) !! Nodes(ar) !! Nodes(rb) !! PathNodes(c)
      modifies this`root, a, b, axis, Nodes(al)`parent, Nodes(ar)`parent, PathNodes(c)`left, PathNodes(c)`right
      ensures Linked(la, a) && Linked(al, a) && Linked(ar, b) && Linked(rb, b) && PathLinked(c, axis, root)
      ensures a.left == old(a.left) && a.right == Root(al) && a.parent == axis
      ensures b.left == Root(ar) && b.right == old(b.right) && b.parent == axis
      ensures axis.left == a && axis.right == b && axis.parent == Holder(c) && axis.balance == 0
      ensures a.balance == (if old(axis.balance) == 1 then -1 else 0)
      ensures b.balance == (if old(axis.balance) == -1 then 1 else 0)
    {
      hide *;
      OnHeap(la); OnHeap(al); OnHeap(ar); OnHeap(rb); PathOnHeap(c);
      HandOver(a, axis, b, al, ar);
      TakePlace(axis, top, c);
      SeatDouble(a, axis, b);
    }

    method LiftRight(p: Node, ghost c: Path, ghost t: Tree) returns (axis: Node)
      requires At(c, t, root) && Lopsided(t) && t.n == p && t.bal == 2
      modifies this`root, Nodes(t), PathNodes(c)
      ensures At(c, Rebalanced(t), root) && axis == Root(Rebalanced(t))
    {
      assert t.r.Branch? && (t.r.bal < 0 ==> t.r.l.Branch?);
      var tmp := p.right;
      assert Linked(t.r, p);
      if tmp.balance >= 0 {
        axis := tmp;
        TurnLeft(p, axis, c, t.l, t.r.l, t.r.r);
      } else {
        axis := tmp.left;
        assert Linked(t.r.l, tmp);
        TurnDouble(p, axis, tmp, p, c, t.l, t.r.l.l, t.r.l.r, t.r.r);
      }
    }

    method LiftLeft(p: Node, ghost c: Path, ghost t: Tree) returns (axis: Node)
      requires At(c, t, root) && Lopsided(t) && t.n == p && t.bal == -2
      modifies this`root, Nodes(t), PathNodes(c)
      ensures At(c, Rebalanced(t), root) && axis == Root(Rebalanced(t))
    {
      assert t.l.Branch? && (t.l.bal > 0 ==> t.l.r.Branch?);
      var tmp := p.left;
      assert Linked(t.l, p);
      if tmp.balance <= 0 {
        axis := tmp;
        TurnRight(p, axis, c, t.l.l, t.l.r, t.r);
      } else {
        axis := tmp.right;
        assert Linked(t.l.r, tmp);
        TurnDouble(tmp, axis, p, p, c, t.l.l, t.l.r.l, t.l.r.r, t.r);
      }
    }

    // avl_balance: the result is null exactly when the subtree kept its height,
    // which is what stops a deletion's walk upward.
    method Balance(p: Node, ghost c: Path, ghost t: Tree) returns (axis: Node?)
      requires At(c, t, root) && Lopsided(t) && t.n == p
      modifies this`root, Nodes(t), PathNodes(c)
      ensures At(c, Rebalanced(t), root)
      ensures axis == if Heavy(t).bal == 0 then null else Root(Rebalanced(t))
    {
      var even: bool;
      assert Linked(Heavy(t), p);
      if p.balance == 2 {
        even := p.right.balance == 0;
        axis := LiftRight(p, c, t);
      } else {
        even := p.left.balance == 0;
        axis := LiftLeft(p, c, t);
      }
      if even {
        axis := null;
      }
    }

    // Store a new balance one level up, and look at the tree from there.
    method Rise(p: Node, b: int, ghost c: Path, ghost t: Tree)
      requires At(c, t, root) && !c.Top? && p == c.n
      modifies p`balance
      ensures At(c.up, Joined(c, t, b), root)
    {
      p.balance := b;
    }

    // Where a walk upward stands: the heap spells `t` at the end of `c`, and the
    // whole tree still holds the nodes `all` in the order `order`.
    ghost predicate Walking(c: Path, t: Tree, all: set<Node>, order: seq<Node>, d: Node?)
      reads this, Nodes(t), PathNodes(c)
    {
      && At(c, t, root) && Nodes(t) + PathNodes(c) == all && Whole(c, t) == order
      && Solid(t, d) && PathSolid(c, null) && PathSolid(c, d)
    }

    // One level up, with the lean of this level stored.
    method Climb(cur: Node, p: Node, toward: int, ghost c: Path, ghost t: Tree,
                 ghost all: set<Node>, ghost order: seq<Node>, ghost d: Node?) returns (b: int)
      requires Walking(c, t, all, order, d) && !c.Top? && p == c.n && Root(t) == cur
      modifies p`balance
      ensures b == Leaned(c, toward) && p.balance == b
      ensures Walking(c.up, Joined(c, t, b), all, order, d)
    {
      b := if p.left == cur then p.balance - toward else p.balance + toward;
      JoinedOrder(c, t, b, d);
      Rise(p, b, c, t);
    }

    method Turn(p: Node, ghost c: Path, ghost t: Tree,
                ghost all: set<Node>, ghost order: seq<Node>, ghost d: Node?) returns (axis: Node?)
      requires Walking(c, t, all, order, d) && Lopsided(t) && t.n == p
      modifies this`root, all
      ensures Walking(c, Rebalanced(t), all, order, d)
      ensures axis == if Heavy(t).bal == 0 then null else Root(Rebalanced(t))
    {
      RebalancedKeepsNodes(t);
      RebalancedKeepsOrder(t);
      RebalancedKeepsSolid(t, d);
      axis := Balance(p, c, t);
    }

    // What a walk may rely on: the parent pointer leads along the path.
    lemma OneUp(c: Path, t: Tree, all: set<Node>, order: seq<Node>, d: Node?)
      requires Walking(c, t, all, order, d) && Root(t) != null
      ensures Root(t).parent == Holder(c)
      ensures !c.Top? ==> c.n in all
    {
    }

    lemma WalkOver(c: Path, t: Tree)
      requires c.Top? && Balanced(t)
      ensures Settled(c, t)
    {
    }

    // The walk of avl_add2 above a subtree that has grown.
    method Grow(x: Node, ghost c0: Path, ghost t0: Tree, ghost all: set<Node>, ghost order: seq<Node>)
      requires Walking(c0, t0, all, order, null) && Root(t0) == x && Grown(c0, t0)
      modifies this, all
      ensures Walking(Top, tree, all, order, null) && Balanced(tree)
    {
      hide Walking, PathBalanced, Balanced, Settled, PathNodes;
      ghost var c, t := c0, t0;
      var cur := x;
      OneUp(c, t, all, order, null);
      while cur.parent != null
        invariant Walking(c, t, all, order, null) && Root(t) == cur && Grown(c, t)
        invariant cur.parent == Holder(c) && (!c.Top? ==> c.n in all)
        decreases c
      {
        var p := cur.parent;
        GrowStep(c, t);
        var b := Climb(cur, p, 1, c, t, all, order, null);
        c, t := c.up, Joined(c, t, b);
        if b == 0 {
          break;
        } else if b == 1 || b == -1 {
          cur := p;
          OneUp(c, t, all, order, null);
        } else {
          var _ := Turn(p, c, t, all, order, null);
          t := Rebalanced(t);
          break;
        }
      }
      if c.Top? && Grown(c, t) {
        WalkOver(c, t);
      }
      Finish(c, t, all, order, null);
    }

    // The walk is over: record the tree it left.
    ghost method Finish(c: Path, t: Tree, all: set<Node>, order: seq<Node>, d: Node?)
      requires Walking(c, t, all, order, d) && Settled(c, t)
      modifies this`tree
      ensures tree == Plug(c, t) && Walking(Top, tree, all, order, d) && Balanced(tree)
    {
      PlugLinked(c, t, root);
      PlugOrder(c, t);
      PlugBalanced(c, t);
      PlugSolid(c, t, d);
      tree := Plug(c, t);
    }

    // The walk of avl_del2 above the doomed leaf, which stays linked throughout.
    method Shrink(leaf: Node, ghost c0: Path, ghost all: set<Node>, ghost order: seq<Node>)
      requires Walking(c0, Doomed(leaf), all, order, leaf) && Shrunk(c0, Doomed(leaf))
      modifies this, all
      ensures Walking(Top, tree, all, order, leaf) && Balanced(tree)
    {
      hide Walking, PathBalanced, Balanced, Settled, PathNodes;
      ghost var c, t := c0, Doomed(leaf);
      var cur: Node := leaf;
      OneUp(c, t, all, order, leaf);
      while cur.parent != null
        invariant Walking(c, t, all, order, leaf) && Root(t) == cur && Shrunk(c, t)
        invariant cur.parent == Holder(c) && (!c.Top? ==> c.n in all)
        decreases c
      {
        var p := cur.parent;
        ShrinkStep(c, t);
        var b := Climb(cur, p, -1, c, t, all, order, leaf);
        c, t := c.up, Joined(c, t, b);
        if b == 1 || b == -1 {
          break;
        } else if b == 0 {
          cur := p;
          OneUp(c, t, all, order, leaf);
        } else {
          var axis := Turn(p, c, t, all, order, leaf);
          t := Rebalanced(t);
          if axis == null {
            break;
          }
          cur := axis;
          OneUp(c, t, all, order, leaf);
        }
      }
      if c.Top? && Shrunk(c, t) {
        WalkOver(c, t);
      }
      Finish(c, t, all, order, leaf);
    }

    // A walk down may go to either child.
    lemma Descend(c: Path, t: Tree, all: set<Node>, order: seq<Node>)
      requires Walking(c, t, all, order, null) && Settled(c, t) && t.Branch?
      ensures var cl := InLeft(t.n, t.bal, t.r, c);
              Walking(cl, t.l, all, order, null) && Settled(cl, t.l)
      ensures var cr := InRight(t.n, t.bal, t.l, c);
              Walking(cr, t.r, all, order, null) && Settled(cr, t.r)
    {
      DescendLeft(c, t, all, order);
      DescendRight(c, t, all, order);
      hide Walking, Settled;
    }

    lemma DescendLeft(c: Path, t: Tree, all: set<Node>, order: seq<Node>)
      requires Walking(c, t, all, order, null) && Settled(c, t) && t.Branch?
      ensures var cl := InLeft(t.n, t.bal, t.r, c);
              Walking(cl, t.l, all, order, null) && Settled(cl, t.l)
    {
      hide Whole;
      WholeBelow(c, t);
    }

    lemma DescendRight(c: Path, t: Tree, all: set<Node>, order: seq<Node>)
      requires Walking(c, t, all, order, null) && Settled(c, t) && t.Branch?
      ensures var cr := InRight(t.n, t.bal, t.l, c);
              Walking(cr, t.r, all, order, null) && Settled(cr, t.r)
    {
      hide Whole;
      WholeBelow(c, t);
    }

    // avl_search2, with the number of comparisons it made.
    method Search(probe: int) returns (e: Node?, ghost compared: nat)
      requires Valid()
      ensures MapFloor(Entries(), probe, e)
      ensures compared <= Height(tree)
    {
      e, compared := SearchDown(probe);
      FloorOfMap(Inorder(tree), probe, e);
    }

    method SearchDown(probe: int) returns (e: Node?, ghost compared: nat)
      requires Valid()
      ensures IsFloor(Inorder(tree), probe, e)
      ensures compared <= Height(tree)
    {
      hide Narrowed, IsFloor, Ascending, At, PathLinked, PathBalanced;
      ghost var c, t := Top, tree;
      var cur := root;
      e := null;
      compared := 0;
      StartNarrow(probe);
      while cur != null
        invariant Linked(t, Holder(c)) && Root(t) == cur && Solid(t, null)
        invariant Narrowed(c, t, Inorder(tree), probe) && e == Last(Before(c))
        invariant compared + Height(t) <= Height(tree)
        decreases t
      {
        compared := compared + 1;
        if cur.key > probe {
          NarrowLeft(c, t, Inorder(tree), probe);
          cur := cur.left;
          c, t := InLeft(t.n, t.bal, t.r, c), t.l;
        } else if cur.key < probe {
          NarrowRight(c, t, Inorder(tree), probe);
          e := cur;
          cur := cur.right;
          c, t := InRight(t.n, t.bal, t.l, c), t.r;
        } else {
          FoundIsFloor(c, t, Inorder(tree), probe);
          e := cur;
          return;
        }
      }
      EndNarrow(c, probe);
    }

    lemma StartNarrow(probe: int)
      requires Valid()
      ensures Narrowed(Top, tree, Inorder(tree), probe) && Linked(tree, null) && Root(tree) == root
    {
    }

    lemma EndNarrow(c: Path, probe: int)
      requires Narrowed(c, Leaf, Inorder(tree), probe)
      ensures IsFloor(Inorder(tree), probe, Last(Before(c)))
    {
      assert Whole(c, Leaf) == Before(c) + After(c);
      FloorBetween(Before(c), After(c), probe);
    }

    // The search of avl_add2: an equal entry, or the empty place for the key.
    method FindSlot(key: int) returns (found: Node?, parent: Node?, goLeft: bool, ghost c: Path)
      requires Valid()
      ensures found != null ==> found in Inorder(tree) && found.key == key
      ensures found == null ==>
                && Walking(c, Leaf, Nodes(tree), Inorder(tree), null) && Settled(c, Leaf)
                && Narrowed(c, Leaf, Inorder(tree), key)
                && parent == Holder(c) && (parent != null ==> (goLeft <==> c.InLeft?))
    {
      hide Narrowed, Settled, IsFloor, Ascending, PathLinked;
      ghost var t := tree;
      c, found, parent, goLeft := Top, null, null, false;
      var cur := root;
      StartSlot(key);
      while cur != null
        invariant Walking(c, t, Nodes(tree), Inorder(tree), null) && Root(t) == cur && Settled(c, t)
        invariant Narrowed(c, t, Inorder(tree), key)
        invariant parent == Holder(c) && (parent != null ==> (goLeft <==> c.InLeft?))
        decreases t
      {
        parent := cur;
        Descend(c, t, Nodes(tree), Inorder(tree));
        if cur.key > key {
          NarrowLeft(c, t, Inorder(tree), key);
          goLeft, cur := true, cur.left;
          c, t := InLeft(t.n, t.bal, t.r, c), t.l;
        } else if cur.key < key {
          NarrowRight(c, t, Inorder(tree), key);
          goLeft, cur := false, cur.right;
          c, t := InRight(t.n, t.bal, t.l, c), t.r;
        } else {
          FoundInOrder(c, t, key);
          found := cur;
          return;
        }
      }
    }

    lemma StartSlot(key: int)
      requires Valid()
      ensures Narrowed(Top, tree, Inorder(tree), key)
      ensures Walking(Top, tree, Nodes(tree), Inorder(tree), null) && Settled(Top, tree)
      ensures Root(tree) == root
    {
    }

    lemma FoundInOrder(c: Path, t: Tree, key: int)
      requires Narrowed(c, t, Inorder(tree), key) && t.Branch? && t.n.key == key
      ensures t.n in Inorder(tree)
    {
      FoundIsFloor(c, t, Inorder(tree), key);
    }

    // avl_add2 writes the new node through the pointer its search stopped at.
    method Hang(parent: Node?, goLeft: bool, x: Node, ghost c: Path)
      requires PathLinked(c, null, root) && parent == Holder(c) && (parent != null ==> (goLeft <==> c.InLeft?))
      requires x !in PathNodes(c) && x.left == null && x.right == null && x.balance == 0
      modifies this`root, x`parent, PathNodes(c)`left, PathNodes(c)`right
      ensures At(c, Branch(x, 0, Leaf, Leaf), root)
    {
      if parent == null {
        root := x;
      } else if goLeft {
        parent.left := x;
      } else {
        parent.right := x;
      }
      x.parent := parent;
    }

    method Insert(x: Node, parent: Node?, goLeft: bool, ghost c: Path) returns (ghost at: nat)
      requires Walking(c, Leaf, Nodes(tree), Inorder(tree), null) && Settled(c, Leaf)
      requires Narrowed(c, Leaf, Inorder(tree), x.key)
      requires parent == Holder(c) && (parent != null ==> (goLeft <==> c.InLeft?))
      requires x !in Nodes(tree) && x.left == null && x.right == null && x.balance == 0
      modifies this, Nodes(tree), x
      ensures Valid() && Nodes(tree) == old(Nodes(tree)) + {x} && at <= |old(Inorder(tree))|
      ensures Inorder(tree) == old(Inorder(tree))[..at] + [x] + old(Inorder(tree))[at..]
    {
      ghost var order := Inorder(tree);
      assert order == Before(c) + After(c);
      Hang(parent, goLeft, x, c);
      StartGrowth(x, c, Nodes(tree));
      Grow(x, c, Branch(x, 0, Leaf, Leaf), Nodes(tree) + {x}, Before(c) + [x] + After(c));
      assert Inorder(tree) == Whole(Top, tree);
      AscendingJoin(Before(c), x, After(c));
      at := |Before(c)|;
      assert order[..at] == Before(c) && order[at..] == After(c);
    }

    lemma StartGrowth(x: Node, c: Path, all: set<Node>)
      requires At(c, Branch(x, 0, Leaf, Leaf), root) && Settled(c, Leaf)
      requires PathNodes(c) == all && PathSolid(c, null)
      ensures Walking(c, Branch(x, 0, Leaf, Leaf), all + {x}, Before(c) + [x] + After(c), null)
      ensures Grown(c, Branch(x, 0, Leaf, Leaf))
    {
      assert Inorder(Branch(x, 0, Leaf, Leaf)) == [x];
    }

    // avl_add2: either the tree already has an entry with this key, which is
    // returned and nothing changes, or the node is inserted in its place.
    method Add(x: Node) returns (e: Node, ghost at: nat)
      requires Valid() && x !in Nodes(tree)
      requires x.left == null && x.right == null && x.parent == null && x.balance == 0
      modifies this, Nodes(tree), x
      ensures Valid()
      ensures e != x ==>
                && e in Inorder(tree) && e.key == x.key && tree == old(tree)
                && unchanged(x) && root == old(root)
      ensures e == x ==>
                && at <= |old(Inorder(tree))| && Nodes(tree) == old(Nodes(tree)) + {x}
                && Inorder(tree) == old(Inorder(tree))[..at] + [x] + old(Inorder(tree))[at..]
      ensures e == x <==> x.key !in old(Entries())
      ensures e != x ==> old(Entries())[x.key] == e && Entries() == old(Entries())
      ensures e == x ==> Entries() == old(Entries())[x.key := x]
    {
      e, at := AddEntry(x);
      ghost var s := old(Inorder(tree));
      hide Shaped, Inorder, Nodes, Represents;
      if e == x {
        AddedEntry(s, x, at);
      } else {
        MapHas(s, e);
      }
    }

    method AddEntry(x: Node) returns (e: Node, ghost at: nat)
      requires Valid() && x !in Nodes(tree)
      requires x.left == null && x.right == null && x.parent == null && x.balance == 0
      modifies this, Nodes(tree), x
      ensures Valid()
      ensures e != x ==>
                && e in Inorder(tree) && e.key == x.key && tree == old(tree)
                && unchanged(x) && root == old(root)
      ensures e == x ==>
                && at <= |old(Inorder(tree))| && Nodes(tree) == old(Nodes(tree)) + {x}
                && Inorder(tree) == old(Inorder(tree))[..at] + [x] + old(Inorder(tree))[at..]
    {
      hide Linked, PathLinked, Narrowed, Settled, Balanced, Ascending;
      OnHeap(tree);
      var found, parent, goLeft, c := FindSlot(x.key);
      if found != null {
        SolidNodes(tree);
        return found, 0;
      }
      at := Insert(x, parent, goLeft, c);
      e := x;
    }

    // From here on a leaf counts as gone although it is still linked.
    lemma Doom(d: Node, c: Path, t: Tree, all: set<Node>, order: seq<Node>)
      requires Walking(c, t, all, order, null) && Settled(c, t)
      requires t.Branch? && t.n == d && t.l == Leaf && t.r == Leaf
      ensures Walking(c, Doomed(d), all, Before(c) + After(c), d) && Shrunk(c, Doomed(d))
      ensures order == Before(c) + [d] + After(c)
    {
      PathSolidAny(c, d);
      assert Inorder(t) == [d];
    }

    // The node a descent to the right ends at has at most a leaf on its left.
    lemma OneChild(c: Path, t: Tree)
      requires Settled(c, t) && t.Branch? && (t.l == Leaf || t.r == Leaf) && Solid(t, null)
      ensures var u := if t.r == Leaf then t.l else t.r;
              u == Leaf || (u.Branch? && u.l == Leaf && u.r == Leaf)
    {
      var u := if t.r == Leaf then t.l else t.r;
      assert Solid(u, null) && Height(u) <= 1;
      if u.Branch? {
        assert Height(u.l) == 0 && Height(u.r) == 0 && Solid(u.l, null) && Solid(u.r, null);
      }
    }

    lemma DoomBefore(c: Path, t: Tree, all: set<Node>, order: seq<Node>, z: Node, S: seq<Node>)
      requires Walking(c, t, all, order, null) && Settled(c, t) && t.Branch? && t.l == Leaf && t.r == Leaf
      requires After(c) == [z] + S
      ensures Walking(c, Doomed(t.n), all, Before(c) + After(c), t.n) && Shrunk(c, Doomed(t.n))
      ensures Handover(order, Before(c) + After(c), z, t.n, z, null, |Before(c)| + 1, |Before(c)|)
    {
      Doom(t.n, c, t, all, order);
      assert order == Before(c) + [t.n] + ([z] + S);
    }

    lemma DoomBeforeChild(c: Path, t: Tree, all: set<Node>, order: seq<Node>, z: Node, S: seq<Node>)
      requires Walking(c, t, all, order, null) && Settled(c, t) && t.Branch? && t.r == Leaf
      requires t.l.Branch? && t.l.l == Leaf && t.l.r == Leaf && After(c) == [z] + S
      ensures var c1 := InLeft(t.n, t.bal, t.r, c);
              && Walking(c1, Doomed(t.l.n), all, Before(c1) + After(c1), t.l.n) && Shrunk(c1, Doomed(t.l.n))
              && Handover(order, Before(c1) + After(c1), z, t.l.n, z, t.n, |Before(c)| + 2, |Before(c)|)
    {
      var c1, x := InLeft(t.n, t.bal, t.r, c), t.l.n;
      Descend(c, t, all, order);
      Doom(x, c1, t.l, all, order);
      assert order == Before(c) + [x] + ([t.n] + [z] + S);
    }

    lemma DoomAfter(c: Path, t: Tree, all: set<Node>, order: seq<Node>, z: Node, A: seq<Node>)
      requires Walking(c, t, all, order, null) && Settled(c, t) && t.Branch? && t.l == Leaf && t.r == Leaf
      requires Before(c) == A + [z]
      ensures Walking(c, Doomed(t.n), all, Before(c) + After(c), t.n) && Shrunk(c, Doomed(t.n))
      ensures Handover(order, Before(c) + After(c), z, t.n, z, null, |A|, |A| + 1)
    {
      Doom(t.n, c, t, all, order);
      assert order == (A + [z]) + [t.n] + After(c);
    }

    lemma DoomAfterChild(c: Path, t: Tree, all: set<Node>, order: seq<Node>, z: Node, A: seq<Node>)
      requires Walking(c, t, all, order, null) && Settled(c, t) && t.Branch? && t.l == Leaf
      requires t.r.Branch? && t.r.l == Leaf && t.r.r == Leaf && Before(c) == A + [z]
      ensures var c1 := InRight(t.n, t.bal, t.l, c);
              && Walking(c1, Doomed(t.r.n), all, Before(c1) + After(c1), t.r.n) && Shrunk(c1, Doomed(t.r.n))
              && Handover(order, Before(c1) + After(c1), z, t.r.n, z, t.n, |A|, |A| + 2)
    {
      var c1, x := InRight(t.n, t.bal, t.l, c), t.r.n;
      Descend(c, t, all, order);
      Doom(x, c1, t.r, all, order);
      assert Before(c1) == A + [z] + [t.n];
      assert order == (A + [z] + [t.n]) + [x] + After(c);
    }

    // The last node of the left subtree of `z`, or that node's own left child.
    method PickBefore(z: Node, ghost c0: Path, ghost t0: Tree, ghost all: set<Node>, ghost order: seq<Node>)
      returns (d: Node, mark2: Node?, ghost c: Path, ghost pz: nat, ghost pd: nat)
      requires Walking(c0, t0, all, order, null) && Settled(c0, t0)
      requires t0.Branch? && t0.n == z && t0.l.Branch?
      ensures Walking(c, Doomed(d), all, Before(c) + After(c), d) && Shrunk(c, Doomed(d))
      ensures Handover(order, Before(c) + After(c), z, d, z, mark2, pz, pd)
    {
      hide Settled, Shrunk, Handover, PathLinked, PathSolid;
      Descend(c0, t0, all, order);
      ghost var t := t0.l;
      c := InLeft(z, t0.bal, t0.r, c0);
      ghost var S := Inorder(t0.r) + After(c0);
      assert After(c) == [z] + S;
      d := z.left;
      while d.right != null
        invariant Walking(c, t, all, order, null) && Settled(c, t) && Root(t) == d && After(c) == [z] + S
        decreases t
      {
        Descend(c, t, all, order);
        d := d.right;
        c, t := InRight(t.n, t.bal, t.l, c), t.r;
      }
      OneChild(c, t);
      pd := |Before(c)|;
      if d.left != null {
        mark2 := d;
        d := d.left;
        pz := pd + 2;
        DoomBeforeChild(c, t, all, order, z, S);
        c := InLeft(t.n, t.bal, t.r, c);
      } else {
        mark2 := null;
        pz := pd + 1;
        DoomBefore(c, t, all, order, z, S);
      }
    }

    // The first node of the right subtree of `z`, or that node's own right child.
    method PickAfter(z: Node, ghost c0: Path, ghost t0: Tree, ghost all: set<Node>, ghost order: seq<Node>)
      returns (d: Node, mark2: Node?, ghost c: Path, ghost pz: nat, ghost pd: nat)
      requires Walking(c0, t0, all, order, null) && Settled(c0, t0)
      requires t0.Branch? && t0.n == z && t0.r.Branch?
      ensures Walking(c, Doomed(d), all, Before(c) + After(c), d) && Shrunk(c, Doomed(d))
      ensures Handover(order, Before(c) + After(c), z, d, z, mark2, pz, pd)
    {
      hide Settled, Shrunk, Handover, PathLinked, PathSolid;
      Descend(c0, t0, all, order);
      ghost var t := t0.r;
      c := InRight(z, t0.bal, t0.l, c0);
      ghost var A := Before(c0) + Inorder(t0.l);
      d := z.right;
      while d.left != null
        invariant Walking(c, t, all, order, null) && Settled(c, t) && Root(t) == d && Before(c) == A + [z]
        decreases t
      {
        Descend(c, t, all, order);
        d := d.left;
        c, t := InLeft(t.n, t.bal, t.r, c), t.l;
      }
      OneChild(c, t);
      pz := |A|;
      if d.right != null {
        mark2 := d;
        d := d.right;
        pd := pz + 2;
        DoomAfterChild(c, t, all, order, z, A);
        c := InRight(t.n, t.bal, t.l, c);
      } else {
        mark2 := null;
        pd := pz + 1;
        DoomAfter(c, t, all, order, z, A);
      }
    }

    // The rebalanced tree still holds the doomed leaf; find its place.
    lemma FocusDoomed(d: Node, all: set<Node>, order: seq<Node>) returns (c: Path)
      requires Walking(Top, tree, all, order, d) && Balanced(tree) && d in all && d !in order
      ensures Walking(c, Doomed(d), all, order, d) && Settled(c, Doomed(d))
    {
      c := PathTo(Top, tree, d);
      var t := SubAt(tree, d);
      FocusLinked(Top, tree, d, root);
      FocusOrder(Top, tree, d);
      FocusBalanced(Top, tree, d);
      FocusSolid(Top, tree, d, d);
      PathSolidWithout(c, d);
      RootInWhole(c, t);
    }

    lemma RootInWhole(c: Path, t: Tree)
      ensures t.Branch? ==> t.n in Whole(c, t)
    {
      if t.Branch? {
        assert t.n in Inorder(t);
        assert Inorder(t) <= Inorder(t) + After(c);
      }
    }

    // The end of avl_del2's walk: cut the leaf off.
    method Unlink(d: Node, ghost all: set<Node>, ghost order: seq<Node>) returns (hadParent: bool)
      requires Walking(Top, tree, all, order, d) && Balanced(tree) && d in all && d !in order
      modifies this, all
      ensures Walking(Top, tree, all - {d}, order, null) && Balanced(tree)
      ensures !hadParent ==> order == []
      ensures d.left == null && d.right == null
    {
      ghost var c := FocusDoomed(d, all, order);
      Cut(d, c);
      hadParent := d.parent != null;
      assert Walking(c, Leaf, all - {d}, order, null);
      Finish(c, Leaf, all - {d}, order, null);
    }

    method Cut(d: Node, ghost c: Path)
      requires At(c, Doomed(d), root)
      modifies this`root, PathNodes(c)`left, PathNodes(c)`right
      ensures At(c, Leaf, root)
      ensures d.parent == Holder(c) && d.left == null && d.right == null
    {
      var parent := d.parent;
      if parent != null {
        if parent.left == d {
          parent.left := null;
        } else {
          parent.right := null;
        }
      } else {
        root := null;
      }
    }

    // replace_avl: `x` takes over the balance, children and place of `y`.
    method TakeOver(x: Node, y: Node, ghost c: Path, ghost t: Tree)
      requires At(c, t, root) && t.Branch? && t.n == y && x !in Nodes(t) + PathNodes(c)
      modifies this`root, x, Nodes(t)`parent, PathNodes(c)`left, PathNodes(c)`right
      ensures At(c, Branch(x, t.bal, t.l, t.r), root)
    {
      ghost var l, r := t.l, t.r;
      OnHeap(l); OnHeap(r); PathOnHeap(c);
      MoveChildren(x, y, c, l, r);
    }

    method MoveChildren(x: Node, y: Node, ghost c: Path, ghost l: Tree, ghost r: Tree)
      requires y.left == Root(l) && y.right == Root(r) && y.parent == Holder(c)
      requires Linked(l, y) && Linked(r, y) && PathLinked(c, y, root)
      requires x != y && {x, y} !! Nodes(l) !! Nodes(r) !! PathNodes(c)
      modifies this`root, x, Nodes(l)`parent, Nodes(r)`parent, PathNodes(c)`left, PathNodes(c)`right
      ensures x.balance == y.balance && x.left == Root(l) && x.right == Root(r) && x.parent == Holder(c)
      ensures Linked(l, x) && Linked(r, x) && PathLinked(c, x, root)
    {
      hide *;
      OnHeap(l); OnHeap(r); PathOnHeap(c);
      x.balance := y.balance;
      AttachLeft(x, y.left, l, y);
      AttachRight(x, y.right, r, y);
      TakePlace(x, y, c);
    }

    // The place of a given node in a well-formed tree.
    lemma FocusNode(y: Node, all: set<Node>, order: seq<Node>) returns (c: Path, t: Tree)
      requires Walking(Top, tree, all, order, null) && Balanced(tree) && y in all
      ensures Walking(c, t, all, order, null) && Settled(c, t) && t.Branch? && t.n == y
    {
      c, t := PathTo(Top, tree, y), SubAt(tree, y);
      FocusLinked(Top, tree, y, root);
      FocusOrder(Top, tree, y);
      FocusBalanced(Top, tree, y);
      FocusSolid(Top, tree, y, null);
    }

    // The same on the whole tree: one entry of the order is exchanged.
    method Exchange(x: Node, y: Node, ghost all: set<Node>, ghost order: seq<Node>) returns (ghost i: nat)
      requires Walking(Top, tree, all, order, null) && Balanced(tree) && y in all && x !in all
      modifies this, all, x
      ensures i < |order| && order[i] == y
      ensures Walking(Top, tree, all - {y} + {x}, order[i := x], null) && Balanced(tree)
    {
      ghost var c, t := FocusNode(y, all, order);
      ghost var u := Branch(x, t.bal, t.l, t.r);
      i := |Before(c) + Inorder(t.l)|;
      SwapInOrder(c, t, x, order);
      SwapNodes(c, t, x, all, order);
      TakeOver(x, y, c, t);
      Finish(c, u, all - {y} + {x}, order[i := x], null);
    }

    lemma SwapNodes(c: Path, t: Tree, x: Node, all: set<Node>, order: seq<Node>)
      requires Walking(c, t, all, order, null) && Settled(c, t) && t.Branch? && x !in all
      ensures var u := Branch(x, t.bal, t.l, t.r);
              && Nodes(u) + PathNodes(c) == all - {t.n} + {x}
              && Solid(u, null) && Settled(c, u)
    {
    }

    lemma SwapInOrder(c: Path, t: Tree, x: Node, order: seq<Node>)
      requires t.Branch? && Whole(c, t) == order
      ensures var i := |Before(c) + Inorder(t.l)|;
              && i < |order| && order[i] == t.n
              && Whole(c, Branch(x, t.bal, t.l, t.r)) == order[i := x]
    {
      Surround(c, t);
      Surround(c, Branch(x, t.bal, t.l, t.r));
    }

    lemma Surround(c: Path, t: Tree)
      requires t.Branch?
      ensures Whole(c, t) == (Before(c) + Inorder(t.l)) + [t.n] + (Inorder(t.r) + After(c))
    {
      var B, L, R, A := Before(c), Inorder(t.l), Inorder(t.r), After(c);
      assert B + (L + [t.n] + R) + A == (B + L) + [t.n] + (R + A);
    }

    // Which leaf a deletion unlinks, and whose places are taken over afterwards.
    method Pick(z: Node)
      returns (d: Node, mark1: Node?, mark2: Node?, ghost c: Path, ghost pz: nat, ghost pd: nat)
      requires Valid() && z in Nodes(tree)
      ensures Walking(c, Doomed(d), Nodes(tree), Before(c) + After(c), d) && Shrunk(c, Doomed(d)) && d in Nodes(tree)
      ensures Handover(Inorder(tree), Before(c) + After(c), z, d, mark1, mark2, pz, pd)
    {
      hide Settled, Shrunk, Handover, PathLinked, PathSolid;
      StartSlot(z.key);
      ghost var c0, t0 := FocusNode(z, Nodes(tree), Inorder(tree));
      Children(c0, t0);
      if z.left == null && z.right == null {
        d, mark1, mark2, c := z, null, null, c0;
        pz, pd := |Before(c)|, |Before(c)|;
        DoomAlone(c, t0, Nodes(tree), Inorder(tree));
      } else {
        mark1 := z;
        if z.balance <= 0 {
          d, mark2, c, pz, pd := PickBefore(z, c0, t0, Nodes(tree), Inorder(tree));
        } else {
          d, mark2, c, pz, pd := PickAfter(z, c0, t0, Nodes(tree), Inorder(tree));
        }
      }
    }

    lemma Children(c: Path, t: Tree)
      requires Settled(c, t) && t.Branch? && Solid(t, null)
      ensures t.l == Leaf || t.l.Branch?
      ensures t.r == Leaf || t.r.Branch?
      ensures (t.l == Leaf && t.r == Leaf) || if t.bal <= 0 then t.l.Branch? else t.r.Branch?
    {
      assert Solid(t.l, null) && Solid(t.r, null);
    }

    lemma DoomAlone(c: Path, t: Tree, all: set<Node>, order: seq<Node>)
      requires Walking(c, t, all, order, null) && Settled(c, t) && t.Branch? && t.l == Leaf && t.r == Leaf
      ensures Walking(c, Doomed(t.n), all, Before(c) + After(c), t.n) && Shrunk(c, Doomed(t.n))
      ensures Handover(order, Before(c) + After(c), t.n, t.n, null, null, |Before(c)|, |Before(c)|)
    {
      Doom(t.n, c, t, all, order);
    }

    // The replace_avl calls at the end of avl_del2 when one or two places move.
    method PassOne(z: Node, d: Node, ghost all: set<Node>, ghost order: seq<Node>, ghost rest: seq<Node>,
                   ghost pz: nat, ghost pd: nat)
      requires Ascending(order) && Handover(order, rest, z, d, z, null, pz, pd)
      requires Walking(Top, tree, all - {d}, rest, null) && Balanced(tree) && d in all
      modifies this, all
      ensures Walking(Top, tree, all - {z}, Without(order, pz), null) && Balanced(tree)
    {
      hide Walking, Balanced, Handover, Ascending;
      HandoverRest(order, rest, z, d, z, null, pz, pd);
      InWhole(all - {d}, rest);
      ghost var j := Exchange(d, z, all - {d}, rest);
      HandoverOne(order, rest, z, d, pz, pd, j);
      assert all - {d} - {z} + {d} == all - {z};
    }

    method PassTwo(z: Node, d: Node, y: Node, ghost all: set<Node>, ghost order: seq<Node>, ghost rest: seq<Node>,
                   ghost pz: nat, ghost pd: nat)
      requires Ascending(order) && Handover(order, rest, z, d, z, y, pz, pd)
      requires Walking(Top, tree, all - {d}, rest, null) && Balanced(tree) && d in all
      modifies this, all
      ensures Walking(Top, tree, all - {z}, Without(order, pz), null) && Balanced(tree)
    {
      hide Walking, Balanced, Handover, Ascending;
      HandoverRest(order, rest, z, d, z, y, pz, pd);
      InWhole(all - {d}, rest);
      ghost var i := Exchange(d, y, all - {d}, rest);
      assert all - {d} - {y} + {d} == all - {y};
      ghost var j := Exchange(y, z, all - {y}, rest[i := d]);
      HandoverTwo(order, rest, z, d, y, pz, pd, i, j);
      assert all - {y} - {z} + {y} == all - {z};
    }

    lemma InWhole(all: set<Node>, order: seq<Node>)
      requires Walking(Top, tree, all, order, null)
      ensures all == Elems(order)
      ensures Inorder(tree) == order
    {
      SolidNodes(tree);
      assert Whole(Top, tree) == Inorder(tree);
    }

    // The node comes back zeroed, outside the tree that is left.
    method Detach(z: Node, ghost all: set<Node>, ghost order: seq<Node>)
      requires Walking(Top, tree, all, order, null) && Balanced(tree) && z !in all
      modifies z
      ensures Shaped() && Nodes(tree) == all && Inorder(tree) == order
      ensures z.balance == 0 && z.left == null && z.right == null && z.parent == null
    {
      InWhole(all, order);
      z.balance := 0;
      z.left, z.right, z.parent := null, null, null;
    }

    // avl_del2: every other entry stays, in the same order, in a tree that is
    // balanced again, and the node itself comes back zeroed.
    method Delete(z: Node) returns (ghost at: nat)
      requires Valid() && z in Nodes(tree)
      modifies this, Nodes(tree)
      ensures Valid() && Nodes(tree) == old(Nodes(tree)) - {z}
      ensures at < |old(Inorder(tree))| && old(Inorder(tree))[at] == z
      ensures Inorder(tree) == Without(old(Inorder(tree)), at)
      ensures z.key in old(Entries()) && old(Entries())[z.key] == z && Entries() == old(Entries()) - {z.key}
      ensures z.balance == 0 && z.left == null && z.right == null && z.parent == null
    {
      at := DeleteEntry(z);
      hide Shaped, Inorder, Nodes, Represents;
      RemovedEntry(old(Inorder(tree)), at);
    }

    method DeleteEntry(z: Node) returns (ghost at: nat)
      requires Valid() && z in Nodes(tree)
      modifies this, Nodes(tree)
      ensures Valid() && Nodes(tree) == old(Nodes(tree)) - {z}
      ensures at < |old(Inorder(tree))| && old(Inorder(tree))[at] == z
      ensures Inorder(tree) == Without(old(Inorder(tree)), at)
      ensures z.balance == 0 && z.left == null && z.right == null && z.parent == null
    {
      hide Walking, Shrunk, Ascending, Solid, Linked, PathLinked, Balanced, PathBalanced;
      ghost var all, order := Nodes(tree), Inorder(tree);
      OnHeap(tree);
      var d, mark1, mark2, c, pz, pd := Pick(z);
      ghost var rest := Before(c) + After(c);
      HandoverRest(order, rest, z, d, mark1, mark2, pz, pd);
      Shrink(d, c, all, rest);
      var hadParent := Unlink(d, all, rest);
      if hadParent {
        if mark2 != null {
          PassTwo(z, d, mark2, all, order, rest, pz, pd);
        } else if mark1 != null {
          PassOne(z, d, all, order, rest, pz, pd);
        }
      }
      at := pz;
      AscendingWithout(order, pz);
      Detach(z, all - {z}, Without(order, pz));
    }

    // avl_replace2: a fresh node takes the place of an old one.  The order is still one
    // of keys if and only if the new key lies between its neighbours.
    method Replace(x: Node, y: Node) returns (ghost at: nat)
      requires Valid() && y in Nodes(tree) && x !in Nodes(tree)
      modifies this, Nodes(tree), x
      ensures Shaped() && Nodes(tree) == old(Nodes(tree)) - {y} + {x}
      ensures at < |old(Inorder(tree))| && old(Inorder(tree))[at] == y
      ensures Inorder(tree) == old(Inorder(tree))[at := x]
      ensures Valid() <==> Between(old(Inorder(tree)), at, x.key)
      ensures x.key == y.key ==> Valid() && Entries() == old(Entries())[x.key := x]
      ensures y.key in old(Entries()) && old(Entries())[y.key] == y
      ensures y.balance == 0 && y.left == null && y.right == null && y.parent == null
    {
      at := ReplaceEntry(x, y);
      ghost var s := old(Inorder(tree));
      hide Shaped, Inorder, Nodes, Represents;
      MapHas(s, y);
      ExchangeFits(s, x, at);
      if x.key == y.key { ExchangedEntry(s, x, at); }
    }

    method ReplaceEntry(x: Node, y: Node) returns (ghost at: nat)
      requires Valid() && y in Nodes(tree) && x !in Nodes(tree)
      modifies this, Nodes(tree), x
      ensures Shaped() && Nodes(tree) == old(Nodes(tree)) - {y} + {x}
      ensures at < |old(Inorder(tree))| && old(Inorder(tree))[at] == y
      ensures Inorder(tree) == old(Inorder(tree))[at := x]
      ensures y.balance == 0 && y.left == null && y.right == null && y.parent == null
    {
      hide Walking, Solid, Linked, PathLinked, Balanced, PathBalanced;
      ghost var all, order := Nodes(tree), Inorder(tree);
      OnHeap(tree);
      StartSlot(y.key);
      at := Exchange(x, y, all, order);
      Detach(y, all - {y} + {x}, order[at := x]);
    }

    // avl_leftest_node: the entry with the least key.
    method Leftest() returns (e: Node?)
      requires Valid()
      ensures e == if Inorder(tree) == [] then null else Inorder(tree)[0]
      ensures MapLeast(Entries(), e)
    {
      e := GoLeft();
      LeastOfMap(Inorder(tree));
    }

    method GoLeft() returns (e: Node?)
      requires Valid()
      ensures e == if Inorder(tree) == [] then null else Inorder(tree)[0]
    {
      e := root;
      ghost var c, t := Top, tree;
      if e != null {
        while e.left != null
          invariant e == Root(t) && Linked(t, Holder(c)) && Solid(t, null) && t.Branch?
          invariant Whole(c, t) == Inorder(tree) && Before(c) == []
          decreases t
        {
          WholeBelow(c, t);
          e := e.left;
          c, t := InLeft(t.n, t.bal, t.r, c), t.l;
        }
        Surround(c, t);
      }
    }

    lemma EntriesAreNodes()
      requires Valid()
      ensures forall k :: k in Entries() ==> Entries()[k] in Nodes(tree) && Entries()[k].key == k
      ensures forall n :: n in Nodes(tree) ==> n.key in Entries() && Entries()[n.key] == n
    {
      SolidNodes(tree);
      MapRepresents(Inorder(tree));
      hide Shaped, MapOf, Ascending, Inorder;
      assert forall n :: n in Inorder(tree) <==> n in Elems(Inorder(tree));
    }

    // avl_add on a fresh node.
    method Put(key: int) returns (x: Node)
      requires Valid()
      modifies this, Nodes(tree)
      ensures Valid() && fresh(Nodes(tree) - old(Nodes(tree))) && fresh(x) && x.key == key
      ensures Entries() == if key in old(Entries()) then old(Entries()) else old(Entries())[key := x]
    {
      hide Shaped, Ascending, Inorder, MapOf;
      OnHeap(tree);
      x := new Node(key);
      var e, _ := Add(x);
    }

    // avl_del: a floor search, and a deletion when the key is the one asked for.
    method Drop(key: int)
      requires Valid()
      modifies this, Nodes(tree)
      ensures Valid() && fresh(Nodes(tree) - old(Nodes(tree)))
      ensures Entries() == old(Entries()) - {key}
    {
      hide Shaped, Ascending, Inorder, MapOf;
      OnHeap(tree);
      EntriesAreNodes();
      var e, _ := Search(key);
      if e != null && e.key == key {
        var _ := Delete(e);
      }
    }

    lemma HeightFromKeys()
      requires Valid()
      ensures Fib(Height(tree) + 2) <= |Entries()| + 1
    {
      HeightIsLogarithmic(tree);
      SizeIsLength(tree);
      KeyCount(Inorder(tree));
      assert Entries().Keys == KeySet(Inorder(tree));
      assert |Entries()| == |Entries().Keys|;
    }
  }

  datatype Op = Put(key: int) | Drop(key: int)

  // A finite map under the same history: which operation put each key that is still there.
  ghost function Surviving(ops: seq<Op>): (m: map<int, nat>)
    ensures forall k :: k in m ==> m[k] < |ops|
  {
    if ops == [] then map[]
    else
      var rest := Surviving(ops[..|ops| - 1]);
      match ops[|ops| - 1]
      case Put(k) => if k in rest then rest else rest[k := |ops| - 1]
      case Drop(k) => rest - {k}
  }

  // The entries of the tree are the surviving nodes, each under its key.
  ghost predicate Mirrors(entries: map<int, Node>, m: map<int, nat>, made: seq<Node?>) {
    && entries.Keys == m.Keys
    && forall k :: k in m ==> m[k] < |made| && k in entries && made[m[k]] == entries[k]
  }

  // Any history of insertions and deletions leaves a well-formed tree that is the
  // finite sorted map of that history: under each key the very node put there, no
  // other, and no deeper than the Fibonacci bound allows for that many.
  method Replay(ops: seq<Op>) returns (t: AvlMap, made: seq<Node?>)
    ensures t.Valid() && |made| == |ops| && Mirrors(t.Entries(), Surviving(ops), made)
    ensures Fib(Height(t.tree) + 2) <= |Surviving(ops)| + 1
  {
    hide AvlShape.At, Linked, PathLinked, Balanced, Solid, Ascending, Inorder, Fib, Height, MapOf, Mirrors, Surviving;
    t := new AvlMap();
    made := [];
    EmptyMap();
    MirrorsStart(ops);
    for i := 0 to |ops|
      invariant t.Valid() && |made| == i && Mirrors(t.Entries(), Surviving(ops[..i]), made)
      invariant fresh(t) && fresh(Nodes(t.tree))
    {
      ghost var was := t.Entries();
      match ops[i] {
        case Put(k) =>
          var x := t.Put(k);
          MirrorsPut(ops, i, was, made, x);
          made := made + [x];
        case Drop(k) =>
          t.Drop(k);
          MirrorsDrop(ops, i, was, made);
          made := made + [null];
      }
      OnHeap(t.tree);
    }
    assert ops[..|ops|] == ops;
    t.HeightFromKeys();
    SameSize(t.Entries(), Surviving(ops), made);
  }

  lemma MirrorsStart(ops: seq<Op>)
    ensures Mirrors(map[], Surviving(ops[..0]), [])
  {}

  lemma MirrorsPut(ops: seq<Op>, i: nat, was: map<int, Node>, made: seq<Node?>, x: Node)
    requires i < |ops| && ops[i].Put? && |made| == i && Mirrors(was, Surviving(ops[..i]), made)
    ensures Mirrors(if ops[i].key in was then was else was[ops[i].key := x], Surviving(ops[..i + 1]), made + [x])
  {
    assert ops[..i + 1][..i] == ops[..i];
  }

  lemma MirrorsDrop(ops: seq<Op>, i: nat, was: map<int, Node>, made: seq<Node?>)
    requires i < |ops| && ops[i].Drop? && |made| == i && Mirrors(was, Surviving(ops[..i]), made)
    ensures Mirrors(was - {ops[i].key}, Surviving(ops[..i + 1]), made + [null])
  {
    assert ops[..i + 1][..i] == ops[..i];
  }

  lemma EmptyMap()
    ensures MapOf(Inorder(Leaf)) == map[]
  {
    assert KeySet([]) == {};
  }

  lemma SameSize(a: map<int, Node>, b: map<int, nat>, made: seq<Node?>)
    requires Mirrors(a, b, made)
    ensures |a| == |b|
  {
    assert |a| == |a.Keys| && |b| == |b.Keys|;
  }
}
