/**
  The value view of a parent-linked AVL tree (moon_avltree.c).

  A `Tree` records which nodes hang where and the balance each one stores; a
  `Path` is the same for everything around one position of a tree.  Both are
  pure values, so every argument about heights, order and rotations is made
  here, away from the heap.  `Linked` and `PathLinked` say that the pointers of
  the current heap spell a given value.
 */
module AvlShape {

  class Node {
    const key: int
    var balance: int
    var left: Node?
    var right: Node?
    var parent: Node?

    constructor (key: int)
      ensures this.key == key && balance == 0
      ensures left == null && right == null && parent == null
    {
      this.key, balance, left, right, parent := key, 0, null, null, null;
    }
  }

  // `Doomed(d)` is a leaf that deletion still has linked but already counts as gone.
  datatype Tree =
    | Leaf
    | Doomed(d: Node)
    | Branch(n: Node, bal: int, l: Tree, r: Tree)

  datatype Path =
    | Top
    | InLeft(n: Node, bal: int, right: Tree, up: Path)
    | InRight(n: Node, bal: int, left: Tree, up: Path)

  // ---------- Pointers ----------

  ghost function Nodes(t: Tree): set<Node> {
    match t
    case Leaf => {}
    case Doomed(d) => {d}
    case Branch(n, _, l, r) => {n} + Nodes(l) + Nodes(r)
  }

  ghost function Root(t: Tree): Node? {
    match t
    case Leaf => null
    case Doomed(d) => d
    case Branch(n, _, _, _) => n
  }

  ghost predicate Linked(t: Tree, p: Node?)
    reads Nodes(t)
  {
    match t
    case Leaf => true
    case Doomed(d) => d.parent == p && d.left == null && d.right == null
    case Branch(n, bal, l, r) =>
      && n.parent == p && n.balance == bal
      && n.left == Root(l) && n.right == Root(r)
      && n !in Nodes(l) && n !in Nodes(r) && Nodes(l) !! Nodes(r)
      && Linked(l, n) && Linked(r, n)
  }

  ghost function PathNodes(c: Path): set<Node> {
    match c
    case Top => {}
    case InLeft(n, _, t, up) => {n} + Nodes(t) + PathNodes(up)
    case InRight(n, _, t, up) => {n} + Nodes(t) + PathNodes(up)
  }

  ghost function Holder(c: Path): Node? {
    if c.Top? then null else c.n
  }

  ghost predicate PathLinked(c: Path, hole: Node?, root: Node?)
    reads PathNodes(c)
  {
    match c
    case Top => root == hole
    case InLeft(n, bal, t, up) =>
      && n.left == hole && n.right == Root(t)
      && n.parent == Holder(up) && n.balance == bal
      && n !in Nodes(t) && n !in PathNodes(up) && Nodes(t) !! PathNodes(up)
      && Linked(t, n) && PathLinked(up, n, root)
    case InRight(n, bal, t, up) =>
      && n.right == hole && n.left == Root(t)
      && n.parent == Holder(up) && n.balance == bal
      && n !in Nodes(t) && n !in PathNodes(up) && Nodes(t) !! PathNodes(up)
      && Linked(t, n) && PathLinked(up, n, root)
  }

  // The heap spells `t` at the end of `c`.
  ghost predicate At(c: Path, t: Tree, root: Node?)
    reads Nodes(t), PathNodes(c)
  {
    && Linked(t, Holder(c)) && PathLinked(c, Root(t), root)
    && Nodes(t) !! PathNodes(c)
  }

  // The nodes of a tree are allocated, so a call that modifies others keeps them.
  lemma {:induction false} OnHeap(t: Tree)
    ensures forall n :: n in Nodes(t) ==> allocated(n)
  {
    if t.Branch? {
      OnHeap(t.l);
      OnHeap(t.r);
    }
  }

  lemma {:induction false} PathOnHeap(c: Path)
    ensures forall n :: n in PathNodes(c) ==> allocated(n)
  {
    match c
    case Top =>
    case InLeft(_, _, t, up) => OnHeap(t); PathOnHeap(up);
    case InRight(_, _, t, up) => OnHeap(t); PathOnHeap(up);
  }

  // ---------- Order ----------

  ghost function Inorder(t: Tree): seq<Node> {
    match t
    case Leaf => []
    case Doomed(_) => []
    case Branch(n, _, l, r) => Inorder(l) + [n] + Inorder(r)
  }

  ghost function Before(c: Path): seq<Node> {
    match c
    case Top => []
    case InLeft(_, _, _, up) => Before(up)
    case InRight(n, _, t, up) => Before(up) + Inorder(t) + [n]
  }

  ghost function After(c: Path): seq<Node> {
    match c
    case Top => []
    case InLeft(n, _, t, up) => [n] + Inorder(t) + After(up)
    case InRight(_, _, _, up) => After(up)
  }

  // Everything the whole tree holds, in order.
  ghost function Whole(c: Path, t: Tree): seq<Node> {
    Before(c) + Inorder(t) + After(c)
  }

  // ---------- Balance ----------

  ghost function Max(a: int, b: int): int {
    if a < b then b else a
  }

  ghost function Height(t: Tree): nat {
    if t.Branch? then 1 + Max(Height(t.l), Height(t.r)) else 0
  }

  ghost predicate Balanced(t: Tree) {
    t.Branch? ==>
      && t.bal == Height(t.r) - Height(t.l) && -1 <= t.bal <= 1
      && Balanced(t.l) && Balanced(t.r)
  }

  // The balances stored along `c` are right for a subtree of height `h` at its end.
  ghost predicate PathBalanced(c: Path, h: int) {
    match c
    case Top => true
    case InLeft(_, bal, t, up) =>
      bal == Height(t) - h && -1 <= bal <= 1 && Balanced(t) && PathBalanced(up, 1 + Max(h, Height(t)))
    case InRight(_, bal, t, up) =>
      bal == h - Height(t) && -1 <= bal <= 1 && Balanced(t) && PathBalanced(up, 1 + Max(h, Height(t)))
  }

  // What avl_balance turns a subtree with stored balance 2 or -2 into.
  ghost predicate Lopsided(t: Tree) {
    && t.Branch? && (t.bal == 2 || t.bal == -2)
    && t.bal == Height(t.r) - Height(t.l) && Balanced(t.l) && Balanced(t.r)
  }

  ghost function Rebalanced(t: Tree): (u: Tree)
    requires Lopsided(t)
  {
    var Branch(p, bal, l, r) := t;
    if bal == 2 then
      if r.bal >= 0 then
        Branch(r.n, if r.bal == 0 then -1 else 0,
               Branch(p, if r.bal == 0 then 1 else 0, l, r.l), r.r)
      else
        var a := r.l;
        Branch(a.n, 0,
               Branch(p, if a.bal == 1 then -1 else 0, l, a.l),
               Branch(r.n, if a.bal == -1 then 1 else 0, a.r, r.r))
    else
    if l.bal <= 0 then
      Branch(l.n, if l.bal == 0 then 1 else 0, l.l,
             Branch(p, if l.bal == 0 then -1 else 0, l.r, r))
    else
      var a := l.r;
      Branch(a.n, 0,
             Branch(l.n, if a.bal == 1 then -1 else 0, l.l, a.l),
             Branch(p, if a.bal == -1 then 1 else 0, a.r, r))
  }

  // The heavy child, and the inner grandchild a double rotation lifts.
  ghost function Heavy(t: Tree): Tree
    requires t.Branch?
  {
    if t.bal == 2 then t.r else t.l
  }

  ghost predicate Doubly(t: Tree)
    requires Lopsided(t)
  {
    if t.bal == 2 then t.r.bal < 0 else t.l.bal > 0
  }

  ghost function Inner(t: Tree): (a: Tree)
    requires Lopsided(t) && Doubly(t)
    ensures a.Branch? && Balanced(a)
  {
    if t.bal == 2 then t.r.l else t.l.r
  }

  // Rotation restores balance; the height drops by one unless the heavy child
  // was itself even.
  lemma {:induction false} RebalancedIsBalanced(t: Tree)
    requires Lopsided(t)
    ensures Balanced(Rebalanced(t))
    ensures Height(Rebalanced(t)) == Height(t) - (if Heavy(t).bal == 0 then 0 else 1)
  {
    if Doubly(t) {
      DoubleIsBalanced(t);
    } else {
      SingleIsBalanced(t);
    }
    hide Rebalanced;
  }

  lemma {:induction false} SingleIsBalanced(t: Tree)
    requires Lopsided(t) && !Doubly(t)
    ensures Balanced(Rebalanced(t))
    ensures Height(Rebalanced(t)) == Height(t) - (if Heavy(t).bal == 0 then 0 else 1)
  {
    var u := Rebalanced(t);
    assert Balanced(u.l) && Balanced(u.r);
  }

  lemma {:induction false} DoubleIsBalanced(t: Tree)
    requires Lopsided(t) && Doubly(t)
    ensures Balanced(Rebalanced(t)) && Height(Rebalanced(t)) == Height(t) - 1
  {
    var u := Rebalanced(t);
    var a := Inner(t);
    assert Height(a) == 1 + Max(Height(a.l), Height(a.r));
    assert Balanced(u.l) && Balanced(u.r);
  }

  lemma Regroup<T>(a: seq<T>, x: seq<T>, b: seq<T>, y: seq<T>, c: seq<T>)
    ensures a + x + (b + y + c) == (a + x + b) + y + c
  {
  }

  lemma RegroupInner<T>(a: seq<T>, x: seq<T>, b: seq<T>, y: seq<T>, c: seq<T>, z: seq<T>, d: seq<T>)
    ensures a + x + ((b + y + c) + z + d) == (a + x + b) + y + (c + z + d)
    ensures (a + x + (b + y + c)) + z + d == (a + x + b) + y + (c + z + d)
  {
  }

  lemma {:induction false} DoubleKeepsOrder(t: Tree)
    requires Lopsided(t) && Doubly(t)
    ensures Inorder(Rebalanced(t)) == Inorder(t)
  {
    var h, a := Heavy(t), Inner(t);
    assert Inorder(h) == Inorder(h.l) + [h.n] + Inorder(h.r);
    assert Inorder(a) == Inorder(a.l) + [a.n] + Inorder(a.r);
    if t.bal == 2 {
      RegroupInner(Inorder(t.l), [t.n], Inorder(a.l), [a.n], Inorder(a.r), [h.n], Inorder(h.r));
    } else {
      RegroupInner(Inorder(h.l), [h.n], Inorder(a.l), [a.n], Inorder(a.r), [t.n], Inorder(t.r));
    }
  }

  lemma {:induction false} RebalancedKeepsOrder(t: Tree)
    requires Lopsided(t)
    ensures Inorder(Rebalanced(t)) == Inorder(t)
  {
    var h := Heavy(t);
    if Doubly(t) {
      DoubleKeepsOrder(t);
    } else if t.bal == 2 {
      Regroup(Inorder(t.l), [t.n], Inorder(h.l), [h.n], Inorder(h.r));
    } else {
      Regroup(Inorder(h.l), [h.n], Inorder(h.r), [t.n], Inorder(t.r));
    }
  }

  lemma {:induction false} RebalancedKeepsNodes(t: Tree)
    requires Lopsided(t)
    ensures Nodes(Rebalanced(t)) == Nodes(t)
  {
    if Doubly(t) {
      var a := Inner(t);
      assert Nodes(a) == {a.n} + Nodes(a.l) + Nodes(a.r);
    }
  }

  // ---------- Zipping up and focusing ----------

  ghost function Plug(c: Path, t: Tree): Tree {
    match c
    case Top => t
    case InLeft(n, bal, r, up) => Plug(up, Branch(n, bal, t, r))
    case InRight(n, bal, l, up) => Plug(up, Branch(n, bal, l, t))
  }

  lemma {:induction false} PlugLinked(c: Path, t: Tree, root: Node?)
    requires At(c, t, root)
    ensures At(Top, Plug(c, t), root)
    ensures Nodes(Plug(c, t)) == Nodes(t) + PathNodes(c)
    decreases c
  {
    match c
    case Top =>
    case InLeft(n, bal, r, up) => PlugLinked(up, Branch(n, bal, t, r), root);
    case InRight(n, bal, l, up) => PlugLinked(up, Branch(n, bal, l, t), root);
  }

  lemma {:induction false} PlugOrder(c: Path, t: Tree)
    ensures Inorder(Plug(c, t)) == Whole(c, t)
    decreases c
  {
    match c
    case Top =>
    case InLeft(n, bal, r, up) =>
      PlugOrder(up, Branch(n, bal, t, r));
      WholeBelow(up, Branch(n, bal, t, r));
    case InRight(n, bal, l, up) =>
      PlugOrder(up, Branch(n, bal, l, t));
      WholeBelow(up, Branch(n, bal, l, t));
  }

  lemma {:induction false} PlugBalanced(c: Path, t: Tree)
    requires Balanced(t) && PathBalanced(c, Height(t))
    ensures Balanced(Plug(c, t))
    decreases c
  {
    match c
    case Top =>
    case InLeft(n, bal, r, up) => PlugBalanced(up, Branch(n, bal, t, r));
    case InRight(n, bal, l, up) => PlugBalanced(up, Branch(n, bal, l, t));
  }

  // Stepping down into either child leaves the whole order alone.
  lemma {:induction false} WholeBelow(c: Path, t: Tree)
    requires t.Branch?
    ensures Whole(InLeft(t.n, t.bal, t.r, c), t.l) == Whole(c, t)
    ensures Whole(InRight(t.n, t.bal, t.l, c), t.r) == Whole(c, t)
  {
    var L, R := Inorder(t.l), Inorder(t.r);
    assert Inorder(t) == L + [t.n] + R;
    assert Before(c) + L + ([t.n] + R + After(c)) == Before(c) + (L + [t.n] + R) + After(c);
    assert (Before(c) + L + [t.n]) + R + After(c) == Before(c) + (L + [t.n] + R) + After(c);
  }

  // The subtree below `z`, and the path down to it.
  ghost function SubAt(t: Tree, z: Node): (u: Tree)
    requires z in Nodes(t)
    ensures Root(u) == z
  {
    if Root(t) == z then t
    else if z in Nodes(t.l) then SubAt(t.l, z)
    else SubAt(t.r, z)
  }

  ghost function PathTo(c: Path, t: Tree, z: Node): Path
    requires z in Nodes(t)
    decreases t
  {
    if Root(t) == z then c
    else if z in Nodes(t.l) then PathTo(InLeft(t.n, t.bal, t.r, c), t.l, z)
    else PathTo(InRight(t.n, t.bal, t.l, c), t.r, z)
  }

  lemma {:induction false} FocusLinked(c: Path, t: Tree, z: Node, root: Node?)
    requires z in Nodes(t) && At(c, t, root)
    ensures At(PathTo(c, t, z), SubAt(t, z), root)
    ensures Nodes(SubAt(t, z)) + PathNodes(PathTo(c, t, z)) == Nodes(t) + PathNodes(c)
    decreases t
  {
    if Root(t) == z {
    } else if z in Nodes(t.l) {
      FocusLinked(InLeft(t.n, t.bal, t.r, c), t.l, z, root);
    } else {
      FocusLinked(InRight(t.n, t.bal, t.l, c), t.r, z, root);
    }
  }

  lemma {:induction false} FocusOrder(c: Path, t: Tree, z: Node)
    requires z in Nodes(t)
    ensures Whole(PathTo(c, t, z), SubAt(t, z)) == Whole(c, t)
    decreases t
  {
    if Root(t) == z {
    } else if z in Nodes(t.l) {
      WholeBelow(c, t);
      FocusOrder(InLeft(t.n, t.bal, t.r, c), t.l, z);
    } else {
      WholeBelow(c, t);
      FocusOrder(InRight(t.n, t.bal, t.l, c), t.r, z);
    }
  }

  lemma {:induction false} FocusBalanced(c: Path, t: Tree, z: Node)
    requires z in Nodes(t) && Balanced(t) && PathBalanced(c, Height(t))
    ensures Balanced(SubAt(t, z)) && PathBalanced(PathTo(c, t, z), Height(SubAt(t, z)))
    decreases t
  {
    if Root(t) == z {
    } else if z in Nodes(t.l) {
      FocusBalanced(InLeft(t.n, t.bal, t.r, c), t.l, z);
    } else {
      FocusBalanced(InRight(t.n, t.bal, t.l, c), t.r, z);
    }
  }

  // ---------- Doomed leaves ----------

  // No doomed leaf other than, possibly, `d`.
  ghost predicate Solid(t: Tree, d: Node?) {
    match t
    case Leaf => true
    case Doomed(x) => x == d
    case Branch(_, _, l, r) => Solid(l, d) && Solid(r, d)
  }

  ghost predicate PathSolid(c: Path, d: Node?) {
    match c
    case Top => true
    case InLeft(_, _, t, up) => Solid(t, d) && PathSolid(up, d)
    case InRight(_, _, t, up) => Solid(t, d) && PathSolid(up, d)
  }

  lemma {:induction false} PlugSolid(c: Path, t: Tree, d: Node?)
    ensures Solid(Plug(c, t), d) <==> Solid(t, d) && PathSolid(c, d)
    decreases c
  {
    match c
    case Top =>
    case InLeft(n, bal, r, up) => PlugSolid(up, Branch(n, bal, t, r), d);
    case InRight(n, bal, l, up) => PlugSolid(up, Branch(n, bal, l, t), d);
  }

  lemma {:induction false} FocusSolid(c: Path, t: Tree, z: Node, d: Node?)
    requires z in Nodes(t) && Solid(t, d) && PathSolid(c, d)
    ensures Solid(SubAt(t, z), d) && PathSolid(PathTo(c, t, z), d)
    decreases t
  {
    if Root(t) == z {
    } else if z in Nodes(t.l) {
      FocusSolid(InLeft(t.n, t.bal, t.r, c), t.l, z, d);
    } else {
      FocusSolid(InRight(t.n, t.bal, t.l, c), t.r, z, d);
    }
  }

  lemma {:induction false} RebalancedKeepsSolid(t: Tree, d: Node?)
    requires Lopsided(t) && Solid(t, d)
    ensures Solid(Rebalanced(t), d)
  {
    if Doubly(t) {
      assert Solid(Inner(t), d);
    }
  }

  // A doomed leaf that is not among a tree's nodes leaves the tree fully solid.
  lemma {:induction false} SolidWithout(t: Tree, d: Node)
    requires Solid(t, d) && d !in Nodes(t)
    ensures Solid(t, null)
  {
    if t.Branch? {
      SolidWithout(t.l, d);
      SolidWithout(t.r, d);
    }
  }

  lemma {:induction false} PathSolidWithout(c: Path, d: Node)
    requires PathSolid(c, d) && d !in PathNodes(c)
    ensures PathSolid(c, null)
  {
    match c
    case Top =>
    case InLeft(_, _, t, up) => SolidWithout(t, d); PathSolidWithout(up, d);
    case InRight(_, _, t, up) => SolidWithout(t, d); PathSolidWithout(up, d);
  }

  lemma {:induction false} SolidAny(t: Tree, d: Node)
    requires Solid(t, null)
    ensures Solid(t, d)
  {
    if t.Branch? {
      SolidAny(t.l, d);
      SolidAny(t.r, d);
    }
  }

  lemma {:induction false} PathSolidAny(c: Path, d: Node)
    requires PathSolid(c, null)
    ensures PathSolid(c, d)
  {
    match c
    case Top =>
    case InLeft(_, _, t, up) => SolidAny(t, d); PathSolidAny(up, d);
    case InRight(_, _, t, up) => SolidAny(t, d); PathSolidAny(up, d);
  }

  ghost function Elems(s: seq<Node>): set<Node> {
    set x | x in s
  }

  lemma {:induction false} SolidNodes(t: Tree)
    requires Solid(t, null)
    ensures Nodes(t) == Elems(Inorder(t))
  {
    if t.Branch? {
      SolidNodes(t.l);
      SolidNodes(t.r);
    }
  }

  // ---------- One step up a walk ----------

  // The subtree one level up, once its root stores `b`.
  ghost function Joined(c: Path, t: Tree, b: int): Tree
    requires !c.Top?
  {
    if c.InLeft? then Branch(c.n, b, t, c.right) else Branch(c.n, b, c.left, t)
  }

  lemma {:induction false} JoinedOrder(c: Path, t: Tree, b: int, d: Node?)
    requires !c.Top?
    ensures Whole(c.up, Joined(c, t, b)) == Whole(c, t)
    ensures Nodes(Joined(c, t, b)) + PathNodes(c.up) == Nodes(t) + PathNodes(c)
    ensures Solid(t, d) && PathSolid(c, null) && PathSolid(c, d) ==> Solid(Joined(c, t, b), d)
  {
    WholeBelow(c.up, Joined(c, t, b));
  }

  // The balance avl_add2 stores above a subtree that has grown by one level, and
  // avl_del2 above one that has shrunk.
  ghost function Leaned(c: Path, toward: int): int
    requires !c.Top?
  {
    if c.InLeft? then c.bal - toward else c.bal + toward
  }

  ghost predicate Grown(c: Path, t: Tree) {
    t.Branch? && Balanced(t) && (t.bal != 0 || Height(t) == 1) && PathBalanced(c, Height(t) - 1)
  }

  ghost predicate Shrunk(c: Path, t: Tree) {
    Balanced(t) && PathBalanced(c, Height(t) + 1)
  }

  ghost predicate Settled(c: Path, t: Tree) {
    Balanced(t) && PathBalanced(c, Height(t))
  }

  lemma {:induction false} GrowStep(c: Path, t: Tree)
    requires !c.Top? && Grown(c, t)
    ensures -2 <= Leaned(c, 1) <= 2
    ensures Leaned(c, 1) == 0 ==> Settled(c.up, Joined(c, t, 0))
    ensures (Leaned(c, 1) == 1 || Leaned(c, 1) == -1) ==> Grown(c.up, Joined(c, t, Leaned(c, 1)))
    ensures (Leaned(c, 1) == 2 || Leaned(c, 1) == -2) ==>
              var u := Joined(c, t, Leaned(c, 1));
              Lopsided(u) && Settled(c.up, Rebalanced(u))
  {
    var b := Leaned(c, 1);
    var u := Joined(c, t, b);
    if b == 2 || b == -2 {
      RebalancedIsBalanced(u);
      hide Rebalanced;
    }
  }

  lemma {:induction false} ShrinkStep(c: Path, t: Tree)
    requires !c.Top? && Shrunk(c, t)
    ensures -2 <= Leaned(c, -1) <= 2
    ensures Leaned(c, -1) == 0 ==> Shrunk(c.up, Joined(c, t, 0))
    ensures (Leaned(c, -1) == 1 || Leaned(c, -1) == -1) ==> Settled(c.up, Joined(c, t, Leaned(c, -1)))
    ensures (Leaned(c, -1) == 2 || Leaned(c, -1) == -2) ==>
              var u := Joined(c, t, Leaned(c, -1));
              && Lopsided(u)
              && (Heavy(u).bal == 0 ==> Settled(c.up, Rebalanced(u)))
              && (Heavy(u).bal != 0 ==> Shrunk(c.up, Rebalanced(u)))
  {
    var b := Leaned(c, -1);
    var u := Joined(c, t, b);
    if b == 2 || b == -2 {
      RebalancedIsBalanced(u);
      hide Rebalanced;
    }
  }

  // ---------- Size against height ----------

  ghost function Fib(n: nat): nat {
    if n < 2 then n else Fib(n - 1) + Fib(n - 2)
  }

  ghost function Size(t: Tree): nat {
    if t.Branch? then 1 + Size(t.l) + Size(t.r) else 0
  }

  lemma {:induction false} FibMonotone(m: nat, n: nat)
    requires m <= n
    ensures Fib(m) <= Fib(n)
  {
    if m < n {
      FibMonotone(m, n - 1);
    }
  }

  lemma {:induction false} SizeIsLength(t: Tree)
    ensures Size(t) == |Inorder(t)|
  {
    if t.Branch? {
      SizeIsLength(t.l);
      SizeIsLength(t.r);
    }
  }

  lemma {:induction false} FibStep(a: nat, b: nat, h: nat)
    requires h == 1 + Max(a, b) && a <= b + 1 && b <= a + 1
    ensures Fib(h + 2) <= Fib(a + 2) + Fib(b + 2)
  {
    assert Fib(h + 2) == Fib(h + 1) + Fib(h);
    FibMonotone(h, a + 2);
    FibMonotone(h, b + 2);
  }

  // A tree of n entries is never deeper than the Fibonacci bound allows.
  lemma {:induction false} HeightIsLogarithmic(t: Tree)
    requires Balanced(t)
    ensures Size(t) + 1 >= Fib(Height(t) + 2)
  {
    if t.Branch? {
      HeightIsLogarithmic(t.l);
      HeightIsLogarithmic(t.r);
      FibStep(Height(t.l), Height(t.r), Height(t));
    }
  }
}
