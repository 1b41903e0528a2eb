/** The split tree of a tab: nodes on the heap, found and spliced by identity.  Panels are identities
    only; widgets are not part of this model. */
module SplitTree {
  import opened Events

  /** The contents of one shared, mutable cell. */
  datatype Content = Leaf(panel: nat) | Branch(first: Node, second: Node)

  class Node {
    var content: Content

    constructor (content: Content)
      ensures this.content == content
    {
      this.content := content;
    }
  }

  datatype Side = First | Second

  datatype Closed = CloseTab | PanelClosed(focusTarget: Option<nat>)

  // ---- Shapes: the tree without its node identities --------------------------------------------

  datatype Shape = One(panel: nat) | Two(left: Shape, right: Shape)

  function Leaves(s: Shape): seq<nat> {
    match s
    case One(p) => [p]
    case Two(l, r) => Leaves(l) + Leaves(r)
  }

  function SplitShape(s: Shape, focused: nat, added: nat): Shape {
    var pair := Two(One(focused), One(added));
    match s
    case One(p) => if p == focused then pair else s
    case Two(l, r) =>
      if l == One(focused) then Two(pair, r)
      else if r == One(focused) then Two(l, pair)
      else if focused in Leaves(l) then Two(SplitShape(l, focused, added), r)
      else Two(l, SplitShape(r, focused, added))
  }

  function CloseShape(s: Shape, target: nat): Shape {
    match s
    case One(_) => s
    case Two(l, r) =>
      if l == One(target) then r
      else if r == One(target) then l
      else if target in Leaves(l) then Two(CloseShape(l, target), r)
      else Two(l, CloseShape(r, target))
  }

  /** The leaves beside `target` under its parent, searched from below `s`: nothing when the parent is
      `s` itself. */
  function SiblingsBelow(s: Shape, target: nat): seq<nat> {
    match s
    case One(_) => []
    case Two(l, r) => if l.Two? && target in Leaves(l) then Siblings(l, target) else Siblings(r, target)
  }

  function Siblings(s: Shape, target: nat): seq<nat> {
    match s
    case One(_) => []
    case Two(l, r) =>
      if l == One(target) then Leaves(r)
      else if r == One(target) then Leaves(l)
      else if l.Two? && target in Leaves(l) then Siblings(l, target)
      else Siblings(r, target)
  }

  // ---- Trees: shapes with the node that holds each part ----------------------------------------

  datatype Tree = Tip(node: Node, panel: nat) | Fork(node: Node, left: Tree, right: Tree)

  ghost function Nodes(t: Tree): set<Node> {
    match t
    case Tip(n, _) => {n}
    case Fork(n, l, r) => {n} + Nodes(l) + Nodes(r)
  }

  /** A proper binary tree: no node is shared. */
  ghost predicate Proper(t: Tree) {
    t.Fork? ==>
      && t.node !in Nodes(t.left) && t.node !in Nodes(t.right) && Nodes(t.left) !! Nodes(t.right)
      && Proper(t.left) && Proper(t.right)
  }

  /** The heap holds `t`. */
  ghost predicate Represents(t: Tree)
    reads Nodes(t)
  {
    match t
    case Tip(n, p) => n.content == Leaf(p)
    case Fork(n, l, r) => n.content == Branch(l.node, r.node) && Represents(l) && Represents(r)
  }

  ghost function Erase(t: Tree): Shape {
    match t
    case Tip(_, p) => One(p)
    case Fork(_, l, r) => Two(Erase(l), Erase(r))
  }

  /** `t` with one child of the node `at` replaced. */
  ghost function Graft(t: Tree, at: Node, side: Side, sub: Tree): Tree {
    match t
    case Tip(_, _) => t
    case Fork(n, l, r) =>
      if n == at then (if side.First? then Fork(n, sub, r) else Fork(n, l, sub))
      else Fork(n, Graft(l, at, side, sub), Graft(r, at, side, sub))
  }

  ghost function WithNode(t: Tree, n: Node): Tree {
    match t
    case Tip(_, p) => Tip(n, p)
    case Fork(_, l, r) => Fork(n, l, r)
  }

  ghost function Child(t: Tree, side: Side): Tree
    requires t.Fork?
  {
    if side.First? then t.left else t.right
  }

  /** The subtree at a node. */
  ghost function At(t: Tree, n: Node): (r: Tree)
    requires n in Nodes(t)
    ensures r.node == n && Nodes(r) <= Nodes(t)
  {
    if t.node == n then t else if n in Nodes(t.left) then At(t.left, n) else At(t.right, n)
  }

  lemma Children(t: Tree)
    requires Represents(t) && t.Fork?
    ensures t.left.node in Nodes(t.left) && t.right.node in Nodes(t.right)
    ensures Represents(t.left) && Represents(t.right)
  {
  }

  lemma {:induction false} AtProper(t: Tree, n: Node)
    requires Proper(t) && Represents(t) && n in Nodes(t)
    ensures Proper(At(t, n)) && Represents(At(t, n))
  {
    if t.node == n {
    } else {
      if n in Nodes(t.left) { AtProper(t.left, n); } else { AtProper(t.right, n); }
    }
  }

  /** In a proper tree a child is the subtree at its node. */
  lemma {:induction false} ChildAt(t: Tree, n: Node, side: Side)
    requires Proper(t) && n in Nodes(t) && At(t, n).Fork?
    ensures Child(At(t, n), side).node in Nodes(t)
    ensures At(t, Child(At(t, n), side).node) == Child(At(t, n), side)
  {
    if t.node == n {
    } else {
      var sub := if n in Nodes(t.left) then t.left else t.right;
      ChildAt(sub, n, side);
    }
  }

  lemma {:induction false} GraftOutside(t: Tree, at: Node, side: Side, sub: Tree)
    requires at !in Nodes(t)
    ensures Graft(t, at, side, sub) == t
  {
    if t.Tip? {
    } else {
      GraftOutside(t.left, at, side, sub);
      GraftOutside(t.right, at, side, sub);
    }
  }

  lemma {:induction false} GraftNodes(t: Tree, at: Node, side: Side, sub: Tree)
    ensures Nodes(Graft(t, at, side, sub)) <= Nodes(t) + Nodes(sub)
    ensures Graft(t, at, side, sub).node == t.node
  {
    if t.Fork? && t.node != at {
      GraftNodes(t.left, at, side, sub);
      GraftNodes(t.right, at, side, sub);
    }
  }

  /** Grafting onto a proper tree a proper subtree that shares only what the graft throws away. */
  lemma {:induction false} GraftProper(t: Tree, at: Node, side: Side, sub: Tree)
    requires Proper(t) && Proper(sub) && at in Nodes(t) && At(t, at).Fork?
    requires Nodes(sub) * Nodes(t) <= Nodes(Child(At(t, at), side))
    ensures Proper(Graft(t, at, side, sub))
  {
    if t.node == at {
    } else {
      if at in Nodes(t.left) {
        GraftProper(t.left, at, side, sub);
        GraftNodes(t.left, at, side, sub);
        GraftOutside(t.right, at, side, sub);
      } else {
        GraftProper(t.right, at, side, sub);
        GraftNodes(t.right, at, side, sub);
        GraftOutside(t.left, at, side, sub);
      }
    }
  }

  /** The heap holds `t` but for the contents of `at`. */
  ghost predicate RepresentsBut(t: Tree, at: Node)
    reads Nodes(t) - {at}
  {
    match t
    case Tip(n, p) => n == at || n.content == Leaf(p)
    case Fork(n, l, r) => (n == at || n.content == Branch(l.node, r.node)) && RepresentsBut(l, at) && RepresentsBut(r, at)
  }

  lemma {:induction false} ForgetOne(t: Tree, at: Node)
    requires Represents(t)
    ensures RepresentsBut(t, at)
  {
    if t.Tip? {
    } else {
      ForgetOne(t.left, at);
      ForgetOne(t.right, at);
    }
  }

  lemma {:induction false} NotThere(t: Tree, at: Node)
    requires RepresentsBut(t, at) && at !in Nodes(t)
    ensures Represents(t)
  {
    if t.Tip? {
    } else {
      NotThere(t.left, at);
      NotThere(t.right, at);
    }
  }

  function Update(c: Content, side: Side, child: Node): Content
    requires c.Branch?
  {
    if side.First? then Branch(child, c.second) else Branch(c.first, child)
  }

  /** Overwriting one field of the cell `at` is the graft. */
  lemma {:induction false} GraftRepresents(t: Tree, at: Node, side: Side, sub: Tree)
    requires Proper(t) && RepresentsBut(t, at) && at in Nodes(t) && At(t, at).Fork?
    requires at.content == Update(Branch(At(t, at).left.node, At(t, at).right.node), side, sub.node)
    requires Represents(sub)
    ensures Represents(Graft(t, at, side, sub))
  {
    if t.node == at {
      NotThere(t.left, at);
      NotThere(t.right, at);
    } else {
      GraftNodes(t.left, at, side, sub);
      GraftNodes(t.right, at, side, sub);
      if at in Nodes(t.left) {
        GraftRepresents(t.left, at, side, sub);
        GraftOutside(t.right, at, side, sub);
        NotThere(t.right, at);
      } else {
        GraftRepresents(t.right, at, side, sub);
        GraftOutside(t.left, at, side, sub);
        NotThere(t.left, at);
      }
    }
  }

  // ---- Searches --------------------------------------------------------------------------------

  function Other(side: Side): Side { if side.First? then Second else First }

  /** The parent of the leaf that shows `target`, and on which side the leaf is. */
  function FindParent(node: Node, ghost t: Tree, target: nat): (r: Option<(Node, Side)>)
    requires Represents(t) && Proper(t) && t.node == node
    reads Nodes(t)
    ensures r.None? <==> t.Tip? || target !in Leaves(Erase(t))
    ensures r.Some? ==> r.value.0 in Nodes(t)
    ensures r.Some? ==> At(t, r.value.0).Fork? && Erase(Child(At(t, r.value.0), r.value.1)) == One(target)
    decreases t
  {
    match node.content
    case Leaf(_) => None
    case Branch(first, second) =>
      Children(t);
      if first.content == Leaf(target) then Some((node, First))
      else if second.content == Leaf(target) then Some((node, Second))
      else
        var inFirst := FindParent(first, t.left, target);
        if inFirst.Some? then inFirst else FindParent(second, t.right, target)
  }

  /** The parent of a node. */
  function FindBranchParent(node: Node, ghost t: Tree, target: Node): (r: Option<(Node, Side)>)
    requires Represents(t) && Proper(t) && t.node == node
    reads Nodes(t)
    ensures r.None? <==> target == node || target !in Nodes(t)
    ensures r.Some? ==> r.value.0 in Nodes(t)
    ensures r.Some? ==> At(t, r.value.0).Fork? && Child(At(t, r.value.0), r.value.1).node == target
    decreases t
  {
    match node.content
    case Leaf(_) => None
    case Branch(first, second) =>
      Children(t);
      if first == target then Some((node, First))
      else if second == target then Some((node, Second))
      else
        var inFirst := FindBranchParent(first, t.left, target);
        if inFirst.Some? then inFirst else FindBranchParent(second, t.right, target)
  }

  lemma {:induction false} NodesAllocated(t: Tree)
    ensures forall n :: n in Nodes(t) ==> allocated(n)
  {
    if t.Tip? {
    } else {
      NodesAllocated(t.left);
      NodesAllocated(t.right);
    }
  }

  method CollectPanels(node: Node, ghost t: Tree, out: seq<nat>) returns (r: seq<nat>)
    requires Represents(t) && t.node == node
    ensures r == out + Leaves(Erase(t))
    decreases t
  {
    match node.content
    case Leaf(panel) => r := out + [panel];
    case Branch(first, second) =>
      Children(t);
      NodesAllocated(t.right);
      r := CollectPanels(first, t.left, out);
      r := CollectPanels(second, t.right, r);
  }

  // ---- What the splices do to the shape --------------------------------------------------------

  lemma {:induction false} GraftSplits(t: Tree, at: Node, side: Side, sub: Tree, focused: nat, added: nat)
    requires Represents(t) && Proper(t) && FindParent(t.node, t, focused) == Some((at, side))
    requires Erase(sub) == Two(One(focused), One(added))
    ensures Erase(Graft(t, at, side, sub)) == SplitShape(Erase(t), focused, added)
  {
    Children(t);
    if at == t.node {
    } else {
      var inLeft := FindParent(t.left.node, t.left, focused);
      if inLeft.Some? {
        GraftSplits(t.left, at, side, sub, focused, added);
        GraftOutside(t.right, at, side, sub);
      } else {
        GraftSplits(t.right, at, side, sub, focused, added);
        GraftOutside(t.left, at, side, sub);
      }
    }
  }

  lemma {:induction false} SplitMisses(s: Shape, focused: nat, added: nat)
    requires focused !in Leaves(s)
    ensures SplitShape(s, focused, added) == s
  {
    if s.One? {
    } else {
      SplitMisses(s.right, focused, added);
    }
  }

  /** At the parent of the closed leaf, what is left is the sibling. */
  lemma CloseAtParent(t: Tree, side: Side, target: nat)
    requires Represents(t) && Proper(t) && FindParent(t.node, t, target) == Some((t.node, side))
    ensures t.Fork? && CloseShape(Erase(t), target) == Erase(Child(t, Other(side)))
    ensures Siblings(Erase(t), target) == Leaves(Erase(Child(t, Other(side))))
  {
    Children(t);
  }

  /** Where the search continues when the parent is not `t` itself. */
  lemma ParentBelow(t: Tree, at: Node, side: Side, target: nat) returns (sub: Tree)
    requires Represents(t) && Proper(t) && FindParent(t.node, t, target) == Some((at, side)) && at != t.node
    ensures t.Fork? && (sub == t.left || sub == t.right) && Represents(sub) && Proper(sub) && at in Nodes(sub)
    ensures FindParent(sub.node, sub, target) == Some((at, side)) && sub.Fork? && target in Leaves(Erase(sub))
    ensures sub == t.right ==> t.left.Tip? || target !in Leaves(Erase(t.left))
    ensures Erase(t.left) != One(target) && Erase(t.right) != One(target)
  {
    Children(t);
    sub := if FindParent(t.left.node, t.left, target).Some? then t.left else t.right;
  }

  lemma {:induction false} GraftCloses(t: Tree, p: Node, side: Side, g: Node, gside: Side, target: nat)
    requires Represents(t) && Proper(t) && p != t.node
    requires FindParent(t.node, t, target) == Some((p, side))
    requires FindBranchParent(t.node, t, p) == Some((g, gside))
    ensures Erase(Graft(t, g, gside, Child(At(t, p), Other(side)))) == CloseShape(Erase(t), target)
    decreases t
  {
    var sub := ParentBelow(t, p, side, target);
    Children(t);
    if g == t.node {
      assert sub.node == p && At(t, p) == sub;
      CloseAtParent(sub, side, target);
    } else {
      assert At(t, p) == At(sub, p);
      assert FindBranchParent(sub.node, sub, p) == Some((g, gside));
      GraftCloses(sub, p, side, g, gside, target);
      GraftOutside(if sub == t.left then t.right else t.left, g, gside, Child(At(t, p), Other(side)));
    }
  }

  lemma {:induction false} CloseMisses(s: Shape, target: nat)
    requires target !in Leaves(s)
    ensures CloseShape(s, target) == s
  {
    if s.One? {
    } else {
      CloseMisses(s.right, target);
    }
  }

  /** The sibling leaves, from the parent found on the heap. */
  lemma {:induction false} SiblingsAt(t: Tree, at: Node, side: Side, target: nat)
    requires Represents(t) && Proper(t) && FindParent(t.node, t, target) == Some((at, side))
    ensures Leaves(Erase(Child(At(t, at), Other(side)))) == Siblings(Erase(t), target)
  {
    if at == t.node {
      CloseAtParent(t, side, target);
    } else {
      var sub := ParentBelow(t, at, side, target);
      SiblingsAt(sub, at, side, target);
    }
  }

  lemma {:induction false} NoSiblings(s: Shape, target: nat)
    requires s.One? || target !in Leaves(s)
    ensures Siblings(s, target) == []
  {
    if s.One? {
    } else {
      NoSiblings(s.right, target);
    }
  }

  lemma PairShape(t: Tree, focused: nat, added: nat)
    requires t.Fork? && t.left.Tip? && t.right.Tip? && t.left.panel == focused && t.right.panel == added
    ensures Erase(t) == Two(One(focused), One(added))
  {
  }

  // ---- A tab -----------------------------------------------------------------------------------

  class TabContent {
    const root: Node
    ghost var tree: Tree

    ghost predicate Valid()
      reads this, Nodes(tree)
    {
      tree.node == root && Proper(tree) && Represents(tree)
    }

    ghost function Panels(): Shape
      reads this
    {
      Erase(tree)
    }

    constructor (panel: nat)
      ensures Valid() && Panels() == One(panel) && fresh(Nodes(tree))
    {
      var leaf := new Node(Leaf(panel));
      root := leaf;
      tree := Tip(leaf, panel);
    }

    method Split(focused: nat, added: nat)
      requires Valid()
      modifies `tree, Nodes(tree)
      ensures Valid() && fresh(Nodes(tree) - old(Nodes(tree)))
      ensures Panels() == SplitShape(old(Panels()), focused, added)
    {
      NodesAllocated(tree);
      if root.content == Leaf(focused) {
        assert tree == Tip(root, focused);
        var oldLeaf := new Node(Leaf(focused));
        var newLeaf := new Node(Leaf(added));
        root.content := Branch(oldLeaf, newLeaf);
        tree := Fork(root, Tip(oldLeaf, focused), Tip(newLeaf, added));
        PairShape(tree, focused, added);
        return;
      }
      var found := FindParent(root, tree, focused);
      if found.Some? {
        SplitBelow(found.value.0, found.value.1, focused, added);
      } else {
        SplitMisses(Panels(), focused, added);
      }
    }

    /** The parent takes a new branch in place of the focused leaf. */
    method SplitBelow(parent: Node, side: Side, focused: nat, added: nat)
      requires Valid() && FindParent(root, tree, focused) == Some((parent, side))
      modifies `tree, Nodes(tree)
      ensures Valid() && fresh(Nodes(tree) - old(Nodes(tree)))
      ensures Panels() == SplitShape(old(Panels()), focused, added)
    {
      hide Graft, SplitShape, RepresentsBut, FindParent;
      NodesAllocated(tree);
      AtProper(tree, parent);
      ForgetOne(tree, parent);
      var oldLeaf := new Node(Leaf(focused));
      var newLeaf := new Node(Leaf(added));
      var branch := new Node(Branch(oldLeaf, newLeaf));
      ghost var pair := Fork(branch, Tip(oldLeaf, focused), Tip(newLeaf, added));
      ghost var graft := Graft(tree, parent, side, pair);
      PairShape(pair, focused, added);
      GraftSplits(tree, parent, side, pair, focused, added);
      GraftProper(tree, parent, side, pair);
      GraftNodes(tree, parent, side, pair);
      parent.content := Update(parent.content, side, branch);
      GraftRepresents(tree, parent, side, pair);
      tree := graft;
    }

    method FindSiblingPanels(target: nat) returns (r: seq<nat>)
      requires Valid()
      ensures r == SiblingsBelow(Panels(), target)
    {
      match root.content
      case Leaf(_) => r := [];
      case Branch(first, second) =>
        Children(tree);
        var found := FindParent(first, tree.left, target);
        ghost var sub := tree.left;
        if found.None? {
          found := FindParent(second, tree.right, target);
          sub := tree.right;
        }
        if found.None? {
          NoSiblings(Erase(tree.right), target);
          return [];
        }
        var (parent, side) := found.value;
        SiblingsAt(sub, parent, side, target);
        AtProper(sub, parent);
        ghost var at := At(sub, parent);
        Children(at);
        var Branch(f, s) := parent.content;
        r := CollectPanels(if side.First? then s else f, Child(at, Other(side)), []);
    }

    method ClosePanel(target: nat) returns (r: Closed)
      requires Valid()
      modifies `tree, Nodes(tree)
      ensures Valid() && Nodes(tree) <= old(Nodes(tree))
      ensures Panels() == CloseShape(old(Panels()), target)
      ensures r == Outcome(old(Panels()), target)
    {
      if root.content == Leaf(target) { return CloseTab; }
      NodesAllocated(tree);
      var siblings := FindSiblingPanels(target);
      var found := FindParent(root, tree, target);
      if found.None? {
        if tree.Fork? { CloseMisses(Panels(), target); }
        return CloseTab;
      }
      var (parent, side) := found.value;
      AtProper(tree, parent);
      ghost var at := At(tree, parent);
      Children(at);
      var Branch(first, second) := parent.content;
      var sibling := if side.First? then second else first;
      ghost var rest := Child(at, Other(side));
      if parent == root {
        CloseAtParent(tree, side, target);
        root.content := sibling.content;
        tree := WithNode(rest, root);
      } else {
        var (grandparent, parentSide) := FindBranchParent(root, tree, parent).value;
        Splice(grandparent, parentSide, parent, side, sibling, target);
      }
      r := PanelClosed(if siblings == [] then None else Some(siblings[0]));
    }

    /** The grandparent takes over the sibling of the closed leaf. */
    method Splice(g: Node, gside: Side, p: Node, side: Side, sibling: Node, target: nat)
      requires Valid() && p != root && FindParent(root, tree, target) == Some((p, side))
      requires FindBranchParent(root, tree, p) == Some((g, gside))
      requires sibling == Child(At(tree, p), Other(side)).node
      modifies `tree, g
      ensures Valid() && Nodes(tree) <= old(Nodes(tree))
      ensures Panels() == CloseShape(old(Panels()), target)
    {
      AtProper(tree, g);
      AtProper(tree, p);
      ghost var rest := Child(At(tree, p), Other(side));
      ghost var graft := Graft(tree, g, gside, rest);
      ChildAt(tree, g, gside);
      ForgetOne(tree, g);
      GraftCloses(tree, p, side, g, gside, target);
      GraftProper(tree, g, gside, rest);
      GraftNodes(tree, g, gside, rest);
      g.content := Update(g.content, gside, sibling);
      GraftRepresents(tree, g, gside, rest);
      tree := graft;
    }
  }

  /** What closing answers: the tab closes when nothing is left or nothing was found. */
  function Outcome(s: Shape, target: nat): Closed {
    if s.One? || target !in Leaves(s) then CloseTab
    else
      var siblings := SiblingsBelow(s, target);
      PanelClosed(if siblings == [] then None else Some(siblings[0]))
  }

  // ---- Main results ----------------------------------------------------------------------------

  predicate Distinct(q: seq<nat>) {
    forall i, j :: 0 <= i < j < |q| ==> q[i] != q[j]
  }

  predicate DistinctPanels(s: Shape) { Distinct(Leaves(s)) }

  lemma LeavesApart(s: Shape)
    requires s.Two? && DistinctPanels(s)
    ensures DistinctPanels(s.left) && DistinctPanels(s.right)
    ensures forall p :: p in Leaves(s.left) ==> p !in Leaves(s.right)
  {
    var q, m := Leaves(s), |Leaves(s.left)|;
    assert forall i :: 0 <= i < m ==> q[i] == Leaves(s.left)[i];
    assert forall i :: 0 <= i < |Leaves(s.right)| ==> q[m + i] == Leaves(s.right)[i];
  }

  lemma PairLeaves(focused: nat, added: nat)
    ensures Leaves(Two(One(focused), One(added))) == [focused, added]
  {
  }

  function InsertAt(q: seq<nat>, i: nat, x: nat): seq<nat>
    requires i <= |q|
  {
    q[..i] + [x] + q[i..]
  }

  lemma InsertInConcat(a: seq<nat>, b: seq<nat>, i: nat, x: nat)
    ensures i <= |a| ==> InsertAt(a, i, x) + b == InsertAt(a + b, i, x)
    ensures i <= |b| ==> a + InsertAt(b, i, x) == InsertAt(a + b, |a| + i, x)
  {
  }

  /** Splitting turns [.. f ..] into [.. f, new ..]. */
  lemma {:induction false} SplitInsertsAfter(s: Shape, i: nat, added: nat)
    requires DistinctPanels(s) && i < |Leaves(s)|
    ensures Leaves(SplitShape(s, Leaves(s)[i], added)) == InsertAt(Leaves(s), i + 1, added)
  {
    var focused := Leaves(s)[i];
    PairLeaves(focused, added);
    if s.One? {
    } else {
      LeavesApart(s);
      var l, r, m := Leaves(s.left), Leaves(s.right), |Leaves(s.left)|;
      assert s.left == One(focused) ==> l == [focused];
      assert s.right == One(focused) ==> r == [focused];
      if i < m {
        assert focused == l[i] && focused !in r;
        InsertInConcat(l, r, i + 1, added);
        if s.left == One(focused) {
          assert i == 0;
        } else {
          SplitInsertsAfter(s.left, i, added);
          assert SplitShape(s, focused, added) == Two(SplitShape(s.left, focused, added), s.right);
        }
      } else {
        assert focused == r[i - m] && focused !in l;
        InsertInConcat(l, r, i - m + 1, added);
        if s.right == One(focused) {
          assert i == m;
        } else {
          SplitInsertsAfter(s.right, i - m, added);
          assert SplitShape(s, focused, added) == Two(s.left, SplitShape(s.right, focused, added));
        }
      }
    }
  }

  /** Closing deletes exactly its target. */
  lemma {:induction false} CloseDeletes(s: Shape, i: nat)
    requires DistinctPanels(s) && s.Two? && i < |Leaves(s)|
    ensures Leaves(CloseShape(s, Leaves(s)[i])) == Leaves(s)[..i] + Leaves(s)[i + 1..]
  {
    var target := Leaves(s)[i];
    LeavesApart(s);
    var m := |Leaves(s.left)|;
    if i < m {
      assert target in Leaves(s.left);
      if s.left != One(target) { CloseDeletes(s.left, i); }
    } else {
      assert target in Leaves(s.right);
      if s.right != One(target) { CloseDeletes(s.right, i - m); }
    }
  }

  /** Panels stay distinct under both operations. */
  lemma StaysDistinct(s: Shape, i: nat, added: nat)
    requires DistinctPanels(s) && i < |Leaves(s)| && added !in Leaves(s)
    ensures DistinctPanels(SplitShape(s, Leaves(s)[i], added))
    ensures s.Two? ==> DistinctPanels(CloseShape(s, Leaves(s)[i]))
  {
    SplitInsertsAfter(s, i, added);
    if s.Two? { CloseDeletes(s, i); }
  }

  /** Closing the panel just added restores the original tree. */
  lemma {:induction false} CloseUndoesSplit(s: Shape, focused: nat, added: nat)
    requires focused in Leaves(s) && added !in Leaves(s)
    ensures CloseShape(SplitShape(s, focused, added), added) == s
  {
    if s.One? {
    } else {
      var pair := Two(One(focused), One(added));
      PairLeaves(focused, added);
      assert CloseShape(pair, added) == One(focused);
      if s.left != One(focused) && s.right != One(focused) {
        var sub := if focused in Leaves(s.left) then s.left else s.right;
        CloseUndoesSplit(sub, focused, added);
        SplitKeepsLeaves(sub, focused, added);
      }
    }
  }

  lemma {:induction false} SplitKeepsLeaves(s: Shape, focused: nat, added: nat)
    requires focused in Leaves(s)
    ensures added in Leaves(SplitShape(s, focused, added)) && SplitShape(s, focused, added).Two?
  {
    PairLeaves(focused, added);
    if s.Two? && s.left != One(focused) && s.right != One(focused) {
      SplitKeepsLeaves(if focused in Leaves(s.left) then s.left else s.right, focused, added);
    } else {
      assert SplitShape(s, focused, added).Two?;
    }
  }

  /** The same on the heap: the tab is as before, whether the split was at the root or below it. */
  method SplitThenClose(tab: TabContent, focused: nat, added: nat)
    requires tab.Valid() && focused in Leaves(tab.Panels()) && added !in Leaves(tab.Panels())
    modifies tab`tree, Nodes(tab.tree)
    ensures tab.Valid() && tab.Panels() == old(tab.Panels())
  {
    ghost var before := tab.Panels();
    tab.Split(focused, added);
    CloseUndoesSplit(before, focused, added);
    var _ := tab.ClosePanel(added);
  }

  /** `block` lies directly after or directly before position `i`. */
  predicate Beside(q: seq<nat>, i: nat, block: seq<nat>)
    requires i < |q|
  {
    block <= q[i + 1..] || (|block| <= i && q[i - |block|..i] == block)
  }

  lemma BesideInConcat(a: seq<nat>, b: seq<nat>, i: nat, block: seq<nat>)
    ensures i < |a| && Beside(a, i, block) ==> Beside(a + b, i, block)
    ensures i < |b| && Beside(b, i, block) ==> Beside(a + b, |a| + i, block)
  {
    if i < |a| && Beside(a, i, block) {
      assert (a + b)[i + 1..] == a[i + 1..] + b;
      if |block| <= i { assert (a + b)[i - |block|..i] == a[i - |block|..i]; }
    }
    if i < |b| && Beside(b, i, block) {
      assert (a + b)[|a| + i + 1..] == b[i + 1..];
      if |block| <= i { assert (a + b)[|a| + i - |block|..|a| + i] == b[i - |block|..i]; }
    }
  }

  lemma BesideNeighbour(q: seq<nat>, i: nat, block: seq<nat>)
    requires i < |q| && (block == q[i + 1..] || block == q[..i] || block == [])
    ensures Beside(q, i, block)
  {
  }

  lemma {:induction false} LeavesSome(s: Shape)
    ensures Leaves(s) != []
  {
    if s.One? {
    } else {
      LeavesSome(s.left);
    }
  }

  lemma {:induction false} SiblingsBeside(s: Shape, i: nat)
    requires DistinctPanels(s) && s.Two? && i < |Leaves(s)|
    ensures Siblings(s, Leaves(s)[i]) != [] && Beside(Leaves(s), i, Siblings(s, Leaves(s)[i]))
  {
    hide Beside;
    var target := Leaves(s)[i];
    var l, r, m := Leaves(s.left), Leaves(s.right), |Leaves(s.left)|;
    LeavesApart(s);
    LeavesSome(s.left);
    LeavesSome(s.right);
    assert s.left == One(target) ==> l == [target];
    assert s.right == One(target) ==> r == [target];
    if i < m {
      assert target == l[i] && target !in r;
      if s.left.Two? {
        SiblingsBeside(s.left, i);
        BesideInConcat(l, r, i, Siblings(s.left, target));
      } else {
        assert Leaves(s)[i + 1..] == r;
        BesideNeighbour(Leaves(s), i, r);
      }
    } else {
      assert target == r[i - m] && target !in l;
      if s.right.Two? {
        SiblingsBeside(s.right, i - m);
        BesideInConcat(l, r, i - m, Siblings(s.right, target));
      } else {
        assert Leaves(s)[..i] == l;
        BesideNeighbour(Leaves(s), i, l);
      }
    }
  }

  /** The panel offered for focus: none when the closed leaf was a child of the root, or else the first
      of a block of leaves that lies right beside it. */
  lemma FocusTargetExact(s: Shape, i: nat)
    requires DistinctPanels(s) && s.Two? && i < |Leaves(s)|
    ensures var target, block := Leaves(s)[i], SiblingsBelow(s, Leaves(s)[i]);
      && Outcome(s, target) == PanelClosed(if block == [] then None else Some(block[0]))
      && (block == [] <==> s.left == One(target) || s.right == One(target))
      && Beside(Leaves(s), i, block)
  {
    hide Beside;
    var target := Leaves(s)[i];
    var l, r, m := Leaves(s.left), Leaves(s.right), |Leaves(s.left)|;
    LeavesApart(s);
    if i < m {
      assert target == l[i] && target !in r;
      if s.left.Two? {
        SiblingsBeside(s.left, i);
        BesideInConcat(l, r, i, Siblings(s.left, target));
      } else {
        NoSiblings(s.right, target);
        BesideNeighbour(Leaves(s), i, []);
      }
    } else {
      assert target == r[i - m] && target !in l;
      if s.right.Two? {
        SiblingsBeside(s.right, i - m);
        BesideInConcat(l, r, i - m, Siblings(s.right, target));
      } else {
        BesideNeighbour(Leaves(s), i, []);
      }
    }
  }
}
