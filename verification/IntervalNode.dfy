/** The interval tree as linked nodes, with insertion in place. */
module IntervalNode {
  import opened IntervalTree

  class IntervalNode {
    const low: nat
    const high: nat
    const fposStart: nat
    var max: nat
    var left: IntervalNode?
    var right: IntervalNode?
    ghost var repr: set<object>  // the nodes of the subtree
    ghost var tree: Tree         // what the subtree stands for

    ghost predicate Linked()
      reads this, repr
      ensures Linked() ==> this in repr
    {
      && this in repr
      && (left != null ==> left in repr && left.repr <= repr && this !in left.repr && left.Linked())
      && (right != null ==> right in repr && right.repr <= repr && this !in right.repr && right.Linked())
      && (left != null && right != null ==> left.repr !! right.repr)
      && tree.Node? && tree.iv == Interval(low, high, fposStart) && tree.max == max
      && tree.left == TreeOf(left) && tree.right == TreeOf(right)
    }

    static ghost function TreeOf(n: IntervalNode?): Tree
      reads n
    {
      if n == null then Nil else n.tree
    }

    lemma {:induction false} Children()
      requires Linked()
      ensures left == null <==> tree.left.Nil?
      ensures right == null <==> tree.right.Nil?
      ensures left != null ==> tree.left == left.tree && tree.left.max == left.max
      ensures right != null ==> tree.right == right.tree && tree.right.max == right.max
    {
    }

    constructor (low: nat, high: nat, fposStart: nat)
      ensures Linked() && fresh(repr) && repr == {this}
      ensures tree == InitNode(Interval(low, high, fposStart)) && left == null && right == null
    {
      this.low, this.high, this.fposStart := low, high, fposStart;
      max, left, right := high, null, null;
      repr := {this};
      tree := InitNode(Interval(low, high, fposStart));
    }

    predicate HoldsPoint(x: nat) { low <= x <= high }

    /** Search along one path. */
    function FindInt(x: nat): (b: bool)
      requires Linked()
      reads repr
      ensures b == FindBool(tree, x)
      decreases repr
    {
      Children();
      if x > max then false
      else if HoldsPoint(x) then true
      else if left != null && left.max >= x then left.FindInt(x)
      else right != null && right.FindInt(x)
    }

    function FindNode(x: nat): (n: IntervalNode?)
      requires Linked()
      reads repr
      ensures n == null <==> Find(tree, x).Nil?
      ensures n != null ==> n in repr && n.Linked() && n.tree == Find(tree, x)
      decreases repr
    {
      Children();
      if x > max then null
      else if HoldsPoint(x) then this
      else if left != null && left.max >= x then left.FindNode(x)
      else if right == null then null else right.FindNode(x)
    }
  }

  /** A node to be inserted stands alone. */
  ghost predicate Single(node: IntervalNode)
    reads node, node.repr
  {
    node.Linked() && node.left == null && node.right == null && node.repr == {node} && node.max == node.high
  }

  /** Hangs `node` below `root`, on the way updating the largest high end of each subtree. */
  method InsertRecursive(root: IntervalNode?, node: IntervalNode) returns (r: IntervalNode)
    requires root != null ==> root.Linked() && node !in root.repr
    requires Single(node)
    modifies if root == null then {} else root.repr
    ensures r.Linked() && r.repr == (if root == null then {} else old(root.repr)) + {node}
    ensures root != null ==> r == root
    ensures var before := if root == null then Nil else old(root.tree);
      r.tree == Insert(before, Interval(node.low, node.high, node.fposStart))
    decreases if root == null then {} else root.repr, 1
  {
    if root == null { return node; }
    if node.low < root.low { InsertLeft(root, node); } else { InsertRight(root, node); }
    r := root;
  }

  method InsertLeft(root: IntervalNode, node: IntervalNode)
    requires root.Linked() && node !in root.repr && Single(node) && node.low < root.low
    modifies root.repr
    ensures root.Linked() && root.repr == old(root.repr) + {node}
    ensures root.tree == Insert(old(root.tree), Interval(node.low, node.high, node.fposStart))
    decreases root.repr, 0
  {
    var l := InsertRecursive(root.left, node);
    root.left := l;
    if node.high > root.max { root.max := node.high; }
    root.repr := root.repr + {node};
    root.tree := Insert(root.tree, Interval(node.low, node.high, node.fposStart));
  }

  method InsertRight(root: IntervalNode, node: IntervalNode)
    requires root.Linked() && node !in root.repr && Single(node) && node.low >= root.low
    modifies root.repr
    ensures root.Linked() && root.repr == old(root.repr) + {node}
    ensures root.tree == Insert(old(root.tree), Interval(node.low, node.high, node.fposStart))
    decreases root.repr, 0
  {
    var l := InsertRecursive(root.right, node);
    root.right := l;
    if node.high > root.max { root.max := node.high; }
    root.repr := root.repr + {node};
    root.tree := Insert(root.tree, Interval(node.low, node.high, node.fposStart));
  }

  /** Inserting a new interval: afterwards the tree is still a search tree, holds exactly one
      interval more, and finds every number that lies in some interval. */
  method InsertInterval(root: IntervalNode, low: nat, high: nat, fposStart: nat)
    requires root.Linked() && Valid(root.tree)
    modifies root.repr
    ensures root.Linked() && fresh(root.repr - old(root.repr)) && Valid(root.tree)
    ensures Intervals(root.tree) == old(Intervals(root.tree)) + multiset{Interval(low, high, fposStart)}
    ensures root.tree == Insert(old(root.tree), Interval(low, high, fposStart))
  {
    hide Valid, Intervals, Insert;
    InsertCorrect(root.tree, Interval(low, high, fposStart));
    var node := new IntervalNode(low, high, fposStart);
    var r := InsertRecursive(root, node);
  }

  /** The search on the linked nodes answers for the set of intervals in the tree. */
  method Lookup(root: IntervalNode, x: nat) returns (found: bool, node: IntervalNode?)
    requires root.Linked() && Valid(root.tree)
    ensures found <==> exists j :: j in Intervals(root.tree) && Contains(j, x)
    ensures found <==> node != null
    ensures node != null ==> node in root.repr && node.low <= x <= node.high
  {
    FindCorrect(root.tree, x);
    found := root.FindInt(x);
    node := root.FindNode(x);
  }
}
