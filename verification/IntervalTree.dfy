/** The interval tree: a binary search tree on the low ends, augmented with the
    largest high end of each subtree and searched along a single path. */
module IntervalTree {

  datatype Interval = Interval(low: nat, high: nat, fpos: nat)

  datatype Tree = Nil | Node(iv: Interval, max: nat, left: Tree, right: Tree)

  predicate Contains(iv: Interval, x: nat) { iv.low <= x <= iv.high }

  function InitNode(iv: Interval): Tree { Node(iv, iv.high, Nil, Nil) }

  function Insert(t: Tree, iv: Interval): (r: Tree)
    ensures r.Node?
  {
    match t
    case Nil => InitNode(iv)
    case Node(j, max, l, r) =>
      var max' := if iv.high > max then iv.high else max;
      if iv.low < j.low then Node(j, max', Insert(l, iv), r) else Node(j, max', l, Insert(r, iv))
  }

  /** The node found on the search path, if any. */
  function Find(t: Tree, x: nat): Tree {
    match t
    case Nil => Nil
    case Node(j, max, l, r) =>
      if x > max then Nil
      else if Contains(j, x) then t
      else if l.Node? && l.max >= x then Find(l, x)
      else Find(r, x)
  }

  predicate FindBool(t: Tree, x: nat) {
    match t
    case Nil => false
    case Node(j, max, l, r) =>
      if x > max then false
      else if Contains(j, x) then true
      else if l.Node? && l.max >= x then FindBool(l, x)
      else FindBool(r, x)
  }

  // ---- what the tree stands for ---------------------------------------------

  ghost function Intervals(t: Tree): multiset<Interval> {
    match t
    case Nil => multiset{}
    case Node(j, _, l, r) => Intervals(l) + multiset{j} + Intervals(r)
  }

  /** Search order and augmentation. */
  ghost predicate Valid(t: Tree) {
    t.Node? ==>
      && Valid(t.left) && Valid(t.right)
      && (forall j :: j in Intervals(t.left) ==> j.low < t.iv.low)
      && (forall j :: j in Intervals(t.right) ==> t.iv.low <= j.low)
      && (forall j :: j in Intervals(t) ==> j.high <= t.max)
      && exists j :: j in Intervals(t) && j.high == t.max
  }

  lemma {:induction false} InsertAdds(t: Tree, iv: Interval)
    ensures Intervals(Insert(t, iv)) == Intervals(t) + multiset{iv}
  {
    hide Intervals;
    IntervalsOf(t);
    IntervalsOf(Insert(t, iv));
    IntervalsOf(Nil);
    if t.Node? {
      if iv.low < t.iv.low { InsertAdds(t.left, iv); } else { InsertAdds(t.right, iv); }
    }
  }

  lemma {:induction false} IntervalsOf(t: Tree)
    ensures Intervals(t) ==
      if t.Nil? then multiset{} else Intervals(t.left) + multiset{t.iv} + Intervals(t.right)
  {
  }

  lemma {:induction false} MaxAfterInsert(t: Tree, iv: Interval, n: Tree)
    requires Valid(t) && t.Node? && n.Node? && Intervals(n) == Intervals(t) + multiset{iv}
    requires n.max == if iv.high > t.max then iv.high else t.max
    ensures forall j :: j in Intervals(n) ==> j.high <= n.max
    ensures exists j :: j in Intervals(n) && j.high == n.max
  {
    var top :| top in Intervals(t) && top.high == t.max;
    assert top in Intervals(n) && iv in Intervals(n);
  }

  lemma {:induction false} AloneValid(iv: Interval)
    ensures Valid(InitNode(iv))
  {
    assert iv in Intervals(InitNode(iv));
  }

  lemma {:induction false} HungLeft(t: Tree, iv: Interval, n: Tree)
    requires Valid(t) && t.Node? && iv.low < t.iv.low && n.Node? && n.iv == t.iv && n.right == t.right
    requires Valid(n.left) && Intervals(n.left) == Intervals(t.left) + multiset{iv}
    requires Intervals(n) == Intervals(t) + multiset{iv}
    requires n.max == if iv.high > t.max then iv.high else t.max
    ensures Valid(n)
  {
    hide Intervals;
    MaxAfterInsert(t, iv, n);
  }

  lemma {:induction false} HungRight(t: Tree, iv: Interval, n: Tree)
    requires Valid(t) && t.Node? && iv.low >= t.iv.low && n.Node? && n.iv == t.iv && n.left == t.left
    requires Valid(n.right) && Intervals(n.right) == Intervals(t.right) + multiset{iv}
    requires Intervals(n) == Intervals(t) + multiset{iv}
    requires n.max == if iv.high > t.max then iv.high else t.max
    ensures Valid(n)
  {
    hide Intervals;
    MaxAfterInsert(t, iv, n);
  }

  /** Inserting keeps search order and augmentation, and adds exactly the one interval. */
  lemma {:induction false} InsertCorrect(t: Tree, iv: Interval)
    requires Valid(t)
    ensures Valid(Insert(t, iv))
    ensures Intervals(Insert(t, iv)) == Intervals(t) + multiset{iv}
  {
    hide Intervals, Valid;
    InsertAdds(t, iv);
    if t.Nil? {
      AloneValid(iv);
    } else {
      Parts(t, 0);
      if iv.low < t.iv.low {
        InsertCorrect(t.left, iv);
        HungLeft(t, iv, Insert(t, iv));
      } else {
        InsertCorrect(t.right, iv);
        HungRight(t, iv, Insert(t, iv));
      }
    }
  }

  ghost predicate SomeContains(t: Tree, x: nat) {
    exists j :: j in Intervals(t) && Contains(j, x)
  }

  lemma {:induction false} Parts(t: Tree, x: nat)
    requires Valid(t)
    ensures t.Node? ==> Valid(t.left) && Valid(t.right)
    ensures t.Nil? || x > t.max ==> !SomeContains(t, x)
  {
  }

  /** If the left subtree reaches as far as `x` but holds nothing containing it, then `x` is
      before everything further right. */
  lemma {:induction false} LeftAnswersForAll(t: Tree, x: nat)
    requires Valid(t) && t.Node? && t.left.Node? && t.left.max >= x
    ensures SomeContains(t, x) <==> Contains(t.iv, x) || SomeContains(t.left, x)
  {
    if !SomeContains(t.left, x) {
      var top :| top in Intervals(t.left) && top.high == t.left.max;
      assert x < top.low < t.iv.low;
    }
    assert t.iv in Intervals(t) && forall j :: j in Intervals(t.left) ==> j in Intervals(t);
  }

  /** A left subtree that ends before `x` contains nothing that contains it. */
  lemma {:induction false} RightAnswersForAll(t: Tree, x: nat)
    requires Valid(t) && t.Node? && (t.left.Nil? || t.left.max < x)
    ensures SomeContains(t, x) <==> Contains(t.iv, x) || SomeContains(t.right, x)
  {
    assert t.iv in Intervals(t) && forall j :: j in Intervals(t.right) ==> j in Intervals(t);
  }

  lemma {:induction false} FindBoolCorrect(t: Tree, x: nat)
    requires Valid(t)
    ensures FindBool(t, x) <==> SomeContains(t, x)
  {
    hide Valid, SomeContains;
    Parts(t, x);
    if t.Node? && x <= t.max {
      if Contains(t.iv, x) {
        ContainedHere(t, x);
      } else if t.left.Node? && t.left.max >= x {
        FindBoolCorrect(t.left, x);
        LeftAnswersForAll(t, x);
      } else {
        FindBoolCorrect(t.right, x);
        RightAnswersForAll(t, x);
      }
    }
  }

  lemma {:induction false} ContainedHere(t: Tree, x: nat)
    requires t.Node? && Contains(t.iv, x)
    ensures SomeContains(t, x)
  {
    assert t.iv in Intervals(t);
  }

  lemma {:induction false} FindAgrees(t: Tree, x: nat)
    ensures Find(t, x).Node? <==> FindBool(t, x)
    ensures Find(t, x).Node? ==> Find(t, x).iv in Intervals(t) && Contains(Find(t, x).iv, x)
  {
    if t.Node? {
      FindAgrees(t.left, x);
      FindAgrees(t.right, x);
    }
  }

  /** Following one child only loses nothing: the search finds `x` exactly when some
      interval in the tree contains it, and returns a node whose own interval does. */
  lemma {:induction false} FindCorrect(t: Tree, x: nat)
    requires Valid(t)
    ensures FindBool(t, x) <==> exists j :: j in Intervals(t) && Contains(j, x)
    ensures Find(t, x).Node? <==> FindBool(t, x)
    ensures Find(t, x).Node? ==> Find(t, x).iv in Intervals(t) && Contains(Find(t, x).iv, x)
  {
    hide Valid, Intervals, Find, FindBool;
    FindBoolCorrect(t, x);
    FindAgrees(t, x);
  }

  // ---- which node is found ----------------------------------------------------

  /** The subtrees, each before those below it, and those to the left before those to the right. */
  ghost function Preorder(t: Tree): seq<Tree> {
    if t.Nil? then [] else [t] + Preorder(t.left) + Preorder(t.right)
  }

  ghost function FirstHolding(ts: seq<Tree>, x: nat): Tree {
    if ts == [] then Nil
    else if ts[0].Node? && Contains(ts[0].iv, x) then ts[0]
    else FirstHolding(ts[1..], x)
  }

  lemma {:induction false} FirstOfTwo(a: seq<Tree>, b: seq<Tree>, x: nat)
    ensures FirstHolding(a + b, x) == if FirstHolding(a, x).Node? then FirstHolding(a, x) else FirstHolding(b, x)
  {
    if a == [] {
      assert a + b == b;
    } else {
      assert (a + b)[1..] == a[1..] + b;
      FirstOfTwo(a[1..], b, x);
    }
  }

  lemma {:induction false} FirstOfTree(t: Tree, x: nat)
    requires t.Node?
    ensures FirstHolding(Preorder(t), x) ==
      if Contains(t.iv, x) then t
      else if FirstHolding(Preorder(t.left), x).Node? then FirstHolding(Preorder(t.left), x)
      else FirstHolding(Preorder(t.right), x)
  {
    FirstOfTwo([t] + Preorder(t.left), Preorder(t.right), x);
    FirstOfTwo([t], Preorder(t.left), x);
    assert FirstHolding([t], x) == if Contains(t.iv, x) then t else FirstHolding([], x);
  }

  lemma {:induction false} FirstIfAny(t: Tree, x: nat)
    ensures FirstHolding(Preorder(t), x).Node? <==> SomeContains(t, x)
  {
    if t.Node? {
      FirstOfTree(t, x);
      FirstIfAny(t.left, x);
      FirstIfAny(t.right, x);
      PartsContain(t, x);
    }
  }

  lemma {:induction false} PartsContain(t: Tree, x: nat)
    requires t.Node?
    ensures SomeContains(t, x) <==> Contains(t.iv, x) || SomeContains(t.left, x) || SomeContains(t.right, x)
  {
    assert t.iv in Intervals(t);
    assert forall j :: j in Intervals(t) <==> j == t.iv || j in Intervals(t.left) || j in Intervals(t.right);
  }

  /** Of several intervals that contain `x` the search returns the one nearest the root, and to
      the left of any other branch: the first in preorder. */
  lemma {:induction false} FindsFirst(t: Tree, x: nat)
    requires Valid(t)
    ensures Find(t, x) == FirstHolding(Preorder(t), x)
  {
    hide Valid, SomeContains, Preorder, FirstHolding;
    Parts(t, x);
    FirstIfAny(t, x);
    if t.Nil? {
    } else if x <= t.max {
      FirstOfTree(t, x);
      if t.left.Node? && t.left.max >= x {
        FindsFirst(t.left, x);
        LeftAnswersForAll(t, x);
        FirstIfAny(t.left, x);
        FirstIfAny(t.right, x);
        PartsContain(t, x);
        NodeOrNil(t, x);
      } else {
        FindsFirst(t.right, x);
        RightAnswersForAll(t, x);
        FirstIfAny(t.left, x);
        LeftEnds(t, x);
      }
    }
  }

  lemma {:induction false} NodeOrNil(t: Tree, x: nat)
    requires t.Node?
    ensures !FirstHolding(Preorder(t.left), x).Node? ==> FirstHolding(Preorder(t.left), x) == Nil
  {
  }

  lemma {:induction false} LeftEnds(t: Tree, x: nat)
    requires Valid(t) && t.Node? && (t.left.Nil? || t.left.max < x)
    ensures !SomeContains(t.left, x)
  {
  }

  // ---- where a node is hung -----------------------------------------------------

  /** The subtree reached by going left (`true`) or right (`false`). */
  function SubtreeAt(t: Tree, path: seq<bool>): Tree {
    if path == [] || t.Nil? then t else SubtreeAt(if path[0] then t.left else t.right, path[1..])
  }

  /** Insertion moves nothing: every interval stays where it was, so the new one is a leaf. */
  lemma {:induction false} InsertKeepsPlaces(t: Tree, iv: Interval, path: seq<bool>)
    requires SubtreeAt(t, path).Node?
    ensures SubtreeAt(Insert(t, iv), path).Node? && SubtreeAt(Insert(t, iv), path).iv == SubtreeAt(t, path).iv
  {
    if path != [] { InsertKeepsPlaces(if path[0] then t.left else t.right, iv, path[1..]); }
  }

  /** The tree after inserting `ivs` one after the other. */
  function Build(ivs: seq<Interval>): Tree {
    if ivs == [] then Nil else Insert(Build(ivs[..|ivs| - 1]), ivs[|ivs| - 1])
  }

  /** After any sequence of inserts, in any order and with any overlaps, a search for `x`
      answers whether one of the inserted intervals contains `x`. */
  lemma {:induction false} SearchAgreesWithInserted(ivs: seq<Interval>, x: nat)
    ensures Valid(Build(ivs)) && Intervals(Build(ivs)) == multiset(ivs)
    ensures FindBool(Build(ivs), x) <==> exists i :: 0 <= i < |ivs| && Contains(ivs[i], x)
    ensures var n := Find(Build(ivs), x); n.Node? <==> FindBool(Build(ivs), x)
    ensures var n := Find(Build(ivs), x); n.Node? ==> n.iv in ivs && Contains(n.iv, x)
  {
    BuildValid(ivs);
    BuildIntervals(ivs);
    FindCorrect(Build(ivs), x);
    if i :| 0 <= i < |ivs| && Contains(ivs[i], x) { assert ivs[i] in multiset(ivs); }
  }

  lemma {:induction false} MultisetSnoc<T>(s: seq<T>, x: T)
    ensures multiset(s + [x]) == multiset(s) + multiset{x}
  {
  }

  lemma {:induction false} BuildIntervals(ivs: seq<Interval>)
    ensures Intervals(Build(ivs)) == multiset(ivs)
  {
    if ivs != [] {
      var before, iv := ivs[..|ivs| - 1], ivs[|ivs| - 1];
      BuildIntervals(before);
      InsertAdds(Build(before), iv);
      MultisetSnoc(before, iv);
      assert before + [iv] == ivs;
    }
  }

  lemma {:induction false} BuildValid(ivs: seq<Interval>)
    ensures Valid(Build(ivs))
  {
    if ivs != [] {
      BuildValid(ivs[..|ivs| - 1]);
      InsertCorrect(Build(ivs[..|ivs| - 1]), ivs[|ivs| - 1]);
    }
  }

  // ---- right-going chains ---------------------------------------------------

  /** The intervals met by following right children. */
  function Spine(t: Tree): seq<Interval> {
    if t.Nil? then [] else [t.iv] + Spine(t.right)
  }

  /** No left children, and the intervals are disjoint and in file order. */
  predicate Chain(t: Tree) {
    t.Node? ==>
      && t.left.Nil? && t.iv.low <= t.iv.high
      && Chain(t.right) && (t.right.Node? ==> t.iv.high < t.right.iv.low)
  }

  /** The high end of the last interval of a chain. */
  function LastHigh(t: Tree): nat
    requires t.Node?
  {
    if t.right.Nil? then t.iv.high else LastHigh(t.right)
  }

  /** Lines covered by the intervals of a chain. */
  function Lines(t: Tree): nat {
    if t.Nil? || t.iv.high < t.iv.low then 0 else t.iv.high - t.iv.low + 1 + Lines(t.right)
  }

  lemma {:induction false} ChainOrder(t: Tree)
    requires Chain(t) && t.Node?
    ensures t.iv.low <= LastHigh(t)
  {
    if t.right.Node? { ChainOrder(t.right); }
  }

  /** Inserting an interval that starts after the end of a chain extends the chain. */
  lemma {:induction false} InsertExtendsChain(t: Tree, iv: Interval)
    requires Chain(t) && t.Node? && LastHigh(t) < iv.low <= iv.high
    ensures Chain(Insert(t, iv)) && LastHigh(Insert(t, iv)) == iv.high
    ensures Insert(t, iv).iv == t.iv
    ensures Spine(Insert(t, iv)) == Spine(t) + [iv]
    ensures Lines(Insert(t, iv)) == Lines(t) + (iv.high - iv.low + 1)
  {
    ChainOrder(t);
    if t.right.Node? { InsertExtendsChain(t.right, iv); }
  }
}
