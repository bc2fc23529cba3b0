/** The tree of files as the mutable objects of extensions/ql-vscode/src/common/file-tree-nodes.ts. */
module FileTreeObjects {
  import opened FileTree

  datatype Node<T> = LeafNode(path: string, name: string, data: T) | DirNode(dir: FileTreeDirectory<T>)

  function NodeName<T>(n: Node<T>): string {
    match n case LeafNode(_, name, _) => name case DirNode(dir) => dir.name
  }

  ghost function NodeTree<T>(n: Node<T>): Tree<T>
    reads if n.DirNode? then {n.dir} else {}
  {
    match n case LeafNode(path, name, data) => Leaf(path, name, data) case DirNode(dir) => dir.tree
  }

  /** What the children own: different objects. */
  ghost predicate Apart(parts: seq<set<object>>) {
    forall i, j | 0 <= i < j < |parts| :: parts[i] !! parts[j]
  }

  lemma ReplacedPart(parts: seq<set<object>>, i: nat, part: set<object>)
    requires i < |parts| && Apart(parts) && forall k | 0 <= k < |parts| && k != i :: parts[k] !! part
    ensures Apart(parts[i := part])
  {
  }

  lemma ReorderedParts(parts: seq<set<object>>, order: seq<nat>)
    requires Apart(parts) && InRange(order, |parts|) && AllDifferent(order)
    ensures Apart(Reorder(parts, order))
  {
    var r := Reorder(parts, order);
    forall i, j | 0 <= i < j < |r|
      ensures r[i] !! r[j]
    {
      if order[i] < order[j] {
        assert parts[order[i]] !! parts[order[j]];
      } else {
        assert parts[order[j]] !! parts[order[i]];
      }
    }
  }

  class FileTreeDirectory<T> {
    const path: string
    const name: string
    var children: seq<Node<T>>
    ghost var tree: Tree<T>         // the value of this directory
    ghost var Repr: set<object>
    ghost var parts: seq<set<object>>  // the objects of each child

    /** Child `i` owns its part of the objects, is valid, and has the value that `tree` says. */
    ghost predicate Valid()
      reads this, Repr
      decreases Repr
      ensures Valid() ==> this in Repr
    {
      && this in Repr && |parts| == |children| && Apart(parts)
      && (forall i | 0 <= i < |children| :: parts[i] <= Repr && this !in parts[i])
      && (forall i | 0 <= i < |children| && children[i].DirNode? ::
            children[i].dir in parts[i] && children[i].dir.Repr == parts[i] && children[i].dir.Valid())
      && tree.Dir? && tree.path == path && tree.name == name && |tree.children| == |children|
      && forall i | 0 <= i < |children| :: NodeTree(children[i]) == tree.children[i]
    }

    constructor (path: string, name: string)
      ensures Valid() && fresh(Repr) && this.path == path && this.name == name
      ensures tree == Dir(path, name, [])
    {
      this.path, this.name := path, name;
      children, parts := [], [];
      tree := Dir(path, name, []);
      Repr := {this};
    }

    /** A directory with the children of another one, which it replaces. */
    constructor Replacing(path: string, name: string, other: FileTreeDirectory<T>)
      requires other.Valid()
      ensures Valid() && this.path == path && this.name == name
      ensures fresh(this) && Repr == {this} + (other.Repr - {other})
      ensures tree == Dir(path, name, other.tree.children)
    {
      this.path, this.name := path, name;
      children, parts := other.children, other.parts;
      tree := Dir(path, name, other.tree.children);
      Repr := {this} + (other.Repr - {other});
    }

    /** `this._children.sort(...)` */
    method Sort(le: Order)
      requires Valid()
      modifies this
      ensures Valid() && Repr == old(Repr) && |children| == |tree.children|
      ensures tree == old(tree).(children := SortByName(old(tree.children), le))
    {
      var cs := children;
      var names := seq(|cs|, i requires 0 <= i < |cs| => NodeName(cs[i]));
      forall i | 0 <= i < |cs|
        ensures NodeName(cs[i]) == tree.children[i].name
      {
        assert NodeTree(cs[i]) == tree.children[i];
        if cs[i].DirNode? {
          assert cs[i].dir.Valid();
        }
      }
      assert names == Names(tree.children);
      var order := SortedIndices(names, |children|, le);
      SortedIndicesDifferent(names, |children|, le);
      hide Valid, SortedIndices, Reorder;
      Permute(order);
    }

    /** Puts the children into another order. */
    method Permute(order: seq<nat>)
      requires Valid() && |order| == |children| && InRange(order, |children|) && AllDifferent(order)
      modifies this
      ensures Valid() && Repr == old(Repr) && |children| == |tree.children|
      ensures tree == old(tree).(children := Reorder(old(tree.children), order))
    {
      hide Apart, AllDifferent;
      ghost var cs, ps, ts := children, parts, tree.children;
      ReorderedParts(parts, order);
      children, parts := Reorder(children, order), Reorder(parts, order);
      tree := tree.(children := Reorder(tree.children, order));
      forall k | 0 <= k < |children|
        ensures parts[k] <= Repr && this !in parts[k] && NodeTree(children[k]) == tree.children[k]
        ensures children[k].DirNode? ==>
                  children[k].dir in parts[k] && children[k].dir.Repr == parts[k] && children[k].dir.Valid()
      {
        var o := order[k];
        assert children[k] == cs[o] && parts[k] == ps[o] && tree.children[k] == ts[o];
      }
    }

    /** `finish` */
    method FinishTree(le: Order)
      requires Valid()
      modifies Repr
      ensures Valid() && fresh(Repr - old(Repr))
      ensures tree == Finish(old(tree), le)
      decreases tree, 1, 0
    {
      ghost var t0 := tree;
      assert t0.Dir?;
      hide Finish, SortByName, Collapse, Valid, AtChild;
      Sort(le);
      AtFirstChild(t0, tree, le);
      for i := 0 to |children|
        invariant Valid() && fresh(Repr - old(Repr))
        invariant AtChild(t0, tree, |children|, i, le)
      {
        AtNextChild(t0, tree, |children|, i, le);
        FinishChild(i, le, t0);
      }
      AtLastChild(t0, tree, |children|, le);
    }

    /** The body of the loop of `finish` for one child; `whole` is the directory as it was. */
    method FinishChild(i: nat, le: Order, ghost whole: Tree<T>)
      requires Valid() && i < |children| && whole.Dir? && tree.children[i] in whole.children
      modifies Repr
      ensures Valid() && fresh(Repr - old(Repr)) && |children| == |old(children)|
      ensures tree == old(tree).(children :=
                old(tree.children)[i := Collapse(Finish(old(tree.children[i]), le))])
      decreases whole, 0, 1
    {
      hide Finish, Collapse, HasOnlyDir;
      assert NodeTree(children[i]) == tree.children[i];
      if children[i].DirNode? {
        FinishDirectory(i, le, whole);
        CollapseChild(i);
      } else {
        LeafIsFinished(tree.children[i], le);
        assert tree.children == tree.children[i := tree.children[i]];
      }
    }

    /** Everything but child `i` is valid; child `i` is a new or changed directory. */
    ghost predicate ValidBut(i: nat)
      requires i < |children|
      reads this, Repr
    {
      && this in Repr && |parts| == |children| && Apart(parts)
      && tree.Dir? && tree.path == path && tree.name == name && |tree.children| == |children|
      && (forall k | 0 <= k < |children| && k != i :: parts[k] <= Repr && this !in parts[k])
      && (forall k | 0 <= k < |children| && k != i && children[k].DirNode? ::
            children[k].dir in parts[k] && children[k].dir.Repr == parts[k] && children[k].dir.Valid())
      && forall k | 0 <= k < |children| && k != i :: NodeTree(children[k]) == tree.children[k]
    }

    /** Records the objects and the value of child `i`. */
    ghost method SetPart(i: nat)
      requires i < |children| && children[i].DirNode? && children[i].dir.Valid() && ValidBut(i)
      requires this !in children[i].dir.Repr
      requires forall k | 0 <= k < |parts| && k != i :: parts[k] !! children[i].dir.Repr
      modifies `Repr, `parts, `tree
      ensures Valid() && Repr == old(Repr) + children[i].dir.Repr
      ensures tree == old(tree).(children := old(tree.children)[i := children[i].dir.tree])
    {
      ReplacedPart(parts, i, children[i].dir.Repr);
      parts := parts[i := children[i].dir.Repr];
      Repr := Repr + children[i].dir.Repr;
      tree := tree.(children := tree.children[i := children[i].dir.tree]);
    }

    method FinishDirectory(i: nat, le: Order, ghost whole: Tree<T>)
      requires Valid() && i < |children| && whole.Dir? && tree.children[i] in whole.children
      requires children[i].DirNode?
      modifies Repr
      ensures Valid() && fresh(Repr - old(Repr)) && |children| == |old(children)|
      ensures tree == old(tree).(children := old(tree.children)[i := Finish(old(tree.children[i]), le)])
      decreases whole, 0, 0
    {
      hide Finish;
      assert NodeTree(children[i]) == tree.children[i];
      var child := children[i].dir;
      child.FinishTree(le);
      SetPart(i);
    }

    method CollapseChild(i: nat)
      requires Valid() && i < |children|
      modifies this
      ensures Valid() && fresh(Repr - old(Repr)) && |children| == |old(children)|
      ensures tree == old(tree).(children := old(tree.children)[i := Collapse(old(tree.children[i]))])
    {
      assert NodeTree(children[i]) == tree.children[i];
      if children[i].DirNode? {
        var child := children[i].dir;
        if |child.children| == 1 && child.children[0].DirNode? {
          var only := child.children[0].dir;
          var replacement := new FileTreeDirectory<T>.Replacing(only.path, child.name + " / " + only.name, only);
          children := children[i := DirNode(replacement)];
          SetPart(i);
        }
      }
    }
  }

  lemma LeafIsFinished<T>(t: Tree<T>, le: Order)
    ensures t.Leaf? ==> Collapse(Finish(t, le)) == t
  {
  }

  /** The children while `finish` is at index `i`: those before it are finished, the others only sorted. */
  ghost function Progress<T>(sorted: seq<Tree<T>>, i: nat, parent: Tree<T>, le: Order): (r: seq<Tree<T>>)
    requires parent.Dir? && i <= |sorted| && forall k | 0 <= k < |sorted| :: sorted[k] in parent.children
    ensures |r| == |sorted|
  {
    FinishAll(sorted[..i], parent, le) + sorted[i..]
  }

  /** `finish` has come to child `i` of `n`: `t` is the directory then, and `t0` as it was. */
  ghost predicate AtChild<T>(t0: Tree<T>, t: Tree<T>, n: nat, i: nat, le: Order) {
    && t0.Dir? && |t0.children| == n && i <= n
    && var sorted := SortByName(t0.children, le);
    && (forall k | 0 <= k < |sorted| :: sorted[k] in t0.children)
    && |sorted| == n
    && t == t0.(children := Progress(sorted, i, t0, le))
  }

  lemma AtFirstChild<T>(t0: Tree<T>, t: Tree<T>, le: Order)
    requires t0.Dir? && t == t0.(children := SortByName(t0.children, le))
    ensures AtChild(t0, t, |t.children|, 0, le)
  {
    hide Collapse;
    assert FinishAll([], t0, le) == [];
  }

  lemma AtNextChild<T>(t0: Tree<T>, t: Tree<T>, n: nat, i: nat, le: Order)
    requires AtChild(t0, t, n, i, le) && i < n
    ensures t.Dir? && |t.children| == n && t0.Dir? && t.children[i] in t0.children
    ensures AtChild(t0, t.(children := t.children[i := Collapse(Finish(t.children[i], le))]), n, i + 1, le)
  {
    hide Collapse, Finish, SortByName, Progress;
    ProgressStep(SortByName(t0.children, le), i, t0, le);
  }

  lemma AtLastChild<T>(t0: Tree<T>, t: Tree<T>, n: nat, le: Order)
    requires AtChild(t0, t, n, n, le)
    ensures t == Finish(t0, le)
  {
    hide Collapse, SortByName;
    var sorted := SortByName(t0.children, le);
    assert sorted[..n] == sorted;
  }

  lemma ProgressStep<T>(sorted: seq<Tree<T>>, i: nat, parent: Tree<T>, le: Order)
    requires parent.Dir? && i < |sorted| && forall k | 0 <= k < |sorted| :: sorted[k] in parent.children
    ensures Progress(sorted, i, parent, le)[i] == sorted[i] && sorted[i] in parent.children
    ensures Progress(sorted, i + 1, parent, le) ==
            Progress(sorted, i, parent, le)[i := Collapse(Finish(sorted[i], le))]
  {
    hide Collapse, Finish;
    assert sorted[..i + 1][..i] == sorted[..i];
  }
}
