/** The tree of files (extensions/ql-vscode/src/common/file-tree-nodes.ts).

    `Finish` on values says what finishing a tree means; `FileTreeDirectory.FinishTree` does it in place.  The
    order of names, a locale comparison, is a parameter. */
module FileTree {

  /** A tree as a value. */
  datatype Tree<T> =
    | Leaf(path: string, name: string, data: T)
    | Dir(path: string, name: string, children: seq<Tree<T>>)

  type Order = (string, string) -> bool

  // ---------------------------------------------------------------------------
  // Sorting

  predicate InRange(order: seq<nat>, n: nat) {
    forall i | 0 <= i < |order| :: order[i] < n
  }

  predicate AllDifferent(order: seq<nat>) {
    forall i, j | 0 <= i < j < |order| :: order[i] != order[j]
  }

  /** Insert index `k` into a sorted list of smaller indices, after all names that may come first. */
  function InsertIndex(names: seq<string>, order: seq<nat>, k: nat, le: Order): (r: seq<nat>)
    requires k < |names| && InRange(order, k)
    ensures |r| == |order| + 1 && InRange(r, k + 1)
    decreases |order|
  {
    if order == [] || le(names[order[|order| - 1]], names[k]) then order + [k]
    else InsertIndex(names, order[..|order| - 1], k, le) + [order[|order| - 1]]
  }

  /** The order in which a stable sort by name puts the first `n` elements. */
  function SortedIndices(names: seq<string>, n: nat, le: Order): (r: seq<nat>)
    requires n <= |names|
    ensures |r| == n && InRange(r, n)
  {
    if n == 0 then [] else InsertIndex(names, SortedIndices(names, n - 1, le), n - 1, le)
  }

  function Names<T>(ts: seq<Tree<T>>): (r: seq<string>)
    ensures |r| == |ts|
  {
    seq(|ts|, i requires 0 <= i < |ts| => ts[i].name)
  }

  function Reorder<A>(xs: seq<A>, order: seq<nat>): (r: seq<A>)
    requires InRange(order, |xs|)
    ensures |r| == |order|
  {
    seq(|order|, i requires 0 <= i < |order| => xs[order[i]])
  }

  function SortByName<T>(ts: seq<Tree<T>>, le: Order): (r: seq<Tree<T>>)
    ensures |r| == |ts| && forall i | 0 <= i < |r| :: r[i] in ts
  {
    Reorder(ts, SortedIndices(Names(ts), |ts|, le))
  }

  lemma {:induction false} InsertAddsOnly(names: seq<string>, order: seq<nat>, k: nat, le: Order, x: nat)
    requires k < |names| && InRange(order, k) && x in InsertIndex(names, order, k, le)
    ensures x == k || x in order
    decreases |order|
  {
    if order != [] && !le(names[order[|order| - 1]], names[k]) && x != order[|order| - 1] {
      InsertAddsOnly(names, order[..|order| - 1], k, le, x);
    }
  }

  lemma {:induction false} InsertKeepsDifferent(names: seq<string>, order: seq<nat>, k: nat, le: Order)
    requires k < |names| && InRange(order, k) && AllDifferent(order)
    ensures AllDifferent(InsertIndex(names, order, k, le))
    decreases |order|
  {
    if order != [] && !le(names[order[|order| - 1]], names[k]) {
      var front, last := order[..|order| - 1], order[|order| - 1];
      var r := InsertIndex(names, front, k, le);
      InsertKeepsDifferent(names, front, k, le);
      forall i | 0 <= i < |r|
        ensures r[i] != last
      {
        InsertAddsOnly(names, front, k, le, r[i]);
      }
    }
  }

  lemma {:induction false} SortedIndicesDifferent(names: seq<string>, n: nat, le: Order)
    requires n <= |names|
    ensures AllDifferent(SortedIndices(names, n, le))
  {
    if n > 0 {
      SortedIndicesDifferent(names, n - 1, le);
      InsertKeepsDifferent(names, SortedIndices(names, n - 1, le), n - 1, le);
    }
  }

  ghost predicate TotalOrder(le: Order) {
    && (forall a, b :: le(a, b) || le(b, a))
    && forall a, b, c :: le(a, b) && le(b, c) ==> le(a, c)
  }

  ghost predicate IsSorted(names: seq<string>, order: seq<nat>, le: Order)
    requires InRange(order, |names|)
  {
    forall i, j | 0 <= i < j < |order| :: le(names[order[i]], names[order[j]])
  }

  lemma {:induction false} InsertKeepsSorted(names: seq<string>, order: seq<nat>, k: nat, le: Order)
    requires k < |names| && InRange(order, k) && TotalOrder(le) && IsSorted(names, order, le)
    ensures IsSorted(names, InsertIndex(names, order, k, le), le)
    decreases |order|
  {
    if order != [] {
      var front, last := order[..|order| - 1], order[|order| - 1];
      if le(names[last], names[k]) {
        forall i | 0 <= i < |order|
          ensures le(names[order[i]], names[k])
        {
          assert i < |order| - 1 ==> le(names[order[i]], names[last]);
        }
      } else {
        InsertKeepsSorted(names, front, k, le);
        var r := InsertIndex(names, front, k, le);
        forall i | 0 <= i < |r|
          ensures le(names[r[i]], names[last])
        {
          InsertAddsOnly(names, front, k, le, r[i]);
          if r[i] in front {
            var m :| 0 <= m < |front| && front[m] == r[i];
            assert order[m] == r[i];
          }
        }
      }
    }
  }

  /** The children come out ordered by name. */
  lemma {:induction false} SortedIndicesSorted(names: seq<string>, n: nat, le: Order)
    requires n <= |names| && TotalOrder(le)
    ensures IsSorted(names, SortedIndices(names, n, le), le)
  {
    if n > 0 {
      SortedIndicesSorted(names, n - 1, le);
      InsertKeepsSorted(names, SortedIndices(names, n - 1, le), n - 1, le);
    }
  }

  /** The sort is stable: where it changes the order of two children, the one that comes first has to. */
  ghost predicate IsStable(names: seq<string>, order: seq<nat>, le: Order)
    requires InRange(order, |names|)
  {
    forall i, j | 0 <= i < j < |order| && order[i] > order[j] :: !le(names[order[j]], names[order[i]])
  }

  lemma {:induction false} InsertKeepsStable(names: seq<string>, order: seq<nat>, k: nat, le: Order)
    requires k < |names| && InRange(order, k) && IsSorted(names, order, le) && IsStable(names, order, le)
    requires TotalOrder(le)
    ensures IsStable(names, InsertIndex(names, order, k, le), le)
    decreases |order|
  {
    if order != [] && !le(names[order[|order| - 1]], names[k]) {
      var front, last := order[..|order| - 1], order[|order| - 1];
      var r := InsertIndex(names, front, k, le);
      InsertKeepsStable(names, front, k, le);
      forall i | 0 <= i < |r| && r[i] > last
        ensures !le(names[last], names[r[i]])
      {
        InsertAddsOnly(names, front, k, le, r[i]);
        if r[i] in front {
          var m :| 0 <= m < |front| && front[m] == r[i];
          assert order[m] == r[i];
        }
      }
    }
  }

  lemma {:induction false} SortedIndicesStable(names: seq<string>, n: nat, le: Order)
    requires n <= |names| && TotalOrder(le)
    ensures IsStable(names, SortedIndices(names, n, le), le)
  {
    if n > 0 {
      SortedIndicesStable(names, n - 1, le);
      SortedIndicesSorted(names, n - 1, le);
      InsertKeepsStable(names, SortedIndices(names, n - 1, le), n - 1, le);
    }
  }

  // ---------------------------------------------------------------------------
  // Finishing, on values

  predicate HasOnlyDir<T>(t: Tree<T>) {
    t.Dir? && |t.children| == 1 && t.children[0].Dir?
  }

  /** A directory whose only child is a directory takes over that child's path and children. */
  function Collapse<T>(t: Tree<T>): Tree<T> {
    if HasOnlyDir(t) then Dir(t.children[0].path, t.name + " / " + t.children[0].name, t.children[0].children) else t
  }

  function Finish<T>(t: Tree<T>, le: Order): (r: Tree<T>)
    ensures r.Dir? <==> t.Dir?
    ensures r.path == t.path && r.name == t.name
    decreases t, 1, 0
  {
    match t
    case Leaf(_, _, _) => t
    case Dir(path, name, children) => Dir(path, name, FinishAll(SortByName(children, le), t, le))
  }

  /** Finish and collapse each of some children of `parent`. */
  function FinishAll<T>(ts: seq<Tree<T>>, parent: Tree<T>, le: Order): (r: seq<Tree<T>>)
    requires parent.Dir? && forall i | 0 <= i < |ts| :: ts[i] in parent.children
    ensures |r| == |ts|
    decreases parent, 0, |ts|
  {
    if ts == [] then []
    else
      FinishAll(ts[..|ts| - 1], parent, le) + [Collapse(Finish(ts[|ts| - 1], le))]
  }

  lemma {:induction false} FinishAllAt<T>(ts: seq<Tree<T>>, parent: Tree<T>, le: Order, i: nat)
    requires parent.Dir? && forall k | 0 <= k < |ts| :: ts[k] in parent.children
    requires i < |ts|
    ensures FinishAll(ts, parent, le)[i] == Collapse(Finish(ts[i], le))
    decreases |ts|
  {
    hide Finish, Collapse;
    if i < |ts| - 1 {
      FinishAllAt(ts[..|ts| - 1], parent, le, i);
    }
  }

  /** Where the children of a finished directory come from: `order` lists all children, by their names before they are
      finished, equal names in their old order; each is finished, and then replaced exactly if its only child is a
      directory, by a directory with the path and the children of that child and with both names. */
  lemma FinishedChildren<T>(t: Tree<T>, le: Order) returns (order: seq<nat>)
    requires t.Dir? && TotalOrder(le)
    ensures InRange(order, |t.children|) && AllDifferent(order) && |order| == |t.children| == |Finish(t, le).children|
    ensures forall i, j | 0 <= i < j < |order| :: le(t.children[order[i]].name, t.children[order[j]].name)
    ensures forall i, j | 0 <= i < j < |order| && order[i] > order[j] ::
              !le(t.children[order[j]].name, t.children[order[i]].name)
    ensures forall i | 0 <= i < |order| ::
              var c, r := Finish(t.children[order[i]], le), Finish(t, le).children[i];
              if c.Dir? && |c.children| == 1 && c.children[0].Dir? then
                r == Dir(c.children[0].path, c.name + " / " + c.children[0].name, c.children[0].children)
              else r == c
  {
    var names := Names(t.children);
    order := SortedIndices(names, |t.children|, le);
    SortedIndicesDifferent(names, |t.children|, le);
    SortedIndicesSorted(names, |t.children|, le);
    SortedIndicesStable(names, |t.children|, le);
    hide SortedIndices;
    var sorted := SortByName(t.children, le);
    forall i | 0 <= i < |order|
      ensures sorted[i] == t.children[order[i]] && Finish(t, le).children[i] == Collapse(Finish(sorted[i], le))
    {
      FinishAllAt(sorted, t, le, i);
    }
  }

  // ---------------------------------------------------------------------------
  // What finishing keeps

  /** Every leaf with the names on the way to it, joined by slashes. */
  ghost function Trails<T>(t: Tree<T>, prefix: string): multiset<(string, Tree<T>)>
    decreases t, 1, 0
  {
    match t
    case Leaf(_, name, _) => multiset{(prefix + name, t)}
    case Dir(_, name, children) => TrailsOfAll(children, t, prefix + name + " / ")
  }

  ghost function TrailsOfAll<T>(ts: seq<Tree<T>>, parent: Tree<T>, prefix: string): multiset<(string, Tree<T>)>
    requires parent.Dir? && forall i | 0 <= i < |ts| :: ts[i] in parent.children
    decreases parent, 0, |ts|
  {
    if ts == [] then multiset{}
    else
      TrailsOfAll(ts[..|ts| - 1], parent, prefix) + Trails(ts[|ts| - 1], prefix)
  }

  lemma {:induction false} ParentIsIrrelevant<T>(ts: seq<Tree<T>>, p: Tree<T>, q: Tree<T>, prefix: string)
    requires p.Dir? && q.Dir?
    requires forall i | 0 <= i < |ts| :: ts[i] in p.children && ts[i] in q.children
    ensures TrailsOfAll(ts, p, prefix) == TrailsOfAll(ts, q, prefix)
    decreases |ts|
  {
    if ts != [] {
      ParentIsIrrelevant(ts[..|ts| - 1], p, q, prefix);
    }
  }

  /** Collapsing keeps the trails: the joined name says what the two names said. */
  lemma CollapseKeepsTrails<T>(t: Tree<T>, prefix: string)
    ensures Trails(Collapse(t), prefix) == Trails(t, prefix)
  {
    if HasOnlyDir(t) {
      var c := t.children[0];
      var r := Collapse(t);
      var inner := prefix + t.name + " / ";
      assert prefix + r.name + " / " == inner + c.name + " / ";
      ParentIsIrrelevant(c.children, c, r, prefix + r.name + " / ");
      OnlyChildTrails(t, inner);
    }
  }

  lemma OnlyChildTrails<T>(t: Tree<T>, prefix: string)
    requires t.Dir? && |t.children| == 1
    ensures TrailsOfAll(t.children, t, prefix) == Trails(t.children[0], prefix)
  {
    hide Trails;
    assert t.children[..0] == [];
  }

  lemma {:induction false} ReorderInsertTrails<T>(ts: seq<Tree<T>>, order: seq<nat>, k: nat, names: seq<string>,
                                                  le: Order, parent: Tree<T>, prefix: string)
    requires |names| == |ts| && k < |ts| && InRange(order, k)
    requires parent.Dir? && forall i | 0 <= i < |ts| :: ts[i] in parent.children
    ensures TrailsOfAll(Reorder(ts, InsertIndex(names, order, k, le)), parent, prefix) ==
            TrailsOfAll(Reorder(ts, order), parent, prefix) + Trails(ts[k], prefix)
    decreases |order|
  {
    hide Trails;
    if order == [] || le(names[order[|order| - 1]], names[k]) {
      ReorderPush(ts, order, k);
      TrailsPush(Reorder(ts, order), ts[k], parent, prefix);
    } else {
      var front, last := order[..|order| - 1], order[|order| - 1];
      ReorderInsertTrails(ts, front, k, names, le, parent, prefix);
      ReorderPush(ts, InsertIndex(names, front, k, le), last);
      TrailsPush(Reorder(ts, InsertIndex(names, front, k, le)), ts[last], parent, prefix);
      assert order == front + [last];
      ReorderPush(ts, front, last);
      TrailsPush(Reorder(ts, front), ts[last], parent, prefix);
    }
  }

  lemma ReorderPush<A>(xs: seq<A>, order: seq<nat>, k: nat)
    requires InRange(order, |xs|) && k < |xs|
    ensures InRange(order + [k], |xs|) && Reorder(xs, order + [k]) == Reorder(xs, order) + [xs[k]]
  {
  }

  lemma TrailsPush<T>(ts: seq<Tree<T>>, t: Tree<T>, parent: Tree<T>, prefix: string)
    requires parent.Dir? && t in parent.children && forall i | 0 <= i < |ts| :: ts[i] in parent.children
    ensures TrailsOfAll(ts + [t], parent, prefix) == TrailsOfAll(ts, parent, prefix) + Trails(t, prefix)
  {
    hide Trails;
    assert (ts + [t])[..|ts|] == ts;
  }

  lemma {:induction false} SortKeepsTrails<T>(ts: seq<Tree<T>>, n: nat, names: seq<string>, le: Order,
                                              parent: Tree<T>, prefix: string)
    requires |names| == |ts| && n <= |ts|
    requires parent.Dir? && forall i | 0 <= i < |ts| :: ts[i] in parent.children
    ensures TrailsOfAll(Reorder(ts, SortedIndices(names, n, le)), parent, prefix) ==
            TrailsOfAll(ts[..n], parent, prefix)
    decreases n
  {
    hide Trails, TrailsOfAll, InsertIndex;
    if n == 0 {
      assert Reorder(ts, []) == [] && ts[..0] == [];
    } else {
      SortKeepsTrails(ts, n - 1, names, le, parent, prefix);
      ReorderInsertTrails(ts, SortedIndices(names, n - 1, le), n - 1, names, le, parent, prefix);
      assert ts[..n] == ts[..n - 1] + [ts[n - 1]];
      TrailsPush(ts[..n - 1], ts[n - 1], parent, prefix);
    }
  }

  /** Finishing loses, adds and changes no leaf, and every leaf keeps its joined trail. */
  lemma {:induction false} FinishKeepsTrails<T>(t: Tree<T>, le: Order, prefix: string)
    ensures Trails(Finish(t, le), prefix) == Trails(t, prefix)
    decreases t, 1, 0
  {
    if t.Dir? {
      hide Collapse, SortByName;
      var inner := prefix + t.name + " / ";
      var sorted := SortByName(t.children, le);
      var r := Finish(t, le);
      FinishAllKeepsTrails(sorted, t, le, inner);
      ParentIsIrrelevant(r.children, Dir("", "", r.children), r, inner);
      SortedTrails(t, le, inner);
      assert Trails(r, prefix) == TrailsOfAll(r.children, r, inner);
      assert Trails(t, prefix) == TrailsOfAll(t.children, t, inner);
    }
  }

  lemma SortedTrails<T>(t: Tree<T>, le: Order, prefix: string)
    requires t.Dir?
    ensures TrailsOfAll(SortByName(t.children, le), t, prefix) == TrailsOfAll(t.children, t, prefix)
  {
    SortKeepsTrails(t.children, |t.children|, Names(t.children), le, t, prefix);
    assert t.children[..|t.children|] == t.children;
  }

  lemma {:induction false} FinishAllKeepsTrails<T>(ts: seq<Tree<T>>, parent: Tree<T>, le: Order, prefix: string)
    requires parent.Dir? && forall i | 0 <= i < |ts| :: ts[i] in parent.children
    ensures var r := FinishAll(ts, parent, le);
      TrailsOfAll(r, Dir("", "", r), prefix) == TrailsOfAll(ts, parent, prefix)
    decreases parent, 0, |ts|
  {
    hide Collapse, Trails;
    if ts != [] {
      var front, last := ts[..|ts| - 1], ts[|ts| - 1];
      var r, rf := FinishAll(ts, parent, le), FinishAll(front, parent, le);
      var c := Collapse(Finish(last, le));
      FinishAllKeepsTrails(front, parent, le, prefix);
      FinishKeepsTrails(last, le, prefix);
      CollapseKeepsTrails(Finish(last, le), prefix);
      assert r == rf + [c];
      ParentIsIrrelevant(rf, Dir("", "", rf), Dir("", "", r), prefix);
      TrailsPush(rf, c, Dir("", "", r), prefix);
    }
  }

  // ---------------------------------------------------------------------------
  // What finishing achieves

  /** No directory below `t`, at any depth, has a directory as its only child. */
  predicate Settled<T>(t: Tree<T>) {
    t.Dir? ==> forall i | 0 <= i < |t.children| :: !HasOnlyDir(t.children[i]) && Settled(t.children[i])
  }

  lemma CollapseSettles<T>(t: Tree<T>)
    requires Settled(t)
    ensures Settled(Collapse(t)) && !HasOnlyDir(Collapse(t))
  {
    if HasOnlyDir(t) {
      assert Settled(t.children[0]) && !HasOnlyDir(t.children[0]);
    }
  }

  lemma {:induction false} FinishSettles<T>(t: Tree<T>, le: Order)
    ensures Settled(Finish(t, le))
    decreases t, 1, 0
  {
    if t.Dir? {
      hide SortByName;
      FinishAllSettles(SortByName(t.children, le), t, le);
      assert Finish(t, le).children == FinishAll(SortByName(t.children, le), t, le);
    }
  }

  lemma {:induction false} FinishAllSettles<T>(ts: seq<Tree<T>>, parent: Tree<T>, le: Order)
    requires parent.Dir? && forall i | 0 <= i < |ts| :: ts[i] in parent.children
    ensures var r := FinishAll(ts, parent, le);
      forall i | 0 <= i < |r| :: !HasOnlyDir(r[i]) && Settled(r[i])
    decreases parent, 0, |ts|
  {
    hide Settled, HasOnlyDir, Collapse;
    if ts != [] {
      var r := FinishAll(ts, parent, le);
      FinishAllSettles(ts[..|ts| - 1], parent, le);
      FinishSettles(ts[|ts| - 1], le);
      CollapseSettles(Finish(ts[|ts| - 1], le));
      forall i | 0 <= i < |r|
        ensures !HasOnlyDir(r[i]) && Settled(r[i])
      {
        if i < |ts| - 1 {
          assert r[i] == FinishAll(ts[..|ts| - 1], parent, le)[i];
        } else {
          assert r[i] == Collapse(Finish(ts[|ts| - 1], le));
        }
      }
    }
  }

  /** Sorting all directories by name, without collapsing anything. */
  function SortOnly<T>(t: Tree<T>, le: Order): Tree<T>
    decreases t, 1, 0
  {
    match t
    case Leaf(_, _, _) => t
    case Dir(path, name, children) => Dir(path, name, SortOnlyAll(SortByName(children, le), t, le))
  }

  function SortOnlyAll<T>(ts: seq<Tree<T>>, parent: Tree<T>, le: Order): (r: seq<Tree<T>>)
    requires parent.Dir? && forall i | 0 <= i < |ts| :: ts[i] in parent.children
    ensures |r| == |ts|
    decreases parent, 0, |ts|
  {
    if ts == [] then [] else SortOnlyAll(ts[..|ts| - 1], parent, le) + [SortOnly(ts[|ts| - 1], le)]
  }

  /** A settled tree has nothing left to collapse: finishing it only sorts. */
  lemma {:induction false} SettledOnlySorts<T>(t: Tree<T>, le: Order)
    requires Settled(t)
    ensures Finish(t, le) == SortOnly(t, le)
    ensures HasOnlyDir(SortOnly(t, le)) ==> HasOnlyDir(t)
    decreases t, 1, 0
  {
    if t.Dir? {
      hide SortByName, Collapse;
      SettledOnlySortsAll(SortByName(t.children, le), t, le);
      if |t.children| == 1 {
        SortOne(t.children, le);
        assert SortOnlyAll(t.children, t, le)[0] == SortOnly(t.children[0], le);
      }
    }
  }

  lemma SortOne<T>(ts: seq<Tree<T>>, le: Order)
    requires |ts| == 1
    ensures SortByName(ts, le) == ts
  {
    assert SortedIndices(Names(ts), 0, le) == [];
  }

  lemma {:induction false} SettledOnlySortsAll<T>(ts: seq<Tree<T>>, parent: Tree<T>, le: Order)
    requires parent.Dir? && Settled(parent) && forall i | 0 <= i < |ts| :: ts[i] in parent.children
    ensures FinishAll(ts, parent, le) == SortOnlyAll(ts, parent, le)
    decreases parent, 0, |ts|
  {
    if ts != [] {
      hide HasOnlyDir, SortByName;
      var last := ts[|ts| - 1];
      SettledOnlySortsAll(ts[..|ts| - 1], parent, le);
      var i :| 0 <= i < |parent.children| && parent.children[i] == last;
      assert Settled(last) && !HasOnlyDir(last);
      SettledOnlySorts(last, le);
      assert Collapse(Finish(last, le)) == SortOnly(last, le);
    }
  }

  /** A second `finish` collapses nothing more. */
  lemma FinishTwiceOnlySorts<T>(t: Tree<T>, le: Order)
    ensures Finish(Finish(t, le), le) == SortOnly(Finish(t, le), le)
  {
    FinishSettles(t, le);
    SettledOnlySorts(Finish(t, le), le);
  }
}
