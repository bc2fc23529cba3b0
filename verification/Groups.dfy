/** Grouping a sequence by a key, as the insertion-ordered maps of the source do. */
module Groups {

  /** The elements with key `k`, in order. */
  function Filter<T, K(==)>(xs: seq<T>, key: T -> K, k: K): seq<T> {
    if xs == [] then []
    else
      var front := Filter(xs[..|xs| - 1], key, k);
      if key(xs[|xs| - 1]) == k then front + [xs[|xs| - 1]] else front
  }

  /** The keys, each once, in the order of their first occurrence. */
  function Keys<T, K(==)>(xs: seq<T>, key: T -> K): seq<K> {
    if xs == [] then []
    else
      var front := Keys(xs[..|xs| - 1], key);
      var k := key(xs[|xs| - 1]);
      if k in front then front else front + [k]
  }

  predicate Distinct<K(==)>(ks: seq<K>) {
    forall i, j | 0 <= i < j < |ks| :: ks[i] != ks[j]
  }

  lemma KeysPush<T, K>(xs: seq<T>, key: T -> K, x: T)
    ensures Keys(xs + [x], key) == if key(x) in Keys(xs, key) then Keys(xs, key) else Keys(xs, key) + [key(x)]
  {
    assert (xs + [x])[..|xs|] == xs;
  }

  lemma FilterPush<T, K>(xs: seq<T>, key: T -> K, x: T, k: K)
    ensures Filter(xs + [x], key, k) == if key(x) == k then Filter(xs, key, k) + [x] else Filter(xs, key, k)
  {
    assert (xs + [x])[..|xs|] == xs;
  }

  lemma {:induction false} KeysAreDistinct<T, K>(xs: seq<T>, key: T -> K)
    ensures Distinct(Keys(xs, key))
  {
    if xs != [] {
      KeysAreDistinct(xs[..|xs| - 1], key);
    }
  }

  /** A key is listed exactly if some element has it. */
  lemma {:induction false} KeysAreComplete<T, K>(xs: seq<T>, key: T -> K, k: K)
    ensures k in Keys(xs, key) <==> Filter(xs, key, k) != []
    ensures k in Keys(xs, key) <==> exists i :: 0 <= i < |xs| && key(xs[i]) == k
  {
    if xs != [] {
      var front := xs[..|xs| - 1];
      KeysAreComplete(front, key, k);
      if key(xs[|xs| - 1]) != k && k in Keys(front, key) {
        var i :| 0 <= i < |front| && key(front[i]) == k;
        assert key(xs[i]) == k;
      }
      if i :| 0 <= i < |xs| && key(xs[i]) == k && i < |front| {
        assert key(front[i]) == k;
      }
    }
  }

  lemma {:induction false} FilterHasKey<T, K>(xs: seq<T>, key: T -> K, k: K, i: nat)
    requires i < |Filter(xs, key, k)|
    ensures key(Filter(xs, key, k)[i]) == k && Filter(xs, key, k)[i] in xs
  {
    var front := xs[..|xs| - 1];
    if i < |Filter(front, key, k)| {
      FilterHasKey(front, key, k, i);
    }
  }

  /** A group holds exactly the elements with its key. */
  lemma {:induction false} FilterHolds<T, K>(xs: seq<T>, key: T -> K, k: K, x: T)
    ensures x in Filter(xs, key, k) <==> x in xs && key(x) == k
    decreases |xs|
  {
    if xs != [] {
      var front, last := xs[..|xs| - 1], xs[|xs| - 1];
      FilterHolds(front, key, k, x);
      assert xs == front + [last];
    }
  }

  /** How many of the first `i` elements have the key. */
  function CountOf<T, K(==)>(xs: seq<T>, key: T -> K, k: K, i: nat): (n: nat)
    requires i <= |xs|
    ensures n <= i
  {
    if i == 0 then 0 else CountOf(xs, key, k, i - 1) + (if key(xs[i - 1]) == k then 1 else 0)
  }

  lemma {:induction false} CountOfPrefix<T, K>(xs: seq<T>, key: T -> K, k: K, n: nat, i: nat)
    requires i <= n <= |xs|
    ensures CountOf(xs[..n], key, k, i) == CountOf(xs, key, k, i)
    decreases i
  {
    if i > 0 {
      CountOfPrefix(xs, key, k, n, i - 1);
    }
  }

  /** An element stands in its group behind exactly the earlier elements with the same key: groups keep the order. */
  lemma {:induction false} FilterAt<T, K>(xs: seq<T>, key: T -> K, k: K, i: nat)
    requires i < |xs| && key(xs[i]) == k
    ensures CountOf(xs, key, k, i) < |Filter(xs, key, k)| == CountOf(xs, key, k, |xs|)
    ensures Filter(xs, key, k)[CountOf(xs, key, k, i)] == xs[i]
    decreases |xs|
  {
    var n := |xs| - 1;
    FilterCount(xs[..n], key, k);
    CountOfPrefix(xs, key, k, n, n);
    if i < n {
      FilterAt(xs[..n], key, k, i);
      CountOfPrefix(xs, key, k, n, i);
    }
  }

  lemma {:induction false} FilterCount<T, K>(xs: seq<T>, key: T -> K, k: K)
    ensures |Filter(xs, key, k)| == CountOf(xs, key, k, |xs|)
    decreases |xs|
  {
    if xs != [] {
      var n := |xs| - 1;
      FilterCount(xs[..n], key, k);
      CountOfPrefix(xs, key, k, n, n);
    }
  }

  /** The key at `xs[i]` has not occurred before. */
  predicate IsFirst<T, K(==)>(xs: seq<T>, key: T -> K, i: nat) {
    i < |xs| && forall j | 0 <= j < i :: key(xs[j]) != key(xs[i])
  }

  /** Keys come in the order in which they first occur. */
  lemma {:induction false} KeysInOrder<T, K>(xs: seq<T>, key: T -> K, a: nat, b: nat) returns (i: nat, j: nat)
    requires a < b < |Keys(xs, key)|
    ensures i < j && IsFirst(xs, key, i) && IsFirst(xs, key, j)
    ensures key(xs[i]) == Keys(xs, key)[a] && key(xs[j]) == Keys(xs, key)[b]
    decreases |xs|
  {
    var n := |xs| - 1;
    var front := xs[..n];
    if b < |Keys(front, key)| {
      i, j := KeysInOrder(front, key, a, b);
    } else {
      i := FirstOfKey(front, key, a);
      j := n;
      forall m | 0 <= m < n
        ensures key(xs[m]) != key(xs[n])
      {
        assert front[m] == xs[m];
        KeysAreComplete(front, key, key(xs[m]));
      }
    }
  }

  lemma {:induction false} FirstOfKey<T, K>(xs: seq<T>, key: T -> K, a: nat) returns (i: nat)
    requires a < |Keys(xs, key)|
    ensures IsFirst(xs, key, i) && key(xs[i]) == Keys(xs, key)[a]
    decreases |xs|
  {
    var n := |xs| - 1;
    var front := xs[..n];
    if a < |Keys(front, key)| {
      i := FirstOfKey(front, key, a);
    } else {
      i := n;
      forall m | 0 <= m < n
        ensures key(xs[m]) != key(xs[n])
      {
        assert front[m] == xs[m];
        KeysAreComplete(front, key, key(xs[m]));
      }
    }
  }

  lemma Regroup<T>(a: seq<T>, b: seq<T>, c: seq<T>)
    ensures a + (b + c) == a + b + c
  {
  }

  /** The sum of a weight over a sequence. */
  function Sum<T>(xs: seq<T>, w: T -> int): int {
    if xs == [] then 0 else Sum(xs[..|xs| - 1], w) + w(xs[|xs| - 1])
  }

  lemma SumPush<T>(xs: seq<T>, w: T -> int, x: T)
    ensures Sum(xs + [x], w) == Sum(xs, w) + w(x)
  {
    assert (xs + [x])[..|xs|] == xs;
  }

  /** The weights of the groups with the given keys, added up. */
  function SumOfGroups<T, K(==)>(ks: seq<K>, xs: seq<T>, key: T -> K, w: T -> int): int {
    if ks == [] then 0
    else SumOfGroups(ks[..|ks| - 1], xs, key, w) + Sum(Filter(xs, key, ks[|ks| - 1]), w)
  }

  lemma {:induction false} PushAddsOnce<T, K>(ks: seq<K>, xs: seq<T>, key: T -> K, w: T -> int, x: T)
    requires Distinct(ks)
    ensures SumOfGroups(ks, xs + [x], key, w) == SumOfGroups(ks, xs, key, w) + (if key(x) in ks then w(x) else 0)
    decreases |ks|
  {
    if ks != [] {
      var front, k := ks[..|ks| - 1], ks[|ks| - 1];
      PushAddsOnce(front, xs, key, w, x);
      FilterPush(xs, key, x, k);
      SumPush(Filter(xs, key, k), w, x);
      assert ks == front + [k];
    }
  }

  /** Grouping loses and duplicates nothing: the groups add up to the whole. */
  lemma {:induction false} GroupsAddUp<T, K>(xs: seq<T>, key: T -> K, w: T -> int)
    ensures SumOfGroups(Keys(xs, key), xs, key, w) == Sum(xs, w)
  {
    if xs != [] {
      var front, x := xs[..|xs| - 1], xs[|xs| - 1];
      var ks := Keys(front, key);
      assert xs == front + [x];
      GroupsAddUp(front, key, w);
      KeysAreDistinct(front, key);
      PushAddsOnce(ks, front, key, w, x);
      if key(x) !in ks {
        KeysAreComplete(front, key, key(x));
        FilterPush(front, key, x, key(x));
        SumPush([], w, x);
        assert (ks + [key(x)])[..|ks|] == ks;
      }
    }
  }

  // ---------------------------------------------------------------------------
  // Filters and keys of concatenations

  lemma {:induction false} FilterSplit<T, K>(a: seq<T>, b: seq<T>, key: T -> K, k: K)
    ensures Filter(a + b, key, k) == Filter(a, key, k) + Filter(b, key, k)
    decreases |b|
  {
    if b == [] {
      assert a + b == a;
    } else {
      assert (a + b)[..|a + b| - 1] == a + b[..|b| - 1];
      FilterSplit(a, b[..|b| - 1], key, k);
    }
  }

  /** Filtering by two keys in either order. */
  lemma {:induction false} FiltersCommute<T, K, L>(xs: seq<T>, f: T -> K, a: K, g: T -> L, b: L)
    ensures Filter(Filter(xs, f, a), g, b) == Filter(Filter(xs, g, b), f, a)
    decreases |xs|
  {
    if xs != [] {
      var front, x := xs[..|xs| - 1], xs[|xs| - 1];
      FiltersCommute(front, f, a, g, b);
      FilterPush(Filter(front, f, a), g, x, b);
      FilterPush(Filter(front, g, b), f, x, a);
    }
  }

  lemma {:induction false} FilterAgain<T, K>(xs: seq<T>, f: T -> K, a: K, b: K)
    ensures Filter(Filter(xs, f, a), f, b) == if a == b then Filter(xs, f, a) else []
    decreases |xs|
  {
    if xs != [] {
      var front, x := xs[..|xs| - 1], xs[|xs| - 1];
      FilterAgain(front, f, a, b);
      FilterPush(Filter(front, f, a), f, x, b);
    }
  }

  /** The elements of `ks` that are in `yes` and not in `no`. */
  function Pick<K(==)>(ks: seq<K>, yes: seq<K>, no: seq<K>): seq<K> {
    if ks == [] then []
    else
      var k := ks[|ks| - 1];
      Pick(ks[..|ks| - 1], yes, no) + (if k in yes && k !in no then [k] else [])
  }

  lemma {:induction false} PickSplit<K>(a: seq<K>, b: seq<K>, yes: seq<K>, no: seq<K>)
    ensures Pick(a + b, yes, no) == Pick(a, yes, no) + Pick(b, yes, no)
    decreases |b|
  {
    if b == [] {
      assert a + b == a;
    } else {
      assert (a + b)[..|a + b| - 1] == a + b[..|b| - 1];
      PickSplit(a, b[..|b| - 1], yes, no);
    }
  }

  lemma {:induction false} PickMember<K>(ks: seq<K>, yes: seq<K>, no: seq<K>, k: K)
    ensures k in Pick(ks, yes, no) <==> k in ks && k in yes && k !in no
    decreases |ks|
  {
    if ks != [] {
      PickMember(ks[..|ks| - 1], yes, no, k);
    }
  }

  lemma {:induction false} PickAll<K>(ks: seq<K>, yes: seq<K>, no: seq<K>)
    requires forall k | k in ks :: k in yes && k !in no
    ensures Pick(ks, yes, no) == ks
    decreases |ks|
  {
    if ks != [] {
      assert ks[|ks| - 1] in ks;
      PickAll(ks[..|ks| - 1], yes, no);
    }
  }

  lemma {:induction false} PickNothing<K>(ks: seq<K>, yes: seq<K>, no: seq<K>)
    requires forall k | k in ks :: k !in yes || k in no
    ensures Pick(ks, yes, no) == []
    decreases |ks|
  {
    if ks != [] {
      assert ks[|ks| - 1] in ks;
      PickNothing(ks[..|ks| - 1], yes, no);
    }
  }

  /** Picking twice is picking once. */
  lemma {:induction false} PickTwice<K>(ks: seq<K>, yes: seq<K>, none: seq<K>, no: seq<K>)
    requires none == []
    ensures Pick(Pick(ks, yes, none), yes, no) == Pick(ks, yes, no)
    decreases |ks|
  {
    if ks != [] {
      var front, k := ks[..|ks| - 1], ks[|ks| - 1];
      PickTwice(front, yes, none, no);
      PickSplit(Pick(front, yes, none), if k in yes then [k] else [], yes, no);
      assert Pick([], yes, no) == [];
      assert [k][..0] == [];
      assert Pick([k], yes, no) == if k in yes && k !in no then [k] else [];
    }
  }

  /** The keys of a concatenation: those of the first part, then the new ones of the second. */
  lemma {:induction false} KeysSplit<T, K>(a: seq<T>, b: seq<T>, key: T -> K)
    ensures Keys(a + b, key) == Keys(a, key) + Pick(Keys(b, key), Keys(b, key), Keys(a, key))
    decreases |b|
  {
    if b == [] {
      assert a + b == a;
    } else {
      var front, x := b[..|b| - 1], b[|b| - 1];
      assert b == front + [x];
      KeysSplit(a, front, key);
      KeysSplitPush(a, front, x, key);
    }
  }

  lemma KeysSplitPush<T, K>(a: seq<T>, b: seq<T>, x: T, key: T -> K)
    requires Keys(a + b, key) == Keys(a, key) + Pick(Keys(b, key), Keys(b, key), Keys(a, key))
    ensures Keys(a + (b + [x]), key) ==
            Keys(a, key) + Pick(Keys(b + [x], key), Keys(b + [x], key), Keys(a, key))
  {
    hide Keys, Pick;
    var ka, kb, k := Keys(a, key), Keys(b, key), key(x);
    assert a + (b + [x]) == (a + b) + [x];
    KeysPush(a + b, key, x);
    KeysPush(b, key, x);
    PickMember(kb, kb, ka, k);
    if k !in kb {
      PickYes(kb, kb, kb + [k], ka);
      PickSplit(kb, [k], kb + [k], ka);
      PickOne(k, kb + [k], ka);
    }
  }

  lemma PickOne<K>(k: K, yes: seq<K>, no: seq<K>)
    ensures Pick([k], yes, no) == if k in yes && k !in no then [k] else []
  {
    assert [k][..0] == [];
  }

  lemma {:induction false} PickYes<K>(ks: seq<K>, yes: seq<K>, more: seq<K>, no: seq<K>)
    requires forall k | k in ks :: k in yes && k in more
    ensures Pick(ks, yes, no) == Pick(ks, more, no)
    decreases |ks|
  {
    if ks != [] {
      assert ks[|ks| - 1] in ks;
      PickYes(ks[..|ks| - 1], yes, more, no);
    }
  }

  // ---------------------------------------------------------------------------
  // Groups, written out one after the other

  function Flatten<T, K(==)>(ks: seq<K>, xs: seq<T>, key: T -> K): seq<T> {
    if ks == [] then [] else Flatten(ks[..|ks| - 1], xs, key) + Filter(xs, key, ks[|ks| - 1])
  }

  /** Writing the groups out keeps each of them. */
  lemma {:induction false} FilterOfFlatten<T, K>(ks: seq<K>, xs: seq<T>, key: T -> K, k: K)
    requires Distinct(ks)
    ensures Filter(Flatten(ks, xs, key), key, k) == if k in ks then Filter(xs, key, k) else []
    decreases |ks|
  {
    if ks == [] {
      assert Flatten([], xs, key) == [];
    } else {
      var front, last := ks[..|ks| - 1], ks[|ks| - 1];
      FilterOfFlatten(front, xs, key, k);
      FilterSplit(Flatten(front, xs, key), Filter(xs, key, last), key, k);
      FilterAgain(xs, key, last, k);
      assert ks == front + [last];
    }
  }

  /** A second filter passes through. */
  lemma {:induction false} FilterFlatten<T, K, L>(ks: seq<K>, xs: seq<T>, key: T -> K, g: T -> L, b: L)
    ensures Filter(Flatten(ks, xs, key), g, b) == Flatten(ks, Filter(xs, g, b), key)
    decreases |ks|
  {
    if ks != [] {
      var front, last := ks[..|ks| - 1], ks[|ks| - 1];
      FilterFlatten(front, xs, key, g, b);
      FilterSplit(Flatten(front, xs, key), Filter(xs, key, last), g, b);
      FiltersCommute(xs, key, last, g, b);
    }
  }

  lemma {:induction false} KeysOfGroup<T, K>(xs: seq<T>, key: T -> K, k: K)
    ensures Keys(Filter(xs, key, k), key) == if Filter(xs, key, k) == [] then [] else [k]
    decreases |xs|
  {
    if xs != [] {
      var front, x := xs[..|xs| - 1], xs[|xs| - 1];
      KeysOfGroup(front, key, k);
      KeysPush(Filter(front, key, k), key, x);
    }
  }

  /** The keys of the written-out groups: those given, as far as they occur. */
  lemma {:induction false} KeysOfFlatten<T, K>(ks: seq<K>, xs: seq<T>, key: T -> K)
    requires Distinct(ks)
    ensures Keys(Flatten(ks, xs, key), key) == Pick(ks, Keys(xs, key), [])
    decreases |ks|
  {
    if ks != [] {
      var front, last := ks[..|ks| - 1], ks[|ks| - 1];
      var group := Filter(xs, key, last);
      KeysOfFlatten(front, xs, key);
      KeysSplit(Flatten(front, xs, key), group, key);
      KeysOfGroup(xs, key, last);
      KeysAreComplete(xs, key, last);
      PickMember(front, Keys(xs, key), [], last);
      if group != [] {
        PickOne(last, [last], Keys(Flatten(front, xs, key), key));
      }
    }
  }

  /** Writing out the groups part by part does not disturb the order of the keys: if the keys of the first part
      `a'` of the new list are those of the first part `a` of the old one, and the next part `b'` holds the groups
      of the next old part `b` in the order of all old keys, then the keys still agree. */
  lemma KeysStep<T, K>(a': seq<T>, b': seq<T>, a: seq<T>, b: seq<T>, rest: seq<T>, key: T -> K)
    requires Keys(a', key) == Keys(a, key)
    requires Keys(b', key) == Pick(Keys(a + b + rest, key), Keys(b, key), [])
    ensures Keys(a' + b', key) == Keys(a + b, key)
  {
    hide Keys, Pick;
    var all, ka, kb := Keys(a + b + rest, key), Keys(a, key), Keys(b, key);
    KeysSplit(a', b', key);
    forall k | k in Keys(b', key)
      ensures k in kb
    {
      PickMember(all, kb, [], k);
    }
    PickYes(Keys(b', key), Keys(b', key), kb, ka);
    PickTwice(all, kb, [], ka);
    KeysSplit(a, b, key);
    var added := Pick(kb, kb, ka);
    KeysSplit(a + b, rest, key);
    var later := Pick(Keys(rest, key), Keys(rest, key), Keys(a + b, key));
    forall k | k in added
      ensures k in kb && k !in ka
    {
      PickMember(kb, kb, ka, k);
    }
    forall k | k in later
      ensures k !in kb || k in ka
    {
      PickMember(kb, kb, ka, k);
      PickMember(Keys(rest, key), Keys(rest, key), Keys(a + b, key), k);
    }
    PickSplit(ka + added, later, kb, ka);
    PickSplit(ka, added, kb, ka);
    PickNothing(ka, kb, ka);
    PickAll(added, kb, ka);
    PickNothing(later, kb, ka);
  }
}
