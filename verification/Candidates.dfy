/** The candidates for automatic modeling (extensions/ql-vscode/src/model-editor/auto-model.ts), in the order in
    which the user interface lists methods (extensions/ql-vscode/src/model-editor/shared/sorting.ts). */
module Candidates {
  import opened Groups
  import opened DataExtensions
  import opened ModelingStores

  datatype Mode = Application | Framework

  datatype Method = Method(
    signature: string, packageName: string, typeName: string, methodName: string, methodParameters: string,
    library: string, supported: bool)

  type Grouping = map<string, seq<Method>>

  /** How the user interface orders methods: the comparisons of groups and of methods are not modeled, only that
      sorting with them permutes (`Sorts`). */
  datatype UiOrder = UiOrder(
    mode: Mode, sortGroupNames: Grouping -> seq<string>, sortMethods: seq<Method> -> seq<Method>)

  ghost predicate Sorts(order: UiOrder) {
    && (forall g: Grouping :: multiset(order.sortGroupNames(g)) == multiset(g.Keys))
    && (forall ms: seq<Method> :: multiset(order.sortMethods(ms)) == multiset(ms))
  }

  function GroupKey(mode: Mode): Method -> string {
    (m: Method) => if mode == Framework then m.packageName else m.library
  }

  /** `groupMethods`, as a map */
  function ByGroup(methods: seq<Method>, mode: Mode): Grouping {
    map k | k in Keys(methods, GroupKey(mode)) :: Filter(methods, GroupKey(mode), k)
  }

  method GroupMethods(methods: seq<Method>, mode: Mode) returns (grouped: Grouping)
    ensures grouped == ByGroup(methods, mode)
  {
    grouped := map[];
    for n := 0 to |methods|
      invariant grouped == ByGroup(methods[..n], mode)
    {
      var m := methods[n];
      var key := GroupKey(mode)(m);
      assert methods[..n + 1] == methods[..n] + [m];
      ByGroupPush(methods[..n], m, mode);
      if key !in grouped {
        grouped := grouped[key := []];
      }
      grouped := grouped[key := grouped[key] + [m]];
    }
    assert methods[..|methods|] == methods;
  }

  lemma ByGroupPush(methods: seq<Method>, m: Method, mode: Mode)
    ensures var before, k := ByGroup(methods, mode), GroupKey(mode)(m);
      ByGroup(methods + [m], mode) == before[k := (if k in before then before[k] else []) + [m]]
  {
    hide Keys, Filter;
    var key := GroupKey(mode);
    KeysPush(methods, key, m);
    KeysAreComplete(methods, key, key(m));
    forall k
      ensures Filter(methods + [m], key, k) ==
              if key(m) == k then Filter(methods, key, k) + [m] else Filter(methods, key, k)
    {
      FilterPush(methods, key, m, k);
    }
  }

  /** `sortedGroupNames.flatMap((name) => sortMethods(grouped[name]))` */
  function FlatMap(names: seq<string>, grouped: Grouping, order: UiOrder): seq<Method>
    requires forall name | name in names :: name in grouped
  {
    if names == [] then []
    else
      assert names[|names| - 1] in names;
      FlatMap(names[..|names| - 1], grouped, order) + order.sortMethods(grouped[names[|names| - 1]])
  }

  function InUiOrder(methods: seq<Method>, order: UiOrder): seq<Method>
    requires Sorts(order)
  {
    var grouped := ByGroup(methods, order.mode);
    var names := order.sortGroupNames(grouped);
    NamesAreKeys(names, grouped.Keys);
    FlatMap(names, grouped, order)
  }

  /** The order of the interface: the groups one after the other in the order of their names, each with its methods in
      the order of the interface. */
  lemma InUiOrderIs(methods: seq<Method>, order: UiOrder, a: seq<string>, name: string)
    requires Sorts(order)
    ensures var grouped := ByGroup(methods, order.mode);
      && (forall n | n in order.sortGroupNames(grouped) :: n in grouped)
      && InUiOrder(methods, order) == FlatMap(order.sortGroupNames(grouped), grouped, order)
      && FlatMap([], grouped, order) == []
      && ((forall n | n in a :: n in grouped) && name in grouped ==>
            FlatMap(a + [name], grouped, order) ==
            FlatMap(a, grouped, order) + order.sortMethods(Filter(methods, GroupKey(order.mode), name)))
  {
    hide Filter, Keys;
    var grouped := ByGroup(methods, order.mode);
    NamesAreKeys(order.sortGroupNames(grouped), grouped.Keys);
    assert (a + [name])[..|a|] == a;
  }

  /** Methods are grouped by package when the code of a framework is modeled, and by library otherwise. */
  lemma GroupKeyIs(m: Method)
    ensures GroupKey(Framework)(m) == m.packageName && GroupKey(Application)(m) == m.library
  {
  }

  lemma NamesAreKeys(names: seq<string>, keys: set<string>)
    requires multiset(names) == multiset(keys)
    ensures forall name :: name in names <==> name in keys
    ensures Distinct(names)
  {
    forall name
      ensures name in names <==> name in keys
    {
      assert name in multiset(names) <==> name in multiset(keys);
    }
    forall i, j | 0 <= i < j < |names|
      ensures names[i] != names[j]
    {
      if names[i] == names[j] {
        CountTwice(names, i, j);
        assert false;
      }
    }
  }

  lemma CountTwice(names: seq<string>, i: nat, j: nat)
    requires i < j < |names| && names[i] == names[j]
    ensures multiset(names)[names[i]] >= 2
  {
    var a, b := names[..j], names[j..];
    assert names == a + b && names[i] == a[i] && names[j] == b[0];
    assert multiset(names)[names[i]] == multiset(a)[names[i]] + multiset(b)[names[i]];
    assert a[i] in multiset(a) && b[0] in multiset(b);
  }

  lemma {:induction false} CountInGroup(methods: seq<Method>, key: Method -> string, m: Method)
    ensures multiset(Filter(methods, key, key(m)))[m] == multiset(methods)[m]
    decreases |methods|
  {
    if methods != [] {
      var front, last := methods[..|methods| - 1], methods[|methods| - 1];
      CountInGroup(front, key, m);
      assert methods == front + [last];
    }
  }

  lemma {:induction false} CountInOtherGroup(methods: seq<Method>, key: Method -> string, k: string, m: Method)
    requires key(m) != k
    ensures multiset(Filter(methods, key, k))[m] == 0
    decreases |methods|
  {
    if methods != [] {
      CountInOtherGroup(methods[..|methods| - 1], key, k, m);
    }
  }

  lemma {:induction false} CountInFlatMap(names: seq<string>, methods: seq<Method>, order: UiOrder, m: Method)
    requires Sorts(order) && Distinct(names)
    requires forall name | name in names :: name in ByGroup(methods, order.mode)
    ensures multiset(FlatMap(names, ByGroup(methods, order.mode), order))[m] ==
            if GroupKey(order.mode)(m) in names then multiset(methods)[m] else 0
    decreases |names|
  {
    hide Filter, Keys;
    if names != [] {
      var front, last := names[..|names| - 1], names[|names| - 1];
      var key := GroupKey(order.mode);
      var grouped := ByGroup(methods, order.mode);
      assert last in names && names == front + [last];
      CountInFlatMap(front, methods, order, m);
      var group := order.sortMethods(grouped[last]);
      assert multiset(group) == multiset(grouped[last]);
      assert multiset(FlatMap(names, grouped, order)) == multiset(FlatMap(front, grouped, order)) + multiset(group);
      if key(m) == last {
        CountInGroup(methods, key, m);
      } else {
        CountInOtherGroup(methods, key, last, m);
      }
    }
  }

  /** The order of the user interface keeps every method, and as often as it was given. */
  lemma UiOrderPermutes(methods: seq<Method>, order: UiOrder)
    requires Sorts(order)
    ensures multiset(InUiOrder(methods, order)) == multiset(methods)
  {
    hide FlatMap, Filter, Keys, Distinct;
    var key := GroupKey(order.mode);
    var grouped := ByGroup(methods, order.mode);
    var names := order.sortGroupNames(grouped);
    NamesAreKeys(names, grouped.Keys);
    forall m
      ensures multiset(InUiOrder(methods, order))[m] == multiset(methods)[m]
    {
      CountInFlatMap(names, methods, order, m);
      KeysAreComplete(methods, key, key(m));
      if m in methods {
        var i :| 0 <= i < |methods| && methods[i] == m;
        assert key(methods[i]) == key(m);
      }
    }
  }

  // ---------------------------------------------------------------------------
  // Candidates

  /** Neither modeled in the store nor outside of it */
  predicate IsCandidate(m: Method, modeled: ModeledMethods) {
    !IsModeled(modeled, m.signature) && !m.supported
  }

  function CandidatesOf(methods: seq<Method>, modeled: ModeledMethods): seq<Method> {
    if methods == [] then []
    else
      var m := methods[|methods| - 1];
      CandidatesOf(methods[..|methods| - 1], modeled) + (if IsCandidate(m, modeled) then [m] else [])
  }

  lemma {:induction false} CandidatesAre(methods: seq<Method>, modeled: ModeledMethods, m: Method)
    ensures multiset(CandidatesOf(methods, modeled))[m] ==
            if IsCandidate(m, modeled) then multiset(methods)[m] else 0
    decreases |methods|
  {
    if methods != [] {
      hide IsCandidate;
      var front, last := methods[..|methods| - 1], methods[|methods| - 1];
      CandidatesAre(front, modeled, m);
      assert methods == front + [last];
      assert multiset(methods)[m] == multiset(front)[m] + if last == m then 1 else 0;
    }
  }

  /** The first part of `getCandidates` */
  method SortedMethods(methods: seq<Method>, order: UiOrder) returns (sortedMethods: seq<Method>)
    requires Sorts(order)
    ensures sortedMethods == InUiOrder(methods, order)
    ensures multiset(sortedMethods) == multiset(methods)
  {
    hide FlatMap, Keys, Filter, Distinct, ByGroup;
    UiOrderPermutes(methods, order);
    var grouped := GroupMethods(methods, order.mode);
    var sortedGroupNames := order.sortGroupNames(grouped);
    NamesAreKeys(sortedGroupNames, grouped.Keys);
    sortedMethods := FlatMap(sortedGroupNames, grouped, order);
  }

  /** `getCandidates`: the methods that are not modeled in any way, each as often as it was given. */
  method GetCandidates(methods: seq<Method>, modeledMethodsBySignature: ModeledMethods, order: UiOrder)
    returns (candidates: seq<Method>)
    requires Sorts(order)
    ensures candidates == CandidatesOf(InUiOrder(methods, order), modeledMethodsBySignature)
    ensures forall m :: multiset(candidates)[m] ==
                        if IsCandidate(m, modeledMethodsBySignature) then multiset(methods)[m] else 0
  {
    hide IsCandidate, IsModeled, InUiOrder, CandidatesOf, Sorts;
    var sortedMethods := SortedMethods(methods, order);
    candidates := [];
    NoCandidates(modeledMethodsBySignature);
    for n := 0 to |sortedMethods|
      invariant candidates == CandidatesOf(sortedMethods[..n], modeledMethodsBySignature)
    {
      var m := sortedMethods[n];
      CandidatesPush(sortedMethods[..n], m, modeledMethodsBySignature);
      assert sortedMethods[..n + 1] == sortedMethods[..n] + [m];
      if IsModeled(modeledMethodsBySignature, m.signature) {
        continue;
      }
      if m.supported {
        continue;
      }
      candidates := candidates + [m];
    }
    assert sortedMethods[..|sortedMethods|] == sortedMethods;
    AllCounts(methods, modeledMethodsBySignature, order);
  }

  lemma NoCandidates(modeled: ModeledMethods)
    ensures CandidatesOf([], modeled) == []
  {
  }

  lemma CandidatesPush(methods: seq<Method>, m: Method, modeled: ModeledMethods)
    ensures CandidatesOf(methods + [m], modeled) ==
            if IsModeled(modeled, m.signature) || m.supported then CandidatesOf(methods, modeled)
            else CandidatesOf(methods, modeled) + [m]
  {
    assert (methods + [m])[..|methods|] == methods;
  }

  lemma AllCounts(methods: seq<Method>, modeled: ModeledMethods, order: UiOrder)
    requires Sorts(order)
    ensures forall m :: multiset(CandidatesOf(InUiOrder(methods, order), modeled))[m] ==
                        if IsCandidate(m, modeled) then multiset(methods)[m] else 0
  {
    hide IsCandidate, InUiOrder, CandidatesOf;
    UiOrderPermutes(methods, order);
    forall m
      ensures multiset(CandidatesOf(InUiOrder(methods, order), modeled))[m] ==
              if IsCandidate(m, modeled) then multiset(methods)[m] else 0
    {
      CandidatesAre(InUiOrder(methods, order), modeled, m);
    }
  }
}
