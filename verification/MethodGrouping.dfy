/** Turning the result tuples of a query into methods with their usages
    (extensions/ql-vscode/src/model-editor/bqrs.ts). */
module MethodGrouping {
  import opened Groups
  import opened Wrappers

  datatype Call = Call(text: string, url: string)

  datatype Classification = Unknown | Source | Test | Generated

  datatype Usage = Usage(call: Call, classification: Classification)

  datatype ModeledType = NoType | SourceType | SinkType | SummaryType | NeutralType

  /** A result tuple of the query for application mode, or of the one for framework mode. */
  datatype Tuple =
    | ApplicationTuple(
        usage: Call, packageName: string, typeName: string, methodName: string, methodParameters: string,
        supported: bool, library: string, libraryVersion: string, modeledType: ModeledType,
        classification: Classification)
    | FrameworkTuple(
        usage: Call, packageName: string, typeName: string, methodName: string, methodParameters: string,
        supported: bool, library: string, modeledType: ModeledType)

  datatype Method = Method(
    library: string, libraryVersion: Option<string>, signature: string,
    packageName: string, typeName: string, methodName: string, methodParameters: string,
    supported: bool, supportedType: ModeledType, usages: seq<Usage>)

  /** The name and the version, if any, that can be read off a library file name. */
  datatype Library = Library(name: string, version: Option<string>)

  function Signature(t: Tuple): string {
    t.packageName + "." + t.typeName + "#" + t.methodName + t.methodParameters
  }

  function UsageOf(t: Tuple): Usage {
    Usage(t.usage, if t.ApplicationTuple? then t.classification else Unknown)
  }

  predicate EndsWith(s: string, suffix: string) {
    |s| >= |suffix| && s[|s| - |suffix|..] == suffix
  }

  /** The library name and version: those of the tuple, unless it is a jar or has no version.  An empty version
      counts as none. */
  function LibraryOf(t: Tuple, parse: string -> Library): Library {
    var version := if t.ApplicationTuple? then Some(t.libraryVersion) else None;
    var parsed :=
      if EndsWith(t.library, ".jar") || version == Some("") || version.None? then
        var l := parse(t.library);
        Library(l.name, if l.version.Some? && l.version.value != "" then l.version else version)
      else Library(t.library, version);
    if parsed.version == Some("") then parsed.(version := None) else parsed
  }

  /** The method that a tuple describes, without usages. */
  function NewMethod(t: Tuple, parse: string -> Library): Method {
    var l := LibraryOf(t, parse);
    Method(l.name, l.version, Signature(t), t.packageName, t.typeName, t.methodName, t.methodParameters,
           t.supported, t.modeledType, [])
  }

  function Usages(group: seq<Tuple>): (us: seq<Usage>)
    ensures |us| == |group|
  {
    seq(|group|, i requires 0 <= i < |group| => UsageOf(group[i]))
  }

  /** The method that a group of tuples with one signature should become. */
  function MethodOf(group: seq<Tuple>, parse: string -> Library): Method
    requires group != []
  {
    NewMethod(group[0], parse).(usages := Usages(group))
  }

  /** One method for each signature, in the order of first occurrence, that takes its fields from the first
      tuple and its usages from all tuples with that signature. */
  predicate IsGrouping(methods: seq<Method>, tuples: seq<Tuple>, parse: string -> Library) {
    var signatures := Keys(tuples, Signature);
    && |methods| == |signatures|
    && forall i | 0 <= i < |methods| ::
         var group := Filter(tuples, Signature, signatures[i]);
         group != [] && methods[i] == MethodOf(group, parse)
  }

  /** The value of the map entry for a signature. */
  function Entry(group: seq<Tuple>, parse: string -> Library): Option<Method> {
    if group == [] then None else Some(MethodOf(group, parse))
  }

  lemma NewMethodFields(t: Tuple, parse: string -> Library)
    ensures NewMethod(t, parse).signature == Signature(t) && NewMethod(t, parse).usages == []
  {
  }

  lemma EntryPush(group: seq<Tuple>, t: Tuple, parse: string -> Library)
    ensures Entry(group + [t], parse) ==
            var m := if group == [] then NewMethod(t, parse) else Entry(group, parse).value;
            Some(m.(usages := m.usages + [UsageOf(t)]))
  {
    hide NewMethod;
    NewMethodFields(t, parse);
    assert Usages(group + [t]) == Usages(group) + [UsageOf(t)];
    if group != [] {
      assert (group + [t])[0] == group[0];
    }
  }

  lemma TupleStep(tuples: seq<Tuple>, t: Tuple, parse: string -> Library)
    ensures Keys(tuples + [t], Signature) ==
            if Signature(t) in Keys(tuples, Signature) then Keys(tuples, Signature)
            else Keys(tuples, Signature) + [Signature(t)]
    ensures Signature(t) in Keys(tuples, Signature) <==> Filter(tuples, Signature, Signature(t)) != []
    ensures forall k | k != Signature(t) :: Filter(tuples + [t], Signature, k) == Filter(tuples, Signature, k)
    ensures Filter(tuples + [t], Signature, Signature(t)) == Filter(tuples, Signature, Signature(t)) + [t]
  {
    hide Signature;
    KeysPush(tuples, Signature, t);
    KeysAreComplete(tuples, Signature, Signature(t));
    forall k
      ensures Filter(tuples + [t], Signature, k) ==
              if Signature(t) == k then Filter(tuples, Signature, k) + [t] else Filter(tuples, Signature, k)
    {
      FilterPush(tuples, Signature, t, k);
    }
  }

  /** `decodeBqrsToMethods`, with its insertion-ordered map as a list of keys and a map */
  method DecodeBqrsToMethods(tuples: seq<Tuple>, parse: string -> Library) returns (methods: seq<Method>)
    ensures IsGrouping(methods, tuples, parse)
  {
    hide Keys, Filter, Signature, Entry, NewMethod;
    var signatures: seq<string> := [];
    var methodsByApiName: map<string, Method> := map[];
    NoTuples();
    for n := 0 to |tuples|
      invariant signatures == Keys(tuples[..n], Signature)
      invariant forall k :: k in signatures <==> k in methodsByApiName
      invariant forall k | k in methodsByApiName ::
                  Entry(Filter(tuples[..n], Signature, k), parse) == Some(methodsByApiName[k])
    {
      var t := tuples[n];
      var signature := Signature(t);
      TupleStep(tuples[..n], t, parse);
      EntryPush(Filter(tuples[..n], Signature, signature), t, parse);
      assert tuples[..n + 1] == tuples[..n] + [t];
      if signature !in methodsByApiName {
        signatures := signatures + [signature];
        methodsByApiName := methodsByApiName[signature := NewMethod(t, parse)];
      }
      var m := methodsByApiName[signature];
      methodsByApiName := methodsByApiName[signature := m.(usages := m.usages + [UsageOf(t)])];
    }
    assert tuples[..|tuples|] == tuples;
    methods := seq(|signatures|, i requires 0 <= i < |signatures| && signatures[i] in methodsByApiName =>
      methodsByApiName[signatures[i]]);
    EntriesAreMethods(tuples, parse);
  }

  lemma NoTuples()
    ensures Keys<Tuple, string>([], Signature) == []
  {
  }

  lemma EntriesAreMethods(tuples: seq<Tuple>, parse: string -> Library)
    ensures forall k, m | Entry(Filter(tuples, Signature, k), parse) == Some(m) ::
              Filter(tuples, Signature, k) != [] && m == MethodOf(Filter(tuples, Signature, k), parse)
  {
  }

  // ---------------------------------------------------------------------------
  // What grouping means

  /** Every method carries the usages of exactly the tuples with its signature, and no two methods share one. */
  lemma MethodsAreDistinct(tuples: seq<Tuple>, methods: seq<Method>, parse: string -> Library, i: nat, j: nat)
    requires IsGrouping(methods, tuples, parse) && i < j < |methods|
    ensures methods[i].signature == Keys(tuples, Signature)[i] != methods[j].signature
    ensures methods[i].usages == Usages(Filter(tuples, Signature, methods[i].signature))
  {
    hide Signature, Filter, Keys;
    KeysAreDistinct(tuples, Signature);
    FilterHasKey(tuples, Signature, Keys(tuples, Signature)[i], 0);
    FilterHasKey(tuples, Signature, Keys(tuples, Signature)[j], 0);
    NewMethodFields(Filter(tuples, Signature, Keys(tuples, Signature)[i])[0], parse);
    NewMethodFields(Filter(tuples, Signature, Keys(tuples, Signature)[j])[0], parse);
  }

  /** The library of a tuple: as it stands, unless it is a jar or has no version; then name and version are read off the
      file name, where no version there leaves the one of the tuple.  An empty version counts as none. */
  lemma LibraryIs(t: Tuple, parse: string -> Library)
    ensures var own := if t.ApplicationTuple? && t.libraryVersion != "" then Some(t.libraryVersion) else None;
      var l, read := LibraryOf(t, parse), parse(t.library);
      if own.Some? && !(|t.library| >= 4 && t.library[|t.library| - 4..] == ".jar") then
        l.name == t.library && l.version == own
      else
        && l.name == read.name
        && (read.version.Some? && read.version.value != "" ==> l.version == read.version)
        && (read.version.None? || read.version == Some("") ==> l.version == own)
  {
  }

  /** What a method says of itself comes from the first tuple with its signature, and its usages from all of them, in
      order. */
  lemma MethodIs(tuples: seq<Tuple>, methods: seq<Method>, parse: string -> Library, i: nat, k: nat) returns (p: nat)
    requires IsGrouping(methods, tuples, parse) && i < |methods| && k < |tuples|
    ensures p < |tuples| && forall q | 0 <= q < p :: Signature(tuples[q]) != Signature(tuples[p])
    ensures var m, t := methods[i], tuples[p];
      && m.signature == t.packageName + "." + t.typeName + "#" + t.methodName + t.methodParameters
      && m.packageName == t.packageName && m.typeName == t.typeName && m.methodName == t.methodName
      && m.methodParameters == t.methodParameters && m.supported == t.supported && m.supportedType == t.modeledType
      && m.library == LibraryOf(t, parse).name && m.libraryVersion == LibraryOf(t, parse).version
      && |m.usages| == CountOf(tuples, Signature, m.signature, |tuples|)
      && (Signature(tuples[k]) == m.signature ==>
            var u := CountOf(tuples, Signature, m.signature, k);
            && u < |m.usages| && m.usages[u].call == tuples[k].usage
            && m.usages[u].classification ==
               if tuples[k].ApplicationTuple? then tuples[k].classification else Unknown)
  {
    hide Filter, Keys, CountOf, LibraryOf;
    var s := Keys(tuples, Signature)[i];
    p := FirstOfKey(tuples, Signature, i);
    FilterAt(tuples, Signature, s, p);
    NoneBefore(tuples, s, p);
    if Signature(tuples[k]) == s {
      FilterAt(tuples, Signature, s, k);
    }
  }

  lemma {:induction false} NoneBefore(tuples: seq<Tuple>, s: string, p: nat)
    requires p <= |tuples| && forall q | 0 <= q < p :: Signature(tuples[q]) != s
    ensures CountOf(tuples, Signature, s, p) == 0
    decreases p
  {
    hide Signature;
    if p > 0 {
      NoneBefore(tuples, s, p - 1);
    }
  }

  function TotalUsages(methods: seq<Method>): nat {
    if methods == [] then 0 else TotalUsages(methods[..|methods| - 1]) + |methods[|methods| - 1].usages|
  }

  function One(t: Tuple): int {
    1
  }

  lemma {:induction false} SumOfOnes(tuples: seq<Tuple>)
    ensures Sum(tuples, One) == |tuples|
  {
    if tuples != [] {
      SumOfOnes(tuples[..|tuples| - 1]);
    }
  }

  lemma {:induction false} UsagesOfPrefix(methods: seq<Method>, signatures: seq<string>, tuples: seq<Tuple>)
    requires |methods| == |signatures|
    requires forall i | 0 <= i < |methods| ::
               methods[i].usages == Usages(Filter(tuples, Signature, signatures[i]))
    ensures TotalUsages(methods) == SumOfGroups(signatures, tuples, Signature, One)
    decreases |methods|
  {
    if methods != [] {
      var n := |methods| - 1;
      UsagesOfPrefix(methods[..n], signatures[..n], tuples);
      SumOfOnes(Filter(tuples, Signature, signatures[n]));
    }
  }

  /** No usage is lost or counted twice. */
  lemma UsagesAddUp(tuples: seq<Tuple>, methods: seq<Method>, parse: string -> Library)
    requires IsGrouping(methods, tuples, parse)
    ensures TotalUsages(methods) == |tuples|
  {
    hide Signature;
    GroupsAddUp(tuples, Signature, One);
    SumOfOnes(tuples);
    UsagesOfPrefix(methods, Keys(tuples, Signature), tuples);
  }
}
