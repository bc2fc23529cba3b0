/** Data extension files: printing modeled methods as rows, and loading them back
    (extensions/ql-vscode/src/model-editor/yaml.ts and predicates.ts).

    A file is a list of extensions with rows; the YAML text around them is left out.  A dictionary keeps its
    keys in insertion order, as an object of the source does. */
module DataExtensions {
  import opened Groups

  datatype ModelType = NoType | Source | Sink | Summary | Neutral

  /** A value in a row.  `Null` stands for a missing value: undefined in memory, `null` in a file. */
  datatype Cell = Str(text: string) | Bool(value: bool) | Num(decimal: string) | Null

  datatype ModeledMethod = ModeledMethod(
    modelType: ModelType, input: Cell, output: Cell, kind: Cell, provenance: Cell,
    signature: string, packageName: Cell, typeName: Cell, methodName: Cell, methodParameters: Cell)

  type Row = seq<Cell>

  datatype Extension = Extension(pack: string, extensible: string, data: seq<Row>)

  /** An object used as a dictionary: its keys in insertion order, and their values. */
  datatype Dict<V> = Dict(keys: seq<string>, entries: map<string, V>)

  // ---------------------------------------------------------------------------
  // Rows

  /** A value as it appears in a template string */
  function InText(c: Cell): string {
    match c
    case Str(s) => s
    case Bool(b) => if b then "true" else "false"
    case Num(d) => d
    case Null => "undefined"
  }

  function SignatureFor(packageName: Cell, typeName: Cell, methodName: Cell, methodParameters: Cell): string {
    InText(packageName) + "." + InText(typeName) + "#" + InText(methodName) + InText(methodParameters)
  }

  function ExtensibleOf(t: ModelType): string {
    match t
    case Source => "sourceModel"
    case Sink => "sinkModel"
    case Summary => "summaryModel"
    case Neutral => "neutralModel"
    case NoType => ""
  }

  /** `generateMethodDefinition` of each predicate */
  function GenerateRow(t: ModelType, m: ModeledMethod): Row {
    match t
    case Source => [m.packageName, m.typeName, Bool(true), m.methodName, m.methodParameters,
                    Str(""), m.output, m.kind, m.provenance]
    case Sink => [m.packageName, m.typeName, Bool(true), m.methodName, m.methodParameters,
                  Str(""), m.input, m.kind, m.provenance]
    case Summary => [m.packageName, m.typeName, Bool(true), m.methodName, m.methodParameters,
                     Str(""), m.input, m.output, m.kind, m.provenance]
    case Neutral => [m.packageName, m.typeName, m.methodName, m.methodParameters,
                     m.kind, m.provenance]
    case NoType => []
  }

  /** `row[k]` */
  function At(row: Row, k: nat): Cell {
    if k < |row| then row[k] else Null
  }

  /** `readModeledMethod` of each predicate */
  function ReadRow(t: ModelType, row: Row): ModeledMethod {
    match t
    case Source => ModeledMethod(Source, Str(""), At(row, 6), At(row, 7), At(row, 8),
                                 SignatureFor(At(row, 0), At(row, 1), At(row, 3), At(row, 4)),
                                 At(row, 0), At(row, 1), At(row, 3), At(row, 4))
    case Sink => ModeledMethod(Sink, At(row, 6), Str(""), At(row, 7), At(row, 8),
                               SignatureFor(At(row, 0), At(row, 1), At(row, 3), At(row, 4)),
                               At(row, 0), At(row, 1), At(row, 3), At(row, 4))
    case Summary => ModeledMethod(Summary, At(row, 6), At(row, 7), At(row, 8), At(row, 9),
                                  SignatureFor(At(row, 0), At(row, 1), At(row, 3), At(row, 4)),
                                  At(row, 0), At(row, 1), At(row, 3), At(row, 4))
    case Neutral => ModeledMethod(Neutral, Str(""), Str(""), At(row, 4), At(row, 5),
                                  SignatureFor(At(row, 0), At(row, 1), At(row, 2), At(row, 3)),
                                  At(row, 0), At(row, 1), At(row, 2), At(row, 3))
    case NoType => ModeledMethod(NoType, Null, Null, Null, Null, "", Null, Null, Null, Null)
  }

  /** What a row can carry of a model: no input for a source, no output for a sink, neither for a neutral model,
      and the signature that belongs to the other fields. */
  function Normalize(m: ModeledMethod): ModeledMethod {
    m.(signature := SignatureFor(m.packageName, m.typeName, m.methodName, m.methodParameters),
       input := if m.modelType in {Source, Neutral} then Str("") else m.input,
       output := if m.modelType in {Sink, Neutral} then Str("") else m.output)
  }

  lemma ReadUndoesGenerate(m: ModeledMethod)
    requires m.modelType != NoType
    ensures ReadRow(m.modelType, GenerateRow(m.modelType, m)) == Normalize(m)
  {
    hide SignatureFor;
  }

  lemma ReadIsNormal(t: ModelType, row: Row)
    requires t != NoType
    ensures Normalize(ReadRow(t, row)) == ReadRow(t, row) && ReadRow(t, row).modelType == t
  {
    hide SignatureFor, At;
  }

  /** The columns of each predicate, in order, as they are written ... */
  lemma WrittenColumns(m: ModeledMethod)
    ensures GenerateRow(Source, m) ==
            [m.packageName, m.typeName] + [Bool(true)] + [m.methodName, m.methodParameters] + [Str("")] +
            [m.output, m.kind, m.provenance]
    ensures GenerateRow(Sink, m) ==
            [m.packageName, m.typeName] + [Bool(true)] + [m.methodName, m.methodParameters] + [Str("")] +
            [m.input, m.kind, m.provenance]
    ensures GenerateRow(Summary, m) ==
            [m.packageName, m.typeName] + [Bool(true)] + [m.methodName, m.methodParameters] + [Str("")] +
            [m.input, m.output, m.kind, m.provenance]
    ensures GenerateRow(Neutral, m) ==
            [m.packageName, m.typeName] + [m.methodName, m.methodParameters] + [m.kind, m.provenance]
  {
  }

  /** ... and as they are read from a row that is long enough; what the predicate has no column for is empty. */
  lemma ReadColumns(row: Row, t: ModelType)
    requires t != NoType && |row| >= 10
    ensures var m := ReadRow(t, row);
      && m.modelType == t && m.packageName == row[0] && m.typeName == row[1]
      && (t == Neutral ==>
            && m.methodName == row[2] && m.methodParameters == row[3] && m.kind == row[4] && m.provenance == row[5]
            && m.input == Str("") && m.output == Str(""))
      && (t != Neutral ==> m.methodName == row[3] && m.methodParameters == row[4])
      && (t == Source ==> m.input == Str("") && m.output == row[6] && m.kind == row[7] && m.provenance == row[8])
      && (t == Sink ==> m.input == row[6] && m.output == Str("") && m.kind == row[7] && m.provenance == row[8])
      && (t == Summary ==> m.input == row[6] && m.output == row[7] && m.kind == row[8] && m.provenance == row[9])
      && m.signature == SignatureFor(m.packageName, m.typeName, m.methodName, m.methodParameters)
  {
    hide SignatureFor;
  }

  /** A signature is spelled `package.type#name(parameters)`; a missing part reads "undefined". */
  lemma SignatureIsSpelled(packageName: string, typeName: string, methodName: string, methodParameters: string)
    ensures SignatureFor(Str(packageName), Str(typeName), Str(methodName), Str(methodParameters)) ==
            packageName + "." + typeName + "#" + methodName + methodParameters
    ensures InText(Null) == "undefined" && InText(Bool(true)) == "true" && InText(Bool(false)) == "false"
    ensures InText(Num(methodName)) == methodName
  {
  }

  /** The names of the four predicates */
  lemma PredicateNames(name: string)
    ensures ExtensibleOf(Source) == "sourceModel" && ExtensibleOf(Sink) == "sinkModel"
    ensures ExtensibleOf(Summary) == "summaryModel" && ExtensibleOf(Neutral) == "neutralModel"
    ensures PredicateFor(name) != NoType <==> name in {"sourceModel", "sinkModel", "summaryModel", "neutralModel"}
    ensures forall t | t != NoType :: PredicateFor(ExtensibleOf(t)) == t
  {
  }

  // ---------------------------------------------------------------------------
  // Printing

  function TypeOf(m: ModeledMethod): ModelType {
    m.modelType
  }

  function SignatureOf(m: ModeledMethod): string {
    m.signature
  }

  function RowsOf(ms: seq<ModeledMethod>, t: ModelType): seq<Row> {
    if ms == [] then [] else RowsOf(ms[..|ms| - 1], t) + [GenerateRow(t, ms[|ms| - 1])]
  }

  function ExtensionOf(language: string, ms: seq<ModeledMethod>, t: ModelType): Extension {
    Extension("codeql/" + language + "-all", ExtensibleOf(t), RowsOf(Filter(ms, TypeOf, t), t))
  }

  /** The file for a list of models: one extension for each predicate, in a fixed order. */
  function ExtensionsOf(language: string, ms: seq<ModeledMethod>): seq<Extension> {
    [ExtensionOf(language, ms, Source), ExtensionOf(language, ms, Sink),
     ExtensionOf(language, ms, Summary), ExtensionOf(language, ms, Neutral)]
  }

  /** What a printed file consists of: for each predicate, in this order, the rows of the models of its type. */
  lemma PrintedFileIs(language: string, ms: seq<ModeledMethod>, k: nat, j: nat)
    requires k < 4
    ensures var file := ExtensionsOf(language, ms);
      var t := [Source, Sink, Summary, Neutral][k];
      && |file| == 4
      && file[k].pack == "codeql/" + language + "-all"
      && file[k].extensible == ["sourceModel", "sinkModel", "summaryModel", "neutralModel"][k]
      && |file[k].data| == |Filter(ms, TypeOf, t)|
      && (j < |file[k].data| ==> file[k].data[j] == GenerateRow(t, Filter(ms, TypeOf, t)[j]))
  {
    hide Filter, GenerateRow;
    ValidRows(Filter(ms, TypeOf, [Source, Sink, Summary, Neutral][k]), [Source, Sink, Summary, Neutral][k]);
  }

  /** The models of each type, in order */
  ghost predicate AreByType(methodsByType: map<ModelType, seq<ModeledMethod>>, ms: seq<ModeledMethod>) {
    && methodsByType.Keys == {Source, Sink, Summary, Neutral}
    && forall t | t in methodsByType :: methodsByType[t] == Filter(ms, TypeOf, t)
  }

  lemma AddByType(methodsByType: map<ModelType, seq<ModeledMethod>>, ms: seq<ModeledMethod>, m: ModeledMethod)
    requires AreByType(methodsByType, ms) && (m.modelType != NoType ==> m.modelType in methodsByType)
    ensures AreByType(if m.modelType == NoType then methodsByType
                      else methodsByType[m.modelType := methodsByType[m.modelType] + [m]], ms + [m])
  {
    hide Filter;
    TypesPush(ms, m);
  }

  lemma ExtensionsByType(methodsByType: map<ModelType, seq<ModeledMethod>>, language: string, ms: seq<ModeledMethod>,
                         t: ModelType)
    requires AreByType(methodsByType, ms) && t != NoType
    ensures t in methodsByType
    ensures Extension("codeql/" + language + "-all", ExtensibleOf(t), RowsOf(methodsByType[t], t)) ==
            ExtensionOf(language, ms, t)
  {
    hide Filter, RowsOf, ExtensibleOf;
  }

  /** `createDataExtensionYaml`, up to the layout of the text */
  method CreateDataExtension(language: string, modeledMethods: seq<ModeledMethod>) returns (extensions: seq<Extension>)
    ensures extensions == ExtensionsOf(language, modeledMethods)
  {
    hide AreByType, RowsOf, ExtensibleOf, ExtensionOf;
    var methodsByType: map<ModelType, seq<ModeledMethod>> :=
      map[Source := [], Sink := [], Summary := [], Neutral := []];
    NothingByType(methodsByType);
    for n := 0 to |modeledMethods|
      invariant AreByType(methodsByType, modeledMethods[..n])
    {
      var m := modeledMethods[n];
      assert modeledMethods[..n + 1] == modeledMethods[..n] + [m];
      HasType(methodsByType, modeledMethods[..n], m.modelType);
      AddByType(methodsByType, modeledMethods[..n], m);
      if m.modelType != NoType {
        methodsByType := methodsByType[m.modelType := methodsByType[m.modelType] + [m]];
      }
    }
    assert modeledMethods[..|modeledMethods|] == modeledMethods;
    ExtensionsByType(methodsByType, language, modeledMethods, Source);
    ExtensionsByType(methodsByType, language, modeledMethods, Sink);
    ExtensionsByType(methodsByType, language, modeledMethods, Summary);
    ExtensionsByType(methodsByType, language, modeledMethods, Neutral);
    var pack := "codeql/" + language + "-all";
    extensions := [Extension(pack, ExtensibleOf(Source), RowsOf(methodsByType[Source], Source)),
                   Extension(pack, ExtensibleOf(Sink), RowsOf(methodsByType[Sink], Sink)),
                   Extension(pack, ExtensibleOf(Summary), RowsOf(methodsByType[Summary], Summary)),
                   Extension(pack, ExtensibleOf(Neutral), RowsOf(methodsByType[Neutral], Neutral))];
  }

  lemma HasType(methodsByType: map<ModelType, seq<ModeledMethod>>, ms: seq<ModeledMethod>, t: ModelType)
    requires AreByType(methodsByType, ms)
    ensures t != NoType ==> t in methodsByType
  {
  }

  lemma NothingByType(methodsByType: map<ModelType, seq<ModeledMethod>>)
    requires methodsByType == map[Source := [], Sink := [], Summary := [], Neutral := []]
    ensures AreByType(methodsByType, [])
  {
  }

  lemma TypesPush(ms: seq<ModeledMethod>, m: ModeledMethod)
    ensures forall t :: Filter(ms + [m], TypeOf, t) ==
                        if m.modelType == t then Filter(ms, TypeOf, t) + [m] else Filter(ms, TypeOf, t)
  {
    hide Filter;
    forall t
      ensures Filter(ms + [m], TypeOf, t) ==
              if m.modelType == t then Filter(ms, TypeOf, t) + [m] else Filter(ms, TypeOf, t)
    {
      FilterPush(ms, TypeOf, m, t);
    }
  }

  // ---------------------------------------------------------------------------
  // Loading

  /** The predicate that an extension adds to, if it is one of the four. */
  function PredicateFor(extensible: string): ModelType {
    if extensible == "sourceModel" then Source
    else if extensible == "sinkModel" then Sink
    else if extensible == "summaryModel" then Summary
    else if extensible == "neutralModel" then Neutral
    else NoType
  }

  function ReadRows(t: ModelType, rows: seq<Row>): seq<ModeledMethod> {
    if rows == [] then [] else ReadRows(t, rows[..|rows| - 1]) + [ReadRow(t, rows[|rows| - 1])]
  }

  function ReadExtension(e: Extension): seq<ModeledMethod> {
    var t := PredicateFor(e.extensible);
    if t == NoType then [] else ReadRows(t, e.data)
  }

  /** All models of a file, in the order of its rows. */
  function ReadAll(extensions: seq<Extension>): seq<ModeledMethod> {
    if extensions == [] then []
    else ReadAll(extensions[..|extensions| - 1]) + ReadExtension(extensions[|extensions| - 1])
  }

  /** What is read from a file: one model from each row of a known predicate, extension by extension, in order. */
  lemma ReadAllIs(a: seq<Extension>, e: Extension, j: nat)
    ensures ReadAll([]) == [] && ReadAll(a + [e]) == ReadAll(a) + ReadExtension(e)
    ensures PredicateFor(e.extensible) == NoType ==> ReadExtension(e) == []
    ensures PredicateFor(e.extensible) != NoType ==>
              && |ReadExtension(e)| == |e.data|
              && (j < |e.data| ==> ReadExtension(e)[j] == ReadRow(PredicateFor(e.extensible), e.data[j]))
  {
    hide ReadRow, PredicateFor;
    assert (a + [e])[..|a|] == a;
    ReadRowsAt(PredicateFor(e.extensible), e.data, j);
  }

  lemma {:induction false} ReadRowsAt(t: ModelType, rows: seq<Row>, j: nat)
    ensures |ReadRows(t, rows)| == |rows|
    ensures j < |rows| ==> ReadRows(t, rows)[j] == ReadRow(t, rows[j])
    decreases |rows|
  {
    hide ReadRow;
    if rows != [] {
      ReadRowsAt(t, rows[..|rows| - 1], j);
    }
  }

  /** The models by signature: each signature where it first occurs, each group in order. */
  function Grouped(ms: seq<ModeledMethod>): Dict<seq<ModeledMethod>> {
    var keys := Keys(ms, SignatureOf);
    Dict(keys, map k | k in keys :: Filter(ms, SignatureOf, k))
  }

  function Push(d: Dict<seq<ModeledMethod>>, m: ModeledMethod): Dict<seq<ModeledMethod>> {
    if m.signature in d.entries then d.(entries := d.entries[m.signature := d.entries[m.signature] + [m]])
    else Dict(d.keys + [m.signature], d.entries[m.signature := [m]])
  }

  lemma GroupedPush(ms: seq<ModeledMethod>, m: ModeledMethod)
    ensures Grouped(ms + [m]) == Push(Grouped(ms), m)
  {
    hide Keys, Filter;
    KeysPush(ms, SignatureOf, m);
    KeysAreComplete(ms, SignatureOf, m.signature);
    var after, pushed := Grouped(ms + [m]), Push(Grouped(ms), m);
    assert SignatureOf(m) == m.signature;
    assert after.keys == pushed.keys && after.entries.Keys == pushed.entries.Keys;
    forall k | k in after.entries
      ensures after.entries[k] == pushed.entries[k]
    {
      FilterPush(ms, SignatureOf, m, k);
    }
  }

  lemma PushInTwoSteps(d: Dict<seq<ModeledMethod>>, m: ModeledMethod)
    ensures var d1 := if m.signature in d.entries then d
                      else Dict(d.keys + [m.signature], d.entries[m.signature := []]);
      d1.(entries := d1.entries[m.signature := d1.entries[m.signature] + [m]]) == Push(d, m)
  {
    if m.signature !in d.entries {
      var none: seq<ModeledMethod> := [];
      assert none + [m] == [m];
      assert d.entries[m.signature := []][m.signature := [m]] == d.entries[m.signature := [m]];
    }
  }

  predicate IsValidRow(row: Row) {
    forall k | 0 <= k < |row| :: row[k] != Null
  }

  /** The schema of a file allows strings, booleans and numbers in a row, but not `null`. */
  predicate IsValidFile(extensions: seq<Extension>) {
    forall i, j | 0 <= i < |extensions| && 0 <= j < |extensions[i].data| :: IsValidRow(extensions[i].data[j])
  }

  /** `loadDataExtensionYaml`; a file that the schema does not allow makes it throw. */
  method LoadDataExtension(extensions: seq<Extension>) returns (ok: bool, modeledMethods: Dict<seq<ModeledMethod>>)
    ensures ok <==> IsValidFile(extensions)
    ensures ok <==> forall i, j, k | 0 <= i < |extensions| && 0 <= j < |extensions[i].data| &&
                                     0 <= k < |extensions[i].data[j]| :: extensions[i].data[j][k] != Null
    ensures ok ==> modeledMethods == Grouped(ReadAll(extensions))
  {
    ok, modeledMethods := IsValidFile(extensions), Dict([], map[]);
    if ok {
      modeledMethods := ReadExtensions(extensions);
    }
  }

  /** `loadDataExtensionYaml`, after the validation */
  method ReadExtensions(extensions: seq<Extension>) returns (modeledMethods: Dict<seq<ModeledMethod>>)
    ensures modeledMethods == Grouped(ReadAll(extensions))
  {
    hide Grouped, ReadRow, ReadAll, ReadRows, PredicateFor, Push;
    modeledMethods := Dict([], map[]);
    NothingRead();
    for i := 0 to |extensions|
      invariant modeledMethods == Grouped(ReadAll(extensions[..i]))
    {
      var extension := extensions[i];
      var definition := PredicateFor(extension.extensible);
      ReadAllPush(extensions[..i], extension);
      assert extensions[..i + 1] == extensions[..i] + [extension];
      if definition != NoType {
        ghost var before := ReadAll(extensions[..i]);
        ReadNoRows(definition, before);
        for j := 0 to |extension.data|
          invariant modeledMethods == Grouped(before + ReadRows(definition, extension.data[..j]))
        {
          var modeledMethod := ReadRow(definition, extension.data[j]);
          assert extension.data[..j + 1] == extension.data[..j] + [extension.data[j]];
          ReadRowsPush(definition, extension.data[..j], extension.data[j], before);
          GroupedPush(before + ReadRows(definition, extension.data[..j]), modeledMethod);
          PushInTwoSteps(modeledMethods, modeledMethod);
          if modeledMethod.signature !in modeledMethods.entries {
            modeledMethods := Dict(modeledMethods.keys + [modeledMethod.signature],
                                   modeledMethods.entries[modeledMethod.signature := []]);
          }
          var pushed := modeledMethods.entries[modeledMethod.signature] + [modeledMethod];
          modeledMethods := modeledMethods.(entries := modeledMethods.entries[modeledMethod.signature := pushed]);
        }
        assert extension.data[..|extension.data|] == extension.data;
      }
    }
    assert extensions[..|extensions|] == extensions;
  }

  lemma NothingRead()
    ensures Grouped(ReadAll([])) == Dict([], map[])
  {
    assert Grouped([]).entries == map[];
  }

  lemma ReadNoRows(t: ModelType, before: seq<ModeledMethod>)
    ensures before + ReadRows(t, []) == before
  {
  }

  lemma ReadAllPush(extensions: seq<Extension>, e: Extension)
    ensures ReadAll(extensions + [e]) ==
            if PredicateFor(e.extensible) == NoType then ReadAll(extensions)
            else ReadAll(extensions) + ReadRows(PredicateFor(e.extensible), e.data)
  {
    hide PredicateFor, ReadRows;
    assert (extensions + [e])[..|extensions|] == extensions;
  }

  lemma ReadRowsPush(t: ModelType, rows: seq<Row>, row: Row, before: seq<ModeledMethod>)
    ensures before + ReadRows(t, rows + [row]) == before + ReadRows(t, rows) + [ReadRow(t, row)]
  {
    hide ReadRow;
    assert (rows + [row])[..|rows|] == rows;
  }

  // ---------------------------------------------------------------------------
  // Loading after printing

  /** Source, sink, summary and neutral models, in this order; models of type "none" are dropped. */
  function ByType(ms: seq<ModeledMethod>): seq<ModeledMethod> {
    Filter(ms, TypeOf, Source) + Filter(ms, TypeOf, Sink) + Filter(ms, TypeOf, Summary) + Filter(ms, TypeOf, Neutral)
  }

  function NormalizeAll(ms: seq<ModeledMethod>): seq<ModeledMethod> {
    if ms == [] then [] else NormalizeAll(ms[..|ms| - 1]) + [Normalize(ms[|ms| - 1])]
  }

  lemma {:induction false} ReadOfGenerated(ms: seq<ModeledMethod>, t: ModelType)
    requires t != NoType
    ensures ReadRows(t, RowsOf(Filter(ms, TypeOf, t), t)) == Filter(NormalizeAll(ms), TypeOf, t)
    decreases |ms|
  {
    hide ReadRows, RowsOf, Filter, NormalizeAll;
    if ms == [] {
      NothingGenerated(t);
    } else {
      var front, m := ms[..|ms| - 1], ms[|ms| - 1];
      ReadOfGenerated(front, t);
      GeneratedStep(front, m, t);
      assert ms == front + [m];
    }
  }

  lemma NothingGenerated(t: ModelType)
    ensures ReadRows(t, RowsOf(Filter([], TypeOf, t), t)) == Filter(NormalizeAll([]), TypeOf, t)
  {
  }

  lemma GeneratedStep(front: seq<ModeledMethod>, m: ModeledMethod, t: ModelType)
    requires t != NoType
    requires ReadRows(t, RowsOf(Filter(front, TypeOf, t), t)) == Filter(NormalizeAll(front), TypeOf, t)
    ensures ReadRows(t, RowsOf(Filter(front + [m], TypeOf, t), t)) == Filter(NormalizeAll(front + [m]), TypeOf, t)
  {
    hide Filter, ReadRow, GenerateRow;
    FilterPush(front, TypeOf, m, t);
    FilterPush(NormalizeAll(front), TypeOf, Normalize(m), t);
    NormalizeAllPush(front, m);
    if m.modelType == t {
      var group := Filter(front, TypeOf, t);
      ReadUndoesGenerate(m);
      assert (group + [m])[..|group|] == group;
      var rows := RowsOf(group, t);
      assert (rows + [GenerateRow(t, m)])[..|rows|] == rows;
    }
  }

  lemma NormalizeAllPush(ms: seq<ModeledMethod>, m: ModeledMethod)
    ensures NormalizeAll(ms + [m]) == NormalizeAll(ms) + [Normalize(m)]
  {
    assert (ms + [m])[..|ms|] == ms;
  }

  lemma ReadOfExtension(language: string, ms: seq<ModeledMethod>, t: ModelType)
    requires t != NoType
    ensures ReadExtension(ExtensionOf(language, ms, t)) == Filter(NormalizeAll(ms), TypeOf, t)
  {
    hide Filter, ReadRows, RowsOf;
    ReadOfGenerated(ms, t);
  }

  /** The models read back from a printed file. */
  lemma ReadOfPrinted(language: string, ms: seq<ModeledMethod>)
    ensures ReadAll(ExtensionsOf(language, ms)) == ByType(NormalizeAll(ms))
  {
    hide ReadExtension, ExtensionOf, Filter;
    var a, b := ExtensionOf(language, ms, Source), ExtensionOf(language, ms, Sink);
    var c, d := ExtensionOf(language, ms, Summary), ExtensionOf(language, ms, Neutral);
    assert [a, b, c, d][..3] == [a, b, c] && [a, b, c][..2] == [a, b] && [a, b][..1] == [a] && [a][..0] == [];
    ReadOfExtension(language, ms, Source);
    ReadOfExtension(language, ms, Sink);
    ReadOfExtension(language, ms, Summary);
    ReadOfExtension(language, ms, Neutral);
    ReadFour(a, b, c, d);
  }

  lemma ReadFour(a: Extension, b: Extension, c: Extension, d: Extension)
    ensures ReadAll([a, b, c, d]) == ReadExtension(a) + ReadExtension(b) + ReadExtension(c) + ReadExtension(d)
  {
    hide ReadExtension;
    assert [a, b, c, d][..3] == [a, b, c] && [a, b, c][..2] == [a, b] && [a, b][..1] == [a] && [a][..0] == [];
    assert ReadAll([a]) == ReadExtension(a);
    assert ReadAll([a, b]) == ReadExtension(a) + ReadExtension(b);
    assert ReadAll([a, b, c]) == ReadExtension(a) + ReadExtension(b) + ReadExtension(c);
  }

  /** Printing a list of models and loading the file. */
  function Reload(language: string, ms: seq<ModeledMethod>): Dict<seq<ModeledMethod>> {
    Grouped(ReadAll(ExtensionsOf(language, ms)))
  }

  /** All models of a dictionary, key by key. */
  function Values(d: Dict<seq<ModeledMethod>>): seq<ModeledMethod>
    requires forall k | k in d.keys :: k in d.entries
    decreases |d.keys|
  {
    if d.keys == [] then []
    else
      Values(d.(keys := d.keys[..|d.keys| - 1])) + d.entries[d.keys[|d.keys| - 1]]
  }

  lemma {:induction false} ValuesOfGroups(keys: seq<string>, d: Dict<seq<ModeledMethod>>, ms: seq<ModeledMethod>)
    requires d == Dict(keys, Grouped(ms).entries)
    requires forall k | k in keys :: k in d.entries
    ensures Values(d) == Flatten(keys, ms, SignatureOf)
    decreases |keys|
  {
    if keys != [] {
      var front := keys[..|keys| - 1];
      assert keys[|keys| - 1] in keys;
      ValuesOfGroups(front, d.(keys := front), ms);
    }
  }

  // ---------------------------------------------------------------------------
  // The normal form

  /** Every model that is not of type "none" is kept exactly once, in its normal form, with its signature; within
      a signature the models are ordered by type, and stably. */
  lemma ReloadKeepsModels(language: string, ms: seq<ModeledMethod>, signature: string)
    ensures var d := Reload(language, ms);
      var group := Filter(NormalizeAll(ms), SignatureOf, signature);
      && (signature in d.entries <==> ByType(group) != [])
      && (signature in d.entries ==> d.entries[signature] == ByType(group))
  {
    hide Filter, Keys, ByType;
    var t := ByType(NormalizeAll(ms));
    ReadOfPrinted(language, ms);
    KeysAreComplete(t, SignatureOf, signature);
    FilterByType(NormalizeAll(ms), SignatureOf, signature);
  }

  /** Filtering and ordering by type commute. */
  lemma FilterByType(ms: seq<ModeledMethod>, f: ModeledMethod -> string, k: string)
    ensures Filter(ByType(ms), f, k) == ByType(Filter(ms, f, k))
  {
    hide Filter;
    var a, b := Filter(ms, TypeOf, Source), Filter(ms, TypeOf, Sink);
    var c, d := Filter(ms, TypeOf, Summary), Filter(ms, TypeOf, Neutral);
    FilterSplit(a, b, f, k);
    FilterSplit(a + b, c, f, k);
    FilterSplit(a + b + c, d, f, k);
    FiltersCommute(ms, TypeOf, Source, f, k);
    FiltersCommute(ms, TypeOf, Sink, f, k);
    FiltersCommute(ms, TypeOf, Summary, f, k);
    FiltersCommute(ms, TypeOf, Neutral, f, k);
  }

  lemma TypeOfByType(ms: seq<ModeledMethod>, t: ModelType)
    ensures Filter(ByType(ms), TypeOf, t) == if t == NoType then [] else Filter(ms, TypeOf, t)
  {
    hide Filter;
    var a, b := Filter(ms, TypeOf, Source), Filter(ms, TypeOf, Sink);
    var c, d := Filter(ms, TypeOf, Summary), Filter(ms, TypeOf, Neutral);
    FilterSplit(a, b, TypeOf, t);
    FilterSplit(a + b, c, TypeOf, t);
    FilterSplit(a + b + c, d, TypeOf, t);
    FilterAgain(ms, TypeOf, Source, t);
    FilterAgain(ms, TypeOf, Sink, t);
    FilterAgain(ms, TypeOf, Summary, t);
    FilterAgain(ms, TypeOf, Neutral, t);
  }

  lemma ByTypeTwice(ms: seq<ModeledMethod>)
    ensures ByType(ByType(ms)) == ByType(ms)
  {
    hide Filter;
    TypeOfByType(ms, Source);
    TypeOfByType(ms, Sink);
    TypeOfByType(ms, Summary);
    TypeOfByType(ms, Neutral);
  }

  lemma {:induction false} FilterMembers<K>(ms: seq<ModeledMethod>, f: ModeledMethod -> K, k: K, m: ModeledMethod)
    requires m in Filter(ms, f, k)
    ensures m in ms
    decreases |ms|
  {
    var front := ms[..|ms| - 1];
    if m in Filter(front, f, k) {
      FilterMembers(front, f, k, m);
    }
  }

  lemma {:induction false} FlattenMembers(keys: seq<string>, ms: seq<ModeledMethod>, m: ModeledMethod)
    requires m in Flatten(keys, ms, SignatureOf)
    ensures m in ms
    decreases |keys|
  {
    var front, last := keys[..|keys| - 1], keys[|keys| - 1];
    if m in Filter(ms, SignatureOf, last) {
      FilterMembers(ms, SignatureOf, last, m);
    } else {
      FlattenMembers(front, ms, m);
    }
  }

  predicate AllNormal(ms: seq<ModeledMethod>) {
    forall m | m in ms :: Normalize(m) == m
  }

  lemma {:induction false} NormalizeIsNormal(ms: seq<ModeledMethod>)
    ensures AllNormal(NormalizeAll(ms))
    decreases |ms|
  {
    hide SignatureFor;
    if ms != [] {
      NormalizeIsNormal(ms[..|ms| - 1]);
    }
  }

  lemma {:induction false} NormalizeNormal(ms: seq<ModeledMethod>)
    requires AllNormal(ms)
    ensures NormalizeAll(ms) == ms
    decreases |ms|
  {
    hide Normalize, NormalizeAll, AllNormal;
    if ms == [] {
      NormalizeNothing();
    } else {
      var front, m := ms[..|ms| - 1], ms[|ms| - 1];
      assert ms == front + [m];
      NormalFront(front, m);
      NormalizeNormal(front);
      NormalizeAllPush(front, m);
    }
  }

  lemma NormalizeNothing()
    ensures NormalizeAll([]) == []
  {
  }

  lemma NormalFront(front: seq<ModeledMethod>, m: ModeledMethod)
    requires AllNormal(front + [m])
    ensures AllNormal(front) && Normalize(m) == m
  {
    hide Normalize;
    var ms := front + [m];
    assert ms[|front|] == m && forall x | x in front :: x in ms;
  }

  lemma ByTypeIsNormal(ms: seq<ModeledMethod>)
    requires AllNormal(ms)
    ensures AllNormal(ByType(ms))
  {
    hide Normalize, Filter;
    forall m | m in ByType(ms)
      ensures Normalize(m) == m
    {
      var t :| m in Filter(ms, TypeOf, t);
      FilterMembers(ms, TypeOf, t, m);
    }
  }

  /** The models of a loaded file, written out key by key. */
  lemma ValuesOfReload(language: string, ms: seq<ModeledMethod>)
    ensures var t := ByType(NormalizeAll(ms));
      && Reload(language, ms) == Grouped(t)
      && Values(Reload(language, ms)) == Flatten(Keys(t, SignatureOf), t, SignatureOf)
      && AllNormal(Values(Reload(language, ms)))
  {
    hide ByType, NormalizeAll, ReadAll, ExtensionsOf, Keys, Flatten, Filter, Normalize;
    var t := ByType(NormalizeAll(ms));
    ReadOfPrinted(language, ms);
    NormalizeIsNormal(ms);
    ByTypeIsNormal(NormalizeAll(ms));
    ValuesOfGroups(Keys(t, SignatureOf), Grouped(t), t);
    forall m | m in Flatten(Keys(t, SignatureOf), t, SignatureOf)
      ensures Normalize(m) == m
    {
      FlattenMembers(Keys(t, SignatureOf), t, m);
    }
  }

  /** Writing out the groups of a list that is ordered by type, and ordering the result by type again, gives the
      same keys in the same order. */
  lemma KeysAreStable(ms: seq<ModeledMethod>)
    ensures var t := ByType(ms);
      Keys(ByType(Flatten(Keys(t, SignatureOf), t, SignatureOf)), SignatureOf) == Keys(t, SignatureOf)
  {
    hide Filter, Keys, Flatten, Pick;
    var t := ByType(ms);
    var k := Keys(t, SignatureOf);
    var f := Flatten(k, t, SignatureOf);
    var t0, t1 := Filter(ms, TypeOf, Source), Filter(ms, TypeOf, Sink);
    var t2, t3 := Filter(ms, TypeOf, Summary), Filter(ms, TypeOf, Neutral);
    var f0, f1 := Filter(f, TypeOf, Source), Filter(f, TypeOf, Sink);
    var f2, f3 := Filter(f, TypeOf, Summary), Filter(f, TypeOf, Neutral);
    PartKeys(ms, Source);
    PartKeys(ms, Sink);
    PartKeys(ms, Summary);
    PartKeys(ms, Neutral);
    var none: seq<ModeledMethod> := [];
    assert none + f0 == f0 && none + t0 == t0;
    assert t == none + t0 + (t1 + t2 + t3);
    assert t == t0 + t1 + (t2 + t3);
    assert t == t0 + t1 + t2 + t3;
    assert t == t + none;
    KeysStep(none, f0, none, t0, t1 + t2 + t3, SignatureOf);
    KeysStep(f0, f1, t0, t1, t2 + t3, SignatureOf);
    KeysStep(f0 + f1, f2, t0 + t1, t2, t3, SignatureOf);
    KeysStep(f0 + f1 + f2, f3, t0 + t1 + t2, t3, none, SignatureOf);
  }

  lemma PartKeys(ms: seq<ModeledMethod>, part: ModelType)
    requires part != NoType
    ensures var t := ByType(ms);
      Keys(Filter(Flatten(Keys(t, SignatureOf), t, SignatureOf), TypeOf, part), SignatureOf) ==
      Pick(Keys(t, SignatureOf), Keys(Filter(ms, TypeOf, part), SignatureOf), [])
  {
    hide Filter, Keys, Flatten, Pick, ByType;
    var t := ByType(ms);
    var k := Keys(t, SignatureOf);
    FilterFlatten(k, t, SignatureOf, TypeOf, part);
    TypeOfByType(ms, part);
    KeysAreDistinct(t, SignatureOf);
    KeysOfFlatten(k, Filter(ms, TypeOf, part), SignatureOf);
  }

  lemma GroupsAreStable(ms: seq<ModeledMethod>, signature: string)
    requires signature in Keys(ByType(ms), SignatureOf)
    ensures var t := ByType(ms);
      Filter(ByType(Flatten(Keys(t, SignatureOf), t, SignatureOf)), SignatureOf, signature) ==
      Filter(t, SignatureOf, signature)
  {
    hide Filter, Keys, Flatten, ByType;
    var t := ByType(ms);
    var f := Flatten(Keys(t, SignatureOf), t, SignatureOf);
    FilterByType(f, SignatureOf, signature);
    KeysAreDistinct(t, SignatureOf);
    FilterOfFlatten(Keys(t, SignatureOf), t, SignatureOf, signature);
    FilterByType(t, SignatureOf, signature);
    ByTypeTwice(ms);
  }

  /** Loading after printing is idempotent, keys, groups and their order included. */
  lemma ReloadIsIdempotent(language: string, ms: seq<ModeledMethod>)
    ensures Reload(language, Values(Reload(language, ms))) == Reload(language, ms)
  {
    hide ByType, NormalizeAll, ReadAll, ExtensionsOf, Keys, Flatten, Filter, Normalize, Values, Reload, AllNormal;
    var n := NormalizeAll(ms);
    var t := ByType(n);
    var f := Flatten(Keys(t, SignatureOf), t, SignatureOf);
    ValuesOfReload(language, ms);
    NormalizeNormal(f);
    ReloadIsGrouped(language, f);
    KeysAreStable(n);
    forall k | k in Keys(t, SignatureOf)
      ensures Filter(ByType(f), SignatureOf, k) == Filter(t, SignatureOf, k)
    {
      GroupsAreStable(n, k);
    }
    assert Grouped(ByType(f)).entries == Grouped(t).entries;
  }

  lemma ReloadIsGrouped(language: string, ms: seq<ModeledMethod>)
    ensures Reload(language, ms) == Grouped(ByType(NormalizeAll(ms)))
  {
    hide ByType, NormalizeAll, ReadAll, ExtensionsOf, Grouped;
    ReadOfPrinted(language, ms);
  }

  /** Printing, loading and printing again gives a file that further rounds leave as it is. */
  lemma PrintingReachesFixpoint(language: string, ms: seq<ModeledMethod>)
    ensures var second := Values(Reload(language, ms));
      var third := Values(Reload(language, second));
      ExtensionsOf(language, third) == ExtensionsOf(language, second)
  {
    hide ExtensionsOf, Reload, Values;
    ReloadIsIdempotent(language, ms);
  }

  // ---------------------------------------------------------------------------
  // Missing values

  /** Nothing is missing that a row of its type carries. */
  predicate IsComplete(m: ModeledMethod) {
    && m.packageName != Null && m.typeName != Null && m.methodName != Null && m.methodParameters != Null
    && m.kind != Null && m.provenance != Null
    && (m.modelType in {Sink, Summary} ==> m.input != Null)
    && (m.modelType in {Source, Summary} ==> m.output != Null)
  }

  lemma CompleteRow(m: ModeledMethod)
    requires m.modelType != NoType
    ensures IsValidRow(GenerateRow(m.modelType, m)) <==> IsComplete(m)
  {
    var row := GenerateRow(m.modelType, m);
    if IsValidRow(row) {
      assert row[0] != Null && row[1] != Null && row[2] != Null && row[3] != Null && row[4] != Null && row[5] != Null;
      if m.modelType != Neutral {
        assert row[6] != Null && row[7] != Null && row[8] != Null;
        if m.modelType == Summary {
          assert row[9] != Null;
        }
      }
    }
  }

  lemma {:induction false} ValidRows(ms: seq<ModeledMethod>, t: ModelType)
    ensures |RowsOf(ms, t)| == |ms|
    ensures forall j | 0 <= j < |ms| :: RowsOf(ms, t)[j] == GenerateRow(t, ms[j])
    decreases |ms|
  {
    hide GenerateRow;
    if ms != [] {
      ValidRows(ms[..|ms| - 1], t);
    }
  }

  predicate AllComplete(ms: seq<ModeledMethod>, t: ModelType) {
    forall m | m in ms && m.modelType == t :: IsComplete(m)
  }

  predicate IsValidData(data: seq<Row>) {
    forall j | 0 <= j < |data| :: IsValidRow(data[j])
  }

  lemma {:induction false} FilterContains(ms: seq<ModeledMethod>, t: ModelType, m: ModeledMethod)
    ensures m in Filter(ms, TypeOf, t) <==> m in ms && m.modelType == t
    decreases |ms|
  {
    if ms != [] {
      FilterContains(ms[..|ms| - 1], t, m);
      assert ms == ms[..|ms| - 1] + [ms[|ms| - 1]];
    }
  }

  lemma ValidExtension(language: string, ms: seq<ModeledMethod>, t: ModelType)
    requires t != NoType
    ensures IsValidData(ExtensionOf(language, ms, t).data) <==> AllComplete(ms, t)
  {
    hide IsComplete, GenerateRow, Filter, RowsOf, IsValidRow;
    var group := Filter(ms, TypeOf, t);
    var data := ExtensionOf(language, ms, t).data;
    ValidRows(group, t);
    forall m
      ensures m in group <==> m in ms && m.modelType == t
    {
      FilterContains(ms, t, m);
    }
    forall j | 0 <= j < |group|
      ensures IsValidRow(data[j]) <==> IsComplete(group[j])
    {
      assert group[j] in group;
      CompleteRow(group[j]);
    }
    if IsValidData(data) {
      forall m | m in ms && m.modelType == t
        ensures IsComplete(m)
      {
        var j :| 0 <= j < |group| && group[j] == m;
        assert IsValidRow(data[j]);
      }
    }
  }

  /** A printed file can be loaded again if and only if no model in it misses a value that its row carries. */
  lemma PrintedFileLoads(language: string, ms: seq<ModeledMethod>)
    ensures IsValidFile(ExtensionsOf(language, ms)) <==>
            forall m | m in ms && m.modelType != NoType :: IsComplete(m)
  {
    hide IsComplete, ExtensionOf, IsValidRow;
    ValidExtension(language, ms, Source);
    ValidExtension(language, ms, Sink);
    ValidExtension(language, ms, Summary);
    ValidExtension(language, ms, Neutral);
    var file := ExtensionsOf(language, ms);
    assert file[0] == ExtensionOf(language, ms, Source) && file[1] == ExtensionOf(language, ms, Sink);
    assert file[2] == ExtensionOf(language, ms, Summary) && file[3] == ExtensionOf(language, ms, Neutral);
    ValidFour(file);
  }

  lemma ValidFour(file: seq<Extension>)
    requires |file| == 4
    ensures IsValidFile(file) <==>
            IsValidData(file[0].data) && IsValidData(file[1].data) &&
            IsValidData(file[2].data) && IsValidData(file[3].data)
  {
    hide IsValidRow;
  }

  function Width(t: ModelType): nat {
    match t case Source => 9 case Sink => 9 case Summary => 10 case Neutral => 6 case NoType => 0
  }

  /** A model read from a valid row is complete if and only if the row is not too short. */
  lemma LongRowsAreComplete(t: ModelType, row: Row)
    requires t != NoType && IsValidRow(row)
    ensures IsComplete(ReadRow(t, row)) <==> |row| >= Width(t)
  {
    hide SignatureFor;
  }
}
