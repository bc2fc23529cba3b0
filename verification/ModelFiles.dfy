/** Merging newly modeled methods into the existing ones of an extension pack, file by file, and printing the result
    (extensions/ql-vscode/src/model-editor/yaml.ts).

    Files are known by their names here; `ExtensionPacks` puts them on a disk. */
module ModelFiles {
  import opened Groups
  import opened DataExtensions
  import opened Wrappers

  /** A known method, as far as it decides which file its models go to. */
  datatype KnownMethod = KnownMethod(signature: string, library: string, packageName: string)

  type Models = Dict<seq<ModeledMethod>>

  // ---------------------------------------------------------------------------
  // Dictionaries

  ghost predicate IsDict<V>(d: Dict<V>) {
    Distinct(d.keys) && forall k :: k in d.keys <==> k in d.entries
  }

  function Empty<V>(): (d: Dict<V>)
    ensures IsDict(d)
  {
    Dict([], map[])
  }

  /** `d[k] = v` */
  function Put<V>(d: Dict<V>, k: string, v: V): (r: Dict<V>)
    ensures IsDict(d) ==> IsDict(r)
  {
    Dict(if k in d.entries then d.keys else d.keys + [k], d.entries[k := v])
  }

  function Lookup<V>(d: Dict<V>, k: string): Option<V> {
    if k in d.entries then Some(d.entries[k]) else None
  }

  // ---------------------------------------------------------------------------
  // What a save should write

  /** A known method with this signature belongs to the file and has new models. */
  ghost predicate Overridden(methods: seq<KnownMethod>, newModels: Models, fileOf: KnownMethod -> string,
                             file: string, signature: string)
  {
    && signature in newModels.entries
    && exists i :: 0 <= i < |methods| && methods[i].signature == signature && fileOf(methods[i]) == file
  }

  ghost predicate Written(methods: seq<KnownMethod>, newModels: Models, fileOf: KnownMethod -> string, file: string) {
    exists signature :: Overridden(methods, newModels, fileOf, file, signature)
  }

  function ExistingEntry(existing: Dict<Models>, file: string, signature: string): Option<seq<ModeledMethod>> {
    if file in existing.entries then Lookup(existing.entries[file], signature) else None
  }

  /** The models of a signature in a file after a save. */
  ghost function MergedEntry(methods: seq<KnownMethod>, newModels: Models, existing: Dict<Models>,
                             fileOf: KnownMethod -> string, file: string, signature: string): Option<seq<ModeledMethod>>
  {
    if Overridden(methods, newModels, fileOf, file, signature) then Some(newModels.entries[signature])
    else ExistingEntry(existing, file, signature)
  }

  /** The files with new models, in the order in which the methods give rise to them. */
  function FileNames(methods: seq<KnownMethod>, newModels: Models, fileOf: KnownMethod -> string): seq<string> {
    if methods == [] then []
    else
      var front, m := FileNames(methods[..|methods| - 1], newModels, fileOf), methods[|methods| - 1];
      if m.signature in newModels.entries && fileOf(m) !in front then front + [fileOf(m)] else front
  }

  lemma FileNamesPush(methods: seq<KnownMethod>, m: KnownMethod, newModels: Models, fileOf: KnownMethod -> string)
    ensures var front := FileNames(methods, newModels, fileOf);
      FileNames(methods + [m], newModels, fileOf) ==
      if m.signature in newModels.entries && fileOf(m) !in front then front + [fileOf(m)] else front
  {
    assert (methods + [m])[..|methods|] == methods;
  }

  /** The merged files: exactly those with new models, in this order, each with the merged entries. */
  ghost predicate IsMerge(merged: Dict<Models>, methods: seq<KnownMethod>, newModels: Models, existing: Dict<Models>,
                          fileOf: KnownMethod -> string)
  {
    && IsDict(merged) && merged.keys == FileNames(methods, newModels, fileOf)
    && (forall f :: f in merged.entries <==> Written(methods, newModels, fileOf, f))
    && forall f | f in merged.entries ::
         IsDict(merged.entries[f]) &&
         forall s :: Lookup(merged.entries[f], s) == MergedEntry(methods, newModels, existing, fileOf, f, s)
  }

  // ---------------------------------------------------------------------------
  // The three loops of the merge

  lemma OverriddenStep(methods: seq<KnownMethod>, m: KnownMethod, newModels: Models, fileOf: KnownMethod -> string,
                       file: string, signature: string)
    ensures Overridden(methods + [m], newModels, fileOf, file, signature) <==>
            || Overridden(methods, newModels, fileOf, file, signature)
            || (signature in newModels.entries && m.signature == signature && fileOf(m) == file)
  {
    var longer := methods + [m];
    if signature in newModels.entries && m.signature == signature && fileOf(m) == file {
      assert longer[|methods|] == m;
    }
    if Overridden(methods, newModels, fileOf, file, signature) {
      var i :| 0 <= i < |methods| && methods[i].signature == signature && fileOf(methods[i]) == file;
      assert longer[i] == methods[i];
    }
    if Overridden(longer, newModels, fileOf, file, signature) {
      var i :| 0 <= i < |longer| && longer[i].signature == signature && fileOf(longer[i]) == file;
      if i < |methods| {
        assert methods[i] == longer[i];
      }
    }
  }

  lemma WrittenStep(methods: seq<KnownMethod>, m: KnownMethod, newModels: Models, fileOf: KnownMethod -> string,
                    file: string)
    ensures Written(methods + [m], newModels, fileOf, file) <==>
            || Written(methods, newModels, fileOf, file)
            || (m.signature in newModels.entries && fileOf(m) == file)
  {
    hide Overridden;
    if s :| Overridden(methods + [m], newModels, fileOf, file, s) {
      OverriddenStep(methods, m, newModels, fileOf, file, s);
    }
    if s :| Overridden(methods, newModels, fileOf, file, s) {
      OverriddenStep(methods, m, newModels, fileOf, file, s);
    }
    OverriddenStep(methods, m, newModels, fileOf, file, m.signature);
  }

  lemma NoneWritten(newModels: Models, fileOf: KnownMethod -> string, file: string, signature: string)
    ensures !Written([], newModels, fileOf, file) && !Overridden([], newModels, fileOf, file, signature)
  {
  }

  /** These are exactly the names of the written files. */
  lemma {:induction false} WrittenIsNamed(methods: seq<KnownMethod>, newModels: Models, fileOf: KnownMethod -> string,
                                          file: string)
    ensures Written(methods, newModels, fileOf, file) <==> file in FileNames(methods, newModels, fileOf)
    decreases |methods|
  {
    hide Written;
    if methods == [] {
      NoneWritten(newModels, fileOf, file, "");
    } else {
      var front, m := methods[..|methods| - 1], methods[|methods| - 1];
      assert methods == front + [m];
      WrittenIsNamed(front, newModels, fileOf, file);
      WrittenStep(front, m, newModels, fileOf, file);
      FileNamesPush(front, m, newModels, fileOf);
    }
  }

  /** The first method with new models that belongs to its file */
  predicate Introduces(methods: seq<KnownMethod>, newModels: Models, fileOf: KnownMethod -> string, i: nat) {
    && i < |methods| && methods[i].signature in newModels.entries
    && forall j | 0 <= j < i && methods[j].signature in newModels.entries :: fileOf(methods[j]) != fileOf(methods[i])
  }

  /** The names of the written files come in the order of the methods that introduce them. */
  lemma {:induction false} NameIsIntroduced(methods: seq<KnownMethod>, newModels: Models,
                                            fileOf: KnownMethod -> string, a: nat) returns (i: nat)
    requires a < |FileNames(methods, newModels, fileOf)|
    ensures Introduces(methods, newModels, fileOf, i)
    ensures fileOf(methods[i]) == FileNames(methods, newModels, fileOf)[a]
    decreases |methods|
  {
    var n := |methods| - 1;
    var front := methods[..n];
    if a < |FileNames(front, newModels, fileOf)| {
      i := NameIsIntroduced(front, newModels, fileOf, a);
    } else {
      i := n;
      LastIntroduces(methods, newModels, fileOf);
    }
  }

  lemma LastIntroduces(methods: seq<KnownMethod>, newModels: Models, fileOf: KnownMethod -> string)
    requires methods != [] && methods[|methods| - 1].signature in newModels.entries
    requires fileOf(methods[|methods| - 1]) !in FileNames(methods[..|methods| - 1], newModels, fileOf)
    ensures Introduces(methods, newModels, fileOf, |methods| - 1)
  {
    hide FileNames;
    var n := |methods| - 1;
    forall j | 0 <= j < n && methods[j].signature in newModels.entries
      ensures fileOf(methods[j]) != fileOf(methods[n])
    {
      assert methods[..n][j] == methods[j];
      WrittenByMember(methods[..n], j, newModels, fileOf);
      WrittenIsNamed(methods[..n], newModels, fileOf, fileOf(methods[j]));
    }
  }

  lemma {:induction false} NamesInOrder(methods: seq<KnownMethod>, newModels: Models, fileOf: KnownMethod -> string,
                                        a: nat, b: nat) returns (i: nat, j: nat)
    requires a < b < |FileNames(methods, newModels, fileOf)|
    ensures i < j && Introduces(methods, newModels, fileOf, i) && Introduces(methods, newModels, fileOf, j)
    ensures fileOf(methods[i]) == FileNames(methods, newModels, fileOf)[a]
    ensures fileOf(methods[j]) == FileNames(methods, newModels, fileOf)[b]
    decreases |methods|
  {
    var n := |methods| - 1;
    var front := methods[..n];
    if b < |FileNames(front, newModels, fileOf)| {
      i, j := NamesInOrder(front, newModels, fileOf, a, b);
    } else {
      i := NameIsIntroduced(front, newModels, fileOf, a);
      j := n;
      LastIntroduces(methods, newModels, fileOf);
    }
  }

  /** First loop: an empty dictionary for every file that will be written. */
  method EmptyFiles(methods: seq<KnownMethod>, newModels: Models, fileOf: KnownMethod -> string)
    returns (byFile: Dict<Models>)
    ensures IsDict(byFile) && byFile.keys == FileNames(methods, newModels, fileOf)
    ensures forall f :: f in byFile.entries <==> Written(methods, newModels, fileOf, f)
    ensures forall f | f in byFile.entries :: byFile.entries[f] == Empty()
  {
    hide Written;
    byFile := Empty();
    forall f
      ensures !Written([], newModels, fileOf, f)
    {
      NoneWritten(newModels, fileOf, f, "");
    }
    for n := 0 to |methods|
      invariant IsDict(byFile) && byFile.keys == FileNames(methods[..n], newModels, fileOf)
      invariant forall f :: f in byFile.entries <==> Written(methods[..n], newModels, fileOf, f)
      invariant forall f | f in byFile.entries :: byFile.entries[f] == Empty()
    {
      assert methods[..n + 1] == methods[..n] + [methods[n]];
      FileNamesPush(methods[..n], methods[n], newModels, fileOf);
      forall f
        ensures Written(methods[..n + 1], newModels, fileOf, f) <==>
                || Written(methods[..n], newModels, fileOf, f)
                || (methods[n].signature in newModels.entries && fileOf(methods[n]) == f)
      {
        WrittenStep(methods[..n], methods[n], newModels, fileOf, f);
      }
      if methods[n].signature in newModels.entries {
        byFile := Put(byFile, fileOf(methods[n]), Empty());
      }
    }
    assert methods[..|methods|] == methods;
  }

  /** The inner part of the second loop: copying one dictionary into an empty one, key by key. */
  method CopyEntries(source: Models) returns (copy: Models)
    requires IsDict(source)
    ensures copy == source
  {
    hide IsDict, Copied;
    copy := Empty();
    NothingCopied(source);
    for j := 0 to |source.keys|
      invariant Copied(copy, source, j)
    {
      var signature := source.keys[j];
      CopyOne(copy, source, j);
      copy := Put(copy, signature, source.entries[signature]);
    }
    AllCopied(copy, source);
  }

  /** The first `n` entries are copied. */
  ghost predicate Copied(copy: Models, source: Models, n: nat) {
    && n <= |source.keys| && IsDict(copy) && copy.keys == source.keys[..n]
    && forall k | k in copy.entries :: k in source.entries && copy.entries[k] == source.entries[k]
  }

  lemma NothingCopied(source: Models)
    ensures Copied(Empty(), source, 0)
  {
  }

  lemma CopyOne(copy: Models, source: Models, n: nat)
    requires IsDict(source) && Copied(copy, source, n) && n < |source.keys|
    ensures source.keys[n] in source.entries
    ensures Copied(Put(copy, source.keys[n], source.entries[source.keys[n]]), source, n + 1)
  {
    var k := source.keys[n];
    assert k !in copy.keys;
    assert source.keys[..n + 1] == source.keys[..n] + [k];
  }

  lemma AllCopied(copy: Models, source: Models)
    requires IsDict(source) && Copied(copy, source, |source.keys|)
    ensures copy == source
  {
    assert source.keys[..|source.keys|] == source.keys;
    assert copy.entries == source.entries;
  }

  /** Second loop: the existing models of the files that will be written. */
  method AddExisting(byFile: Dict<Models>, existing: Dict<Models>) returns (result: Dict<Models>)
    requires IsDict(byFile) && IsDict(existing)
    requires forall f | f in byFile.entries :: byFile.entries[f] == Empty()
    requires forall f | f in existing.entries :: IsDict(existing.entries[f])
    ensures IsDict(result) && result.keys == byFile.keys && result.entries.Keys == byFile.entries.Keys
    ensures forall f | f in result.entries :: IsDict(result.entries[f])
    ensures forall f | f in result.entries ::
              result.entries[f] == if f in existing.entries then existing.entries[f] else Empty()
  {
    result := byFile;
    for i := 0 to |existing.keys|
      invariant IsDict(result) && result.keys == byFile.keys && result.entries.Keys == byFile.entries.Keys
      invariant forall f | f in result.entries ::
                  result.entries[f] == if f in existing.keys[..i] then existing.entries[f] else Empty()
    {
      var filename := existing.keys[i];
      assert filename in existing.keys;
      if filename in result.entries {
        var copy := CopyEntries(existing.entries[filename]);
        result := Put(result, filename, copy);
      }
      assert forall f :: f in existing.keys[..i + 1] <==> f in existing.keys[..i] || f == filename;
    }
    assert existing.keys[..|existing.keys|] == existing.keys;
  }

  /** The files hold the entries that the first methods of the list give rise to. */
  ghost predicate HoldsEntries(merged: Dict<Models>, methods: seq<KnownMethod>, newModels: Models,
                               existing: Dict<Models>, fileOf: KnownMethod -> string)
  {
    && IsDict(merged)
    && forall f | f in merged.entries ::
         IsDict(merged.entries[f]) &&
         forall s :: Lookup(merged.entries[f], s) == MergedEntry(methods, newModels, existing, fileOf, f, s)
  }

  lemma HoldsStep(merged: Dict<Models>, methods: seq<KnownMethod>, m: KnownMethod, newModels: Models,
                  existing: Dict<Models>, fileOf: KnownMethod -> string)
    requires HoldsEntries(merged, methods, newModels, existing, fileOf)
    requires m.signature in newModels.entries ==> fileOf(m) in merged.entries
    ensures var after :=
              if m.signature in newModels.entries then
                Put(merged, fileOf(m), Put(merged.entries[fileOf(m)], m.signature, newModels.entries[m.signature]))
              else merged;
            HoldsEntries(after, methods + [m], newModels, existing, fileOf)
  {
    hide Overridden, ExistingEntry;
    var after :=
      if m.signature in newModels.entries then
        Put(merged, fileOf(m), Put(merged.entries[fileOf(m)], m.signature, newModels.entries[m.signature]))
      else merged;
    forall f | f in after.entries
      ensures IsDict(after.entries[f])
      ensures forall s :: Lookup(after.entries[f], s) == MergedEntry(methods + [m], newModels, existing, fileOf, f, s)
    {
      forall s
        ensures Lookup(after.entries[f], s) == MergedEntry(methods + [m], newModels, existing, fileOf, f, s)
      {
        OverriddenStep(methods, m, newModels, fileOf, f, s);
        assert f in merged.entries;
        assert Lookup(merged.entries[f], s) == MergedEntry(methods, newModels, existing, fileOf, f, s);
      }
    }
  }

  lemma HoldsAtFirst(byFile: Dict<Models>, newModels: Models, existing: Dict<Models>, fileOf: KnownMethod -> string)
    requires IsDict(byFile)
    requires forall f | f in byFile.entries :: IsDict(byFile.entries[f])
    requires forall f, s | f in byFile.entries :: Lookup(byFile.entries[f], s) == ExistingEntry(existing, f, s)
    ensures HoldsEntries(byFile, [], newModels, existing, fileOf)
  {
    hide ExistingEntry;
    forall f, s
      ensures !Overridden([], newModels, fileOf, f, s)
    {
      NoneWritten(newModels, fileOf, f, s);
    }
  }

  /** Third loop: the new models, which override the existing ones of the same signature in the same file. */
  method AddNew(byFile: Dict<Models>, methods: seq<KnownMethod>, newModels: Models, existing: Dict<Models>,
                fileOf: KnownMethod -> string) returns (merged: Dict<Models>)
    requires IsDict(byFile) && byFile.keys == FileNames(methods, newModels, fileOf)
    requires forall f :: f in byFile.entries <==> Written(methods, newModels, fileOf, f)
    requires forall f | f in byFile.entries :: IsDict(byFile.entries[f])
    requires forall f, s | f in byFile.entries :: Lookup(byFile.entries[f], s) == ExistingEntry(existing, f, s)
    ensures IsMerge(merged, methods, newModels, existing, fileOf)
  {
    HoldsAtFirst(byFile, newModels, existing, fileOf);
    hide Written, Overridden, ExistingEntry, HoldsEntries, IsDict;
    merged := byFile;
    for n := 0 to |methods|
      invariant merged.keys == byFile.keys && merged.entries.Keys == byFile.entries.Keys
      invariant HoldsEntries(merged, methods[..n], newModels, existing, fileOf)
    {
      var m := methods[n];
      assert methods[..n + 1] == methods[..n] + [m];
      if m.signature in newModels.entries {
        WrittenByMember(methods, n, newModels, fileOf);
        assert fileOf(m) in byFile.entries;
      }
      HoldsStep(merged, methods[..n], m, newModels, existing, fileOf);
      if m.signature in newModels.entries {
        var filename := fileOf(m);
        var entries := Put(merged.entries[filename], m.signature, newModels.entries[m.signature]);
        merged := Put(merged, filename, entries);
      }
    }
    assert methods[..|methods|] == methods;
    HoldsIsMerge(merged, byFile, methods, newModels, existing, fileOf);
  }

  lemma HoldsIsMerge(merged: Dict<Models>, byFile: Dict<Models>, methods: seq<KnownMethod>, newModels: Models,
                     existing: Dict<Models>, fileOf: KnownMethod -> string)
    requires HoldsEntries(merged, methods, newModels, existing, fileOf)
    requires merged.keys == byFile.keys == FileNames(methods, newModels, fileOf)
    requires merged.entries.Keys == byFile.entries.Keys
    requires forall f :: f in byFile.entries <==> Written(methods, newModels, fileOf, f)
    ensures IsMerge(merged, methods, newModels, existing, fileOf)
  {
    hide Written, MergedEntry;
    assert forall f :: f in merged.entries <==> f in byFile.entries;
  }

  lemma WrittenByMember(methods: seq<KnownMethod>, n: nat, newModels: Models, fileOf: KnownMethod -> string)
    requires n < |methods| && methods[n].signature in newModels.entries
    ensures Written(methods, newModels, fileOf, fileOf(methods[n]))
  {
    assert Overridden(methods, newModels, fileOf, fileOf(methods[n]), methods[n].signature);
  }

  // ---------------------------------------------------------------------------
  // Saving

  /** The files that the merged models are printed to. */
  ghost predicate IsPrinted(files: Dict<seq<Extension>>, language: string, merged: Dict<Models>) {
    && files.keys == merged.keys && files.entries.Keys == merged.entries.Keys && IsDict(files)
    && forall f | f in files.entries ::
         && HasValues(merged.entries[f])
         && files.entries[f] == ExtensionsOf(language, Values(merged.entries[f]))
  }

  /** The first `n` files are printed. */
  ghost predicate ArePrinted(files: Dict<seq<Extension>>, language: string, merged: Dict<Models>, n: nat) {
    && n <= |merged.keys| && IsDict(files) && files.keys == merged.keys[..n]
    && forall f | f in files.entries ::
         && f in merged.entries && HasValues(merged.entries[f])
         && files.entries[f] == ExtensionsOf(language, Values(merged.entries[f]))
  }

  lemma PrintOne(files: Dict<seq<Extension>>, language: string, merged: Dict<Models>, n: nat)
    requires ArePrinted(files, language, merged, n) && n < |merged.keys|
    requires IsDict(merged) && HasValues(merged.entries[merged.keys[n]])
    ensures ArePrinted(Put(files, merged.keys[n], ExtensionsOf(language, Values(merged.entries[merged.keys[n]]))),
                       language, merged, n + 1)
  {
    hide ExtensionsOf, Values, HasValues;
    var f := merged.keys[n];
    assert f !in files.keys;
    assert merged.keys[..n + 1] == merged.keys[..n] + [f];
  }

  lemma AllPrinted(files: Dict<seq<Extension>>, language: string, merged: Dict<Models>)
    requires IsDict(merged) && ArePrinted(files, language, merged, |merged.keys|)
    ensures IsPrinted(files, language, merged)
  {
    hide ExtensionsOf, Values, HasValues;
    assert merged.keys[..|merged.keys|] == merged.keys;
    assert forall f :: f in files.entries <==> f in merged.entries;
  }

  /** Last loop: printing. */
  method PrintFiles(language: string, merged: Dict<Models>) returns (files: Dict<seq<Extension>>)
    requires IsDict(merged) && forall f | f in merged.entries :: IsDict(merged.entries[f])
    ensures IsPrinted(files, language, merged)
  {
    hide ExtensionsOf, Values, ArePrinted, IsPrinted, Put;
    files := Empty();
    NonePrinted(language, merged);
    for i := 0 to |merged.keys|
      invariant ArePrinted(files, language, merged, i)
    {
      var filename := merged.keys[i];
      assert filename in merged.keys;
      assert HasValues(merged.entries[filename]);
      var extensions := CreateDataExtension(language, Values(merged.entries[filename]));
      PrintOne(files, language, merged, i);
      files := Put(files, filename, extensions);
    }
    AllPrinted(files, language, merged);
  }

  lemma NonePrinted(language: string, merged: Dict<Models>)
    ensures ArePrinted(Empty(), language, merged, 0)
  {
  }

  /** `createDataExtensionYamlsByGrouping`: the files to write, and the merged models they are made from */
  method CreateFiles(language: string, methods: seq<KnownMethod>, newModels: Models, existing: Dict<Models>,
                     fileOf: KnownMethod -> string)
    returns (files: Dict<seq<Extension>>, merged: Dict<Models>)
    requires IsDict(existing) && forall f | f in existing.entries :: IsDict(existing.entries[f])
    ensures IsMerge(merged, methods, newModels, existing, fileOf)
    ensures IsPrinted(files, language, merged)
  {
    hide MergedEntry, Written, IsPrinted;
    var byFile := EmptyFiles(methods, newModels, fileOf);
    byFile := AddExisting(byFile, existing);
    EntriesAreExisting(byFile, existing);
    merged := AddNew(byFile, methods, newModels, existing, fileOf);
    files := PrintFiles(language, merged);
  }

  predicate HasValues(d: Models) {
    forall k | k in d.keys :: k in d.entries
  }

  lemma EntriesAreExisting(byFile: Dict<Models>, existing: Dict<Models>)
    requires forall f | f in byFile.entries ::
               byFile.entries[f] == if f in existing.entries then existing.entries[f] else Empty()
    ensures forall f, s | f in byFile.entries :: Lookup(byFile.entries[f], s) == ExistingEntry(existing, f, s)
  {
  }

  // ---------------------------------------------------------------------------
  // Reloading what was saved

  /** Every model is filed under the signature that belongs to its fields. */
  predicate Keyed(d: Models) {
    forall k, m | k in d.entries && m in d.entries[k] :: Normalize(m).signature == k
  }

  /** What a list of models for one signature looks like after it has been printed and loaded. */
  function Reloaded(ms: seq<ModeledMethod>): Option<seq<ModeledMethod>> {
    var r := ByType(NormalizeAll(ms));
    if r == [] then None else Some(r)
  }

  function OrNothing(e: Option<seq<ModeledMethod>>): seq<ModeledMethod> {
    if e.Some? then e.value else []
  }

  lemma {:induction false} NormalizeAllSplit(a: seq<ModeledMethod>, b: seq<ModeledMethod>)
    ensures NormalizeAll(a + b) == NormalizeAll(a) + NormalizeAll(b)
    decreases |b|
  {
    hide Normalize;
    if b == [] {
      assert a + b == a;
    } else {
      assert (a + b)[..|a + b| - 1] == a + b[..|b| - 1];
      NormalizeAllSplit(a, b[..|b| - 1]);
    }
  }

  lemma {:induction false} FilterOfGroup(ms: seq<ModeledMethod>, k: string, s: string)
    requires forall m | m in ms :: Normalize(m).signature == k
    ensures Filter(NormalizeAll(ms), SignatureOf, s) == if s == k then NormalizeAll(ms) else []
    decreases |ms|
  {
    hide Normalize;
    if ms != [] {
      var front, m := ms[..|ms| - 1], ms[|ms| - 1];
      assert m in ms;
      FilterOfGroup(front, k, s);
      FilterPush(NormalizeAll(front), SignatureOf, Normalize(m), s);
    }
  }

  lemma {:induction false} FilterOfValues(d: Models, s: string)
    requires Distinct(d.keys) && HasValues(d) && Keyed(d)
    ensures Filter(NormalizeAll(Values(d)), SignatureOf, s) == if s in d.keys then NormalizeAll(d.entries[s]) else []
    decreases |d.keys|
  {
    hide Normalize, Filter, SignatureOf;
    if d.keys != [] {
      var front, last := d.keys[..|d.keys| - 1], d.keys[|d.keys| - 1];
      var d' := d.(keys := front);
      assert last in d.keys && d.keys == front + [last];
      FilterOfValues(d', s);
      ValuesStep(d, s);
    } else {
      NoFilter(s);
    }
  }

  lemma NoFilter(s: string)
    ensures Filter([], SignatureOf, s) == []
  {
  }

  lemma ValuesStep(d: Models, s: string)
    requires d.keys != [] && HasValues(d) && Keyed(d)
    ensures var front, last := d.keys[..|d.keys| - 1], d.keys[|d.keys| - 1];
      Filter(NormalizeAll(Values(d)), SignatureOf, s) ==
      Filter(NormalizeAll(Values(d.(keys := front))), SignatureOf, s) +
      (if s == last then NormalizeAll(d.entries[last]) else [])
  {
    hide Normalize, Filter, SignatureOf, NormalizeAll;
    var front, last := d.keys[..|d.keys| - 1], d.keys[|d.keys| - 1];
    assert last in d.keys;
    NormalizeAllSplit(Values(d.(keys := front)), d.entries[last]);
    FilterSplit(NormalizeAll(Values(d.(keys := front))), NormalizeAll(d.entries[last]), SignatureOf, s);
    FilterOfGroup(d.entries[last], last, s);
  }

  /** After printing and loading a dictionary, every signature has its own models, in their normal form. */
  lemma ReloadEntry(language: string, d: Models, s: string)
    requires IsDict(d) && Keyed(d)
    ensures Lookup(Reload(language, Values(d)), s) == Reloaded(OrNothing(Lookup(d, s)))
  {
    hide Filter, ByType, NormalizeAll, Normalize, Reload, Values, Keyed;
    FilterOfValues(d, s);
    ReloadKeepsModels(language, Values(d), s);
    NothingNormalized();
  }

  lemma NothingNormalized()
    ensures NormalizeAll([]) == [] && ByType([]) == []
  {
  }

  lemma {:induction false} ReadIsTyped(t: ModelType, rows: seq<Row>)
    requires t != NoType
    ensures forall m | m in ReadRows(t, rows) :: Normalize(m) == m && m.modelType != NoType
    decreases |rows|
  {
    hide Normalize, ReadRow;
    if rows != [] {
      ReadIsTyped(t, rows[..|rows| - 1]);
      ReadIsNormal(t, rows[|rows| - 1]);
    }
  }

  lemma {:induction false} LoadedIsTyped(extensions: seq<Extension>)
    ensures forall m | m in ReadAll(extensions) :: Normalize(m) == m && m.modelType != NoType
    decreases |extensions|
  {
    hide Normalize, ReadRows, PredicateFor;
    if extensions != [] {
      LoadedIsTyped(extensions[..|extensions| - 1]);
      var e := extensions[|extensions| - 1];
      if PredicateFor(e.extensible) != NoType {
        ReadIsTyped(PredicateFor(e.extensible), e.data);
      }
    }
  }

  /** A loaded dictionary is well formed and keyed, and holds only models in normal form. */
  lemma LoadedIsKeyed(extensions: seq<Extension>)
    ensures var d := Grouped(ReadAll(extensions));
      && IsDict(d) && Keyed(d)
      && forall k, m | k in d.entries && m in d.entries[k] :: Normalize(m) == m && m.modelType != NoType
  {
    hide Normalize, ReadAll, Keys, Filter;
    var ms := ReadAll(extensions);
    var d := Grouped(ms);
    KeysAreDistinct(ms, SignatureOf);
    LoadedIsTyped(extensions);
    forall k, m | k in d.entries && m in d.entries[k]
      ensures Normalize(m) == m && m.modelType != NoType && m.signature == k
    {
      var i :| 0 <= i < |Filter(ms, SignatureOf, k)| && Filter(ms, SignatureOf, k)[i] == m;
      FilterHasKey(ms, SignatureOf, k, i);
      assert SignatureOf(m) == k;
    }
  }

  lemma {:induction false} ByTypeKeepsAll(ms: seq<ModeledMethod>)
    requires forall m | m in ms :: m.modelType != NoType
    ensures multiset(ByType(ms)) == multiset(ms)
    decreases |ms|
  {
    hide Filter;
    if ms == [] {
      NothingNormalized();
    } else {
      var front, m := ms[..|ms| - 1], ms[|ms| - 1];
      assert ms == front + [m] && m in ms;
      ByTypeKeepsAll(front);
      ByTypePush(front, m);
    }
  }

  lemma ByTypePush(ms: seq<ModeledMethod>, m: ModeledMethod)
    requires m.modelType != NoType
    ensures multiset(ByType(ms + [m])) == multiset(ByType(ms)) + multiset{m}
  {
    hide Filter;
    TypesPush(ms, m);
  }

  /** A save loses no existing model: if a signature is not overridden in its file, its loaded models are, up to
      their order, the same after the file has been rewritten. */
  lemma ExistingModelsSurvive(extensions: seq<Extension>, s: string)
    requires s in Grouped(ReadAll(extensions)).entries
    ensures var before := Grouped(ReadAll(extensions)).entries[s];
      var after := Reloaded(before);
      after.Some? && multiset(after.value) == multiset(before)
  {
    hide Normalize, ReadAll, Keys, Filter, ByType;
    var ms := ReadAll(extensions);
    var before := Grouped(ms).entries[s];
    LoadedIsKeyed(extensions);
    NormalizeNormal(before);
    ByTypeKeepsAll(before);
    KeysAreComplete(ms, SignatureOf, s);
    assert |multiset(ByType(before))| == |ByType(before)|;
    assert |multiset(before)| == |before|;
  }

  /** `push(...value)` for every entry of a dictionary: the keys that are new come last. */
  function Appended(d: Models, added: Models, n: nat): Models
    requires n <= |added.keys| && forall s | s in added.keys :: s in added.entries
  {
    var keys := d.keys + Pick(added.keys[..n], added.keys, d.keys);
    Dict(keys, map s | s in keys ::
      OrNothing(Lookup(d, s)) + (if s in added.keys[..n] then added.entries[s] else []))
  }

  lemma NothingAppended(d: Models, added: Models)
    requires IsDict(d) && IsDict(added)
    ensures Appended(d, added, 0) == d
  {
    forall s | s in d.entries
      ensures Appended(d, added, 0).entries[s] == d.entries[s]
    {
      assert s !in added.keys[..0];
    }
  }

  /** One round of the inner loop of `loadModeledMethods` */
  function AppendEntry(d: Models, s: string, models: seq<ModeledMethod>): Models {
    Put(d, s, OrNothing(Lookup(d, s)) + models)
  }

  lemma AppendedKeys(d: Models, added: Models, n: nat)
    requires IsDict(d) && IsDict(added) && n < |added.keys|
    ensures var s := added.keys[n];
      && s !in added.keys[..n]
      && (s in Appended(d, added, n).keys <==> s in d.keys)
      && Appended(d, added, n + 1).keys == Appended(d, added, n).keys + (if s in d.keys then [] else [s])
  {
    hide Pick;
    var s := added.keys[n];
    assert added.keys[..n + 1] == added.keys[..n] + [s] && s in added.keys;
    PickSplit(added.keys[..n], [s], added.keys, d.keys);
    PickOne(s, added.keys, d.keys);
    PickMember(added.keys[..n], added.keys, d.keys, s);
  }

  lemma AppendedEntry(d: Models, added: Models, n: nat, k: string)
    requires IsDict(added) && n <= |added.keys|
    ensures var r := Appended(d, added, n);
      && (k in r.entries <==> k in r.keys)
      && (k in r.entries ==>
            r.entries[k] == OrNothing(Lookup(d, k)) + (if k in added.keys[..n] then added.entries[k] else []))
  {
    hide Pick, Distinct;
  }

  lemma AppendOne(d: Models, added: Models, n: nat)
    requires IsDict(d) && IsDict(added) && n < |added.keys|
    ensures Appended(d, added, n + 1) ==
            AppendEntry(Appended(d, added, n), added.keys[n], added.entries[added.keys[n]])
  {
    hide Appended, Distinct, Lookup;
    var s := added.keys[n];
    var before, after := Appended(d, added, n), Appended(d, added, n + 1);
    var next := AppendEntry(before, s, added.entries[s]);
    AppendedKeys(d, added, n);
    assert added.keys[..n + 1] == added.keys[..n] + [s];
    AppendedEntry(d, added, n, s);
    NoEntry(d, s);
    forall k
      ensures k in after.entries <==> k in next.entries
      ensures k in after.entries ==> after.entries[k] == next.entries[k]
    {
      AppendedEntry(d, added, n, k);
      AppendedEntry(d, added, n + 1, k);
      LookupEntry(before, s);
    }
    assert after.entries == next.entries;
  }

  lemma NoEntry(d: Models, s: string)
    requires IsDict(d)
    ensures s !in d.keys ==> Lookup(d, s) == None
  {
  }

  lemma LookupEntry(d: Models, s: string)
    ensures OrNothing(Lookup(d, s)) == if s in d.entries then d.entries[s] else []
  {
  }

  method AppendEntries(existing: Models, added: Models) returns (result: Models)
    requires IsDict(existing) && IsDict(added)
    ensures result == Appended(existing, added, |added.keys|)
  {
    hide Appended;
    result := existing;
    NothingAppended(existing, added);
    for j := 0 to |added.keys|
      invariant result == Appended(existing, added, j)
    {
      var key := added.keys[j];
      assert key in added.keys;
      AppendOne(existing, added, j);
      PutInTwoSteps(result, key, added.entries[key]);
      if key !in result.entries {
        result := Put(result, key, []);
      }
      result := Put(result, key, result.entries[key] + added.entries[key]);
    }
  }

  lemma PutInTwoSteps(d: Models, k: string, models: seq<ModeledMethod>)
    ensures var d1 := if k in d.entries then d else Put(d, k, []);
      Put(d1, k, d1.entries[k] + models) == AppendEntry(d, k, models)
  {
    if k !in d.entries {
      var none: seq<ModeledMethod> := [];
      assert none + models == models;
      assert d.entries[k := none][k := models] == d.entries[k := models];
    }
  }

  lemma GroupedIsDict(ms: seq<ModeledMethod>)
    ensures IsDict(Grouped(ms))
  {
    hide Keys, Filter;
    KeysAreDistinct(ms, SignatureOf);
  }

  /** Grouping a concatenation is appending the groups. */
  lemma GroupedAppend(a: seq<ModeledMethod>, b: seq<ModeledMethod>)
    ensures IsDict(Grouped(b))
    ensures Grouped(a + b) == Appended(Grouped(a), Grouped(b), |Grouped(b).keys|)
  {
    hide Keys, Filter, Pick;
    GroupedIsDict(b);
    KeysSplit(a, b, SignatureOf);
    var all, d, e := Grouped(a + b), Grouped(a), Grouped(b);
    assert e.keys[..|e.keys|] == e.keys;
    forall s | s in all.entries
      ensures all.entries[s] == Appended(d, e, |e.keys|).entries[s]
    {
      FilterSplit(a, b, SignatureOf, s);
      KeysAreComplete(a, SignatureOf, s);
      KeysAreComplete(b, SignatureOf, s);
    }
  }

  ghost predicate AllMergedComplete(methods: seq<KnownMethod>, newModels: Models, existing: Dict<Models>,
                                    fileOf: KnownMethod -> string, file: string)
  {
    forall s, m | m in OrNothing(MergedEntry(methods, newModels, existing, fileOf, file, s)) && m.modelType != NoType ::
      IsComplete(m)
  }

  lemma {:induction false} ValuesMembers(d: Models, m: ModeledMethod)
    requires HasValues(d)
    ensures m in Values(d) <==> exists k :: k in d.keys && m in d.entries[k]
    decreases |d.keys|
  {
    if d.keys != [] {
      var front, last := d.keys[..|d.keys| - 1], d.keys[|d.keys| - 1];
      assert d.keys == front + [last];
      ValuesMembers(d.(keys := front), m);
    }
  }

  lemma MergedFileLoads(language: string, merged: Dict<Models>, methods: seq<KnownMethod>, newModels: Models,
                        existing: Dict<Models>, fileOf: KnownMethod -> string, f: string)
    requires IsMerge(merged, methods, newModels, existing, fileOf) && f in merged.entries
    requires HasValues(merged.entries[f])
    ensures IsValidFile(ExtensionsOf(language, Values(merged.entries[f]))) <==>
            AllMergedComplete(methods, newModels, existing, fileOf, f)
  {
    hide ExtensionsOf, Values, IsValidFile, IsComplete, MergedEntry, Written, Distinct;
    var d := merged.entries[f];
    PrintedFileLoads(language, Values(d));
    forall m
      ensures m in Values(d) <==>
              exists s :: m in OrNothing(MergedEntry(methods, newModels, existing, fileOf, f, s))
    {
      ValuesMembers(d, m);
      forall s
        ensures m in OrNothing(MergedEntry(methods, newModels, existing, fileOf, f, s)) <==>
                s in d.keys && m in d.entries[s]
      {
        assert Lookup(d, s) == MergedEntry(methods, newModels, existing, fileOf, f, s);
      }
    }
  }
  lemma NothingReloaded()
    ensures Reloaded([]) == None
  {
    NothingNormalized();
  }

  lemma LookupIsFilter(ms: seq<ModeledMethod>, s: string)
    ensures OrNothing(Lookup(Grouped(ms), s)) == Filter(ms, SignatureOf, s)
  {
    hide Filter, Keys;
    KeysAreComplete(ms, SignatureOf, s);
  }

  lemma ReloadUnfold(language: string, ms: seq<ModeledMethod>)
    ensures Reload(language, ms) == Grouped(ReadAll(ExtensionsOf(language, ms)))
  {
  }

  lemma MergedIsKeyed(merged: Dict<Models>, methods: seq<KnownMethod>, newModels: Models, existing: Dict<Models>,
                      fileOf: KnownMethod -> string, f: string)
    requires IsMerge(merged, methods, newModels, existing, fileOf)
    requires forall g | g in existing.entries :: Keyed(existing.entries[g])
    requires Keyed(newModels) && f in merged.entries
    ensures Keyed(merged.entries[f])
  {
    hide Normalize;
    forall k, m | k in merged.entries[f].entries && m in merged.entries[f].entries[k]
      ensures Normalize(m).signature == k
    {
      assert Lookup(merged.entries[f], k) == MergedEntry(methods, newModels, existing, fileOf, f, k);
      if Overridden(methods, newModels, fileOf, f, k) {
        assert k in newModels.entries && m in newModels.entries[k];
      } else {
        assert f in existing.entries && k in existing.entries[f].entries;
        assert Keyed(existing.entries[f]) && m in existing.entries[f].entries[k];
      }
    }
  }

  /** A written file, loaded again, holds for every signature the merged models in their normal form. */
  lemma MergedFileReads(language: string, merged: Dict<Models>, methods: seq<KnownMethod>, newModels: Models,
                        existing: Dict<Models>, fileOf: KnownMethod -> string, f: string, s: string)
    requires IsMerge(merged, methods, newModels, existing, fileOf) && f in merged.entries
    requires HasValues(merged.entries[f]) && Keyed(merged.entries[f])
    ensures Filter(ReadAll(ExtensionsOf(language, Values(merged.entries[f]))), SignatureOf, s) ==
            ByType(NormalizeAll(OrNothing(MergedEntry(methods, newModels, existing, fileOf, f, s))))
  {
    hide Filter, ByType, NormalizeAll, Values, Grouped, ReadAll, ExtensionsOf, Keyed, MergedEntry, Written;
    var d := merged.entries[f];
    assert Lookup(d, s) == MergedEntry(methods, newModels, existing, fileOf, f, s);
    ReloadEntry(language, d, s);
    ReloadUnfold(language, Values(d));
    LookupIsFilter(ReadAll(ExtensionsOf(language, Values(d))), s);
  }
}
