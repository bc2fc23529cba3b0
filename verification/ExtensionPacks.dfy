/** Saving modeled methods into the files of an extension pack, and loading them again
    (extensions/ql-vscode/src/model-editor/modeled-method-fs.ts).

    The code knows a file by its name: the CLI lists it as a path relative to the extension pack, spelled as the
    operating system does, and a save builds its name from a prefix with a slash and a normal form.  A disk holds parsed
    files by their location, and several names may denote one location. */
module ExtensionPacks {
  import opened Groups
  import opened DataExtensions
  import opened ModelFiles
  import opened Wrappers

  type Disk = map<string, seq<Extension>>

  /** A save of new models: `fileOf` names the file that the models of a method go to, `listed` are the names of the
      files that the CLI finds, and `locate` gives the location that a name denotes. */
  datatype Save = Save(methods: seq<KnownMethod>, newModels: Models, fileOf: KnownMethod -> string,
                       listed: seq<string>, locate: string -> string)

  // ---------------------------------------------------------------------------
  // Loading

  predicate OnDisk(files: Disk, locate: string -> string, names: seq<string>) {
    forall f | f in names :: locate(f) in files
  }

  /** Every listed file exists, and the schema allows it. */
  predicate Loadable(files: Disk, locate: string -> string, names: seq<string>) {
    forall f | f in names :: locate(f) in files && IsValidFile(files[locate(f)])
  }

  /** The loaded dictionaries of all files, under the names that they are listed by. */
  function LoadedFiles(files: Disk, locate: string -> string, names: seq<string>): Dict<Models>
    requires OnDisk(files, locate, names)
  {
    Dict(names, map f | f in names :: Grouped(ReadAll(files[locate(f)])))
  }

  /** All models of the files, file by file */
  function ReadFiles(files: Disk, locate: string -> string, names: seq<string>): seq<ModeledMethod>
    requires OnDisk(files, locate, names)
  {
    if names == [] then []
    else
      assert names[|names| - 1] in names;
      ReadFiles(files, locate, names[..|names| - 1]) + ReadAll(files[locate(names[|names| - 1])])
  }

  /** What the file at a location says of a signature */
  function ModelsIn(files: Disk, location: string, s: string): seq<ModeledMethod>
    requires location in files
  {
    Filter(ReadAll(files[location]), SignatureOf, s)
  }

  lemma NoFileLoaded(files: Disk, locate: string -> string)
    ensures LoadedFiles(files, locate, []) == Empty() && Grouped(ReadFiles(files, locate, [])) == Empty()
  {
  }

  lemma NothingListed(files: Disk, locate: string -> string)
    ensures OnDisk(files, locate, [])
  {
  }

  lemma LoadOneFile(files: Disk, locate: string -> string, names: seq<string>, i: nat)
    requires Distinct(names) && i < |names| && OnDisk(files, locate, names[..i]) && locate(names[i]) in files
    ensures OnDisk(files, locate, names[..i + 1])
    ensures Put(LoadedFiles(files, locate, names[..i]), names[i], Grouped(ReadAll(files[locate(names[i])]))) ==
            LoadedFiles(files, locate, names[..i + 1])
  {
    hide Grouped, ReadAll;
    assert names[..i + 1] == names[..i] + [names[i]];
    assert names[i] !in names[..i];
  }

  lemma LoadedFile(files: Disk, locate: string -> string, names: seq<string>, i: nat)
    requires i < |names| && OnDisk(files, locate, names)
    ensures names[i] in LoadedFiles(files, locate, names).entries && locate(names[i]) in files
    ensures LoadedFiles(files, locate, names).entries[names[i]] == Grouped(ReadAll(files[locate(names[i])]))
    ensures OnDisk(files, locate, names[..i]) && OnDisk(files, locate, names[..i + 1])
    ensures ReadFiles(files, locate, names[..i + 1]) ==
            ReadFiles(files, locate, names[..i]) + ReadAll(files[locate(names[i])])
  {
    hide Grouped, ReadAll;
    assert names[i] in names && names[..i + 1][..i] == names[..i];
  }

  lemma LoadedIsDict(files: Disk, locate: string -> string, names: seq<string>)
    requires Distinct(names) && OnDisk(files, locate, names)
    ensures var existing := LoadedFiles(files, locate, names);
      IsDict(existing) && forall f | f in existing.entries :: IsDict(existing.entries[f]) && Keyed(existing.entries[f])
  {
    hide Grouped, ReadAll, Keyed;
    var existing := LoadedFiles(files, locate, names);
    forall f | f in existing.entries
      ensures IsDict(existing.entries[f]) && Keyed(existing.entries[f])
    {
      LoadedIsKeyed(files[locate(f)]);
    }
  }

  // ---------------------------------------------------------------------------
  // What a save should leave

  ghost predicate Overrides(c: Save, name: string, s: string) {
    Overridden(c.methods, c.newModels, c.fileOf, name, s)
  }

  ghost predicate Writes(c: Save, name: string) {
    Written(c.methods, c.newModels, c.fileOf, name)
  }

  /** The last of the first `n` names that denotes the location, or -1. */
  function LastWriter(names: seq<string>, locate: string -> string, n: nat, location: string): (i: int)
    requires n <= |names|
    ensures -1 <= i < n
    ensures i >= 0 ==> locate(names[i]) == location
    ensures forall j | i < j < n :: locate(names[j]) != location
  {
    if n == 0 then -1
    else if locate(names[n - 1]) == location then n - 1
    else LastWriter(names, locate, n - 1, location)
  }

  /** Of the names of the files that a save writes, the last one that denotes the location: what is written under it
      remains. */
  function WriterOf(c: Save, location: string): Option<string> {
    var names := FileNames(c.methods, c.newModels, c.fileOf);
    var i := LastWriter(names, c.locate, |names|, location);
    if i >= 0 then Some(names[i]) else None
  }

  lemma WriterWrites(c: Save, location: string)
    ensures var w := WriterOf(c, location); w.Some? ==> Writes(c, w.value) && c.locate(w.value) == location
  {
    hide FileNames, Written;
    var w := WriterOf(c, location);
    if w.Some? {
      WrittenIsNamed(c.methods, c.newModels, c.fileOf, w.value);
    }
  }

  lemma WrittenHasWriter(c: Save, name: string)
    requires Writes(c, name)
    ensures WriterOf(c, c.locate(name)).Some?
  {
    hide FileNames, Written;
    var names := FileNames(c.methods, c.newModels, c.fileOf);
    WrittenIsNamed(c.methods, c.newModels, c.fileOf, name);
    var j :| 0 <= j < |names| && names[j] == name;
    assert c.locate(names[j]) == c.locate(name);
  }

  /** Which name that is, in terms of the methods: a location has no writer exactly if no method with new models goes
      there; otherwise the writer is the file of one of them, and no other file that goes there is introduced later. */
  lemma WriterIs(c: Save, location: string) returns (i: nat)
    ensures WriterOf(c, location).None? <==>
            forall k | 0 <= k < |c.methods| && c.methods[k].signature in c.newModels.entries ::
              c.locate(c.fileOf(c.methods[k])) != location
    ensures WriterOf(c, location).Some? ==>
              && Introduces(c.methods, c.newModels, c.fileOf, i)
              && c.fileOf(c.methods[i]) == WriterOf(c, location).value
              && c.locate(c.fileOf(c.methods[i])) == location
              && forall k: nat | Introduces(c.methods, c.newModels, c.fileOf, k) &&
                                 c.locate(c.fileOf(c.methods[k])) == location :: k <= i
  {
    hide FileNames, Introduces;
    var names := FileNames(c.methods, c.newModels, c.fileOf);
    var w := LastWriter(names, c.locate, |names|, location);
    i := 0;
    forall k | 0 <= k < |c.methods| && c.methods[k].signature in c.newModels.entries
      ensures c.fileOf(c.methods[k]) in names
    {
      WrittenByMember(c.methods, k, c.newModels, c.fileOf);
      WrittenIsNamed(c.methods, c.newModels, c.fileOf, c.fileOf(c.methods[k]));
    }
    if w >= 0 {
      i := NameIsIntroduced(c.methods, c.newModels, c.fileOf, w);
      IntroducesNew(c, i);
      forall k: nat | Introduces(c.methods, c.newModels, c.fileOf, k) && k < |c.methods| &&
                      c.locate(c.fileOf(c.methods[k])) == location
        ensures k <= i
      {
        IntroducesNew(c, k);
        var b :| 0 <= b < |names| && names[b] == c.fileOf(c.methods[k]);
        assert b <= w;
        if b < w {
          var x, y := NamesInOrder(c.methods, c.newModels, c.fileOf, b, w);
          IntroducedOnce(c, x, k);
          IntroducedOnce(c, y, i);
        } else {
          IntroducedOnce(c, k, i);
        }
      }
    } else {
      forall k | 0 <= k < |c.methods| && c.methods[k].signature in c.newModels.entries
        ensures c.locate(c.fileOf(c.methods[k])) != location
      {
        var b :| 0 <= b < |names| && names[b] == c.fileOf(c.methods[k]);
      }
    }
    forall k: nat | Introduces(c.methods, c.newModels, c.fileOf, k)
      ensures k < |c.methods|
    {
      IntroducesNew(c, k);
    }
  }

  lemma IntroducesNew(c: Save, k: nat)
    requires Introduces(c.methods, c.newModels, c.fileOf, k)
    ensures k < |c.methods| && c.methods[k].signature in c.newModels.entries
  {
  }

  lemma IntroducedOnce(c: Save, i: nat, k: nat)
    requires Introduces(c.methods, c.newModels, c.fileOf, i) && Introduces(c.methods, c.newModels, c.fileOf, k)
    requires c.fileOf(c.methods[i]) == c.fileOf(c.methods[k])
    ensures i == k
  {
  }

  /** What a file written under a name should say of a signature: the new models if there are some for it, and
      otherwise what a file that is listed under this very name says. */
  ghost function MergedModels(c: Save, before: Disk, name: string, s: string): seq<ModeledMethod>
    requires OnDisk(before, c.locate, c.listed)
  {
    if Overrides(c, name, s) then c.newModels.entries[s]
    else if name in c.listed then ModelsIn(before, c.locate(name), s)
    else []
  }

  /** None of the merged models of the file misses a value. */
  ghost predicate MergedComplete(c: Save, before: Disk, name: string)
    requires OnDisk(before, c.locate, c.listed)
  {
    forall s, m | m in MergedModels(c, before, name, s) && m.modelType != NoType :: IsComplete(m)
  }

  /** The content can be loaded exactly if no merged model misses a value; and it says of every signature the merged
      models in their normal form, provided that the new models are filed under their own signatures. */
  ghost predicate HoldsMerge(c: Save, before: Disk, content: seq<Extension>, name: string)
    requires OnDisk(before, c.locate, c.listed)
  {
    && (IsValidFile(content) <==> MergedComplete(c, before, name))
    && (Keyed(c.newModels) ==>
          forall s :: Filter(ReadAll(content), SignatureOf, s) ==
                      ByType(NormalizeAll(MergedModels(c, before, name, s))))
  }

  /** What a save leaves: exactly the locations that the names of files with new models denote are written, and each
      holds the merge for the last name that denotes it; every other location is as before. */
  ghost predicate IsSaved(c: Save, before: Disk, after: Disk)
    requires OnDisk(before, c.locate, c.listed)
  {
    && (forall location :: location in after <==> location in before || WriterOf(c, location).Some?)
    && (forall location | location in after :: HoldsSaved(c, before, after[location], location))
  }

  ghost predicate HoldsSaved(c: Save, before: Disk, content: seq<Extension>, location: string)
    requires OnDisk(before, c.locate, c.listed) && (location in before || WriterOf(c, location).Some?)
  {
    match WriterOf(c, location)
    case None => content == before[location]
    case Some(name) => HoldsMerge(c, before, content, name)
  }

  // ---------------------------------------------------------------------------
  // Writing

  /** The disk after the first `n` files have been written. */
  function WrittenOut(before: Disk, yamls: Dict<seq<Extension>>, locate: string -> string, n: nat): Disk
    requires n <= |yamls.keys| && forall k | k in yamls.keys :: k in yamls.entries
  {
    if n == 0 then before
    else
      var name := yamls.keys[n - 1];
      WrittenOut(before, yamls, locate, n - 1)[locate(name) := yamls.entries[name]]
  }

  lemma {:induction false} LastWriteWins(before: Disk, yamls: Dict<seq<Extension>>, locate: string -> string, n: nat,
                                         location: string)
    requires n <= |yamls.keys| && forall k | k in yamls.keys :: k in yamls.entries
    ensures var after := WrittenOut(before, yamls, locate, n);
      var i := LastWriter(yamls.keys, locate, n, location);
      && (location in after <==> location in before || i >= 0)
      && (location in after ==>
            after[location] == if i >= 0 then yamls.entries[yamls.keys[i]] else before[location])
  {
    if n > 0 {
      LastWriteWins(before, yamls, locate, n - 1, location);
    }
  }

  lemma MergedIs(c: Save, before: Disk, name: string, s: string)
    requires OnDisk(before, c.locate, c.listed)
    ensures var existing := LoadedFiles(before, c.locate, c.listed);
      OrNothing(MergedEntry(c.methods, c.newModels, existing, c.fileOf, name, s)) == MergedModels(c, before, name, s)
  {
    hide Grouped, ReadAll, Overridden, Filter;
    var existing := LoadedFiles(before, c.locate, c.listed);
    if !Overrides(c, name, s) && name in c.listed {
      LookupIsFilter(ReadAll(before[c.locate(name)]), s);
      assert ExistingEntry(existing, name, s) == Lookup(Grouped(ReadAll(before[c.locate(name)])), s);
    }
  }

  lemma MergeHolds(c: Save, language: string, before: Disk, merged: Dict<Models>, name: string)
    requires Distinct(c.listed) && OnDisk(before, c.locate, c.listed)
    requires IsMerge(merged, c.methods, c.newModels, LoadedFiles(before, c.locate, c.listed), c.fileOf)
    requires name in merged.entries && HasValues(merged.entries[name])
    ensures HoldsMerge(c, before, ExtensionsOf(language, Values(merged.entries[name])), name)
  {
    hide LoadedFiles, MergedEntry, MergedModels, ExtensionsOf, Values, Distinct, IsValidFile, Filter, ReadAll;
    hide ByType, NormalizeAll, IsComplete, IsMerge, OrNothing, Keyed, OnDisk;
    var existing := LoadedFiles(before, c.locate, c.listed);
    MergedFileLoads(language, merged, c.methods, c.newModels, existing, c.fileOf, name);
    LoadedIsDict(before, c.locate, c.listed);
    if Keyed(c.newModels) {
      MergedIsKeyed(merged, c.methods, c.newModels, existing, c.fileOf, name);
    }
    forall s
      ensures OrNothing(MergedEntry(c.methods, c.newModels, existing, c.fileOf, name, s)) ==
              MergedModels(c, before, name, s)
      ensures Keyed(c.newModels) ==>
                Filter(ReadAll(ExtensionsOf(language, Values(merged.entries[name]))), SignatureOf, s) ==
                ByType(NormalizeAll(MergedModels(c, before, name, s)))
    {
      MergedIs(c, before, name, s);
      if Keyed(c.newModels) {
        MergedFileReads(language, merged, c.methods, c.newModels, existing, c.fileOf, name, s);
      }
    }
  }

  lemma MergeIsSavedAt(c: Save, language: string, before: Disk, yamls: Dict<seq<Extension>>, merged: Dict<Models>,
                       location: string)
    requires Distinct(c.listed) && OnDisk(before, c.locate, c.listed)
    requires IsMerge(merged, c.methods, c.newModels, LoadedFiles(before, c.locate, c.listed), c.fileOf)
    requires IsPrinted(yamls, language, merged)
    ensures IsDict(yamls)
    ensures var after := WrittenOut(before, yamls, c.locate, |yamls.keys|);
      && (location in after <==> location in before || WriterOf(c, location).Some?)
      && (location in after ==> HoldsSaved(c, before, after[location], location))
  {
    hide LoadedFiles, MergedEntry, HoldsMerge, Written, FileNames, ExtensionsOf, Values, Distinct, OnDisk, WrittenOut;
    hide LastWriter;
    LastWriteWins(before, yamls, c.locate, |yamls.keys|, location);
    var i := LastWriter(yamls.keys, c.locate, |yamls.keys|, location);
    if i >= 0 {
      var name := yamls.keys[i];
      assert name in yamls.keys && name in merged.entries;
      MergeHolds(c, language, before, merged, name);
    }
  }

  lemma MergeIsSaved(c: Save, language: string, before: Disk, yamls: Dict<seq<Extension>>, merged: Dict<Models>)
    requires Distinct(c.listed) && OnDisk(before, c.locate, c.listed)
    requires IsMerge(merged, c.methods, c.newModels, LoadedFiles(before, c.locate, c.listed), c.fileOf)
    requires IsPrinted(yamls, language, merged)
    ensures IsDict(yamls) && IsSaved(c, before, WrittenOut(before, yamls, c.locate, |yamls.keys|))
  {
    hide LoadedFiles, IsMerge, Distinct, OnDisk, WrittenOut, WriterOf, HoldsSaved, ExtensionsOf, Values, HasValues;
    var after := WrittenOut(before, yamls, c.locate, |yamls.keys|);
    forall location
      ensures location in after <==> location in before || WriterOf(c, location).Some?
      ensures location in after ==> HoldsSaved(c, before, after[location], location)
    {
      MergeIsSavedAt(c, language, before, yamls, merged, location);
    }
  }

  /** An extension pack, with the part of its file system that holds data extensions */
  class ExtensionPack {
    const locate: string -> string
    var files: Disk

    constructor (locate: string -> string, files: Disk)
      ensures this.locate == locate && this.files == files
    {
      this.locate, this.files := locate, files;
    }

    /** `loadModeledMethodFiles`; `listed` is the set of files that the CLI lists, which need not be all.  A listed
        file that does not exist, or that the schema does not allow, makes it throw. */
    method LoadModeledMethodFiles(listed: seq<string>) returns (ok: bool, byFile: Dict<Models>)
      requires Distinct(listed)
      ensures ok <==> Loadable(files, locate, listed)
      ensures ok ==> OnDisk(files, locate, listed) && byFile == LoadedFiles(files, locate, listed)
    {
      hide Grouped, ReadAll, LoadedFiles, Put, IsValidFile;
      byFile := Empty();
      NoFileLoaded(files, locate);
      for i := 0 to |listed|
        invariant Loadable(files, locate, listed[..i]) && OnDisk(files, locate, listed[..i])
        invariant byFile == LoadedFiles(files, locate, listed[..i])
      {
        var modelFile := listed[i];
        if locate(modelFile) !in files {
          return false, Empty();
        }
        var valid, modeledMethods := LoadDataExtension(files[locate(modelFile)]);
        if !valid {
          return false, Empty();
        }
        LoadOneFile(files, locate, listed, i);
        byFile := Put(byFile, modelFile, modeledMethods);
      }
      assert listed[..|listed|] == listed;
      ok := true;
    }

    /** `loadModeledMethods`: what the files say of each signature, in the order of the files, as if they were one
        file. */
    method LoadModeledMethods(listed: seq<string>) returns (ok: bool, existing: Models)
      requires Distinct(listed)
      ensures ok <==> Loadable(files, locate, listed)
      ensures ok ==> OnDisk(files, locate, listed) && existing == Grouped(ReadFiles(files, locate, listed))
    {
      hide Grouped, ReadAll, LoadedFiles, ReadFiles, IsDict, Distinct, Appended, OnDisk, Loadable;
      var loaded, byFile := LoadModeledMethodFiles(listed);
      ok, existing := loaded, Empty();
      if !ok {
        return;
      }
      NoFileLoaded(files, locate);
      NothingListed(files, locate);
      for i := 0 to |listed|
        invariant OnDisk(files, locate, listed[..i])
        invariant existing == Grouped(ReadFiles(files, locate, listed[..i]))
      {
        LoadedFile(files, locate, listed, i);
        var modeledMethods := byFile.entries[listed[i]];
        GroupedIsDict(ReadFiles(files, locate, listed[..i]));
        GroupedIsDict(ReadAll(files[locate(listed[i])]));
        existing := AppendEntries(existing, modeledMethods);
        GroupedAppend(ReadFiles(files, locate, listed[..i]), ReadAll(files[locate(listed[i])]));
      }
      assert listed[..|listed|] == listed;
    }

    /** The loop of `saveModeledMethods`: of several names for one location, the last is what remains. */
    method WriteFiles(yamls: Dict<seq<Extension>>)
      requires IsDict(yamls)
      modifies this
      ensures files == WrittenOut(old(files), yamls, locate, |yamls.keys|)
    {
      for i := 0 to |yamls.keys|
        invariant files == WrittenOut(old(files), yamls, locate, i)
      {
        var filename := yamls.keys[i];
        assert filename in yamls.keys;
        files := files[locate(filename) := yamls.entries[filename]];
      }
    }

    /** `saveModeledMethods`; nothing is written if loading the listed files throws. */
    method SaveModeledMethods(language: string, methods: seq<KnownMethod>, newModels: Models,
                              fileOf: KnownMethod -> string, listed: seq<string>) returns (ok: bool)
      requires Distinct(listed)
      modifies this
      ensures ok <==> Loadable(old(files), locate, listed)
      ensures ok ==> OnDisk(old(files), locate, listed) &&
                     IsSaved(Save(methods, newModels, fileOf, listed, locate), old(files), files)
      ensures !ok ==> files == old(files)
    {
      hide IsSaved, IsMerge, IsPrinted, LoadedFiles, Distinct, OnDisk, Loadable, IsDict, WrittenOut;
      var loaded, existing := LoadModeledMethodFiles(listed);
      ok := loaded;
      if !ok {
        return;
      }
      LoadedIsDict(files, locate, listed);
      var yamls, merged := CreateFiles(language, methods, newModels, existing, fileOf);
      ghost var before := files;
      MergeIsSaved(Save(methods, newModels, fileOf, listed, locate), language, before, yamls, merged);
      WriteFiles(yamls);
    }
  }

  // ---------------------------------------------------------------------------
  // What survives a save

  /** A save loses nothing at a location that it does not write, or that it writes under a name which the CLI lists:
      what the file there said of a signature that is not overridden, it still says afterwards, up to the order. */
  lemma SaveLosesNothing(c: Save, before: Disk, after: Disk, location: string, s: string)
    requires OnDisk(before, c.locate, c.listed) && IsSaved(c, before, after) && Keyed(c.newModels)
    requires location in before
    requires var w := WriterOf(c, location); w.Some? ==> w.value in c.listed && !Overrides(c, w.value, s)
    ensures location in after && multiset(ModelsIn(after, location, s)) == multiset(ModelsIn(before, location, s))
  {
    hide ReadAll, Filter, Overrides, Keyed, IsValidFile, MergedComplete, ByType, NormalizeAll, WriterOf, Writes;
    var w := WriterOf(c, location);
    assert HoldsSaved(c, before, after[location], location);
    if w.Some? {
      WriterWrites(c, location);
      assert MergedModels(c, before, w.value, s) == ModelsIn(before, location, s);
      LoadedModelsSurvive(before[location], s);
    }
  }

  /** Models that have been loaded are in normal form, so another round only reorders them. */
  lemma LoadedModelsSurvive(extensions: seq<Extension>, s: string)
    ensures var ms := Filter(ReadAll(extensions), SignatureOf, s);
      multiset(ByType(NormalizeAll(ms))) == multiset(ms)
  {
    hide ReadAll, Filter, ByType, NormalizeAll;
    LookupIsFilter(ReadAll(extensions), s);
    NothingNormalized();
    if s in Grouped(ReadAll(extensions)).entries {
      ExistingModelsSurvive(extensions, s);
    }
  }

  /** A file that is written under a name that the CLI does not list loses whatever is not overridden under that name,
      even if the CLI lists the file under another name. */
  lemma UnlistedFileIsOverwritten(c: Save, before: Disk, after: Disk, location: string, s: string)
    requires OnDisk(before, c.locate, c.listed) && IsSaved(c, before, after) && Keyed(c.newModels)
    requires var w := WriterOf(c, location); w.Some? && w.value !in c.listed && !Overrides(c, w.value, s)
    ensures location in after && ModelsIn(after, location, s) == []
  {
    hide ReadAll, Filter, Overrides, Keyed, IsValidFile, MergedComplete, ByType, NormalizeAll, WriterOf;
    NothingNormalized();
    assert HoldsSaved(c, before, after[location], location);
    assert MergedModels(c, before, WriterOf(c, location).value, s) == [];
  }

  /** The new models reach the disk under the last name for their location. */
  lemma NewModelsAreSaved(c: Save, before: Disk, after: Disk, name: string, s: string)
    requires OnDisk(before, c.locate, c.listed) && IsSaved(c, before, after) && Keyed(c.newModels)
    requires Overrides(c, name, s) && WriterOf(c, c.locate(name)) == Some(name)
    ensures s in c.newModels.entries && c.locate(name) in after
    ensures ModelsIn(after, c.locate(name), s) == ByType(NormalizeAll(c.newModels.entries[s]))
  {
    hide ReadAll, Filter, Keyed, IsValidFile, MergedComplete, ByType, NormalizeAll, WriterOf;
    assert HoldsSaved(c, before, after[c.locate(name)], c.locate(name));
  }

  /** The file at the location is not written, or its written name is, as a string, one of the listed ones; or it has
      nothing to lose. */
  predicate IsSpared(c: Save, before: Disk, location: string, s: string)
    requires location in before
  {
    var w := WriterOf(c, location);
    w.None? || w.value in c.listed || ModelsIn(before, location, s) == []
  }

  /** Exactly when the models of a file survive a save. */
  lemma ModelsSurviveIff(c: Save, before: Disk, after: Disk, location: string, s: string)
    requires OnDisk(before, c.locate, c.listed) && IsSaved(c, before, after) && Keyed(c.newModels)
    requires location in before
    requires var w := WriterOf(c, location); w.Some? ==> !Overrides(c, w.value, s)
    ensures location in after
    ensures multiset(ModelsIn(after, location, s)) == multiset(ModelsIn(before, location, s)) <==>
            IsSpared(c, before, location, s)
    ensures IsSpared(c, before, location, s) || ModelsIn(after, location, s) == []
  {
    hide Overrides, Keyed, IsSaved, ModelsIn, WriterOf, OnDisk;
    var w := WriterOf(c, location);
    if w.None? || w.value in c.listed {
      SaveLosesNothing(c, before, after, location, s);
    } else {
      UnlistedFileIsOverwritten(c, before, after, location, s);
      assert |multiset(ModelsIn(before, location, s))| == |ModelsIn(before, location, s)|;
    }
  }

  // ---------------------------------------------------------------------------
  // Loading after a save

  /** What `loadModeledMethods` finds for a signature */
  function LoadedModels(files: Disk, locate: string -> string, names: seq<string>, s: string): seq<ModeledMethod>
    requires OnDisk(files, locate, names)
  {
    OrNothing(Lookup(Grouped(ReadFiles(files, locate, names)), s))
  }

  /** Of a file that was written, what should be loaded for a signature are the merged models of its last name; of any
      other file, what it said before. */
  ghost function SavedModels(c: Save, before: Disk, location: string, s: string): seq<ModeledMethod>
    requires OnDisk(before, c.locate, c.listed) && (location in before || WriterOf(c, location).Some?)
  {
    match WriterOf(c, location)
    case None => ModelsIn(before, location, s)
    case Some(name) => ByType(NormalizeAll(MergedModels(c, before, name, s)))
  }

  predicate OnDiskAfter(c: Save, before: Disk, names: seq<string>) {
    forall f | f in names :: c.locate(f) in before || WriterOf(c, c.locate(f)).Some?
  }

  /** The same for all files, in the order of their names */
  ghost function AllSavedModels(c: Save, before: Disk, names: seq<string>, s: string): seq<ModeledMethod>
    requires OnDisk(before, c.locate, c.listed) && OnDiskAfter(c, before, names)
  {
    if names == [] then []
    else
      assert names[|names| - 1] in names;
      AllSavedModels(c, before, names[..|names| - 1], s) + SavedModels(c, before, c.locate(names[|names| - 1]), s)
  }

  lemma LoadedPush(files: Disk, locate: string -> string, names: seq<string>, s: string)
    requires names != [] && OnDisk(files, locate, names)
    ensures var front, last := names[..|names| - 1], locate(names[|names| - 1]);
      && OnDisk(files, locate, front) && last in files
      && LoadedModels(files, locate, names, s) == LoadedModels(files, locate, front, s) + ModelsIn(files, last, s)
  {
    hide Grouped, ReadAll, Filter;
    var front, last := names[..|names| - 1], names[|names| - 1];
    assert last in names;
    var a, b := ReadFiles(files, locate, front), ReadAll(files[locate(last)]);
    FilterSplit(a, b, SignatureOf, s);
    LookupIsFilter(a, s);
    LookupIsFilter(a + b, s);
  }

  lemma LoadedNothing(files: Disk, locate: string -> string, s: string)
    ensures LoadedModels(files, locate, [], s) == []
  {
  }

  lemma SavedLocation(c: Save, before: Disk, after: Disk, location: string, s: string)
    requires OnDisk(before, c.locate, c.listed) && IsSaved(c, before, after) && Keyed(c.newModels)
    requires location in after
    ensures location in before || WriterOf(c, location).Some?
    ensures ModelsIn(after, location, s) == SavedModels(c, before, location, s)
  {
    hide ReadAll, Filter, Keyed, IsValidFile, MergedComplete, ByType, NormalizeAll, MergedModels, WriterOf;
    assert HoldsSaved(c, before, after[location], location);
  }

  /** After a save, `loadModeledMethods` finds for every signature the merged models of the files that were written
      and the old ones of all others, whatever names the CLI lists by then. */
  lemma {:induction false} SavedPackModels(c: Save, before: Disk, after: Disk, names: seq<string>, s: string)
    requires OnDisk(before, c.locate, c.listed) && IsSaved(c, before, after) && Keyed(c.newModels)
    requires OnDisk(after, c.locate, names)
    ensures OnDiskAfter(c, before, names)
    ensures LoadedModels(after, c.locate, names, s) == AllSavedModels(c, before, names, s)
    decreases |names|
  {
    hide LoadedModels, SavedModels, ModelsIn, Keyed, WriterOf, HoldsMerge;
    if names == [] {
      LoadedNothing(after, c.locate, s);
    } else {
      LoadedPush(after, c.locate, names, s);
      SavedPackModels(c, before, after, names[..|names| - 1], s);
      SavedLocation(c, before, after, c.locate(names[|names| - 1]), s);
    }
  }

  /** Loading finds the same models for a signature that was not saved, up to their order, if and only if each of the
      files is spared.  Otherwise it finds fewer. */
  lemma LoadingIsUnchangedIff(c: Save, before: Disk, after: Disk, names: seq<string>, s: string)
    requires OnDisk(before, c.locate, c.listed) && IsSaved(c, before, after) && Keyed(c.newModels)
    requires OnDisk(before, c.locate, names) && forall f :: !Overrides(c, f, s)
    ensures OnDisk(after, c.locate, names)
    ensures multiset(LoadedModels(after, c.locate, names, s)) == multiset(LoadedModels(before, c.locate, names, s)) <==>
            forall f | f in names :: IsSpared(c, before, c.locate(f), s)
  {
    hide LoadedModels, IsSaved, IsSpared, Overrides, Keyed, WriterOf;
    LoadingSpares(c, before, after, names, s);
    var a, b := LoadedModels(after, c.locate, names, s), LoadedModels(before, c.locate, names, s);
    assert |multiset(a)| == |a| && |multiset(b)| == |b|;
  }

  lemma {:induction false} LoadingSpares(c: Save, before: Disk, after: Disk, names: seq<string>, s: string)
    requires OnDisk(before, c.locate, c.listed) && IsSaved(c, before, after) && Keyed(c.newModels)
    requires OnDisk(before, c.locate, names) && forall f :: !Overrides(c, f, s)
    ensures OnDisk(after, c.locate, names)
    ensures var a, b := LoadedModels(after, c.locate, names, s), LoadedModels(before, c.locate, names, s);
      && |a| <= |b|
      && (|a| == |b| <==> forall f | f in names :: IsSpared(c, before, c.locate(f), s))
      && (|a| == |b| ==> multiset(a) == multiset(b))
    decreases |names|
  {
    hide LoadedModels, IsSaved, IsSpared, Overrides, Keyed, WriterOf, ModelsIn;
    if names == [] {
      LoadedNothing(after, c.locate, s);
      LoadedNothing(before, c.locate, s);
    } else {
      var front, last := names[..|names| - 1], names[|names| - 1];
      assert names == front + [last];
      LoadingSpares(c, before, after, front, s);
      ModelsSpared(c, before, after, c.locate(last), s);
      assert OnDisk(after, c.locate, names);
      LoadedPush(after, c.locate, names, s);
      LoadedPush(before, c.locate, names, s);
    }
  }

  lemma ModelsSpared(c: Save, before: Disk, after: Disk, location: string, s: string)
    requires OnDisk(before, c.locate, c.listed) && IsSaved(c, before, after) && Keyed(c.newModels)
    requires location in before && forall f :: !Overrides(c, f, s)
    ensures location in after
    ensures var a, b := ModelsIn(after, location, s), ModelsIn(before, location, s);
      && |a| <= |b|
      && (|a| == |b| <==> IsSpared(c, before, location, s))
      && (|a| == |b| ==> multiset(a) == multiset(b))
  {
    hide IsSaved, Overrides, Keyed, WriterOf, ModelsIn;
    ModelsSurviveIff(c, before, after, location, s);
    var a, b := ModelsIn(after, location, s), ModelsIn(before, location, s);
    assert |multiset(a)| == |a| && |multiset(b)| == |b|;
  }

  /** The content of a location can be loaded after a save: none of the merged models of its writer misses a value, or
      it has no writer and could be loaded before. */
  ghost predicate LoadsAfter(c: Save, before: Disk, location: string)
    requires OnDisk(before, c.locate, c.listed)
  {
    match WriterOf(c, location)
    case None => location in before && IsValidFile(before[location])
    case Some(name) => MergedComplete(c, before, name)
  }

  /** Exactly when the files that the CLI lists after a save can be loaded. */
  lemma SavedPackLoads(c: Save, before: Disk, after: Disk, names: seq<string>)
    requires OnDisk(before, c.locate, c.listed) && IsSaved(c, before, after)
    ensures Loadable(after, c.locate, names) <==> forall f | f in names :: LoadsAfter(c, before, c.locate(f))
  {
    hide IsValidFile, MergedComplete, WriterOf, Keyed;
    forall f | f in names
      ensures c.locate(f) in after && IsValidFile(after[c.locate(f)]) <==> LoadsAfter(c, before, c.locate(f))
    {
      if c.locate(f) in after {
        assert HoldsSaved(c, before, after[c.locate(f)], c.locate(f));
      }
    }
  }

  /** So a pack that was loaded for a save, and whose list gains nothing but the written files, can be loaded again if
      and only if no merged model misses a value in a file whose name is the last for its location. */
  lemma PackLoadsAgainIff(c: Save, before: Disk, after: Disk, names: seq<string>)
    requires Loadable(before, c.locate, c.listed) && OnDisk(before, c.locate, c.listed) && IsSaved(c, before, after)
    requires forall f | Writes(c, f) :: f in names
    requires forall f | f in names :: f in c.listed || Writes(c, f)
    ensures Loadable(after, c.locate, names) <==>
            forall f | WriterOf(c, c.locate(f)) == Some(f) :: MergedComplete(c, before, f)
  {
    hide IsValidFile, MergedComplete, Writes, IsSaved, WriterOf;
    SavedPackLoads(c, before, after, names);
    if forall f | f in names :: LoadsAfter(c, before, c.locate(f)) {
      forall f | WriterOf(c, c.locate(f)) == Some(f)
        ensures MergedComplete(c, before, f)
      {
        WriterWrites(c, c.locate(f));
        assert LoadsAfter(c, before, c.locate(f));
      }
    }
    if forall f | WriterOf(c, c.locate(f)) == Some(f) :: MergedComplete(c, before, f) {
      forall f | f in names
        ensures LoadsAfter(c, before, c.locate(f))
      {
        WriterWrites(c, c.locate(f));
        if Writes(c, f) {
          WrittenHasWriter(c, f);
        }
      }
    }
  }

  // ---------------------------------------------------------------------------
  // A loss

  const SAVED_NAME := "models/lib.model.yml"
  const LISTED_NAME := "models\\lib.model.yml"

  function LossSignature(name: string): string {
    SignatureFor(Str("p"), Str("T"), Str(name), Str("()"))
  }

  function LossModel(name: string): ModeledMethod {
    ModeledMethod(Neutral, Str(""), Str(""), Str("sink"), Str("manual"), LossSignature(name),
                  Str("p"), Str("T"), Str(name), Str("()"))
  }

  function LossModels(): Models {
    Dict([LossSignature("ff")], map[LossSignature("ff") := [LossModel("ff")]])
  }

  /** New models of one method, on a system where both spellings denote one file. */
  function LossSave(listed: seq<string>): Save {
    Save([KnownMethod(LossSignature("ff"), "lib", "p")], LossModels(), (m: KnownMethod) => SAVED_NAME, listed,
         (f: string) => if f == LISTED_NAME then SAVED_NAME else f)
  }

  /** The file has a model of another method. */
  function LossBefore(): Disk {
    map[SAVED_NAME := [Extension("", "neutralModel", [GenerateRow(Neutral, LossModel("f"))])]]
  }

  function LossAfter(): Disk {
    map[SAVED_NAME := ExtensionsOf("java", [LossModel("ff")])]
  }

  /** The model is lost, whether the CLI does not list the file at all or lists it under another spelling. */
  lemma UnlistedNameLosesModels(listed: seq<string>)
    requires listed == [] || listed == [LISTED_NAME]
    ensures var c := LossSave(listed);
      && Loadable(LossBefore(), c.locate, listed) && OnDisk(LossBefore(), c.locate, listed)
      && IsSaved(c, LossBefore(), LossAfter())
      && ModelsIn(LossBefore(), SAVED_NAME, LossSignature("f")) == [LossModel("f")]
      && ModelsIn(LossAfter(), SAVED_NAME, LossSignature("f")) == []
  {
    hide IsSaved, ModelsIn, LossBefore, LossAfter, LossModels, LossSignature, LossModel;
    var c := LossSave(listed);
    LossHadModels();
    LossIsLoaded(listed);
    LossIsSaved(listed);
    LossIsWritten(listed);
    UnlistedFileIsOverwritten(c, LossBefore(), LossAfter(), SAVED_NAME, LossSignature("f"));
  }

  lemma LossHadModels()
    ensures SAVED_NAME in LossBefore() && ModelsIn(LossBefore(), SAVED_NAME, LossSignature("f")) == [LossModel("f")]
  {
    hide GenerateRow, ReadRow, SignatureFor, Filter, Normalize;
    var m := LossModel("f");
    NormalLoss("f");
    ReadUndoesGenerate(m);
    ReadOne(GenerateRow(Neutral, m));
    FilterOne(m);
  }

  lemma LossIsLoaded(listed: seq<string>)
    requires listed == [] || listed == [LISTED_NAME]
    ensures var c := LossSave(listed);
      Loadable(LossBefore(), c.locate, listed) && OnDisk(LossBefore(), c.locate, listed)
  {
    hide LossSignature;
  }

  lemma NormalLoss(name: string)
    ensures Normalize(LossModel(name)) == LossModel(name)
  {
    hide SignatureFor;
  }

  lemma ReadOne(row: Row)
    ensures ReadAll([Extension("", "neutralModel", [row])]) == [ReadRow(Neutral, row)]
  {
    hide ReadRow;
    var e := Extension("", "neutralModel", [row]);
    assert [row][..0] == [] && [e][..0] == [];
    assert ReadRows(Neutral, [row]) == [ReadRow(Neutral, row)];
  }

  lemma FilterOne(m: ModeledMethod)
    ensures Filter([m], SignatureOf, m.signature) == [m]
  {
    FilterPush([], SignatureOf, m, m.signature);
    assert [] + [m] == [m];
  }

  lemma LossSignaturesDiffer()
    ensures LossSignature("f") != LossSignature("ff")
  {
    assert |LossSignature("f")| != |LossSignature("ff")|;
  }

  lemma LossOverrides(listed: seq<string>, name: string, s: string)
    ensures Overrides(LossSave(listed), name, s) <==> name == SAVED_NAME && s == LossSignature("ff")
  {
    hide LossSignature, LossModel;
    var c := LossSave(listed);
    assert c.methods[0].signature == LossSignature("ff") && c.fileOf(c.methods[0]) == SAVED_NAME;
  }

  lemma LossIsWritten(listed: seq<string>)
    ensures var c := LossSave(listed);
      && WriterOf(c, SAVED_NAME) == Some(SAVED_NAME)
      && (forall f :: Writes(c, f) <==> f == SAVED_NAME)
      && (forall f :: !Overrides(c, f, LossSignature("f")))
      && Keyed(c.newModels)
  {
    hide LossSignature, Normalize, Overridden;
    var c := LossSave(listed);
    LossSignaturesDiffer();
    NormalLoss("ff");
    forall f, s
      ensures Overrides(c, f, s) <==> f == SAVED_NAME && s == LossSignature("ff")
    {
      LossOverrides(listed, f, s);
    }
    assert Overrides(c, SAVED_NAME, LossSignature("ff"));
    forall f
      ensures Writes(c, f) <==> f == SAVED_NAME
    {
      if s :| Overridden(c.methods, c.newModels, c.fileOf, f, s) {
        assert Overrides(c, f, s);
      }
    }
    WriterWrites(c, SAVED_NAME);
    WrittenHasWriter(c, SAVED_NAME);
  }

  lemma LossIsSaved(listed: seq<string>)
    requires listed == [] || listed == [LISTED_NAME]
    requires OnDisk(LossBefore(), LossSave(listed).locate, listed)
    ensures IsSaved(LossSave(listed), LossBefore(), LossAfter())
  {
    hide LossSignature, LossModel, LossBefore, IsSaved, ExtensionsOf, Overridden, Written, WrittenOut;
    var c, saved := LossSave(listed), ExtensionsOf("java", [LossModel("ff")]);
    var merged := Dict([SAVED_NAME], map[SAVED_NAME := LossModels()]);
    var yamls := Dict([SAVED_NAME], map[SAVED_NAME := saved]);
    LossIsMerged(listed, merged);
    LossIsPrinted(merged, yamls);
    LossIsWrittenOut(yamls, c.locate, saved);
    MergeIsSaved(c, "java", LossBefore(), yamls, merged);
  }

  lemma LossIsMerged(listed: seq<string>, merged: Dict<Models>)
    requires listed == [] || listed == [LISTED_NAME]
    requires OnDisk(LossBefore(), LossSave(listed).locate, listed)
    requires merged == Dict([SAVED_NAME], map[SAVED_NAME := LossModels()])
    ensures var c := LossSave(listed);
      IsMerge(merged, c.methods, c.newModels, LoadedFiles(LossBefore(), c.locate, listed), c.fileOf)
  {
    hide LossSignature, LossModel, LossBefore, LossModels, Overridden, Written, LoadedFiles;
    var c := LossSave(listed);
    var existing := LoadedFiles(LossBefore(), c.locate, listed);
    LossIsWritten(listed);
    LossIsDict();
    forall f
      ensures f in merged.entries <==> Written(c.methods, c.newModels, c.fileOf, f)
    {
      assert Writes(c, f) <==> f == SAVED_NAME;
    }
    forall s
      ensures Lookup(merged.entries[SAVED_NAME], s) ==
              MergedEntry(c.methods, c.newModels, existing, c.fileOf, SAVED_NAME, s)
    {
      LossOverrides(listed, SAVED_NAME, s);
      LossNotListed(listed, s);
      LossEntry(s);
    }
  }

  lemma LossIsDict()
    ensures IsDict(LossModels())
  {
    hide LossSignature, LossModel;
  }

  lemma LossEntry(s: string)
    ensures Lookup(LossModels(), s) == if s == LossSignature("ff") then Some(LossModels().entries[s]) else None
  {
    hide LossSignature, LossModel;
  }

  lemma LossNotListed(listed: seq<string>, s: string)
    requires listed == [] || listed == [LISTED_NAME]
    requires OnDisk(LossBefore(), LossSave(listed).locate, listed)
    ensures ExistingEntry(LoadedFiles(LossBefore(), LossSave(listed).locate, listed), SAVED_NAME, s) == None
  {
    hide LossBefore, LossModels, LossSignature, Grouped, ReadAll;
    assert SAVED_NAME[6] != LISTED_NAME[6];
  }

  lemma LossIsPrinted(merged: Dict<Models>, yamls: Dict<seq<Extension>>)
    requires merged == Dict([SAVED_NAME], map[SAVED_NAME := LossModels()])
    requires yamls == Dict([SAVED_NAME], map[SAVED_NAME := ExtensionsOf("java", [LossModel("ff")])])
    ensures IsPrinted(yamls, "java", merged)
  {
    hide LossSignature, LossModel, ExtensionsOf;
    var d := LossModels();
    assert d.keys[..0] == [];
    assert Values(d) == [LossModel("ff")];
  }

  lemma LossIsWrittenOut(yamls: Dict<seq<Extension>>, locate: string -> string, saved: seq<Extension>)
    requires yamls == Dict([SAVED_NAME], map[SAVED_NAME := saved]) && locate(SAVED_NAME) == SAVED_NAME
    ensures WrittenOut(LossBefore(), yamls, locate, 1) == map[SAVED_NAME := saved]
  {
    hide GenerateRow, LossModel;
    assert WrittenOut(LossBefore(), yamls, locate, 0) == LossBefore();
  }
}
