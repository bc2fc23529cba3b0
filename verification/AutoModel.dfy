/** Automatic modeling (extensions/ql-vscode/src/model-editor/auto-modeler.ts): the batches of candidates, and what
    the response for a batch adds to the store. */
module AutoModel {
  import opened DataExtensions
  import opened ModelingStores
  import opened Candidates
  import Groups
  import ModelFiles
  import opened Wrappers

  // ---------------------------------------------------------------------------
  // Batches

  /** `llmGenerationBatchSize`: the setting, unless it is missing or zero */
  function BatchSize(setting: Option<int>): (size: int)
    ensures size != 0
  {
    if setting.Some? && setting.value != 0 then setting.value else 10
  }

  /** `Math.ceil(n / size)` */
  function BatchNumber(n: nat, size: int): int
    requires size != 0
  {
    if size > 0 then (n + size - 1) / size else -(n / -size)
  }

  /** `candidates.slice(start, end)` */
  function Batch(candidates: seq<Method>, size: int, i: int): (batch: seq<Method>)
    requires size > 0 && i >= 0
    ensures forall m | m in batch :: m in candidates
  {
    var start := i * size;
    var end := start + size;
    if start >= |candidates| then []
    else if end >= |candidates| then candidates[start..]
    else candidates[start..end]
  }

  /** The first `k` batches, one after the other */
  function Batches(candidates: seq<Method>, size: int, k: int): seq<Method>
    requires size > 0 || k <= 0
  {
    if k <= 0 then [] else Batches(candidates, size, k - 1) + Batch(candidates, size, k - 1)
  }

  function Take(candidates: seq<Method>, n: nat): seq<Method> {
    if n <= |candidates| then candidates[..n] else candidates
  }

  lemma TakeMore(candidates: seq<Method>, start: nat, size: nat)
    requires size > 0
    ensures Take(candidates, start) +
            (if start >= |candidates| then []
             else if start + size >= |candidates| then candidates[start..]
             else candidates[start..start + size]) == Take(candidates, start + size)
  {
  }

  lemma {:induction false} BatchesAreAPrefix(candidates: seq<Method>, size: int, k: nat)
    requires size > 0
    ensures k * size >= 0 && Batches(candidates, size, k) == Take(candidates, k * size)
  {
    if k > 0 {
      BatchesAreAPrefix(candidates, size, k - 1);
      assert (k - 1) * size + size == k * size;
      TakeMore(candidates, (k - 1) * size, size);
    }
  }

  lemma BatchNumberIsCeiling(n: nat, size: int)
    requires size > 0
    ensures var b := BatchNumber(n, size);
      b >= 0 && b * size >= n && (b - 1) * size < n && (n > 0 ==> b > 0)
  {
    var b := BatchNumber(n, size);
    assert n + size - 1 == b * size + (n + size - 1) % size;
    assert (b - 1) * size == b * size - size;
  }

  /** With a negative size no batch is made at all. */
  lemma NegativeSize(n: nat, size: int)
    requires size < 0
    ensures BatchNumber(n, size) <= 0
  {
  }

  /** The batches make up the list of candidates, unless there are some and the size is negative. */
  lemma BatchesConcatenate(candidates: seq<Method>, setting: Option<int>)
    ensures var size := BatchSize(setting);
      var b := BatchNumber(|candidates|, size);
      && (size > 0 || b <= 0)
      && (Batches(candidates, size, b) == candidates <==> size > 0 || candidates == [])
      && forall i | 0 <= i < b :: 0 < |Batch(candidates, size, i)| <= size
  {
    hide BatchNumber;
    var size := BatchSize(setting);
    var b := BatchNumber(|candidates|, size);
    if size > 0 {
      BatchNumberIsCeiling(|candidates|, size);
      BatchesAreAPrefix(candidates, size, b);
      assert Take(candidates, b * size) == candidates;
      forall i | 0 <= i < b
        ensures 0 < |Batch(candidates, size, i)| <= size
      {
        BeforeLastBatch(i, b, size, |candidates|);
      }
    } else {
      NegativeSize(|candidates|, size);
    }
  }

  lemma BeforeLastBatch(i: nat, b: nat, size: nat, n: nat)
    requires i < b && (b - 1) * size < n
    ensures 0 <= i * size < n
  {
    assert (b - 1 - i) * size >= 0;
    assert (b - 1 - i) * size + i * size == (b - 1) * size;
  }

  // ---------------------------------------------------------------------------
  // Responses

  /** What a candidate gets that the response does not mention */
  function NeutralSink(c: Method): ModeledMethod {
    ModeledMethod(Neutral, Str(""), Str(""), Str("sink"), Str("ai-generated"), c.signature,
                  Str(c.packageName), Str(c.typeName), Str(c.methodName), Str(c.methodParameters))
  }

  function Filled(loaded: ModeledMethods, batch: seq<Method>): ModeledMethods {
    if batch == [] then loaded
    else
      var r, c := Filled(loaded, batch[..|batch| - 1]), batch[|batch| - 1];
      if c.signature in r then r else r[c.signature := [NeutralSink(c)]]
  }

  function Signatures(ms: seq<Method>): set<string> {
    set i | 0 <= i < |ms| :: ms[i].signature
  }

  lemma MemberSignature(ms: seq<Method>, m: Method)
    requires m in ms
    ensures m.signature in Signatures(ms)
  {
  }

  /** The models for a batch: those of the response, and a neutral one for each candidate it does not mention. */
  lemma {:induction false} FilledIsComplete(loaded: ModeledMethods, batch: seq<Method>)
    ensures var r := Filled(loaded, batch);
      && r.Keys == loaded.Keys + Signatures(batch)
      && (forall s | s in loaded :: r[s] == loaded[s])
      && (forall s | s in r && s !in loaded :: exists c | c in batch :: c.signature == s && r[s] == [NeutralSink(c)])
    decreases |batch|
  {
    if batch != [] {
      var front, c := batch[..|batch| - 1], batch[|batch| - 1];
      FilledIsComplete(loaded, front);
      assert c in batch && forall d | d in front :: d in batch;
      SignaturesPush(front, c);
      assert batch == front + [c];
    }
  }

  lemma SignaturesPush(front: seq<Method>, c: Method)
    ensures Signatures(front + [c]) == Signatures(front) + {c.signature}
  {
    var ms := front + [c];
    forall s | s in Signatures(front) + {c.signature}
      ensures s in Signatures(ms)
    {
      if s == c.signature {
        assert ms[|front|].signature == s;
      } else {
        var i :| 0 <= i < |front| && front[i].signature == s;
        assert ms[i].signature == s;
      }
    }
  }

  /** `loadDataExtensionYaml`, as a dictionary without the order of its keys */
  function Loaded(extensions: seq<Extension>): ModeledMethods {
    Grouped(ReadAll(extensions)).entries
  }

  /** Whatever a response contains, every signature in it has a model. */
  lemma LoadedIsModeled(extensions: seq<Extension>)
    ensures forall s | s in Loaded(extensions) :: HasModel(Loaded(extensions)[s])
  {
    hide Groups.Filter, Groups.Keys, ReadAll;
    var ms := ReadAll(extensions);
    ModelFiles.LoadedIsTyped(extensions);
    forall s | s in Loaded(extensions)
      ensures HasModel(Loaded(extensions)[s])
    {
      Groups.KeysAreComplete(ms, SignatureOf, s);
      Groups.FilterHasKey(ms, SignatureOf, s, 0);
      assert Groups.Filter(ms, SignatureOf, s)[0].modelType != NoType;
    }
  }

  /** Adding the models of a batch: every candidate of the batch is modeled afterwards, what was modeled before
      keeps its models, and what was not gets those of the response or else the neutral one. */
  lemma AddedBatch(modeled: ModeledMethods, extensions: seq<Extension>, batch: seq<Method>)
    ensures var loaded := Loaded(extensions);
      var r := Merge(modeled, Filled(loaded, batch));
      && (forall c | c in batch :: IsModeled(r, c.signature))
      && (forall s | IsModeled(modeled, s) :: s in r && r[s] == modeled[s])
      && (forall s | !IsModeled(modeled, s) && s in loaded :: s in r && r[s] == loaded[s])
      && (forall s | !IsModeled(modeled, s) && s !in loaded && s in r ::
            exists c | c in batch :: c.signature == s && r[s] == [NeutralSink(c)])
  {
    hide Loaded, Filled, HasModel;
    var loaded := Loaded(extensions);
    var filled := Filled(loaded, batch);
    FilledIsComplete(loaded, batch);
    LoadedIsModeled(extensions);
    forall c | c in batch
      ensures IsModeled(Merge(modeled, filled), c.signature)
    {
      MemberSignature(batch, c);
      if c.signature !in loaded {
        var d :| d in batch && d.signature == c.signature && filled[c.signature] == [NeutralSink(d)];
        NeutralIsAModel(d);
      }
    }
  }

  /** What such a candidate gets: a neutral sink model for the method that it is, marked as generated.  It keeps its
      signature when it is saved and loaded if and only if the signature of the candidate belongs to its parts. */
  lemma NeutralSinkIs(c: Method)
    ensures var m := NeutralSink(c);
      && m.modelType == Neutral && m.kind == Str("sink") && m.provenance == Str("ai-generated")
      && m.input == Str("") && m.output == Str("") && m.signature == c.signature
      && m.packageName == Str(c.packageName) && m.typeName == Str(c.typeName)
      && m.methodName == Str(c.methodName) && m.methodParameters == Str(c.methodParameters)
      && (Normalize(m) == m <==>
            c.signature == c.packageName + "." + c.typeName + "#" + c.methodName + c.methodParameters)
  {
    SignatureIsSpelled(c.packageName, c.typeName, c.methodName, c.methodParameters);
  }

  lemma NeutralIsAModel(c: Method)
    ensures HasModel([NeutralSink(c)])
  {
    assert [NeutralSink(c)][0].modelType != NoType;
  }
}
